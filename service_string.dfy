/**
 * `parseServiceString` of src/components/booking/BookingSystem.tsx, which
 * turns the services of a stored appointment, a string such as
 * "(3) Threading-Eyebrow Facial-Anti-Aging Lashes-Volume Set", back into
 * treatments of the catalogue: drop the "(N) " count, split at spaces, cut
 * each token at its first '-' into a category name and a treatment name, and
 * keep the tokens that name a treatment.
 *
 * Splitting at every space cuts a treatment whose name holds a space
 * ("Volume Set") into two tokens, neither of which names anything, so such a
 * treatment can never come back. `CorrectedServices` glues a word that does
 * not start a "Category-" token to the token before it, and gives back every
 * list of treatments written in this format.
 */
module ServiceString {

  import opened Wrappers
  import opened JsText
  import opened Domain
  import opened TimeFormat
  import opened Utils
  import Constants

  /** The `serviceType` argument: treatments already parsed, a string, or anything else. */
  datatype ServiceInput = Parsed(services: seq<SubService>) | Text(s: string) | Other

  /** `mainServices.find(ms => ms.id === id)`. */
  function MainServiceOf(catalogue: seq<MainService>, id: int): (r: Option<MainService>)
    ensures r.Some? ==> r.value in catalogue && r.value.id == id
    ensures r.None? <==> forall m :: m in catalogue ==> m.id != id
  {
    if catalogue == [] then None
    else if catalogue[0].id == id then Some(catalogue[0])
    else MainServiceOf(catalogue[1..], id)
  }

  /** A category that is found gives its name to the `|| ''` lookup. */
  lemma {:induction false} CategoryNameFound(catalogue: seq<MainService>, id: int)
    requires MainServiceOf(catalogue, id).Some?
    ensures CategoryName(catalogue, id) == MainServiceOf(catalogue, id).value.name
  {
    if catalogue[0].id != id {
      CategoryNameFound(catalogue[1..], id);
    }
  }

  /** The treatment's category is found and carries the name `main`. */
  predicate Named(catalogue: seq<MainService>, x: SubService, main: string)
  {
    var m := MainServiceOf(catalogue, x.mainServiceId);
    m.Some? && m.value.name == main
  }

  /** `subServices.find(...)`: the first treatment with the given category name and name. */
  function FindService(catalogue: seq<MainService>, subs: seq<SubService>, main: string, sub: string)
    : (r: Option<SubService>)
    ensures r.Some? ==> r.value in subs && r.value.name == sub && Named(catalogue, r.value, main)
    ensures r.None? ==> forall x :: x in subs ==> !(x.name == sub && Named(catalogue, x, main))
  {
    if subs == [] then None
    else if subs[0].name == sub && Named(catalogue, subs[0], main) then Some(subs[0])
    else FindService(catalogue, subs[1..], main, sub)
  }

  /** `serviceType.replace(/^\(\d+\)\s*​/, '')`. */
  function StripCountPrefix(s: string): string
  {
    if s != [] && s[0] == '(' then
      var d := LeadingDigits(s[1..]);
      if |d| >= 1 && 1 + |d| < |s| && s[1 + |d|] == ')' then TrimStart(s[2 + |d|..]) else s
    else s
  }

  /** `[main, ...rest] = token.split('-')` and `rest.join('-')`: the token cut at its first '-'. */
  function CutAtDash(token: string): (string, string)
  {
    var parts := Split(token, '-');
    (parts[0], Join(parts[1..], '-'))
  }

  /** The treatment one token names, as a list of at most one. */
  function MatchOne(catalogue: seq<MainService>, subs: seq<SubService>, token: string): (r: seq<SubService>)
    ensures |r| <= 1 && forall x :: x in r ==> x in subs
  {
    var cut := CutAtDash(token);
    var found := FindService(catalogue, subs, cut.0, cut.1);
    if found.Some? then [found.value] else []
  }

  /** The treatments the tokens name, in token order; a token naming none is dropped. */
  function MatchTokens(catalogue: seq<MainService>, subs: seq<SubService>, tokens: seq<string>)
    : (r: seq<SubService>)
    ensures |r| <= |tokens|
    ensures forall x :: x in r ==> x in subs
  {
    if tokens == [] then []
    else
      MatchTokens(catalogue, subs, tokens[..|tokens| - 1]) + MatchOne(catalogue, subs, tokens[|tokens| - 1])
  }

  /** Matching one more token appends what that token names. */
  lemma MatchTokensStep(catalogue: seq<MainService>, subs: seq<SubService>, tokens: seq<string>, i: nat)
    requires i < |tokens|
    ensures MatchTokens(catalogue, subs, tokens[..i + 1])
         == MatchTokens(catalogue, subs, tokens[..i]) + MatchOne(catalogue, subs, tokens[i])
  {
    assert tokens[..i + 1][..i] == tokens[..i];
  }

  /** The space-separated tokens after the count. */
  function Tokens(s: string): seq<string>
  {
    Split(StripCountPrefix(s), ' ')
  }

  /** What `parseServiceString` returns. */
  function ParsedServices(input: ServiceInput, catalogue: seq<MainService>, subs: seq<SubService>)
    : (r: seq<SubService>)
    ensures input.Parsed? ==> r == input.services
    ensures input.Other? ==> r == []
    ensures input.Text? ==> |r| <= |Tokens(input.s)| && forall x :: x in r ==> x in subs
  {
    match input
    case Parsed(services) => services
    case Text(s) => MatchTokens(catalogue, subs, Tokens(s))
    case Other => []
  }

  /**
   * `parseServiceString`: a non-empty parsed list comes back as it is, a
   * string is matched token by token into an accumulator, anything else
   * gives the empty list.
   */
  method ParseServiceString(input: ServiceInput, catalogue: seq<MainService>, subs: seq<SubService>)
    returns (result: seq<SubService>)
    ensures result == ParsedServices(input, catalogue, subs)
  {
    if input.Parsed? && |input.services| > 0 {
      return input.services;
    }
    if !input.Text? {
      return [];
    }
    var tokens := Tokens(input.s);
    result := [];
    var i := 0;
    while i < |tokens|
      invariant 0 <= i <= |tokens|
      invariant result == MatchTokens(catalogue, subs, tokens[..i])
    {
      var cut := CutAtDash(tokens[i]);
      var matching := FindService(catalogue, subs, cut.0, cut.1);
      if matching.Some? {
        result := result + [matching.value];
      }
      MatchTokensStep(catalogue, subs, tokens, i);
      i := i + 1;
    }
    assert tokens[..i] == tokens;
  }

  // ---------------------------------------------------------------------------
  // As written: a treatment whose name holds a space never comes back.

  /** No part of a split holds the separator, and every character of a part is one of the string's. */
  lemma {:induction false} SplitPartsWithin(s: string, c: char)
    ensures forall p, ch :: p in Split(s, c) && ch in p ==> ch in s && ch != c
  {
    if s != [] {
      SplitPartsWithin(s[1..], c);
      var rest := Split(s[1..], c);
      if s[0] != c {
        forall p, ch | p in Split(s, c) && ch in p
          ensures ch in s && ch != c
        {
          if p == [s[0]] + rest[0] {
            assert rest[0] in rest;
            if ch != s[0] {
              assert ch in rest[0];
            }
          } else {
            assert p in rest[1..];
            assert p in rest;
          }
        }
      }
    }
  }

  /** Every character of a join is the separator or a character of a part. */
  lemma {:induction false} JoinWithin(parts: seq<string>, c: char, ch: char)
    requires ch in Join(parts, c) && ch != c
    ensures exists p :: p in parts && ch in p
  {
    if |parts| == 1 {
      assert parts[0] in parts;
    } else if |parts| >= 2 {
      if ch in parts[0] {
        assert parts[0] in parts;
      } else {
        JoinWithin(parts[1..], c, ch);
        var p :| p in parts[1..] && ch in p;
        assert p in parts;
      }
    }
  }

  /** A treatment name cut from a token without a space has no space. */
  lemma CutNameHasNoSpace(token: string)
    requires ' ' !in token
    ensures ' ' !in CutAtDash(token).1
  {
    var parts := Split(token, '-');
    SplitPartsWithin(token, '-');
    assert forall p :: p in parts[1..] ==> p in parts;
    if ' ' in Join(parts[1..], '-') {
      JoinWithin(parts[1..], '-', ' ');
    }
  }

  lemma {:induction false} MatchedNamesHaveNoSpace(catalogue: seq<MainService>, subs: seq<SubService>, tokens: seq<string>)
    requires forall t :: t in tokens ==> ' ' !in t
    ensures forall x :: x in MatchTokens(catalogue, subs, tokens) ==> ' ' !in x.name
  {
    if tokens != [] {
      var last := tokens[|tokens| - 1];
      assert last in tokens;
      assert forall t :: t in tokens[..|tokens| - 1] ==> t in tokens;
      MatchedNamesHaveNoSpace(catalogue, subs, tokens[..|tokens| - 1]);
      CutNameHasNoSpace(last);
    }
  }

  /** Whatever the string, no treatment whose name holds a space is parsed from it. */
  lemma NoSpacedNameParsed(s: string, catalogue: seq<MainService>, subs: seq<SubService>)
    ensures forall x :: x in ParsedServices(Text(s), catalogue, subs) ==> ' ' !in x.name
  {
    SplitPartsWithin(StripCountPrefix(s), ' ');
    MatchedNamesHaveNoSpace(catalogue, subs, Tokens(s));
  }

  /** "Lashes-Volume Set" of the catalogue never comes back, from any string. */
  lemma VolumeSetNeverParsed(s: string)
    ensures Constants.VolumeSet !in ParsedServices(Text(s), Constants.MainServices, Constants.SubServices)
  {
    assert Constants.VolumeSet.name[6] == ' ';
    NoSpacedNameParsed(s, Constants.MainServices, Constants.SubServices);
  }

  // ---------------------------------------------------------------------------
  // The format, and the corrected parser that reads it back.

  /** "Category-Treatment". */
  function ServiceToken(catalogue: seq<MainService>, x: SubService): string
  {
    CategoryOf(catalogue, x) + "-" + x.name
  }

  function ServiceTokens(catalogue: seq<MainService>, services: seq<SubService>): (r: seq<string>)
    ensures |r| == |services|
    ensures forall i :: 0 <= i < |r| ==> r[i] == ServiceToken(catalogue, services[i])
  {
    seq(|services|, i requires 0 <= i < |services| => ServiceToken(catalogue, services[i]))
  }

  /** "(N) Category-Treatment Category-Treatment ...", the format the parser reads. */
  function FormatServiceString(catalogue: seq<MainService>, services: seq<SubService>): string
  {
    "(" + NatToString(|services|) + ") " + Join(ServiceTokens(catalogue, services), ' ')
  }

  /** The word opens a token: its part before the first '-' is a category name. */
  predicate StartsToken(catalogue: seq<MainService>, w: string)
  {
    var parts := Split(w, '-');
    |parts| >= 2 && exists m :: m in catalogue && m.name == parts[0]
  }

  /** Words glued back into tokens: a word that does not open a token continues the one before it. */
  function Regroup(catalogue: seq<MainService>, words: seq<string>): (r: seq<string>)
    ensures |r| <= |words|
    ensures words != [] ==> r != []
  {
    if words == [] then []
    else
      var init := Regroup(catalogue, words[..|words| - 1]);
      var w := words[|words| - 1];
      if init == [] || StartsToken(catalogue, w) then init + [w]
      else init[..|init| - 1] + [init[|init| - 1] + " " + w]
  }

  /** The corrected parser: as written, with the words regrouped before matching. */
  function CorrectedServices(input: ServiceInput, catalogue: seq<MainService>, subs: seq<SubService>)
    : (r: seq<SubService>)
    ensures input.Parsed? ==> r == input.services
    ensures input.Other? ==> r == []
    ensures forall x :: x in r && input.Text? ==> x in subs
  {
    match input
    case Parsed(services) => services
    case Text(s) => MatchTokens(catalogue, subs, Regroup(catalogue, Tokens(s)))
    case Other => []
  }

  /** A category name that survives the format: not empty, no '-', no white space. */
  predicate PlainName(name: string)
  {
    name != "" && '-' !in name && forall i :: 0 <= i < |name| ==> !IsJsSpace(name[i])
  }

  /**
   * A catalogue the format can carry: plain category names; every treatment
   * has a category, is the first of its category with its name, and no word
   * after the first of its name opens a token.
   */
  predicate WellFormed(catalogue: seq<MainService>, subs: seq<SubService>)
  {
    && (forall m :: m in catalogue ==> PlainName(m.name))
    && (forall x :: x in subs ==>
          && MainServiceOf(catalogue, x.mainServiceId).Some?
          && FindService(catalogue, subs, CategoryOf(catalogue, x), x.name) == Some(x)
          && var words := Split(x.name, ' ');
             forall j :: 1 <= j < |words| ==> !StartsToken(catalogue, words[j]))
  }

  /** Splitting around one separator splits each side. */
  lemma {:induction false} SplitConcat(a: string, b: string, c: char)
    ensures Split(a + [c] + b, c) == Split(a, c) + Split(b, c)
  {
    var s := a + [c] + b;
    if a == [] {
      assert s == [c] + b && s[1..] == b;
    } else {
      assert s[0] == a[0] && s[1..] == a[1..] + [c] + b;
      SplitConcat(a[1..], b, c);
      var tail, right := Split(a[1..], c), Split(b, c);
      if a[0] == c {
        AppendAssoc([""], tail, right);
      } else {
        assert (tail + right)[0] == tail[0] && (tail + right)[1..] == tail[1..] + right;
        AppendAssoc([[a[0]] + tail[0]], tail[1..], right);
      }
    }
  }

  /** Splitting `a + b` where `a` has no separator glues `a` to the first part of `b`. */
  lemma {:induction false} SplitFreePrefix(a: string, b: string, c: char)
    requires c !in a
    ensures Split(a + b, c) == [a + Split(b, c)[0]] + Split(b, c)[1..]
  {
    if a != [] {
      var s := a + b;
      assert s[0] == a[0] && s[1..] == a[1..] + b;
      assert c !in a[1..];
      SplitFreePrefix(a[1..], b, c);
      assert [a[0]] + (a[1..] + Split(b, c)[0]) == a + Split(b, c)[0];
    } else {
      var parts := Split(b, c);
      assert a + b == b && a + parts[0] == parts[0];
      assert [parts[0]] + parts[1..] == parts;
    }
  }

  /** The words of the tokens, in order. */
  function Words(ts: seq<string>, c: char): seq<string>
  {
    if ts == [] then [] else Split(ts[0], c) + Words(ts[1..], c)
  }

  lemma {:induction false} SplitJoin(ts: seq<string>, c: char)
    requires |ts| >= 1
    ensures Split(Join(ts, c), c) == Words(ts, c)
  {
    if |ts| >= 2 {
      SplitJoin(ts[1..], c);
      SplitConcat(ts[0], Join(ts[1..], c), c);
      assert Words(ts[1..], c) == Split(Join(ts[1..], c), c);
    }
  }

  lemma {:induction false} WordsSnoc(ts: seq<string>, t: string, c: char)
    ensures Words(ts + [t], c) == Words(ts, c) + Split(t, c)
  {
    if ts == [] {
      assert ts + [t] == [t];
    } else {
      assert (ts + [t])[0] == ts[0] && (ts + [t])[1..] == ts[1..] + [t];
      WordsSnoc(ts[1..], t, c);
    }
  }

  lemma {:induction false} JoinSnoc(xs: seq<string>, y: string, c: char)
    requires |xs| >= 1
    ensures Join(xs + [y], c) == Join(xs, c) + [c] + y
  {
    if |xs| >= 2 {
      assert (xs + [y])[0] == xs[0] && (xs + [y])[1..] == xs[1..] + [y];
      JoinSnoc(xs[1..], y, c);
    } else {
      assert (xs + [y])[1..] == [y];
    }
  }

  /** The token opens with a word that starts a token, and no later word starts one. */
  predicate TokenShaped(catalogue: seq<MainService>, t: string)
  {
    var words := Split(t, ' ');
    StartsToken(catalogue, words[0]) && forall j :: 1 <= j < |words| ==> !StartsToken(catalogue, words[j])
  }

  lemma {:induction false} RegroupPrefix(catalogue: seq<MainService>, ws: seq<string>, words: seq<string>, k: nat)
    requires 1 <= k <= |words|
    requires StartsToken(catalogue, words[0])
    requires forall j :: 1 <= j < |words| ==> !StartsToken(catalogue, words[j])
    ensures Regroup(catalogue, ws + words[..k]) == Regroup(catalogue, ws) + [Join(words[..k], ' ')]
  {
    var w := words[k - 1];
    if k == 1 {
      assert ws + words[..1] == ws + [w] && words[..1] == [w];
      RegroupOpen(catalogue, ws, w);
    } else {
      RegroupPrefix(catalogue, ws, words, k - 1);
      AppendTakeSnoc(ws, words, k);
      RegroupGlue(catalogue, ws + words[..k - 1], w, Regroup(catalogue, ws), Join(words[..k - 1], ' '));
      JoinSnoc(words[..k - 1], w, ' ');
    }
  }

  /** A word that starts a token opens a new one. */
  lemma RegroupOpen(catalogue: seq<MainService>, ws: seq<string>, w: string)
    requires StartsToken(catalogue, w)
    ensures Regroup(catalogue, ws + [w]) == Regroup(catalogue, ws) + [w]
  {
    assert (ws + [w])[..|ws|] == ws;
  }

  /** A word that does not start a token is glued to the last one with a space. */
  lemma RegroupGlue(catalogue: seq<MainService>, ws: seq<string>, w: string, front: seq<string>, last: string)
    requires Regroup(catalogue, ws) == front + [last] && !StartsToken(catalogue, w)
    ensures Regroup(catalogue, ws + [w]) == front + [last + " " + w]
  {
    var init := front + [last];
    assert (ws + [w])[..|ws|] == ws;
    assert init[..|init| - 1] == front;
  }

  lemma RegroupToken(catalogue: seq<MainService>, ws: seq<string>, t: string)
    requires TokenShaped(catalogue, t)
    ensures Regroup(catalogue, ws + Split(t, ' ')) == Regroup(catalogue, ws) + [t]
  {
    var words := Split(t, ' ');
    RegroupPrefix(catalogue, ws, words, |words|);
    assert words[..|words|] == words;
    JoinSplit(t, ' ');
  }

  lemma {:induction false} RegroupWords(catalogue: seq<MainService>, ts: seq<string>)
    requires forall t :: t in ts ==> TokenShaped(catalogue, t)
    ensures Regroup(catalogue, Words(ts, ' ')) == ts
  {
    if ts != [] {
      var init, last := ts[..|ts| - 1], ts[|ts| - 1];
      assert ts == init + [last];
      assert last in ts;
      assert forall t :: t in init ==> t in ts;
      WordsSnoc(init, last, ' ');
      RegroupWords(catalogue, init);
      RegroupToken(catalogue, Words(init, ' '), last);
    }
  }

  /** The token of a catalogue treatment has the token shape and cuts back into its two names. */
  lemma ServiceTokenShape(catalogue: seq<MainService>, subs: seq<SubService>, x: SubService)
    requires WellFormed(catalogue, subs) && x in subs
    ensures TokenShaped(catalogue, ServiceToken(catalogue, x))
    ensures CutAtDash(ServiceToken(catalogue, x)) == (CategoryOf(catalogue, x), x.name)
  {
    var m := MainServiceOf(catalogue, x.mainServiceId).value;
    CategoryNameFound(catalogue, x.mainServiceId);
    TokenWords(catalogue, m, x.name);
    TokenCut(m.name, x.name);
  }

  /** "Category-Treatment" opens with a word that starts a token, and no later word starts one. */
  lemma TokenWords(catalogue: seq<MainService>, m: MainService, name: string)
    requires m in catalogue && PlainName(m.name)
    requires var nameWords := Split(name, ' ');
             forall j :: 1 <= j < |nameWords| ==> !StartsToken(catalogue, nameWords[j])
    ensures TokenShaped(catalogue, m.name + "-" + name)
  {
    var nameWords := Split(name, ' ');
    CategoryDashHasNoSpace(m.name);
    SplitFreePrefix(m.name + "-", name, ' ');
    FirstWordStarts(catalogue, m, nameWords[0]);
    SameTail(Split(m.name + "-" + name, ' '), m.name + "-" + nameWords[0], nameWords);
  }

  lemma CategoryDashHasNoSpace(main: string)
    requires PlainName(main)
    ensures ' ' !in main + "-"
  {
    forall i | 0 <= i < |main| ensures main[i] != ' ' {
      assert !IsJsSpace(main[i]);
    }
  }

  /** A category name, a '-' and a word make a word that starts a token. */
  lemma FirstWordStarts(catalogue: seq<MainService>, m: MainService, w: string)
    requires m in catalogue && PlainName(m.name)
    ensures StartsToken(catalogue, m.name + "-" + w)
  {
    SplitAfterFirst(m.name, w, '-');
    assert m.name + "-" + w == m.name + ['-'] + w;
  }

  /** "Category-Treatment" cuts at its first '-' back into the two names. */
  lemma TokenCut(main: string, name: string)
    requires PlainName(main)
    ensures CutAtDash(main + "-" + name) == (main, name)
  {
    var t := main + "-" + name;
    SplitAfterFirst(main, name, '-');
    assert t == main + ['-'] + name;
    JoinSplit(name, '-');
    assert Split(t, '-')[1..] == Split(name, '-');
  }

  /** The token of a catalogue treatment names that treatment. */
  lemma ServiceMatchesItself(catalogue: seq<MainService>, subs: seq<SubService>, x: SubService)
    requires WellFormed(catalogue, subs) && x in subs
    ensures MatchOne(catalogue, subs, ServiceToken(catalogue, x)) == [x]
  {
    ServiceTokenShape(catalogue, subs, x);
  }

  /** Tokens that each name one treatment are matched to exactly those treatments, in order. */
  lemma {:induction false} MatchEachToken(catalogue: seq<MainService>, subs: seq<SubService>, tokens: seq<string>, services: seq<SubService>)
    requires |tokens| == |services|
    requires forall i :: 0 <= i < |tokens| ==> MatchOne(catalogue, subs, tokens[i]) == [services[i]]
    ensures MatchTokens(catalogue, subs, tokens) == services
  {
    if tokens != [] {
      var n := |tokens|;
      var initTokens, initServices := tokens[..n - 1], services[..n - 1];
      forall i | 0 <= i < n - 1
        ensures MatchOne(catalogue, subs, initTokens[i]) == [initServices[i]]
      {
        assert initTokens[i] == tokens[i] && initServices[i] == services[i];
      }
      MatchEachToken(catalogue, subs, initTokens, initServices);
      LastSplit(services);
    }
  }

  /** Dropping the count of a formatted string leaves the tokens. */
  lemma StripFormatted(n: nat, rest: string)
    requires rest == [] || !IsJsSpace(rest[0])
    ensures StripCountPrefix("(" + NatToString(n) + ") " + rest) == rest
  {
    var d := NatToString(n);
    var s := "(" + d + ") " + rest;
    assert s[1..] == d + (") " + rest);
    LeadingDigitsOf(d, ") " + rest);
    assert (") " + rest)[0] == ')';
    assert LeadingDigits(s[1..]) == d && |d| >= 1;
    assert s[1 + |d|] == ')' && 1 + |d| < |s|;
    assert s[2 + |d|..] == " " + rest;
    assert StripCountPrefix(s) == TrimStart(" " + rest);
    assert IsJsSpace(' ') && (" " + rest)[1..] == rest;
    assert TrimStart(" " + rest) == TrimStart(rest);
    assert TrimStart(rest) == rest;
  }

  /** The corrected parser reads back every list of catalogue treatments written in the format. */
  lemma CorrectedRoundTrip(catalogue: seq<MainService>, subs: seq<SubService>, services: seq<SubService>)
    requires WellFormed(catalogue, subs)
    requires forall x :: x in services ==> x in subs
    ensures CorrectedServices(Text(FormatServiceString(catalogue, services)), catalogue, subs) == services
  {
    if services == [] {
      EmptyRoundTrip(catalogue, subs);
    } else {
      var tokens := ServiceTokens(catalogue, services);
      FormattedWords(catalogue, subs, services);
      TokensOfCatalogue(catalogue, subs, services);
      RegroupWords(catalogue, tokens);
      MatchEachToken(catalogue, subs, tokens, services);
    }
  }

  /** The empty list is written "(0) " and read back as nothing. */
  lemma EmptyRoundTrip(catalogue: seq<MainService>, subs: seq<SubService>)
    requires WellFormed(catalogue, subs)
    ensures CorrectedServices(Text(FormatServiceString(catalogue, [])), catalogue, subs) == []
  {
    StripFormatted(0, "");
    assert FormatServiceString(catalogue, []) == "(" + NatToString(0) + ") " + "";
    assert Tokens(FormatServiceString(catalogue, [])) == [""];
    assert Split("", '-') == [""];
    assert FindService(catalogue, subs, "", "").None?;
  }

  /** The words of a formatted non-empty list are the words of its tokens. */
  lemma FormattedWords(catalogue: seq<MainService>, subs: seq<SubService>, services: seq<SubService>)
    requires WellFormed(catalogue, subs)
    requires forall x :: x in services ==> x in subs
    requires services != []
    ensures Tokens(FormatServiceString(catalogue, services)) == Words(ServiceTokens(catalogue, services), ' ')
  {
    var tokens := ServiceTokens(catalogue, services);
    var joined := Join(tokens, ' ');
    var x := services[0];
    assert x in services;
    var main := CategoryOf(catalogue, x);
    CategoryNameFound(catalogue, x.mainServiceId);
    assert MainServiceOf(catalogue, x.mainServiceId).value in catalogue;
    assert tokens[0] == main + "-" + x.name && joined[..|tokens[0]|] == tokens[0] by {
      if |tokens| >= 2 {
        assert joined == tokens[0] + ([' '] + Join(tokens[1..], ' '));
      }
    }
    assert joined[0] == main[0];
    StripFormatted(|services|, joined);
    SplitJoin(tokens, ' ');
  }

  /** The tokens of catalogue treatments have the token shape and name their treatments. */
  lemma TokensOfCatalogue(catalogue: seq<MainService>, subs: seq<SubService>, services: seq<SubService>)
    requires WellFormed(catalogue, subs)
    requires forall x :: x in services ==> x in subs
    ensures forall t :: t in ServiceTokens(catalogue, services) ==> TokenShaped(catalogue, t)
    ensures forall i :: 0 <= i < |services| ==>
              MatchOne(catalogue, subs, ServiceTokens(catalogue, services)[i]) == [services[i]]
  {
    var tokens := ServiceTokens(catalogue, services);
    forall i | 0 <= i < |tokens|
      ensures TokenShaped(catalogue, tokens[i]) && MatchOne(catalogue, subs, tokens[i]) == [services[i]]
    {
      assert services[i] in services;
      ServiceTokenShape(catalogue, subs, services[i]);
    }
  }

  // ---------------------------------------------------------------------------
  // The shipped catalogue.

  /** Latin letters are neither white space nor '-'. */
  lemma LettersPlain(name: string)
    requires name != "" && forall i :: 0 <= i < |name| ==> 'A' <= name[i] <= 'z'
    ensures PlainName(name)
  {
    forall i | 0 <= i < |name|
      ensures name[i] != '-' && !IsJsSpace(name[i])
    {
    }
  }

  lemma CatalogueNamesPlain()
    ensures forall m :: m in Constants.MainServices ==> PlainName(m.name)
  {
    LettersPlain(Constants.Threading.name);
    LettersPlain(Constants.Facial.name);
    LettersPlain(Constants.Lashes.name);
  }

  /** No word of a treatment name after the first opens a token, when none of them holds a '-'. */
  lemma LaterWordsPlain(catalogue: seq<MainService>, name: string)
    requires '-' !in name
    ensures var words := Split(name, ' ');
            forall j :: 1 <= j < |words| ==> !StartsToken(catalogue, words[j])
  {
    var words := Split(name, ' ');
    SplitPartsWithin(name, ' ');
    forall j | 1 <= j < |words|
      ensures !StartsToken(catalogue, words[j])
    {
      assert words[j] in words;
      SplitWithout(words[j], '-');
    }
  }

  /** The category of the treatment at `k` of the shipped catalogue is the category at `k / 2`. */
  lemma ShippedCategory(k: nat)
    requires k < 6
    ensures MainServiceOf(Constants.MainServices, Constants.SubServices[k].mainServiceId) == Some(Constants.MainServices[k / 2])
    ensures CategoryOf(Constants.MainServices, Constants.SubServices[k]) == Constants.MainServices[k / 2].name
  {
    var cat, x := Constants.MainServices, Constants.SubServices[k];
    assert x.mainServiceId == cat[k / 2].id;
    CategoryNameFound(cat, x.mainServiceId);
  }

  /** The treatment names of the shipped catalogue start with six different letters. */
  lemma ShippedNamesDistinct(j: nat, k: nat)
    requires j < k < 6
    ensures Constants.SubServices[j].name != Constants.SubServices[k].name
  {
    assert Constants.SubServices[j].name[0] != Constants.SubServices[k].name[0];
  }

  /** Each treatment of the shipped catalogue is the first with its category name and name. */
  lemma CatalogueFind(k: nat)
    requires k < 6
    ensures var x := Constants.SubServices[k];
            && MainServiceOf(Constants.MainServices, x.mainServiceId).Some?
            && FindService(Constants.MainServices, Constants.SubServices, CategoryOf(Constants.MainServices, x), x.name) == Some(x)
  {
    var cat, subs := Constants.MainServices, Constants.SubServices;
    ShippedCategory(k);
    var main, name := CategoryOf(cat, subs[k]), subs[k].name;
    forall j | 0 <= j < k
      ensures !(subs[j].name == name && Named(cat, subs[j], main))
    {
      ShippedNamesDistinct(j, k);
    }
    FindFirst(cat, subs, main, name, k);
  }

  /** `find` returns the entry at `k` when it matches and none before it does. */
  lemma {:induction false} FindFirst(catalogue: seq<MainService>, subs: seq<SubService>, main: string, sub: string, k: nat)
    requires k < |subs| && subs[k].name == sub && Named(catalogue, subs[k], main)
    requires forall j :: 0 <= j < k ==> !(subs[j].name == sub && Named(catalogue, subs[j], main))
    ensures FindService(catalogue, subs, main, sub) == Some(subs[k])
  {
    if k > 0 {
      FindFirst(catalogue, subs[1..], main, sub, k - 1);
    }
  }

  lemma CatalogueWords(k: nat)
    requires k < 6
    ensures var words := Split(Constants.SubServices[k].name, ' ');
            forall j :: 1 <= j < |words| ==> !StartsToken(Constants.MainServices, words[j])
  {
    var x := Constants.SubServices[k];
    if k == 2 || k == 3 {
      assert x.name[0] != ' ' && ' ' !in x.name;
      SplitWithout(x.name, ' ');
    } else {
      assert '-' !in x.name;
      LaterWordsPlain(Constants.MainServices, x.name);
    }
  }

  /** The shipped catalogue can be written in the format and read back. */
  lemma CatalogueWellFormed()
    ensures WellFormed(Constants.MainServices, Constants.SubServices)
  {
    CatalogueNamesPlain();
    forall x | x in Constants.SubServices
      ensures && MainServiceOf(Constants.MainServices, x.mainServiceId).Some?
              && FindService(Constants.MainServices, Constants.SubServices, CategoryOf(Constants.MainServices, x), x.name) == Some(x)
              && var words := Split(x.name, ' ');
                 forall j :: 1 <= j < |words| ==> !StartsToken(Constants.MainServices, words[j])
    {
      var k :| 0 <= k < 6 && Constants.SubServices[k] == x;
      CatalogueFind(k);
      CatalogueWords(k);
    }
  }

  /** Three treatments of the shipped catalogue, one of them with a space in its name. */
  const SamplePick: seq<SubService> := [Constants.Eyebrow, Constants.AntiAging, Constants.VolumeSet]

  /**
   * The sample written in the format, "(3) Threading-Eyebrow
   * Facial-Anti-Aging Lashes-Volume Set": the as-written parser loses the
   * volume set, the corrected one gives all three back.
   */
  lemma SampleParse()
    ensures var text := FormatServiceString(Constants.MainServices, SamplePick);
            && Constants.VolumeSet !in ParsedServices(Text(text), Constants.MainServices, Constants.SubServices)
            && CorrectedServices(Text(text), Constants.MainServices, Constants.SubServices) == SamplePick
  {
    VolumeSetNeverParsed(FormatServiceString(Constants.MainServices, SamplePick));
    CatalogueWellFormed();
    CorrectedRoundTrip(Constants.MainServices, Constants.SubServices, SamplePick);
  }
}
