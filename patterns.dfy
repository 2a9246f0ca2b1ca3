/**
 * The e-mail and phone regular expressions shared by src/services/validation.ts
 * and src/hooks/useFormValidation.ts, written out as character tests:
 *
 *   e-mail: local part of [A-Z0-9._%+-], one '@', a domain of [A-Z0-9.-], a
 *           dot and at least two letters, case-insensitively;
 *   phone:  ten digits with an optional "+C" / "+CC" / "+CCC" country code
 *           and optional '-' or ' ' after it; or "DDD", "DDD", "DDDD" with
 *           optional '-' or '.' between; or "(DDD)", optional whitespace,
 *           "DDD", optional '-' or '.', "DDDD".
 */
module Patterns {

  import opened JsText

  predicate IsLetter(c: char)
  {
    'a' <= c <= 'z' || 'A' <= c <= 'Z'
  }

  /** `[A-Z0-9._%+-]` with the `i` flag. */
  predicate IsLocalChar(c: char)
  {
    IsLetter(c) || IsDigit(c) || c == '.' || c == '_' || c == '%' || c == '+' || c == '-'
  }

  /** `[A-Z0-9.-]` with the `i` flag. */
  predicate IsDomainChar(c: char)
  {
    IsLetter(c) || IsDigit(c) || c == '.' || c == '-'
  }

  predicate AllLocal(s: string) { forall i :: 0 <= i < |s| ==> IsLocalChar(s[i]) }
  predicate AllDomain(s: string) { forall i :: 0 <= i < |s| ==> IsDomainChar(s[i]) }
  predicate AllLetters(s: string) { forall i :: 0 <= i < |s| ==> IsLetter(s[i]) }

  /** `[A-Z0-9.-]+\.[A-Z]{2,}`: some dot splits the domain into a name and a top-level part. */
  predicate IsEmailDomain(d: string)
  {
    exists k :: 0 < k < |d| && d[k] == '.' && AllDomain(d[..k]) && |d| - k - 1 >= 2 && AllLetters(d[k + 1..])
  }

  /** `/^[A-Z0-9._%+-]+@[A-Z0-9.-]+\.[A-Z]{2,}$/i.test(s)`. */
  predicate IsEmail(s: string)
  {
    exists at :: 0 < at < |s| && s[at] == '@' && AllLocal(s[..at]) && IsEmailDomain(s[at + 1..])
  }

  /** `n` digits starting at `i`. */
  predicate DigitsAt(s: string, i: int, n: int)
  {
    0 <= i && 0 <= n && i + n <= |s| && forall j :: i <= j < i + n ==> IsDigit(s[j])
  }

  /** Exactly ten digits from `i` to the end. */
  predicate TenDigitsFrom(s: string, i: int)
  {
    |s| - i == 10 && DigitsAt(s, i, 10)
  }

  /** `^(\+\d{1,3}[- ]?)?\d{10}$`. */
  predicate IsPlainPhone(s: string)
  {
    TenDigitsFrom(s, 0)
    || (|s| > 0 && s[0] == '+'
        && exists n :: 1 <= n <= 3 && DigitsAt(s, 1, n)
             && (TenDigitsFrom(s, 1 + n) || (1 + n < |s| && (s[1 + n] == '-' || s[1 + n] == ' ') && TenDigitsFrom(s, 2 + n))))
  }

  /** An optional separator of width `w` (0 or 1) at `i`, one of `seps`. */
  predicate OptionalSeparator(s: string, i: int, w: int, seps: set<char>)
  {
    (w == 0 || w == 1) && 0 <= i && (w == 1 ==> i < |s| && s[i] in seps)
  }

  /** `\d{3}[-.]?\d{3}[-.]?\d{4}` with separator widths `a` and `b`. */
  predicate GroupedAs(s: string, a: int, b: int)
  {
    |s| == 10 + a + b
    && DigitsAt(s, 0, 3) && OptionalSeparator(s, 3, a, {'-', '.'})
    && DigitsAt(s, 3 + a, 3) && OptionalSeparator(s, 6 + a, b, {'-', '.'})
    && DigitsAt(s, 6 + a + b, 4)
  }

  /** `^\d{3}[-.]?\d{3}[-.]?\d{4}$`: each separator present or not. */
  predicate IsGroupedPhone(s: string)
  {
    GroupedAs(s, 0, 0) || GroupedAs(s, 0, 1) || GroupedAs(s, 1, 0) || GroupedAs(s, 1, 1)
  }

  /** `\(\d{3}\)\s?\d{3}[-.]?\d{4}` with the space's width `a` and the separator's width `b`. */
  predicate BracketedAs(s: string, a: int, b: int)
  {
    (a == 0 || a == 1) && (b == 0 || b == 1) && |s| == 12 + a + b
    && s[0] == '(' && DigitsAt(s, 1, 3) && s[4] == ')'
    && (a == 1 ==> IsJsSpace(s[5]))
    && DigitsAt(s, 5 + a, 3) && OptionalSeparator(s, 8 + a, b, {'-', '.'})
    && DigitsAt(s, 8 + a + b, 4)
  }

  /** `^\(\d{3}\)\s?\d{3}[-.]?\d{4}$`. */
  predicate IsBracketedPhone(s: string)
  {
    BracketedAs(s, 0, 0) || BracketedAs(s, 0, 1) || BracketedAs(s, 1, 0) || BracketedAs(s, 1, 1)
  }

  /** The phone pattern: any of its three alternatives. */
  predicate IsPhone(s: string)
  {
    IsPlainPhone(s) || IsGroupedPhone(s) || IsBracketedPhone(s)
  }

  /** No character of a matched domain is an '@'. */
  lemma DomainHasNoAt(d: string)
    requires IsEmailDomain(d)
    ensures forall i :: 0 <= i < |d| ==> d[i] != '@'
  {
    var k :| 0 < k < |d| && d[k] == '.' && AllDomain(d[..k]) && |d| - k - 1 >= 2 && AllLetters(d[k + 1..]);
    forall i | 0 <= i < |d|
      ensures d[i] != '@'
    {
      if i < k {
        assert d[..k][i] == d[i];
      } else if i > k {
        assert d[k + 1..][i - k - 1] == d[i];
      }
    }
  }

  /** No character of a local part is an '@'. */
  lemma LocalHasNoAt(l: string)
    requires AllLocal(l)
    ensures forall i :: 0 <= i < |l| ==> l[i] != '@'
  {
  }

  /** In an address split at `at`, every '@' is the one at `at`. */
  lemma OnlyAtSplit(s: string, at: int)
    requires 0 < at < |s| && s[at] == '@' && AllLocal(s[..at]) && IsEmailDomain(s[at + 1..])
    ensures forall p :: 0 <= p < |s| && s[p] == '@' ==> p == at
  {
    var l, d := s[..at], s[at + 1..];
    LocalHasNoAt(l);
    DomainHasNoAt(d);
  }

  /** A matched address has exactly one '@': neither side's class holds it. */
  lemma EmailHasOneAt(s: string, i: int, j: int)
    requires IsEmail(s)
    requires 0 <= i < j < |s| && s[i] == '@'
    ensures s[j] != '@'
  {
    var at :| 0 < at < |s| && s[at] == '@' && AllLocal(s[..at]) && IsEmailDomain(s[at + 1..]);
    OnlyAtSplit(s, at);
  }

  /** Every phone the pattern accepts is 10 to 15 characters long. */
  lemma PhoneLengthBounds(s: string)
    requires IsPhone(s)
    ensures 10 <= |s| <= 15
  {
  }

  /** A plain sample address is accepted. */
  lemma EmailAccepted()
    ensures IsEmail("jo@mail.co")
  {
    var s := "jo@mail.co";
    var d := s[3..];
    assert d[4] == '.' && AllDomain(d[..4]) && AllLetters(d[5..]);
    assert IsEmailDomain(d);
    assert AllLocal(s[..2]);
  }

  /** A one-letter top-level part is refused. */
  lemma EmailShortTopLevelRefused()
    ensures !IsEmail("jo@mail.c")
  {
    var t := "jo@mail.c";
    forall at | 0 < at < |t| && t[at] == '@'
      ensures !IsEmailDomain(t[at + 1..])
    {
      assert at == 2;
      var e := t[3..];
      assert e == "mail.c";
      forall k | 0 < k < |e| && e[k] == '.'
        ensures |e| - k - 1 < 2
      {
        assert k == 4;
      }
    }
  }

  /** An address without '@' is refused. */
  lemma EmailWithoutAtRefused()
    ensures !IsEmail("jo.mail.com")
  {
    var u := "jo.mail.com";
    assert forall at :: 0 <= at < |u| ==> u[at] != '@';
  }

  /** Ten digits alone match the first alternative. */
  lemma PlainPhoneAccepted()
    ensures IsPhone("5551234567")
  {
    assert TenDigitsFrom("5551234567", 0);
  }

  /** A country code and a space before ten digits match the first alternative. */
  lemma CountryCodePhoneAccepted()
    ensures IsPhone("+1 5551234567")
  {
    var p := "+1 5551234567";
    assert DigitsAt(p, 1, 1) && p[2] == ' ' && TenDigitsFrom(p, 3);
    assert IsPlainPhone(p);
  }

  /** Dashed groups match the second alternative. */
  lemma GroupedPhoneAccepted()
    ensures IsPhone("555-123-4567")
  {
    assert GroupedAs("555-123-4567", 1, 1);
  }

  /** A bracketed area code, a space and a dash match the third alternative. */
  lemma BracketedPhoneAccepted()
    ensures IsPhone("(555) 123-4567")
  {
    assert BracketedAs("(555) 123-4567", 1, 1);
  }

  /** A seven-digit local number matches none of the alternatives. */
  lemma ShortPhoneRefused()
    ensures !IsPhone("555-1234")
  {
  }
}
