/**
 * The address check `/^[^\s@]+@[^\s@]+\.[^\s@]+$/` used by the booking
 * wizard's contact step and by the send-booking route: `IsValidEmail` scans
 * the string, `MatchesPattern` is what the regular expression matches, and
 * `IsValidEmailMatchesPattern` proves the two agree.
 */
module EmailAddress {
  import opened Ecma

  /** The class `[^\s@]`. */
  predicate IsAddressChar(c: char) {
    !IsWhitespace(c) && c != '@'
  }

  predicate AllAddressChars(s: string) {
    forall i :: 0 <= i < |s| ==> IsAddressChar(s[i])
  }

  /** `s` splits as `a@b.c` at positions `at` and `dot`, with `a`, `b` and `c`
      non-empty runs of the class `[^\s@]`. */
  predicate SplitsAt(s: string, at: int, dot: int) {
    && 0 < at && at + 1 < dot && dot + 1 < |s|
    && s[at] == '@' && s[dot] == '.'
    && AllAddressChars(s[..at]) && AllAddressChars(s[at + 1..dot]) && AllAddressChars(s[dot + 1..])
  }

  /** The strings the regular expression accepts (the `+` quantifiers may
      backtrack, so any dot after the `@` may be the separating one). */
  ghost predicate MatchesPattern(s: string) {
    exists at, dot :: SplitsAt(s, at, dot)
  }

  predicate HasInnerDot(domain: string) {
    exists k | 1 <= k < |domain| - 1 :: domain[k] == '.'
  }

  /** The check as a scan: a non-empty local part before the first `@`, and a
      domain with no whitespace and no further `@` that has a dot neither at
      its start nor at its end. */
  predicate IsValidEmail(s: string) {
    var at := IndexOf(s, '@');
    && 0 < at < |s|
    && AllAddressChars(s[..at])
    && AllAddressChars(s[at + 1..])
    && HasInnerDot(s[at + 1..])
  }

  lemma IndexOfFirst(s: string, c: char, i: int)
    requires 0 <= i < |s| && s[i] == c && c !in s[..i]
    ensures IndexOf(s, c) == i
  {
  }

  /** The scan accepts exactly the strings the regular expression matches. */
  lemma IsValidEmailMatchesPattern(s: string)
    ensures IsValidEmail(s) <==> MatchesPattern(s)
  {
    if IsValidEmail(s) {
      var at := IndexOf(s, '@');
      var domain := s[at + 1..];
      var k :| 1 <= k < |domain| - 1 && domain[k] == '.';
      var dot := at + 1 + k;
      assert s[at + 1..dot] == domain[..k];
      assert s[dot + 1..] == domain[k + 1..];
      assert SplitsAt(s, at, dot);
    }
    if MatchesPattern(s) {
      var at, dot :| SplitsAt(s, at, dot);
      assert '@' !in s[..at];
      IndexOfFirst(s, '@', at);
      var domain := s[at + 1..];
      assert domain[dot - at - 1] == '.';
      assert AllAddressChars(domain) by {
        forall i | 0 <= i < |domain|
          ensures IsAddressChar(domain[i])
        {
          if i < dot - at - 1 {
            assert domain[i] == s[at + 1..dot][i];
          } else if i > dot - at - 1 {
            assert domain[i] == s[dot + 1..][i - (dot - at)];
          }
        }
      }
    }
  }

  lemma AcceptsPlainAddress()
    ensures IsValidEmail("me@x.io")
  {
    IndexOfFirst("me@x.io", '@', 2);
    assert "me@x.io"[3..][1] == '.';
  }

  lemma RejectsDomainWithoutDot()
    ensures !IsValidEmail("me@x")
  {
    IndexOfFirst("me@x", '@', 2);
  }
}
