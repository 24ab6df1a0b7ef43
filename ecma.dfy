/**
 * The ECMAScript built-ins that the booking site's logic relies on:
 * `String.prototype.trim`, `split`, `join`, `includes`, `toLowerCase`,
 * `Math.round`, `Number(string)`, `String(number)`, `Array.prototype.filter`
 * and `Array.from(new Set(xs))`.  Each is stated over Dafny values; the
 * restrictions (ASCII case mapping, a decimal subset of `Number`) are listed
 * in README.md.
 */
module Ecma {

  datatype Option<T> = None | Some(value: T)

  /** `x ?? fallback`. */
  function OrElse<T>(x: Option<T>, fallback: T): T {
    if x.Some? then x.value else fallback
  }

  /** A JavaScript number as it is stored in a document: a whole finite value,
      NaN, or one of the two infinities. */
  datatype Number = Finite(value: int) | NaN | Infinity(negative: bool)

  predicate IsFinite(n: Number) { n.Finite? }

  // ---------------------------------------------------------------------------
  // Whitespace and trim

  /** WhiteSpace and LineTerminator code points: what the regular-expression
      class `\s` matches and what `trim` removes. */
  predicate IsWhitespace(c: char) {
    if c <= ' ' then c == ' ' || ('\t' <= c <= '\r') else IsWideSpace(c)
  }

  /** The whitespace code points above U+0020: no-break space, ogham space
      mark, the spaces U+2000 to U+200A, line and paragraph separators,
      narrow no-break space, medium mathematical space, ideographic space and
      the byte-order mark. */
  predicate IsWideSpace(c: char) {
    || c == '\U{00A0}' || c == '\U{1680}' || ('\U{2000}' <= c <= '\U{200A}')
    || ('\U{2028}' <= c <= '\U{2029}') || c == '\U{202F}' || c == '\U{205F}'
    || c == '\U{3000}' || c == '\U{FEFF}'
  }

  predicate AllWhitespace(s: string) {
    forall i :: 0 <= i < |s| ==> IsWhitespace(s[i])
  }

  /** `s.trim()`: `s` without its leading and trailing whitespace. */
  function Trim(s: string): (r: string)
    ensures r == [] <==> AllWhitespace(s)
    ensures r != [] ==> !IsWhitespace(r[0]) && !IsWhitespace(r[|r| - 1])
    decreases |s|
  {
    if s == [] then []
    else if IsWhitespace(s[0]) then
      var r := Trim(s[1..]);
      assert AllWhitespace(s) <==> AllWhitespace(s[1..]) by {
        assert forall i :: 0 < i < |s| ==> s[i] == s[1..][i - 1];
      }
      r
    else if IsWhitespace(s[|s| - 1]) then
      var r := Trim(s[..|s| - 1]);
      assert !AllWhitespace(s);
      assert r != [] by {
        assert !IsWhitespace(s[..|s| - 1][0]);
      }
      r
    else s
  }

  /** The trimmed string is an infix of the original. */
  lemma {:induction false} TrimIsInfix(s: string)
    ensures exists k | 0 <= k <= |s| :: OccursAt(s, Trim(s), k)
    decreases |s|
  {
    if s != [] && IsWhitespace(s[0]) {
      var tail := s[1..];
      TrimIsInfix(tail);
      var k :| 0 <= k <= |tail| && OccursAt(tail, Trim(tail), k);
      OccursInTail(s, Trim(s), k);
    } else if s != [] && IsWhitespace(s[|s| - 1]) {
      var init := s[..|s| - 1];
      TrimIsInfix(init);
      var k :| 0 <= k <= |init| && OccursAt(init, Trim(init), k);
      OccursInInit(s, Trim(s), k);
    } else {
      assert OccursAt(s, Trim(s), 0);
    }
  }

  /** `t` occurs in `s` at `k`, with nothing but whitespace before and
      after it. */
  predicate PaddedAt(s: string, t: string, k: int) {
    && 0 <= k <= |s| - |t| && s[k..k + |t|] == t
    && AllWhitespace(s[..k]) && AllWhitespace(s[k + |t|..])
  }

  /** Trimming removes whitespace only: what precedes and what follows the
      trimmed text in the original is all whitespace. */
  lemma {:induction false} TrimStripsOnlyWhitespace(s: string)
    ensures exists k | 0 <= k <= |s| :: PaddedAt(s, Trim(s), k)
    decreases |s|
  {
    var t := Trim(s);
    if s != [] && IsWhitespace(s[0]) {
      TrimStripsOnlyWhitespace(s[1..]);
      var k :| 0 <= k <= |s[1..]| && PaddedAt(s[1..], t, k);
      PaddedAfterWhitespace(s, t, k);
    } else if s != [] && IsWhitespace(s[|s| - 1]) {
      TrimStripsOnlyWhitespace(s[..|s| - 1]);
      var k :| 0 <= k <= |s| - 1 && PaddedAt(s[..|s| - 1], t, k);
      PaddedBeforeWhitespace(s, t, k);
    } else {
      assert t == s;
      assert s[0..|t|] == t && s[..0] == [] && s[|t|..] == [];
      assert PaddedAt(s, t, 0);
    }
  }

  /** A leading whitespace character widens the padding in front. */
  lemma PaddedAfterWhitespace(s: string, t: string, k: int)
    requires s != [] && IsWhitespace(s[0]) && PaddedAt(s[1..], t, k)
    ensures PaddedAt(s, t, k + 1)
  {
    var tail := s[1..];
    assert s[k + 1..k + 1 + |t|] == tail[k..k + |t|];
    assert s[k + 1 + |t|..] == tail[k + |t|..];
    var front := s[..k + 1];
    forall i | 0 < i < |front| ensures IsWhitespace(front[i]) {
      assert front[i] == tail[..k][i - 1];
    }
  }

  /** A trailing whitespace character widens the padding behind. */
  lemma PaddedBeforeWhitespace(s: string, t: string, k: int)
    requires s != [] && IsWhitespace(s[|s| - 1]) && PaddedAt(s[..|s| - 1], t, k)
    ensures PaddedAt(s, t, k)
  {
    var init := s[..|s| - 1];
    assert s[k..k + |t|] == init[k..k + |t|];
    assert s[..k] == init[..k];
    var back := s[k + |t|..];
    forall i | 0 <= i < |back| - 1 ensures IsWhitespace(back[i]) {
      assert back[i] == init[k + |t|..][i];
    }
  }

  /** What occurs after the first character occurs in the whole string. */
  lemma OccursInTail(s: string, t: string, k: int)
    requires s != [] && OccursAt(s[1..], t, k)
    ensures OccursAt(s, t, k + 1)
  {
    assert forall i :: 0 <= i < |t| ==> t[i] == s[1..][k + i] == s[k + 1 + i];
  }

  /** What occurs before the last character occurs in the whole string. */
  lemma OccursInInit(s: string, t: string, k: int)
    requires s != [] && OccursAt(s[..|s| - 1], t, k)
    ensures OccursAt(s, t, k)
  {
    assert forall i :: 0 <= i < |t| ==> t[i] == s[..|s| - 1][k + i] == s[k + i];
  }

  /** Trimming never brings in a character the string did not hold. */
  lemma TrimKeepsAbsent(s: string, c: char)
    requires c !in s
    ensures c !in Trim(s)
  {
    TrimIsInfix(s);
    var k :| 0 <= k <= |s| && OccursAt(s, Trim(s), k);
    assert forall i :: 0 <= i < |Trim(s)| ==> Trim(s)[i] == s[k + i];
  }

  /** A string without surrounding whitespace is its own trim. */
  lemma TrimUnchanged(s: string)
    requires s == [] || (!IsWhitespace(s[0]) && !IsWhitespace(s[|s| - 1]))
    ensures Trim(s) == s
  {
  }

  // ---------------------------------------------------------------------------
  // Case mapping

  function ToLowerChar(c: char): char {
    if 'A' <= c <= 'Z' then (c as int + 32) as char else c
  }

  /** `s.toLowerCase()` restricted to the ASCII letters. */
  function ToLower(s: string): (r: string)
    ensures |r| == |s|
    ensures forall i :: 0 <= i < |s| ==> r[i] == ToLowerChar(s[i])
  {
    if s == [] then [] else [ToLowerChar(s[0])] + ToLower(s[1..])
  }

  /** Lowering twice changes nothing more. */
  lemma ToLowerIdempotent(s: string)
    ensures ToLower(ToLower(s)) == ToLower(s)
  {
    assert forall i :: 0 <= i < |s| ==> ToLowerChar(ToLowerChar(s[i])) == ToLowerChar(s[i]);
  }

  // ---------------------------------------------------------------------------
  // Substring search

  /** `t` occurs in `s` starting at index `k`. */
  predicate OccursAt(s: string, t: string, k: int) {
    0 <= k <= |s| - |t| && s[k..k + |t|] == t
  }

  /** `s.includes(t)`: `t` occurs at some position of `s`. */
  predicate Includes(s: string, t: string) {
    exists k | 0 <= k <= |s| :: OccursAt(s, t, k)
  }

  // ---------------------------------------------------------------------------
  // split and join on a one-character separator

  function Count<T(==)>(s: seq<T>, c: T): (n: nat)
    ensures n <= |s|
  {
    if s == [] then 0 else (if s[0] == c then 1 else 0) + Count(s[1..], c)
  }

  /** `parts.join(sep)`. */
  function Join(parts: seq<string>, sep: string): string {
    if |parts| == 0 then ""
    else if |parts| == 1 then parts[0]
    else parts[0] + sep + Join(parts[1..], sep)
  }

  /** `s.split(sep)` for a one-character separator. */
  function Split(s: string, sep: char): (parts: seq<string>)
    ensures |parts| == Count(s, sep) + 1
    ensures forall i :: 0 <= i < |parts| ==> sep !in parts[i]
  {
    if s == [] then [""]
    else
      var rest := Split(s[1..], sep);
      if s[0] == sep then [""] + rest
      else [[s[0]] + rest[0]] + rest[1..]
  }

  /** Joining the pieces of a split with the same separator restores the
      string. */
  lemma {:induction false} JoinSplit(s: string, sep: char)
    ensures Join(Split(s, sep), [sep]) == s
  {
    if s != [] {
      var rest := Split(s[1..], sep);
      JoinSplit(s[1..], sep);
      if s[0] == sep {
        assert Split(s, sep) == [""] + rest;
      } else {
        var parts := Split(s, sep);
        assert parts == [[s[0]] + rest[0]] + rest[1..];
        if |rest| == 1 {
          assert Join(parts, [sep]) == [s[0]] + rest[0];
        } else {
          assert parts[1..] == rest[1..];
          assert Join(parts, [sep]) == [s[0]] + rest[0] + [sep] + Join(rest[1..], [sep]);
        }
      }
    }
  }

  /** Splitting a join whose pieces avoid the separator gives the pieces
      back. */
  lemma {:induction false} SplitJoin(parts: seq<string>, sep: char)
    requires |parts| >= 1
    requires forall i :: 0 <= i < |parts| ==> sep !in parts[i]
    ensures Split(Join(parts, [sep]), sep) == parts
  {
    if |parts| == 1 {
      SplitNoSeparator(parts[0], sep);
    } else {
      var rest := parts[1..];
      assert forall i :: 0 <= i < |rest| ==> rest[i] == parts[i + 1];
      SplitJoin(rest, sep);
      SplitAfterPiece(parts[0], Join(rest, [sep]), sep);
      assert Join(parts, [sep]) == parts[0] + [sep] + Join(rest, [sep]);
      assert [parts[0]] + rest == parts;
    }
  }

  lemma {:induction false} SplitNoSeparator(p: string, sep: char)
    requires sep !in p
    ensures Split(p, sep) == [p]
  {
    if p != [] {
      SplitNoSeparator(p[1..], sep);
      assert [p[0]] + p[1..] == p;
    }
  }

  lemma {:induction false} SplitAfterPiece(p: string, tail: string, sep: char)
    requires sep !in p
    ensures Split(p + [sep] + tail, sep) == [p] + Split(tail, sep)
  {
    if p == [] {
      assert p + [sep] + tail == [sep] + tail;
      assert ([sep] + tail)[1..] == tail;
    } else {
      SplitAfterPiece(p[1..], tail, sep);
      assert (p + [sep] + tail)[1..] == p[1..] + [sep] + tail;
      assert [p[0]] + p[1..] == p;
    }
  }

  /** The last element of `s.split(sep)`, as `split(sep).pop()` gives it. */
  function LastPiece(s: string, sep: char): (r: string)
    ensures sep !in r
  {
    var parts := Split(s, sep);
    parts[|parts| - 1]
  }

  /** The piece after the last separator is whatever follows it. */
  lemma LastPieceAfterSeparator(p: string, tail: string, sep: char)
    requires sep !in p && sep !in tail
    ensures LastPiece(p + [sep] + tail, sep) == tail
  {
    SplitAfterPiece(p, tail, sep);
    SplitNoSeparator(tail, sep);
  }

  /** `split(sep).pop()` is a suffix of the text that starts at its
      beginning or right after a separator. */
  lemma {:induction false} LastPieceIsSuffix(s: string, sep: char)
    ensures exists k | 0 <= k <= |s| :: s[k..] == LastPiece(s, sep) && (k == 0 || s[k - 1] == sep)
    decreases |s|
  {
    var i := IndexOf(s, sep);
    if i == |s| {
      assert s[..i] == s;
      SplitNoSeparator(s, sep);
      assert s[0..] == s;
    } else {
      var p, t := s[..i], s[i + 1..];
      assert s == p + [sep] + t;
      LastPieceAfterFirst(p, t, sep);
      LastPieceIsSuffix(t, sep);
      var k' :| 0 <= k' <= |t| && t[k'..] == LastPiece(t, sep) && (k' == 0 || t[k' - 1] == sep);
      SuffixOfRest(s, sep, i, k');
    }
  }

  lemma SuffixOfRest(s: string, sep: char, i: nat, k': nat)
    requires i < |s| && s[i] == sep && k' <= |s| - i - 1
    requires k' == 0 || s[i + 1..][k' - 1] == sep
    ensures s[i + 1 + k'..] == s[i + 1..][k'..] && s[i + k'] == sep
  {
  }

  lemma LastPieceAfterFirst(p: string, t: string, sep: char)
    requires sep !in p
    ensures LastPiece(p + [sep] + t, sep) == LastPiece(t, sep)
  {
    SplitAfterPiece(p, t, sep);
    var tail := Split(t, sep);
    assert Split(p + [sep] + t, sep) == [p] + tail;
  }

  /** `split(sep).pop()` is empty exactly when the text is empty or ends in
      the separator. */
  lemma LastPieceEmpty(s: string, sep: char)
    ensures LastPiece(s, sep) == [] <==> s == [] || s[|s| - 1] == sep
  {
    LastPieceIsSuffix(s, sep);
    var k :| 0 <= k <= |s| && s[k..] == LastPiece(s, sep) && (k == 0 || s[k - 1] == sep);
    var last := LastPiece(s, sep);
    if k < |s| {
      assert last[|last| - 1] == s[|s| - 1];
    }
  }

  // ---------------------------------------------------------------------------
  // Decimal digits, String(n) and Number(s)

  predicate IsDigit(c: char) { '0' <= c <= '9' }

  predicate AllDigits(s: string) {
    forall i :: 0 <= i < |s| ==> IsDigit(s[i])
  }

  function DigitChar(d: nat): (c: char)
    requires d < 10
    ensures IsDigit(c)
  {
    ('0' as int + d) as char
  }

  /** `String(n)` for a non-negative whole number. */
  function NatToString(n: nat): (s: string)
    ensures s != [] && AllDigits(s)
    ensures s[0] == '0' ==> s == "0"
  {
    if n < 10 then [DigitChar(n)]
    else
      var head := NatToString(n / 10);
      head + [DigitChar(n % 10)]
  }

  /** `String(n)` for a whole number. */
  function IntToString(n: int): string {
    if n >= 0 then NatToString(n) else "-" + NatToString(-n)
  }

  /** `String(x)` for a stored number. */
  function NumberToString(x: Number): string {
    match x
    case Finite(n) => IntToString(n)
    case NaN => "NaN"
    case Infinity(negative) => if negative then "-Infinity" else "Infinity"
  }

  /** The value of a string of decimal digits read most significant first. */
  function DigitsValue(s: string): nat
    requires AllDigits(s)
  {
    if s == [] then 0 else 10 * DigitsValue(s[..|s| - 1]) + (s[|s| - 1] as int - '0' as int)
  }

  /** The value of the digits after a decimal point. */
  function FractionValue(s: string): real
    requires AllDigits(s)
  {
    if s == [] then 0.0 else ((s[0] as int - '0' as int) as real + FractionValue(s[1..])) / 10.0
  }

  /** Reading back the digits `String(n)` writes gives `n`. */
  lemma {:induction false} DigitsValueOfNatToString(n: nat)
    ensures DigitsValue(NatToString(n)) == n
  {
    if n >= 10 {
      var s := NatToString(n);
      DigitsValueOfNatToString(n / 10);
      assert s[..|s| - 1] == NatToString(n / 10);
    }
  }

  /** The index of the first occurrence of `c` in `s`, or `|s|`. */
  function IndexOf(s: string, c: char): (i: nat)
    ensures i <= |s|
    ensures i < |s| ==> s[i] == c
    ensures c !in s[..i]
  {
    if s == [] then 0 else if s[0] == c then 0 else 1 + IndexOf(s[1..], c)
  }

  /** The value of an unsigned decimal literal `digits [. digits]` or
      `. digits`, or `None` when the text is not one. */
  function UnsignedDecimal(s: string): (r: Option<real>)
    ensures r.Some? ==> r.value >= 0.0
  {
    var i := IndexOf(s, '.');
    var whole := s[..i];
    var fraction := if i < |s| then s[i + 1..] else "";
    if (whole == [] && fraction == []) || !AllDigits(whole) || !AllDigits(fraction) then None
    else
      FractionNonNegative(fraction);
      Some(DigitsValue(whole) as real + FractionValue(fraction))
  }

  lemma {:induction false} FractionNonNegative(s: string)
    requires AllDigits(s)
    ensures 0.0 <= FractionValue(s) < 1.0
  {
    if s != [] { FractionNonNegative(s[1..]); }
  }

  /** Text that starts with neither a digit nor a dot is no unsigned
      literal. */
  lemma UnsignedDecimalOfNonNumeric(s: string)
    requires s != [] && !IsDigit(s[0]) && s[0] != '.'
    ensures UnsignedDecimal(s) == None
  {
    var i := IndexOf(s, '.');
    if i > 0 {
      assert !IsDigit(s[..i][0]);
    }
  }

  /** `Number(s)` when the result is finite; `None` stands for NaN and for
      the infinities (`Number.isFinite` fails on all three).  The grammar is
      the decimal subset described in README.md. */
  function ToFiniteNumber(s: string): (r: Option<real>)
    ensures AllWhitespace(s) ==> r == Some(0.0)
  {
    var t := Trim(s);
    if t == [] then Some(0.0) else SignedDecimal(t)
  }

  /** A trimmed, non-empty numeric literal with an optional sign. */
  function SignedDecimal(t: string): Option<real>
    requires t != []
  {
    var negative := t[0] == '-';
    var body := if t[0] == '-' || t[0] == '+' then t[1..] else t;
    if body == "Infinity" then None
    else match UnsignedDecimal(body)
      case None => None
      case Some(v) => Some(if negative then -v else v)
  }

  /** The digits `String(n)` writes read back as the unsigned literal `n`. */
  lemma UnsignedDecimalOfNatToString(n: nat)
    ensures UnsignedDecimal(NatToString(n)) == Some(n as real)
  {
    var digits := NatToString(n);
    DigitsValueOfNatToString(n);
    IndexOfAbsent(digits, '.');
    assert digits[..|digits|] == digits;
  }

  /** `Number(String(n))` is `n` for every whole number. */
  lemma ToFiniteNumberOfIntToString(n: int)
    ensures ToFiniteNumber(IntToString(n)) == Some(n as real)
  {
    if n >= 0 {
      UnsignedDecimalOfNatToString(n);
      SignedLiteral(NatToString(n), n, n);
    } else {
      UnsignedDecimalOfNatToString(-n);
      SignedLiteral(NatToString(-n), -n, n);
    }
  }

  lemma SignedLiteral(digits: string, v: nat, n: int)
    requires digits != [] && AllDigits(digits)
    requires UnsignedDecimal(digits) == Some(v as real)
    requires n == v || n + v == 0
    ensures ToFiniteNumber(if n >= 0 then digits else "-" + digits) == Some(n as real)
  {
    assert IsDigit(digits[0]) && IsDigit(digits[|digits| - 1]);
    assert digits != "Infinity";
    if n >= 0 {
      TrimUnchanged(digits);
      assert SignedDecimal(digits) == Some(v as real);
    } else {
      var neg := "-" + digits;
      assert neg[0] == '-' && neg[1..] == digits;
      assert neg[|neg| - 1] == digits[|digits| - 1];
      TrimUnchanged(neg);
      NegatedLiteral(neg, v, n);
    }
  }

  lemma NegatedLiteral(t: string, v: nat, n: int)
    requires t != [] && t[0] == '-' && t[1..] != "Infinity"
    requires UnsignedDecimal(t[1..]) == Some(v as real) && n + v == 0
    ensures SignedDecimal(t) == Some(n as real)
  {
  }

  lemma {:induction false} IndexOfAbsent(s: string, c: char)
    requires AllDigits(s) && !IsDigit(c)
    ensures IndexOf(s, c) == |s|
  {
    if s != [] { IndexOfAbsent(s[1..], c); }
  }

  /** `Math.round(x)`: the nearest whole number, halves rounded up. */
  function Round(x: real): (r: int)
    ensures x - 0.5 < r as real <= x + 0.5
    ensures x == x.Floor as real ==> r == x.Floor
  {
    (x + 0.5).Floor
  }

  // ---------------------------------------------------------------------------
  // Arrays

  /** `b` keeps some of the elements of `a`... read the other way round: `a`
      is obtained from `b` by deleting elements, keeping their order. */
  predicate IsSubsequence<T(==)>(a: seq<T>, b: seq<T>)
    decreases |b|
  {
    a == [] || (b != [] && ((a[0] == b[0] && IsSubsequence(a[1..], b[1..])) || IsSubsequence(a, b[1..])))
  }

  /** `s.filter(p)`. */
  function Filter<T>(s: seq<T>, p: T -> bool): (r: seq<T>)
    ensures |r| <= |s|
    ensures forall i :: 0 <= i < |r| ==> p(r[i]) && r[i] in s
    ensures forall i :: 0 <= i < |s| && p(s[i]) ==> s[i] in r
  {
    if s == [] then [] else (if p(s[0]) then [s[0]] else []) + Filter(s[1..], p)
  }

  /** A filter keeps the surviving elements in their original order. */
  lemma {:induction false} FilterIsSubsequence<T>(s: seq<T>, p: T -> bool)
    ensures IsSubsequence(Filter(s, p), s)
  {
    if s != [] {
      FilterIsSubsequence(s[1..], p);
      if p(s[0]) {
        assert Filter(s, p)[1..] == Filter(s[1..], p);
      } else {
        assert Filter(s, p) == Filter(s[1..], p);
      }
    }
  }

  /** A filter keeps every copy of a value the predicate accepts and no copy
      of one it refuses. */
  lemma {:induction false} FilterCount<T>(s: seq<T>, p: T -> bool, x: T)
    ensures Count(Filter(s, p), x) == if p(x) then Count(s, x) else 0
  {
    if s != [] {
      FilterCount(s[1..], p, x);
      var rest := Filter(s[1..], p);
      if p(s[0]) {
        assert Filter(s, p) == [s[0]] + rest;
        assert ([s[0]] + rest)[1..] == rest;
      } else {
        assert Filter(s, p) == rest;
      }
    }
  }

  /** The same, for every value at once. */
  lemma FilterCountAll<T>(s: seq<T>, p: T -> bool)
    ensures forall x :: Count(Filter(s, p), x) == if p(x) then Count(s, x) else 0
  {
    forall x {
      FilterCount(s, p, x);
    }
  }

  /** Two values a filter keeps first occur in the same order before and
      after filtering. */
  lemma {:induction false} FilterKeepsFirstIndexOrder<T>(s: seq<T>, p: T -> bool, a: T, b: T)
    requires a in Filter(s, p) && b in Filter(s, p)
    requires FirstIndex(Filter(s, p), a) < FirstIndex(Filter(s, p), b)
    ensures FirstIndex(s, a) < FirstIndex(s, b)
  {
    if s[0] != a && s[0] != b {
      var rest := Filter(s[1..], p);
      var kept := Filter(s, p);
      if p(s[0]) {
        assert kept == [s[0]] + rest;
        assert kept[1..] == rest;
        assert FirstIndex(kept, a) == FirstIndex(rest, a) + 1;
        assert FirstIndex(kept, b) == FirstIndex(rest, b) + 1;
      } else {
        assert kept == rest;
      }
      FilterKeepsFirstIndexOrder(s[1..], p, a, b);
    }
  }

  /** Whatever holds of every element holds of every element a filter
      keeps. */
  lemma {:induction false} FilterKeepsProperty<T>(s: seq<T>, p: T -> bool, q: T -> bool)
    requires forall i :: 0 <= i < |s| ==> q(s[i])
    ensures forall i :: 0 <= i < |Filter(s, p)| ==> q(Filter(s, p)[i])
  {
    if s != [] {
      FilterKeepsProperty(s[1..], p, q);
      var rest := Filter(s[1..], p);
      assert Filter(s, p) == (if p(s[0]) then [s[0]] else []) + rest;
    }
  }

  /** A filter whose predicate holds everywhere changes nothing. */
  lemma {:induction false} FilterAll<T>(s: seq<T>, p: T -> bool)
    requires forall i :: 0 <= i < |s| ==> p(s[i])
    ensures Filter(s, p) == s
  {
    if s != [] {
      FilterAll(s[1..], p);
      assert [s[0]] + s[1..] == s;
    }
  }

  function Map<T, U>(s: seq<T>, f: T -> U): (r: seq<U>)
    ensures |r| == |s| && forall i :: 0 <= i < |s| ==> r[i] == f(s[i])
  {
    if s == [] then [] else [f(s[0])] + Map(s[1..], f)
  }

  predicate NoDuplicates<T(==)>(s: seq<T>) {
    forall i, j :: 0 <= i < j < |s| ==> s[i] != s[j]
  }

  /** `Array.from(new Set(s))`: the distinct elements of `s` in the order of
      their first occurrence. */
  function Dedup<T(==)>(s: seq<T>): (r: seq<T>)
    ensures NoDuplicates(r)
    ensures forall i :: 0 <= i < |r| ==> r[i] in s
    ensures forall i :: 0 <= i < |s| ==> s[i] in r
  {
    if s == [] then []
    else
      var r := Dedup(s[..|s| - 1]);
      var x := s[|s| - 1];
      assert s == s[..|s| - 1] + [x];
      if x in r then r else r + [x]
  }

  /** Deduplication keeps the order of the original sequence. */
  lemma {:induction false} DedupIsSubsequence<T>(s: seq<T>)
    ensures IsSubsequence(Dedup(s), s)
  {
    if s != [] {
      var init := s[..|s| - 1];
      DedupIsSubsequence(init);
      if s[|s| - 1] in Dedup(init) {
        SubsequenceAppend(Dedup(init), init, [s[|s| - 1]]);
      } else {
        SubsequenceBothAppend(Dedup(init), init, s[|s| - 1]);
      }
      assert init + [s[|s| - 1]] == s;
    }
  }

  /** The position of the first occurrence of `x` in `s`. */
  function FirstIndex<T(==)>(s: seq<T>, x: T): (k: nat)
    requires x in s
    ensures k < |s| && s[k] == x && x !in s[..k]
  {
    if s[0] == x then 0
    else
      var k := FirstIndex(s[1..], x);
      assert s[..k + 1] == [s[0]] + s[1..][..k];
      k + 1
  }

  /** Appending leaves the first occurrence of a value already present where
      it was. */
  lemma {:induction false} FirstIndexAppend<T>(s: seq<T>, y: T, x: T)
    requires x in s
    ensures FirstIndex(s + [y], x) == FirstIndex(s, x)
  {
    if s[0] != x {
      assert (s + [y])[1..] == s[1..] + [y];
      FirstIndexAppend(s[1..], y, x);
    }
  }

  /** Deduplication lists the values in the order of their first occurrence
      in the original. */
  lemma {:induction false} DedupKeepsFirstOccurrenceOrder<T>(s: seq<T>)
    ensures forall i, j :: 0 <= i < j < |Dedup(s)| ==> FirstIndex(s, Dedup(s)[i]) < FirstIndex(s, Dedup(s)[j])
  {
    if s != [] {
      var init := s[..|s| - 1];
      var x := s[|s| - 1];
      var r := Dedup(init);
      DedupKeepsFirstOccurrenceOrder(init);
      assert s == init + [x];
      forall i | 0 <= i < |r| ensures FirstIndex(s, r[i]) == FirstIndex(init, r[i]) {
        FirstIndexAppend(init, x, r[i]);
      }
      if x !in r {
        assert x !in init;
        assert FirstIndex(s, x) == |init|;
      }
    }
  }

  lemma {:induction false} SubsequenceAppend<T>(a: seq<T>, b: seq<T>, c: seq<T>)
    requires IsSubsequence(a, b)
    ensures IsSubsequence(a, b + c)
    decreases |b|
  {
    if a != [] {
      assert (b + c)[1..] == b[1..] + c;
      if a[0] == b[0] && IsSubsequence(a[1..], b[1..]) {
        SubsequenceAppend(a[1..], b[1..], c);
      } else {
        SubsequenceAppend(a, b[1..], c);
      }
    }
  }

  lemma {:induction false} SubsequenceBothAppend<T>(a: seq<T>, b: seq<T>, x: T)
    requires IsSubsequence(a, b)
    ensures IsSubsequence(a + [x], b + [x])
    decreases |b|
  {
    if a == [] {
      SubsequenceOfSingleton(b, x);
      assert a + [x] == [x];
    } else {
      assert (a + [x])[1..] == a[1..] + [x];
      assert (b + [x])[1..] == b[1..] + [x];
      if a[0] == b[0] && IsSubsequence(a[1..], b[1..]) {
        SubsequenceBothAppend(a[1..], b[1..], x);
      } else {
        SubsequenceBothAppend(a, b[1..], x);
      }
    }
  }

  lemma {:induction false} SubsequenceOfSingleton<T>(b: seq<T>, x: T)
    ensures IsSubsequence([x], b + [x])
    decreases |b|
  {
    if b != [] {
      SubsequenceOfSingleton(b[1..], x);
      assert (b + [x])[1..] == b[1..] + [x];
    } else {
      assert [x][1..] == [];
    }
  }

  /** A sequence without duplicates is its own deduplication. */
  lemma {:induction false} DedupOfDistinct<T>(s: seq<T>)
    requires NoDuplicates(s)
    ensures Dedup(s) == s
  {
    if s != [] {
      var init := s[..|s| - 1];
      DedupOfDistinct(init);
      assert s[|s| - 1] !in init;
      assert init + [s[|s| - 1]] == s;
    }
  }
}
