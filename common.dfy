/**
 * Small building blocks shared by every component of the hospital-queue
 * application: the `undefined`/`null`-carrying option type, error results,
 * JavaScript's Math.round on exact fractions, and the string operations the
 * components use (trim, toLowerCase, includes, split, join, number formatting).
 */
module Common {

  /** `undefined` / `null` versus a present value. */
  datatype Option<T> = None | Some(value: T)

  /** An operation that either yields a value or fails with the source's error message. */
  datatype Result<T> = Ok(value: T) | Err(message: string)

  function Max(a: int, b: int): int { if a < b then b else a }

  function Min(a: int, b: int): int { if a < b then a else b }

  // ---------------------------------------------------------------------------
  // Array.prototype.find / findIndex
  // ---------------------------------------------------------------------------

  /** The index of the first element satisfying `p`, or None when no element does. */
  function FirstIndex<T>(s: seq<T>, p: T -> bool): (r: Option<nat>)
    ensures r.Some? ==> r.value < |s| && p(s[r.value])
    ensures r.Some? ==> forall j :: 0 <= j < r.value ==> !p(s[j])
    ensures r.None? ==> forall j :: 0 <= j < |s| ==> !p(s[j])
  {
    if s == [] then None
    else if p(s[0]) then Some(0)
    else match FirstIndex(s[1..], p)
      case None => None
      case Some(k) => Some(k + 1)
  }

  // ---------------------------------------------------------------------------
  // Math.round on an exact fraction
  // ---------------------------------------------------------------------------

  /**
   * Math.round(num / den) for a positive denominator: the nearest integer,
   * halves rounded upwards (towards +infinity, as JavaScript does).
   */
  function RoundHalfUp(num: int, den: int): (r: int)
    requires den > 0
    ensures 2 * den * r <= 2 * num + den < 2 * den * r + 2 * den
  {
    (2 * num + den) / (2 * den)
  }

  lemma RoundHalfUpMonotone(a: int, b: int, den: int)
    requires den > 0 && a <= b
    ensures RoundHalfUp(a, den) <= RoundHalfUp(b, den)
  {
    var ra, rb := RoundHalfUp(a, den), RoundHalfUp(b, den);
    if ra > rb {
      MulMonotone(2 * den, rb + 1, ra);
      assert false;
    }
  }

  /** A non-positive fraction never rounds to a positive integer. */
  lemma RoundHalfUpNonPositive(num: int, den: int)
    requires den > 0 && num <= 0
    ensures RoundHalfUp(num, den) <= 0
  {
    var r := RoundHalfUp(num, den);
    if r > 0 {
      MulMonotone(2 * den, 1, r);
      assert false;
    }
  }

  /** A whole number of units rounds to itself. */
  lemma RoundHalfUpExact(k: int, den: int)
    requires den > 0
    ensures RoundHalfUp(k * den, den) == k
  {
    var r := RoundHalfUp(k * den, den);
    if r < k {
      MulMonotone(2 * den, r + 1, k);
      assert false;
    } else if r > k {
      MulMonotone(2 * den, k + 1, r);
      assert false;
    }
  }

  /** Multiplying by a non-negative factor preserves order. */
  lemma MulMonotone(c: int, x: int, y: int)
    requires c >= 0 && x <= y
    ensures c * x <= c * y
  {
    assert c * y - c * x == c * (y - x);
  }

  // ---------------------------------------------------------------------------
  // Sums and averages (reduce((sum, x) => sum + x, 0))
  // ---------------------------------------------------------------------------

  function Sum(xs: seq<int>): int {
    if xs == [] then 0 else Sum(xs[..|xs| - 1]) + xs[|xs| - 1]
  }

  lemma {:induction false} SumAppend(a: seq<int>, b: seq<int>)
    ensures Sum(a + b) == Sum(a) + Sum(b)
  {
    if b == [] {
      assert a + b == a;
    } else {
      var ab := a + b;
      assert ab[..|ab| - 1] == a + b[..|b| - 1];
      SumAppend(a, b[..|b| - 1]);
    }
  }

  /** Every element lies between lo and hi. */
  predicate AllWithin(xs: seq<int>, lo: int, hi: int) {
    forall k :: 0 <= k < |xs| ==> lo <= xs[k] <= hi
  }

  lemma {:induction false} SumWithin(xs: seq<int>, lo: int, hi: int)
    requires AllWithin(xs, lo, hi)
    ensures |xs| * lo <= Sum(xs) <= |xs| * hi
  {
    if xs != [] {
      var front := xs[..|xs| - 1];
      assert AllWithin(front, lo, hi) by {
        forall k | 0 <= k < |front| ensures lo <= front[k] <= hi {
          assert front[k] == xs[k];
        }
      }
      SumWithin(front, lo, hi);
      assert |xs| * lo == |front| * lo + lo;
      assert |xs| * hi == |front| * hi + hi;
    }
  }

  /** Math.round(sum / length) of a non-empty list. */
  function RoundedMean(xs: seq<int>): (r: int)
    requires xs != []
    ensures 2 * |xs| * r <= 2 * Sum(xs) + |xs| < 2 * |xs| * r + 2 * |xs|
  {
    RoundHalfUp(Sum(xs), |xs|)
  }

  /** The rounded mean lies between the smallest and the largest element. */
  lemma RoundedMeanWithin(xs: seq<int>, lo: int, hi: int)
    requires xs != [] && AllWithin(xs, lo, hi)
    ensures lo <= RoundedMean(xs) <= hi
  {
    var n := |xs|;
    SumWithin(xs, lo, hi);
    RoundHalfUpMonotone(n * lo, Sum(xs), n);
    RoundHalfUpMonotone(Sum(xs), n * hi, n);
    assert n * lo == lo * n && n * hi == hi * n;
    RoundHalfUpExact(lo, n);
    RoundHalfUpExact(hi, n);
  }

  // ---------------------------------------------------------------------------
  // Characters and trimming
  // ---------------------------------------------------------------------------

  /** The whitespace characters removed by trim (a subset of JavaScript's set). */
  predicate IsSpace(c: char) {
    c == ' ' || c == '\t' || c == '\n' || c == '\r'
  }

  predicate AllSpace(s: string) {
    forall i :: 0 <= i < |s| ==> IsSpace(s[i])
  }

  /** `s` is `r` with only whitespace around it. */
  ghost predicate SpacePadded(s: string, r: string) {
    exists i :: OccursAt(s, r, i) && AllSpace(s[..i]) && AllSpace(s[i + |r|..])
  }

  /** No whitespace at either end. */
  predicate Trimmed(s: string) {
    s == [] || (!IsSpace(s[0]) && !IsSpace(s[|s| - 1]))
  }

  function TrimStart(s: string): (r: string)
    ensures |r| <= |s| && r == s[|s| - |r|..]
    ensures AllSpace(s[..|s| - |r|])
    ensures r == [] || !IsSpace(r[0])
  {
    if s != [] && IsSpace(s[0]) then
      var t := TrimStart(s[1..]);
      assert s[..|s| - |t|] == [s[0]] + s[1..][..|s| - 1 - |t|];
      t
    else s
  }

  function TrimEnd(s: string): (r: string)
    ensures |r| <= |s| && r == s[..|r|]
    ensures forall i :: |r| <= i < |s| ==> IsSpace(s[i])
    ensures r == [] || !IsSpace(r[|r| - 1])
  {
    if s != [] && IsSpace(s[|s| - 1]) then TrimEnd(s[..|s| - 1]) else s
  }

  /**
   * String.prototype.trim: the input without the whitespace around it, so a
   * slice with no whitespace at either end and only whitespace outside it.
   */
  function Trim(s: string): (r: string)
    ensures r == [] <==> AllSpace(s)
    ensures Trimmed(r)
    ensures exists i :: OccursAt(s, r, i)
    ensures SpacePadded(s, r)
  {
    TrimBlank(s);
    TrimIsSlice(s);
    TrimEnds(s);
    TrimEnd(TrimStart(s))
  }

  lemma TrimEnds(s: string)
    ensures Trimmed(TrimEnd(TrimStart(s)))
  {
    var a := TrimStart(s);
    var r := TrimEnd(a);
    if r != [] {
      assert r[0] == a[0];
    }
  }

  /** Text without whitespace at either end is left as it is; in particular trimming twice changes nothing. */
  lemma TrimNoOp(s: string)
    requires Trimmed(s)
    ensures Trim(s) == s
  {
    assert TrimStart(s) == s;
  }

  /** Trimming adds no character. */
  lemma TrimSubset(s: string, c: char)
    requires c !in s
    ensures c !in Trim(s)
  {
    var a := TrimStart(s);
    assert a == s[|s| - |a|..];
    assert Trim(s) == a[..|Trim(s)|];
  }

  lemma TrimBlank(s: string)
    ensures TrimEnd(TrimStart(s)) == [] <==> AllSpace(s)
  {
    var a := TrimStart(s);
    var r := TrimEnd(a);
    var k := |s| - |a|;
    if r != [] {
      assert r[0] == s[k];
    } else {
      assert AllSpace(s[..k]);
      forall i | 0 <= i < |s| ensures IsSpace(s[i]) {
        if i < k {
          assert s[i] == s[..k][i];
        } else {
          assert s[i] == a[i - k];
        }
      }
    }
  }

  lemma TrimIsSlice(s: string)
    ensures OccursAt(s, TrimEnd(TrimStart(s)), |s| - |TrimStart(s)|)
    ensures SpacePadded(s, TrimEnd(TrimStart(s)))
  {
    var a := TrimStart(s);
    var r := TrimEnd(a);
    var k := |s| - |a|;
    assert a == s[k..] && r == a[..|r|];
    assert s[k..][..|r|] == s[k..k + |r|];
    var tail := s[k + |r|..];
    forall j | 0 <= j < |tail| ensures IsSpace(tail[j]) {
      assert tail[j] == a[|r| + j];
    }
    assert OccursAt(s, r, k) && AllSpace(s[..k]) && AllSpace(s[k + |r|..]);
  }

  // ---------------------------------------------------------------------------
  // Case folding
  // ---------------------------------------------------------------------------

  function LowerChar(c: char): char {
    if 'A' <= c <= 'Z' then (c as int - 'A' as int + 'a' as int) as char else c
  }

  /** String.prototype.toLowerCase restricted to ASCII letters. */
  function ToLower(s: string): (r: string)
    ensures |r| == |s|
    ensures forall i :: 0 <= i < |s| ==> r[i] == LowerChar(s[i])
    ensures forall i :: 0 <= i < |r| ==> !('A' <= r[i] <= 'Z')
  {
    seq(|s|, i requires 0 <= i < |s| => LowerChar(s[i]))
  }

  lemma ToLowerIdempotent(s: string)
    ensures ToLower(ToLower(s)) == ToLower(s)
  {
  }

  // ---------------------------------------------------------------------------
  // Substring search (String.prototype.includes)
  // ---------------------------------------------------------------------------

  predicate OccursAt(s: string, sub: string, i: int) {
    0 <= i && i + |sub| <= |s| && s[i..i + |sub|] == sub
  }

  function Contains(s: string, sub: string): (r: bool)
    ensures r <==> exists i :: OccursAt(s, sub, i)
  {
    if sub <= s then
      assert OccursAt(s, sub, 0);
      true
    else if s == [] then
      assert forall i :: !OccursAt(s, sub, i);
      false
    else
      var rest := Contains(s[1..], sub);
      assert forall i :: OccursAt(s[1..], sub, i) <==> OccursAt(s, sub, i + 1) by {
        forall i ensures OccursAt(s[1..], sub, i) <==> OccursAt(s, sub, i + 1) {
          if 0 <= i && i + |sub| <= |s[1..]| {
            assert s[1..][i..i + |sub|] == s[i + 1..i + 1 + |sub|];
          }
        }
      }
      assert !OccursAt(s, sub, 0);
      assert forall i :: OccursAt(s, sub, i) ==> OccursAt(s[1..], sub, i - 1);
      rest
  }

  /** Every string contains the empty string, and a string contains itself. */
  lemma ContainsBasics(s: string)
    ensures Contains(s, "") && Contains(s, s)
  {
    assert OccursAt(s, "", 0);
    assert OccursAt(s, s, 0);
  }

  // ---------------------------------------------------------------------------
  // Splitting and joining on one separator character
  // ---------------------------------------------------------------------------

  /** Number of occurrences of `c` in `s`. */
  function CountChar(s: string, c: char): nat {
    if s == [] then 0 else (if s[0] == c then 1 else 0) + CountChar(s[1..], c)
  }

  lemma CountCharZero(s: string, c: char)
    ensures CountChar(s, c) == 0 <==> c !in s
  {
    if s != [] {
      CountCharZero(s[1..], c);
      assert c in s <==> s[0] == c || c in s[1..];
    }
  }

  /** String.prototype.split with a one-character separator. */
  function Split(s: string, sep: char): (r: seq<string>)
    ensures |r| == CountChar(s, sep) + 1
    ensures forall k :: 0 <= k < |r| ==> sep !in r[k]
  {
    if s == [] then [[]]
    else
      var rest := Split(s[1..], sep);
      if s[0] == sep then [[]] + rest
      else [[s[0]] + rest[0]] + rest[1..]
  }

  /** Array.prototype.join with a one-character separator. */
  function Join(parts: seq<string>, sep: char): string {
    if |parts| == 0 then []
    else if |parts| == 1 then parts[0]
    else parts[0] + [sep] + Join(parts[1..], sep)
  }

  /** Joining the pieces of a split gives back the original text. */
  lemma {:induction false} JoinSplit(s: string, sep: char)
    ensures Join(Split(s, sep), sep) == s
  {
    if s != [] {
      var rest := Split(s[1..], sep);
      JoinSplit(s[1..], sep);
      if s[0] == sep {
        assert Split(s, sep) == [[]] + rest;
        assert Join(Split(s, sep), sep) == [] + [sep] + Join(rest, sep);
      } else {
        assert Split(s, sep) == [[s[0]] + rest[0]] + rest[1..];
        if |rest| == 1 {
          assert Join(Split(s, sep), sep) == [s[0]] + rest[0];
        } else {
          assert rest == [rest[0]] + rest[1..];
          assert Join(rest, sep) == rest[0] + [sep] + Join(rest[1..], sep);
          assert Join(Split(s, sep), sep) == [s[0]] + rest[0] + [sep] + Join(rest[1..], sep);
        }
      }
    }
  }

  lemma SplitNoSeparator(s: string, sep: char)
    requires sep !in s
    ensures Split(s, sep) == [s]
  {
    CountCharZero(s, sep);
    JoinSplit(s, sep);
  }

  /** Splitting a joined list gives back the list, provided no piece holds the separator. */
  lemma {:induction false} SplitJoin(parts: seq<string>, sep: char)
    requires |parts| >= 1
    requires forall k :: 0 <= k < |parts| ==> sep !in parts[k]
    ensures Split(Join(parts, sep), sep) == parts
  {
    if |parts| == 1 {
      SplitNoSeparator(parts[0], sep);
    } else {
      SplitJoin(parts[1..], sep);
      SplitPrefix(parts[0], Join(parts[1..], sep), sep);
      assert parts == [parts[0]] + parts[1..];
    }
  }

  /** Splitting `a + [sep] + b` where `a` holds no separator. */
  lemma {:induction false} SplitPrefix(a: string, b: string, sep: char)
    requires sep !in a
    ensures Split(a + [sep] + b, sep) == [a] + Split(b, sep)
  {
    if a == [] {
      assert a + [sep] + b == [sep] + b;
      assert ([sep] + b)[1..] == b;
    } else {
      SplitPrefix(a[1..], b, sep);
      assert (a + [sep] + b)[1..] == a[1..] + [sep] + b;
      assert [a[0]] + a[1..] == a;
    }
  }

  // ---------------------------------------------------------------------------
  // Number formatting (template-literal interpolation of an integer)
  // ---------------------------------------------------------------------------

  function DigitChar(d: int): char
    requires 0 <= d < 10
  {
    "0123456789"[d]
  }

  predicate IsDigit(c: char) { '0' <= c <= '9' }

  function DigitValue(c: char): int { c as int - '0' as int }

  /** Decimal value of a string of digits. */
  function DigitsValue(s: string): int {
    if s == [] then 0 else 10 * DigitsValue(s[..|s| - 1]) + DigitValue(s[|s| - 1])
  }

  /** Decimal text of a natural number, without leading zeros. */
  function NatToString(n: nat): (r: string)
    ensures r != []
    ensures forall i :: 0 <= i < |r| ==> IsDigit(r[i])
    ensures |r| > 1 ==> r[0] != '0'
  {
    if n < 10 then [DigitChar(n)] else NatToString(n / 10) + [DigitChar(n % 10)]
  }

  /** Reading the decimal text back gives the number. */
  lemma {:induction false} NatToStringValue(n: nat)
    ensures DigitsValue(NatToString(n)) == n
  {
    if n >= 10 {
      NatToStringValue(n / 10);
      var s := NatToString(n);
      assert s[..|s| - 1] == NatToString(n / 10);
    }
  }

  /** Different numbers have different decimal texts. */
  lemma NatToStringInjective(m: nat, n: nat)
    requires NatToString(m) == NatToString(n)
    ensures m == n
  {
    NatToStringValue(m);
    NatToStringValue(n);
  }

  /** Decimal text of an integer, with a leading '-' when it is negative. */
  function IntToString(i: int): (r: string)
    ensures r != []
    ensures forall k :: 0 <= k < |r| ==> IsDigit(r[k]) || r[k] == '-'
    ensures r[0] == '-' <==> i < 0
    ensures i < 0 ==> |r| >= 2
    ensures forall k :: (if i < 0 then 1 else 0) <= k < |r| ==> IsDigit(r[k])
    ensures DigitsValue(if i < 0 then r[1..] else r) == (if i < 0 then -i else i)
  {
    if i < 0 then
      var digits := NatToString(-i);
      var r := "-" + digits;
      NatToStringValue(-i);
      assert r[1..] == digits;
      assert forall k :: 1 <= k < |r| ==> r[k] == digits[k - 1];
      r
    else
      NatToStringValue(i);
      NatToString(i)
  }
}
