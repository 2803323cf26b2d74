/**
 * Array.prototype.sort with a comparator, as the queue views use it. The
 * sort is stable (required of JavaScript engines since ES2019), so it is
 * modelled by insertion sort: each element goes in front of the first
 * element of the already-sorted rest that it may precede, which keeps
 * elements the comparator calls equal in their original order.
 * `le(a, b)` stands for "compare(a, b) <= 0".
 */
module Sorting {

  function InsertBy<T>(x: T, s: seq<T>, le: (T, T) -> bool): (r: seq<T>)
    ensures |r| == |s| + 1
    ensures multiset(r) == multiset(s) + multiset{x}
  {
    if s == [] || le(x, s[0]) then [x] + s
    else
      assert s == [s[0]] + s[1..];
      [s[0]] + InsertBy(x, s[1..], le)
  }

  function SortBy<T>(s: seq<T>, le: (T, T) -> bool): (r: seq<T>)
    ensures |r| == |s|
    ensures multiset(r) == multiset(s)
  {
    if s == [] then []
    else
      assert s == [s[0]] + s[1..];
      InsertBy(s[0], SortBy(s[1..], le), le)
  }

  predicate SortedBy<T>(s: seq<T>, le: (T, T) -> bool) {
    forall i, j :: 0 <= i < j < |s| ==> le(s[i], s[j])
  }

  /** `le` is total and transitive on the elements of `s`. */
  ghost predicate TotalPreorderOn<T>(s: seq<T>, le: (T, T) -> bool) {
    && (forall a, b :: a in s && b in s ==> le(a, b) || le(b, a))
    && (forall a, b, c :: a in s && b in s && c in s && le(a, b) && le(b, c) ==> le(a, c))
  }

  lemma {:induction false} InsertBySorted<T>(x: T, s: seq<T>, le: (T, T) -> bool)
    requires SortedBy(s, le)
    requires TotalPreorderOn([x] + s, le)
    ensures SortedBy(InsertBy(x, s, le), le)
  {
    if s == [] || le(x, s[0]) {
      var r := [x] + s;
      forall i, j | 0 <= i < j < |r| ensures le(r[i], r[j]) {
        if i == 0 && j > 1 {
          assert r[j] == s[j - 1] && s[0] in [x] + s && r[j] in [x] + s;
        }
      }
    } else {
      var t := s[1..];
      assert TotalPreorderOn([x] + t, le) by {
        assert forall y :: y in [x] + t ==> y in [x] + s;
      }
      InsertBySorted(x, t, le);
      var ins := InsertBy(x, t, le);
      var r := [s[0]] + ins;
      assert le(s[0], x) by { assert x in [x] + s && s[0] in [x] + s; }
      forall i, j | 0 <= i < j < |r| ensures le(r[i], r[j]) {
        if i == 0 {
          var y := r[j];
          assert y in multiset(ins);
          assert y == x || y in t;
          if y in t {
            var k :| 0 <= k < |t| && t[k] == y;
            assert s[k + 1] == y;
          }
        }
      }
    }
  }

  lemma {:induction false} SortBySorted<T>(s: seq<T>, le: (T, T) -> bool)
    requires TotalPreorderOn(s, le)
    ensures SortedBy(SortBy(s, le), le)
  {
    if s != [] {
      var t := s[1..];
      assert forall y :: y in t ==> y in s;
      SortBySorted(t, le);
      var sorted := SortBy(t, le);
      assert forall y :: y in [s[0]] + sorted ==> y in s by {
        forall y | y in [s[0]] + sorted ensures y in s {
          if y != s[0] {
            assert y in multiset(sorted);
          }
        }
      }
      InsertBySorted(s[0], sorted, le);
    }
  }

  /**
   * Inserting into `a + b`, where `x` may precede no element of `a` and may
   * precede the first element of `b`, lands `x` exactly between them.
   */
  lemma {:induction false} InsertBySplit<T>(x: T, a: seq<T>, b: seq<T>, le: (T, T) -> bool)
    requires forall k :: 0 <= k < |a| ==> !le(x, a[k])
    requires b == [] || le(x, b[0])
    ensures InsertBy(x, a + b, le) == a + [x] + b
  {
    if a == [] {
      assert a + b == b;
    } else {
      var ab, t := a + b, a[1..];
      assert ab[0] == a[0];
      assert ab[1..] == t + b;
      assert InsertBy(x, ab, le) == [a[0]] + InsertBy(x, t + b, le);
      InsertBySplit(x, t, b, le);
      AppendAssoc(t, [x], b);
      AppendAssoc([a[0]], t, [x] + b);
      assert [a[0]] + t == a;
      AppendAssoc(a, [x], b);
    }
  }

  lemma AppendAssoc<T>(a: seq<T>, b: seq<T>, c: seq<T>)
    ensures a + b + c == a + (b + c)
  {
  }
}
