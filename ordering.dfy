/** Listing a finite set of row ids in ascending or descending order, as an
    `ORDER BY id` (or `ORDER BY id DESC`) query returns them. */
module Ordering {

  predicate StrictlyIncreasing(r: seq<int>) {
    forall i, j :: 0 <= i < j < |r| ==> r[i] < r[j]
  }

  predicate StrictlyDecreasing(r: seq<int>) {
    forall i, j :: 0 <= i < j < |r| ==> r[i] > r[j]
  }

  /** A set that is not empty has an element. */
  lemma NonEmpty(s: set<int>)
    requires s != {}
    ensures exists y :: y in s
  {
    if forall y :: y !in s {
      assert false;
    }
  }

  lemma {:induction false} MinExists(s: set<int>)
    requires s != {}
    ensures exists m :: m in s && forall x :: x in s ==> m <= x
  {
    NonEmpty(s);
    var y :| y in s;
    if s != {y} {
      MinExists(s - {y});
      var m :| m in s - {y} && forall x :: x in s - {y} ==> m <= x;
      var least := if y < m then y else m;
      forall x | x in s
        ensures least <= x
      {
        if x != y {
          assert x in s - {y};
        }
      }
    }
  }

  lemma {:induction false} MaxExists(s: set<int>)
    requires s != {}
    ensures exists m :: m in s && forall x :: x in s ==> x <= m
  {
    NonEmpty(s);
    var y :| y in s;
    if s != {y} {
      MaxExists(s - {y});
      var m :| m in s - {y} && forall x :: x in s - {y} ==> x <= m;
      var greatest := if m < y then y else m;
      forall x | x in s
        ensures x <= greatest
      {
        if x != y {
          assert x in s - {y};
        }
      }
    }
  }

  /** The elements of `s`, smallest first. */
  function Ascending(s: set<int>): (r: seq<int>)
    ensures |r| == |s|
    ensures forall i :: 0 <= i < |r| ==> r[i] in s
    ensures forall x {:trigger x in r} :: x in s ==> x in r
    ensures StrictlyIncreasing(r)
    decreases s
  {
    if s == {} then []
    else
      MinExists(s);
      var m :| m in s && forall x :: x in s ==> m <= x;
      [m] + Ascending(s - {m})
  }

  /** The elements of `s`, largest first. */
  function Descending(s: set<int>): (r: seq<int>)
    ensures |r| == |s|
    ensures forall i :: 0 <= i < |r| ==> r[i] in s
    ensures forall x {:trigger x in r} :: x in s ==> x in r
    ensures StrictlyDecreasing(r)
    decreases s
  {
    if s == {} then []
    else
      MaxExists(s);
      var m :| m in s && forall x :: x in s ==> x <= m;
      [m] + Descending(s - {m})
  }

  /** The tail of an increasing sequence holds its elements other than the first. */
  lemma InTail(a: seq<int>, x: int)
    requires StrictlyIncreasing(a) && a != []
    ensures x in a[1..] <==> x in a && x != a[0]
  {
    if x in a[1..] {
      var k :| 0 <= k < |a[1..]| && a[1..][k] == x;
      assert a[k + 1] == x && a[0] < x;
    }
    if x in a && x != a[0] {
      var j :| 0 <= j < |a| && a[j] == x;
      assert a[1..][j - 1] == x;
    }
  }

  /** Two increasing sequences with the same elements are equal. */
  lemma {:induction false} IncreasingUnique(a: seq<int>, b: seq<int>)
    requires StrictlyIncreasing(a) && StrictlyIncreasing(b)
    requires forall x :: x in a <==> x in b
    ensures a == b
    decreases |a|
  {
    assert b == [] || b[0] in b;
    if a != [] {
      assert a[0] in a;
      assert b[0] in a;
      assert a[0] == b[0] by {
        var i :| 0 <= i < |a| && a[i] == b[0];
        var j :| 0 <= j < |b| && b[j] == a[0];
        assert a[0] <= a[i] && b[0] <= b[j];
      }
      forall x
        ensures x in a[1..] <==> x in b[1..]
      {
        InTail(a, x);
        InTail(b, x);
      }
      IncreasingUnique(a[1..], b[1..]);
      assert a == [a[0]] + a[1..];
      assert b == [b[0]] + b[1..];
    }
  }

  /** A set has one increasing listing: any increasing sequence with the same
      elements is `Ascending(s)`. */
  lemma AscendingUnique(s: set<int>, r: seq<int>)
    requires StrictlyIncreasing(r)
    requires forall x :: x in r <==> x in s
    ensures r == Ascending(s)
  {
    var a := Ascending(s);
    forall x
      ensures x in r <==> x in a
    {
      if x in a {
        var k :| 0 <= k < |a| && a[k] == x;
      }
    }
    IncreasingUnique(r, a);
  }

  /** The ids `lo, lo + 1, ..., lo + n - 1`, in that order. */
  function Range(lo: int, n: nat): (r: seq<int>)
    ensures |r| == n
    ensures forall i :: 0 <= i < n ==> r[i] == lo + i
  {
    seq(n, i requires 0 <= i < n => lo + i)
  }

  /** A block of consecutive ids is listed in the order it was allocated. */
  lemma AscendingRange(s: set<int>, lo: int, n: nat)
    requires forall x :: x in s <==> lo <= x < lo + n
    ensures Ascending(s) == Range(lo, n)
  {
    var r := Range(lo, n);
    forall x
      ensures x in r <==> x in s
    {
      if lo <= x < lo + n {
        assert r[x - lo] == x;
      }
    }
    AscendingUnique(s, r);
  }

  /** Listing a set that gains an element larger than all others appends it. */
  lemma AscendingAppend(s: set<int>, k: int)
    requires forall x :: x in s ==> x < k
    ensures Ascending(s + {k}) == Ascending(s) + [k]
  {
    var olds := Ascending(s);
    var a := olds + [k];
    assert StrictlyIncreasing(a) by {
      forall i, j | 0 <= i < j < |a|
        ensures a[i] < a[j]
      {
        if j == |olds| {
          assert olds[i] in s;
        }
      }
    }
    forall x
      ensures x in a <==> x in s + {k}
    {
      if x in s {
        assert x in olds;
      }
    }
    AscendingUnique(s + {k}, a);
  }

  /** Listing a set that gains a block of consecutive ids above all of its
      elements appends the block, in order. */
  lemma AscendingAppendRange(a: set<int>, b: set<int>, lo: int, n: nat)
    requires forall x :: x in a ==> x < lo
    requires forall x :: x in b <==> lo <= x < lo + n
    ensures Ascending(a + b) == Ascending(a) + Range(lo, n)
  {
    var olds, block := Ascending(a), Range(lo, n);
    var r := olds + block;
    assert StrictlyIncreasing(r) by {
      forall i, j | 0 <= i < j < |r|
        ensures r[i] < r[j]
      {
        if i < |olds| && j >= |olds| {
          assert olds[i] in a;
        }
      }
    }
    forall x
      ensures x in r <==> x in a + b
    {
      if x in a {
        assert x in olds;
      }
      if x in b {
        assert block[x - lo] == x;
      }
    }
    AscendingUnique(a + b, r);
  }
}
