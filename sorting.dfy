/**
 * A stable insertion sort over a comparison `le` (`le(a, b)`: `a` may come
 * before `b`). It stands for SQLite's ORDER BY and for Python's `sorted`
 * alike; the lemmas say what any caller may rely on: the result is ordered,
 * is a permutation of the input, and keeps tied elements in input order.
 */
module Sorting {

  ghost predicate TotalPreorder<T(!new)>(le: (T, T) -> bool)
  {
    && (forall a, b :: le(a, b) || le(b, a))
    && (forall a, b, c :: le(a, b) && le(b, c) ==> le(a, c))
  }

  predicate SortedBy<T>(s: seq<T>, le: (T, T) -> bool)
  {
    forall i, j :: 0 <= i < j < |s| ==> le(s[i], s[j])
  }

  /** `x` goes in front of the first element it may precede. */
  function Insert<T>(x: T, s: seq<T>, le: (T, T) -> bool): (r: seq<T>)
    ensures |r| == |s| + 1
  {
    if s == [] || le(x, s[0]) then [x] + s else [s[0]] + Insert(x, s[1..], le)
  }

  function Sort<T>(s: seq<T>, le: (T, T) -> bool): (r: seq<T>)
    ensures |r| == |s|
  {
    if s == [] then [] else Insert(s[0], Sort(s[1..], le), le)
  }

  /** The elements of `s` that compare equal to `z`, in their order in `s`. */
  function TiedWith<T>(s: seq<T>, z: T, le: (T, T) -> bool): seq<T>
  {
    if s == [] then []
    else (if le(z, s[0]) && le(s[0], z) then [s[0]] else []) + TiedWith(s[1..], z, le)
  }

  lemma {:induction false} InsertPermutes<T>(x: T, s: seq<T>, le: (T, T) -> bool)
    ensures multiset(Insert(x, s, le)) == multiset{x} + multiset(s)
  {
    if s != [] && !le(x, s[0]) {
      InsertPermutes(x, s[1..], le);
      assert s == [s[0]] + s[1..];
    }
  }

  lemma {:induction false} SortPermutes<T>(s: seq<T>, le: (T, T) -> bool)
    ensures multiset(Sort(s, le)) == multiset(s)
  {
    if s != [] {
      SortPermutes(s[1..], le);
      InsertPermutes(s[0], Sort(s[1..], le), le);
      assert s == [s[0]] + s[1..];
    }
  }

  lemma {:induction false} InsertSorted<T(!new)>(x: T, s: seq<T>, le: (T, T) -> bool)
    requires TotalPreorder(le) && SortedBy(s, le)
    ensures SortedBy(Insert(x, s, le), le)
  {
    if s == [] {
    } else if le(x, s[0]) {
      var r := [x] + s;
      forall i, j | 0 <= i < j < |r| ensures le(r[i], r[j]) {
        if i > 0 {
          assert le(s[i - 1], s[j - 1]);
        } else {
          assert le(s[0], s[j - 1]) || j == 1;
        }
      }
    } else {
      var rest := Insert(x, s[1..], le);
      InsertSorted(x, s[1..], le);
      InsertPermutes(x, s[1..], le);
      forall k | 0 <= k < |rest| ensures le(s[0], rest[k]) {
        assert rest[k] in multiset(rest);
        if rest[k] != x {
          assert rest[k] in multiset(s[1..]);
          var m :| 0 <= m < |s[1..]| && s[1..][m] == rest[k];
          assert s[m + 1] == rest[k];
        }
      }
      var r := [s[0]] + rest;
      forall i, j | 0 <= i < j < |r| ensures le(r[i], r[j]) {
        if i > 0 {
          assert le(rest[i - 1], rest[j - 1]);
        } else {
          assert le(s[0], rest[j - 1]);
        }
      }
    }
  }

  lemma {:induction false} SortSorted<T(!new)>(s: seq<T>, le: (T, T) -> bool)
    requires TotalPreorder(le)
    ensures SortedBy(Sort(s, le), le)
  {
    if s != [] {
      SortSorted(s[1..], le);
      InsertSorted(s[0], Sort(s[1..], le), le);
    }
  }

  lemma {:induction false} InsertStable<T(!new)>(x: T, s: seq<T>, z: T, le: (T, T) -> bool)
    requires TotalPreorder(le)
    ensures TiedWith(Insert(x, s, le), z, le)
         == (if le(z, x) && le(x, z) then [x] else []) + TiedWith(s, z, le)
  {
    if s == [] || le(x, s[0]) {
      var r := [x] + s;
      assert r[0] == x && r[1..] == s;
    } else {
      var r := [s[0]] + Insert(x, s[1..], le);
      assert r[0] == s[0] && r[1..] == Insert(x, s[1..], le);
      InsertStable(x, s[1..], z, le);
      var tx := if le(z, x) && le(x, z) then [x] else [];
      var t0 := if le(z, s[0]) && le(s[0], z) then [s[0]] else [];
      assert tx == [] || t0 == [];
      assert TiedWith(r, z, le) == t0 + (tx + TiedWith(s[1..], z, le));
      assert TiedWith(s, z, le) == t0 + TiedWith(s[1..], z, le);
    }
  }

  /** Stability: among elements that compare equal, the sort keeps input order. */
  lemma {:induction false} SortStable<T(!new)>(s: seq<T>, z: T, le: (T, T) -> bool)
    requires TotalPreorder(le)
    ensures TiedWith(Sort(s, le), z, le) == TiedWith(s, z, le)
  {
    if s != [] {
      SortStable(s[1..], z, le);
      InsertStable(s[0], Sort(s[1..], le), z, le);
    }
  }

  /**
   * Cutting a sorted sequence after its first `n` elements keeps elements
   * that come no later than every element cut away.
   */
  lemma PrefixComesFirst<T>(s: seq<T>, n: nat, le: (T, T) -> bool)
    requires SortedBy(s, le) && n <= |s|
    ensures SortedBy(s[..n], le)
    ensures multiset(s[..n]) + multiset(s[n..]) == multiset(s)
    ensures forall x, y :: x in s[..n] && y in s[n..] ==> le(x, y)
  {
    assert s == s[..n] + s[n..];
    forall x, y | x in s[..n] && y in s[n..] ensures le(x, y) {
      var i :| 0 <= i < n && s[..n][i] == x;
      var j :| 0 <= j < |s| - n && s[n..][j] == y;
      assert s[i] == x && s[n + j] == y;
    }
  }

  /**
   * `ORDER BY ... LIMIT n`: the first `n` elements in the order `le`. They
   * are drawn from `s`, and under a total preorder they come in order and
   * no element left out comes before one that was kept.
   */
  function FirstBy<T(!new)>(s: seq<T>, n: nat, le: (T, T) -> bool): (r: seq<T>)
    requires n <= |s|
    ensures |r| == n
    ensures multiset(r) <= multiset(s)
    ensures TotalPreorder(le) ==> SortedBy(r, le)
    ensures TotalPreorder(le) ==>
              forall x, y :: x in r && y in multiset(s) - multiset(r) ==> le(x, y)
  {
    var sorted := Sort(s, le);
    SortPermutes(s, le);
    assert sorted == sorted[..n] + sorted[n..];
    assert multiset(s) - multiset(sorted[..n]) == multiset(sorted[n..]);
    assert TotalPreorder(le) ==>
             SortedBy(sorted[..n], le) && forall x, y :: x in sorted[..n] && y in sorted[n..] ==> le(x, y) by {
      if TotalPreorder(le) {
        SortSorted(s, le);
        PrefixComesFirst(sorted, n, le);
      }
    }
    sorted[..n]
  }
}
