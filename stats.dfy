/** The two summary statistics the dashboard takes of a column: the median
    (`Series.median`) and the most frequent value (`Series.mode`). */
module Stats {
  import opened Wrappers
  import opened Seqs

  /** Non-decreasing order. */
  predicate Sorted(s: seq<real>)
  {
    forall i, j | 0 <= i < j < |s| :: s[i] <= s[j]
  }

  /** Inserts `x` in front of the first value that is not below it. */
  function Insert(x: real, s: seq<real>): (r: seq<real>)
    ensures |r| == |s| + 1
    decreases |s|
  {
    if s == [] || x <= s[0] then [x] + s else [s[0]] + Insert(x, s[1..])
  }

  /** Insertion adds exactly one occurrence of `x`. */
  lemma {:induction false} InsertCount(x: real, s: seq<real>)
    ensures multiset(Insert(x, s)) == multiset(s) + multiset{x}
    decreases |s|
  {
    if s != [] && x > s[0] {
      assert s == [s[0]] + s[1..];
      InsertCount(x, s[1..]);
    }
  }

  /** Every value after insertion is `x` or a value of `s`. */
  lemma {:induction false} InsertMembers(x: real, s: seq<real>)
    ensures forall k | 0 <= k < |Insert(x, s)| :: Insert(x, s)[k] == x || Insert(x, s)[k] in s
    decreases |s|
  {
    if s != [] && x > s[0] {
      InsertMembers(x, s[1..]);
      var rest := Insert(x, s[1..]);
      assert Insert(x, s) == [s[0]] + rest;
      forall k | 0 <= k < |rest| ensures rest[k] == x || rest[k] in s {
        if rest[k] != x {
          assert rest[k] in s[1..];
        }
      }
    }
  }

  /** Inserting into a sorted sequence keeps it sorted. */
  lemma {:induction false} InsertSorted(x: real, s: seq<real>)
    requires Sorted(s)
    ensures Sorted(Insert(x, s))
    decreases |s|
  {
    if s != [] && x > s[0] {
      var rest := Insert(x, s[1..]);
      InsertSorted(x, s[1..]);
      InsertMembers(x, s[1..]);
      assert forall k | 0 <= k < |rest| :: s[0] <= rest[k];
      var r := [s[0]] + rest;
      assert r == Insert(x, s);
      forall i, j | 0 <= i < j < |r| ensures r[i] <= r[j] {
        assert r[j] == rest[j - 1];
        if i > 0 {
          assert r[i] == rest[i - 1];
        }
      }
    }
  }

  /** The values of `s` in ascending order. */
  function SortReals(s: seq<real>): (r: seq<real>)
    ensures |r| == |s|
    decreases |s|
  {
    if s == [] then [] else Insert(s[0], SortReals(s[1..]))
  }

  /** Sorting orders the values. */
  lemma {:induction false} SortRealsSorted(s: seq<real>)
    ensures Sorted(SortReals(s))
    decreases |s|
  {
    if s != [] {
      SortRealsSorted(s[1..]);
      InsertSorted(s[0], SortReals(s[1..]));
    }
  }

  /** Sorting rearranges the values and neither adds nor drops any. */
  lemma {:induction false} SortRealsPermutation(s: seq<real>)
    ensures multiset(SortReals(s)) == multiset(s)
    decreases |s|
  {
    if s != [] {
      SortRealsPermutation(s[1..]);
      InsertCount(s[0], SortReals(s[1..]));
      assert s == [s[0]] + s[1..];
    }
  }

  /** The first value of a sorted sequence is its least. */
  lemma SortedHeadLeast(a: seq<real>, y: real)
    requires Sorted(a) && y in a
    ensures a[0] <= y
  {
    var i :| 0 <= i < |a| && a[i] == y;
  }
  /** Dropping the first value keeps a sequence sorted. */
  lemma SortedTail(a: seq<real>)
    requires Sorted(a) && |a| > 0
    ensures Sorted(a[1..])
  {
  }
  /** Two sorted arrangements of the same values are the same sequence. */
  lemma {:induction false} SortedUnique(a: seq<real>, b: seq<real>)
    requires Sorted(a) && Sorted(b)
    requires multiset(a) == multiset(b)
    ensures a == b
    decreases |a|
  {
    assert |a| == |multiset(a)| == |multiset(b)| == |b|;
    if |a| > 0 {
      assert a[0] in multiset(b);
      assert b[0] in multiset(a);
      SortedHeadLeast(b, a[0]);
      SortedHeadLeast(a, b[0]);
      var x := a[0];
      assert b[0] == x;
      var a', b' := a[1..], b[1..];
      assert a == [x] + a';
      assert b == [x] + b';
      assert multiset(a) == multiset{x} + multiset(a');
      assert multiset(b) == multiset{x} + multiset(b');
      assert multiset(a') == multiset(a) - multiset{x};
      assert multiset(b') == multiset(b) - multiset{x};
      SortedTail(a);
      SortedTail(b);
      SortedUnique(a', b');
    }
  }

  /** The middle of a sorted column: the middle value, or the mean of the
      two middle values when the count is even. */
  function Middle(t: seq<real>): real
    requires |t| > 0
  {
    var n := |t|;
    if n % 2 == 1 then t[n / 2] else (t[n / 2 - 1] + t[n / 2]) / 2.0
  }

  /** Median of a column (`Series.median`), undefined for an empty column. */
  function Median(s: seq<real>): (m: Option<real>)
    ensures m.Some? <==> |s| > 0
  {
    if |s| == 0 then None else Some(Middle(SortReals(s)))
  }

  /** The median depends only on the values, not on the order of the rows. */
  lemma {:induction false} MedianOfPermutation(s: seq<real>, t: seq<real>)
    requires multiset(s) == multiset(t)
    ensures Median(s) == Median(t)
  {
    var a, b := SortReals(s), SortReals(t);
    SortRealsSorted(s);
    SortRealsSorted(t);
    SortRealsPermutation(s);
    SortRealsPermutation(t);
    SortedUnique(a, b);
    assert |s| == |a| == |b| == |t|;
  }

  /** The median lies between two values of the column; with an odd count it is one of them. */
  lemma {:induction false} MedianBetween(s: seq<real>)
    requires |s| > 0
    ensures exists i, j | 0 <= i < |s| && 0 <= j < |s| :: s[i] <= Median(s).value <= s[j]
    ensures |s| % 2 == 1 ==> Median(s).value in s
  {
    var t := SortReals(s);
    var n := |t|;
    SortRealsSorted(s);
    SortRealsPermutation(s);
    var lo, hi := if n % 2 == 1 then n / 2 else n / 2 - 1, n / 2;
    assert t[lo] <= Median(s).value <= t[hi];
    assert t[lo] in multiset(s) && t[hi] in multiset(s);
    var i :| 0 <= i < |s| && s[i] == t[lo];
    var j :| 0 <= j < |s| && s[j] == t[hi];
  }

  function AtMost(m: real): real -> bool { (x: real) => x <= m }

  function AtLeast(m: real): real -> bool { (x: real) => x >= m }

  /** In a sorted column the first half (rounded up) lies at or below the middle and the
      last half (rounded up) at or above it. */
  lemma MiddleSplits(t: seq<real>)
    requires Sorted(t) && |t| > 0
    ensures forall i | 0 <= i < (|t| + 1) / 2 :: AtMost(Middle(t))(t[i])
    ensures forall i | |t| / 2 <= i < |t| :: AtLeast(Middle(t))(t[i])
  {
    var n, m := |t|, Middle(t);
    var lo, hi := if n % 2 == 1 then n / 2 else n / 2 - 1, n / 2;
    assert t[lo] <= m <= t[hi];
    forall i | 0 <= i < (n + 1) / 2 ensures AtMost(m)(t[i]) {
      assert t[i] <= t[lo];
    }
    forall i | n / 2 <= i < n ensures AtLeast(m)(t[i]) {
      assert t[hi] <= t[i];
    }
  }

  /** The median is a middle: at least half the values (rounded up) are no greater than
      it, and at least half are no smaller. */
  lemma MedianHalves(s: seq<real>)
    requires |s| > 0
    ensures |Filter(s, AtMost(Median(s).value))| >= (|s| + 1) / 2
    ensures |Filter(s, AtLeast(Median(s).value))| >= (|s| + 1) / 2
  {
    var t := SortReals(s);
    var n, m := |t|, Middle(t);
    assert Median(s).value == m;
    SortRealsSorted(s);
    SortRealsPermutation(s);
    MiddleSplits(t);
    FilterRun(t, AtMost(m), 0, (n + 1) / 2);
    FilterRun(t, AtLeast(m), n / 2, n);
    FilterPermutation(s, t, AtMost(m));
    FilterPermutation(s, t, AtLeast(m));
  }

  /** Number of occurrences of `x` in `s`. */
  function Occ<T(==)>(s: seq<T>, x: T): nat
  {
    multiset(s)[x]
  }

  /** Scans positions `i..` for a strictly more frequent value than the one at `best`. */
  function ModeScan<T(==)>(s: seq<T>, i: nat, best: nat): (k: nat)
    requires best < i <= |s|
    ensures k < |s|
    decreases |s| - i
  {
    if i == |s| then best
    else if Occ(s, s[i]) > Occ(s, s[best]) then ModeScan(s, i + 1, i)
    else ModeScan(s, i + 1, best)
  }

  /** If `best` is most frequent among the first `i` positions, and strictly more frequent
      than every earlier position, the scan ends on a position of the same kind for all of `s`. */
  lemma {:induction false} ModeScanMost<T>(s: seq<T>, i: nat, best: nat)
    requires best < i <= |s|
    requires forall j | 0 <= j < i :: Occ(s, s[j]) <= Occ(s, s[best])
    requires forall j | 0 <= j < best :: Occ(s, s[j]) < Occ(s, s[best])
    ensures forall j | 0 <= j < |s| :: Occ(s, s[j]) <= Occ(s, s[ModeScan(s, i, best)])
    ensures forall j | 0 <= j < ModeScan(s, i, best) :: Occ(s, s[j]) < Occ(s, s[ModeScan(s, i, best)])
    decreases |s| - i
  {
    if i < |s| {
      if Occ(s, s[i]) > Occ(s, s[best]) {
        ModeScanMost(s, i + 1, i);
      } else {
        ModeScanMost(s, i + 1, best);
      }
    }
  }

  /** Position of the mode: the first position holding a most frequent value. */
  function ModeIndex<T(==)>(s: seq<T>): (k: nat)
    requires |s| > 0
    ensures k < |s|
  {
    ModeScan(s, 1, 0)
  }

  /** The most frequent value; among equally frequent values, the one met first. */
  function Mode<T(==)>(s: seq<T>): (x: T)
    requires |s| > 0
  {
    s[ModeIndex(s)]
  }

  /** The mode occurs in the column, no value occurs more often, and every value met before
      its first occurrence occurs strictly less often. */
  lemma ModeIsMostFrequent<T>(s: seq<T>, y: T)
    requires |s| > 0
    ensures Mode(s) in s
    ensures y in s ==> Occ(s, y) <= Occ(s, Mode(s))
    ensures forall j | 0 <= j < ModeIndex(s) :: Occ(s, s[j]) < Occ(s, Mode(s))
  {
    ModeScanMost(s, 1, 0);
    if y in s {
      var j :| 0 <= j < |s| && s[j] == y;
    }
  }

  /** A value that occurs everywhere is the mode. */
  lemma ModeOfConstant<T>(s: seq<T>, y: T)
    requires |s| > 0
    requires forall i | 0 <= i < |s| :: s[i] == y
    ensures Mode(s) == y
  {
  }
}
