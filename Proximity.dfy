/** The pairwise proximity scan as a value: which index pairs of the registry
    are closer than the collision threshold, in the order the nested scan
    visits them. */
module Proximity {
  import opened Kinematics

  /** Positions `i` and `j` of the registry, first index first. */
  datatype Pair = Pair(i: nat, j: nat)

  /** Lexicographic order on index pairs: the order of the nested scan. */
  predicate Before(p: Pair, q: Pair)
  {
    p.i < q.i || (p.i == q.i && p.j < q.j)
  }

  predicate Ordered(ps: seq<Pair>)
  {
    forall a, b :: 0 <= a < b < |ps| ==> Before(ps[a], ps[b])
  }

  /** `i` and `j` are positions of `s` whose crafts are closer than
      `threshold`. */
  predicate Close(s: seq<CraftState>, threshold: real, i: nat, j: nat)
  {
    i < |s| && j < |s| && WithinThreshold(SquaredDistance(s[i].pos, s[j].pos), threshold)
  }

  /** The pairs `(i, j)` with `i < j < m` for which `Close` holds, by
      increasing `j`: what the inner loop has found after reaching `m`. */
  function RowPairs(s: seq<CraftState>, threshold: real, i: nat, m: nat): seq<Pair>
    decreases m
  {
    if m <= i + 1 then []
    else RowPairs(s, threshold, i, m - 1) + (if Close(s, threshold, i, m - 1) then [Pair(i, m - 1)] else [])
  }

  /** The pairs among `count` positions for which `Close` holds and whose
      first index is below `n`: what the outer loop has found after `n`
      rounds. */
  function PairsBefore(s: seq<CraftState>, threshold: real, count: nat, n: nat): seq<Pair>
  {
    if n == 0 then [] else PairsBefore(s, threshold, count, n - 1) + RowPairs(s, threshold, n - 1, count)
  }

  /** Every close pair of the registry, in scan order. */
  function ClosePairs(s: seq<CraftState>, threshold: real): (r: seq<Pair>)
    ensures forall k :: 0 <= k < |r| ==> r[k].i < r[k].j < |s|
  {
    PairsBeforeRange(s, threshold, |s|, |s|);
    PairsBefore(s, threshold, |s|, |s|)
  }

  /** Every pair of `ps` has first index `i` and second index between `i`
      and `m`. */
  predicate InRow(ps: seq<Pair>, i: nat, m: nat)
  {
    forall k :: 0 <= k < |ps| ==> ps[k].i == i && i < ps[k].j < m
  }

  /** Every pair of `ps` has first index below `n`, below its second index,
      which is below `count`. */
  predicate InRounds(ps: seq<Pair>, n: nat, count: nat)
  {
    forall k :: 0 <= k < |ps| ==> ps[k].i < n && ps[k].i < ps[k].j < count
  }

  /** The inner loop up to `m` only reports pairs `(i, j)` with `i < j < m`. */
  lemma {:induction false} RowPairsRange(s: seq<CraftState>, threshold: real, i: nat, m: nat)
    ensures InRow(RowPairs(s, threshold, i, m), i, m)
    decreases m
  {
    if m > i + 1 {
      RowPairsRange(s, threshold, i, m - 1);
      var front, r := RowPairs(s, threshold, i, m - 1), RowPairs(s, threshold, i, m);
      if Close(s, threshold, i, m - 1) {
        assert r == front + [Pair(i, m - 1)];
      } else {
        assert r == front;
      }
      forall k | 0 <= k < |r|
        ensures r[k].i == i && i < r[k].j < m
      {
        if k < |front| {
          assert r[k] == front[k];
        }
      }
    }
  }

  /** The first `n` rounds of the outer loop only report pairs `(i, j)` with
      `i < n` and `i < j < count`. */
  lemma {:induction false} PairsBeforeRange(s: seq<CraftState>, threshold: real, count: nat, n: nat)
    requires n <= count
    ensures InRounds(PairsBefore(s, threshold, count, n), n, count)
  {
    if n > 0 {
      PairsBeforeRange(s, threshold, count, n - 1);
      RowPairsRange(s, threshold, n - 1, count);
      var front, row := PairsBefore(s, threshold, count, n - 1), RowPairs(s, threshold, n - 1, count);
      var r := PairsBefore(s, threshold, count, n);
      assert r == front + row;
      forall k | 0 <= k < |r|
        ensures r[k].i < n && r[k].i < r[k].j < count
      {
        if k < |front| {
          assert r[k] == front[k];
        } else {
          assert r[k] == row[k - |front|];
        }
      }
    }
  }

  /** Every pair of `ps` satisfies `Close`. */
  predicate AllClose(s: seq<CraftState>, threshold: real, ps: seq<Pair>)
  {
    forall k :: 0 <= k < |ps| ==> Close(s, threshold, ps[k].i, ps[k].j)
  }

  /** Joining two runs whose pairs all satisfy `Close` keeps that property. */
  lemma AllCloseAppend(s: seq<CraftState>, threshold: real, front: seq<Pair>, back: seq<Pair>)
    requires AllClose(s, threshold, front) && AllClose(s, threshold, back)
    ensures AllClose(s, threshold, front + back)
  {
    forall k | 0 <= k < |front + back|
      ensures Close(s, threshold, (front + back)[k].i, (front + back)[k].j)
    {
      if k < |front| {
        assert (front + back)[k] == front[k];
      } else {
        assert (front + back)[k] == back[k - |front|];
      }
    }
  }

  /** Every pair the inner loop reports up to `m` satisfies `Close`. */
  lemma {:induction false} RowPairsSound(s: seq<CraftState>, threshold: real, i: nat, m: nat)
    ensures AllClose(s, threshold, RowPairs(s, threshold, i, m))
    decreases m
  {
    if m > i + 1 {
      RowPairsSound(s, threshold, i, m - 1);
      var last := if Close(s, threshold, i, m - 1) then [Pair(i, m - 1)] else [];
      assert AllClose(s, threshold, last);
      AllCloseAppend(s, threshold, RowPairs(s, threshold, i, m - 1), last);
    }
  }

  /** The inner loop up to `m` reports every pair `(i, j)` with `i < j < m`
      that satisfies `Close`. */
  lemma {:induction false} RowPairsComplete(s: seq<CraftState>, threshold: real, i: nat, m: nat)
    ensures forall j: nat :: i < j < m && Close(s, threshold, i, j) ==> Pair(i, j) in RowPairs(s, threshold, i, m)
    decreases m
  {
    if m > i + 1 {
      RowPairsComplete(s, threshold, i, m - 1);
      var front := RowPairs(s, threshold, i, m - 1);
      var r := RowPairs(s, threshold, i, m);
      forall j: nat | i < j < m && Close(s, threshold, i, j)
        ensures Pair(i, j) in r
      {
        if j < m - 1 {
          assert Pair(i, j) in front;
        } else {
          assert r[|r| - 1] == Pair(i, j);
        }
      }
    }
  }

  /** The inner loop reports its pairs by increasing `j`. */
  lemma {:induction false} RowPairsOrdered(s: seq<CraftState>, threshold: real, i: nat, m: nat)
    ensures Ordered(RowPairs(s, threshold, i, m))
    decreases m
  {
    if m > i + 1 {
      RowPairsOrdered(s, threshold, i, m - 1);
      RowPairsRange(s, threshold, i, m - 1);
      OrderedAppend(RowPairs(s, threshold, i, m - 1), if Close(s, threshold, i, m - 1) then [Pair(i, m - 1)] else []);
    }
  }

  /** Every pair the first `n` rounds of the outer loop report satisfies `Close`. */
  lemma {:induction false} PairsBeforeSound(s: seq<CraftState>, threshold: real, count: nat, n: nat)
    requires n <= count
    ensures AllClose(s, threshold, PairsBefore(s, threshold, count, n))
  {
    if n > 0 {
      PairsBeforeSound(s, threshold, count, n - 1);
      RowPairsSound(s, threshold, n - 1, count);
      AllCloseAppend(s, threshold, PairsBefore(s, threshold, count, n - 1), RowPairs(s, threshold, n - 1, count));
    }
  }

  /** The first `n` rounds of the outer loop report every pair satisfying
      `Close` whose first index is below `n`. */
  lemma {:induction false} PairsBeforeComplete(s: seq<CraftState>, threshold: real, count: nat, n: nat)
    requires n <= count
    ensures forall i: nat, j: nat :: i < n && i < j < count && Close(s, threshold, i, j) ==>
              Pair(i, j) in PairsBefore(s, threshold, count, n)
  {
    if n > 0 {
      PairsBeforeComplete(s, threshold, count, n - 1);
      RowPairsComplete(s, threshold, n - 1, count);
      var front, row := PairsBefore(s, threshold, count, n - 1), RowPairs(s, threshold, n - 1, count);
      assert PairsBefore(s, threshold, count, n) == front + row;
      forall i: nat, j: nat | i < n && i < j < count && Close(s, threshold, i, j)
        ensures Pair(i, j) in front + row
      {
        if i < n - 1 {
          assert Pair(i, j) in front;
        } else {
          assert Pair(i, j) in row;
        }
      }
    }
  }

  /** The outer loop reports its pairs in lexicographic order. */
  lemma {:induction false} PairsBeforeOrdered(s: seq<CraftState>, threshold: real, count: nat, n: nat)
    requires n <= count
    ensures Ordered(PairsBefore(s, threshold, count, n))
  {
    if n > 0 {
      PairsBeforeOrdered(s, threshold, count, n - 1);
      RowPairsOrdered(s, threshold, n - 1, count);
      var front, row := PairsBefore(s, threshold, count, n - 1), RowPairs(s, threshold, n - 1, count);
      assert forall a, b :: 0 <= a < |front| && 0 <= b < |row| ==> Before(front[a], row[b]) by {
        PairsBeforeRange(s, threshold, count, n - 1);
        RowPairsRange(s, threshold, n - 1, count);
      }
      OrderedAppend(front, row);
    }
  }

  /** Two ordered runs joined in order stay ordered. */
  lemma OrderedAppend(front: seq<Pair>, back: seq<Pair>)
    requires Ordered(front) && Ordered(back)
    requires forall a, b :: 0 <= a < |front| && 0 <= b < |back| ==> Before(front[a], back[b])
    ensures Ordered(front + back)
  {
    forall a, b | 0 <= a < b < |front + back|
      ensures Before((front + back)[a], (front + back)[b])
    {
      if b < |front| {
        assert (front + back)[a] == front[a] && (front + back)[b] == front[b];
      } else if a < |front| {
        assert (front + back)[a] == front[a] && (front + back)[b] == back[b - |front|];
      } else {
        assert (front + back)[a] == back[a - |front|] && (front + back)[b] == back[b - |front|];
      }
    }
  }

  /** `(i, j)` is reported if and only if `i < j` are positions of the
      registry whose crafts are close; pairs come in lexicographic order. */
  lemma ClosePairsExact(s: seq<CraftState>, threshold: real)
    ensures forall i: nat, j: nat :: Pair(i, j) in ClosePairs(s, threshold) <==>
              i < j < |s| && Close(s, threshold, i, j)
    ensures Ordered(ClosePairs(s, threshold))
  {
    var r := ClosePairs(s, threshold);
    assert r == PairsBefore(s, threshold, |s|, |s|);
    PairsBeforeSound(s, threshold, |s|, |s|);
    PairsBeforeComplete(s, threshold, |s|, |s|);
    PairsBeforeOrdered(s, threshold, |s|, |s|);
    forall i: nat, j: nat | Pair(i, j) in r
      ensures i < j < |s| && Close(s, threshold, i, j)
    {
      var k :| 0 <= k < |r| && r[k] == Pair(i, j);
      assert Close(s, threshold, i, j);
    }
  }

  /** The scan reports nothing exactly when no two crafts are close. */
  lemma ClosePairsEmpty(s: seq<CraftState>, threshold: real)
    ensures ClosePairs(s, threshold) == [] <==>
            forall i, j :: 0 <= i < j < |s| ==> !Close(s, threshold, i, j)
  {
    ClosePairsExact(s, threshold);
    var r := ClosePairs(s, threshold);
    if r != [] {
      assert r[0] in r;
      assert Pair(r[0].i, r[0].j) in r;
    }
    if exists i, j :: 0 <= i < j < |s| && Close(s, threshold, i, j) {
      var i, j :| 0 <= i < j < |s| && Close(s, threshold, i, j);
      assert Pair(i, j) in r;
    }
  }

  /** Scan order is strict, so no pair is reported twice. */
  lemma OrderedNoRepeats(ps: seq<Pair>)
    requires Ordered(ps)
    ensures forall a, b :: 0 <= a < b < |ps| ==> ps[a] != ps[b]
  {
  }

  /** Closeness does not depend on which craft comes first. */
  lemma CloseSymmetric(s: seq<CraftState>, threshold: real, i: nat, j: nat)
    ensures Close(s, threshold, i, j) <==> Close(s, threshold, j, i)
  {
    if i < |s| && j < |s| {
      SquaredDistanceSymmetric(s[i].pos, s[j].pos);
    }
  }
}
