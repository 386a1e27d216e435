/** The traffic controller: an ordered registry of spacecraft references with
    a collision threshold, which it advances in lockstep, scans pairwise for
    crafts that are too close, and projects onto a character grid. */
module TrafficControl {
  import opened Wrappers
  import opened Kinematics
  import opened Crafts
  import opened Proximity
  import opened Registry
  import opened Projection

  /** One reported pair: the two crafts, lower registry position first, and
      the square of their distance. */
  datatype Alert = Alert(craft1: Spacecraft, craft2: Spacecraft, squaredDistance: real)

  /** What drawing the top view produces. */
  datatype Picture =
    | NoSpacecraft              // the registry is empty: nothing is drawn
    | DivisionByZero            // a zero span with crafts to place
    | Drawn(grid: array2<char>) // rows are y cells, columns x cells

  /** The alert for positions `p` of a registry holding `crafts`, whose
      states are `s`. */
  function AlertOf(crafts: seq<Spacecraft>, s: seq<CraftState>, p: Pair): Alert
    requires |crafts| == |s| && p.i < |s| && p.j < |s|
  {
    Alert(crafts[p.i], crafts[p.j], SquaredDistance(s[p.i].pos, s[p.j].pos))
  }

  /** `alerts` are the alerts for `pairs`, one for one and in the same
      order. */
  ghost predicate Reports(alerts: seq<Alert>, crafts: seq<Spacecraft>, s: seq<CraftState>, pairs: seq<Pair>)
  {
    && |crafts| == |s| && |alerts| == |pairs|
    && forall k :: 0 <= k < |pairs| ==>
         pairs[k].i < |s| && pairs[k].j < |s| && alerts[k] == AlertOf(crafts, s, pairs[k])
  }

  /** Alerts for two runs of pairs, joined, are the alerts for the joined
      runs. */
  lemma ReportsConcat(alerts: seq<Alert>, more: seq<Alert>, crafts: seq<Spacecraft>, s: seq<CraftState>,
                      pairs: seq<Pair>, morePairs: seq<Pair>)
    requires Reports(alerts, crafts, s, pairs) && Reports(more, crafts, s, morePairs)
    ensures Reports(alerts + more, crafts, s, pairs + morePairs)
  {
    var alerts', pairs' := alerts + more, pairs + morePairs;
    forall k | 0 <= k < |pairs'|
      ensures pairs'[k].i < |s| && pairs'[k].j < |s| && alerts'[k] == AlertOf(crafts, s, pairs'[k])
    {
      if k < |pairs| {
        assert pairs'[k] == pairs[k] && alerts'[k] == alerts[k];
      } else {
        assert pairs'[k] == morePairs[k - |pairs|] && alerts'[k] == more[k - |pairs|];
      }
    }
  }

  class SpaceTrafficController {
    var spacecraftList: seq<Spacecraft>
    var collisionThreshold: real

    constructor (collisionThreshold: real := 100.0)
      ensures spacecraftList == [] && this.collisionThreshold == collisionThreshold
    {
      spacecraftList := [];
      this.collisionThreshold := collisionThreshold;
    }

    /** The states of the registered crafts, in registry order. */
    function States(): (r: seq<CraftState>)
      reads this, spacecraftList
      ensures |r| == |spacecraftList|
      ensures forall k :: 0 <= k < |r| ==> r[k] == spacecraftList[k].State()
    {
      var crafts := spacecraftList;
      seq(|crafts|, k requires 0 <= k < |crafts| reads crafts => crafts[k].State())
    }

    /** The identifiers of the registered crafts, in registry order. */
    function Ids(): seq<string>
      reads this, spacecraftList
    {
      var crafts := spacecraftList;
      seq(|crafts|, k requires 0 <= k < |crafts| reads crafts => crafts[k].id)
    }

    /** Appends `craft` at the end of the registry; duplicates are accepted. */
    method AddSpacecraft(craft: Spacecraft)
      modifies this
      ensures spacecraftList == old(spacecraftList) + [craft]
      ensures collisionThreshold == old(collisionThreshold)
    {
      spacecraftList := spacecraftList + [craft];
    }

    /** Removes the first craft whose identifier is `spacecraftId`, keeping the
        others in order; an absent identifier changes nothing. `removed` tells
        which of the two happened. */
    method RemoveSpacecraft(spacecraftId: string) returns (removed: bool)
      modifies this
      ensures removed <==> spacecraftId in old(Ids())
      ensures collisionThreshold == old(collisionThreshold)
      ensures match FirstIndexOf(old(Ids()), spacecraftId)
              case None => spacecraftList == old(spacecraftList)
              case Some(k) => spacecraftList == RemoveAt(old(spacecraftList), k)
    {
      ghost var ids := Ids();
      var i := 0;
      while i < |spacecraftList|
        invariant 0 <= i <= |spacecraftList|
        invariant spacecraftList == old(spacecraftList)
        invariant forall k :: 0 <= k < i ==> ids[k] != spacecraftId
      {
        if spacecraftList[i].id == spacecraftId {
          assert ids[i] == spacecraftId;
          assert FirstIndexOf(ids, spacecraftId) == Some(i);
          spacecraftList := RemoveAt(spacecraftList, i);
          return true;
        }
        i := i + 1;
      }
      return false;
    }

    /** Steps every entry of the registry once, in order. A craft registered
        `n` times is therefore stepped `n` times; the registry itself does
        not change. */
    method UpdatePositions(timeStep: real)
      modifies spacecraftList
      ensures forall c :: c in spacecraftList ==>
                c.State() == AdvanceTimes(old(c.State()), timeStep, multiset(spacecraftList)[c])
      ensures Distinct(spacecraftList) ==>
                forall k :: 0 <= k < |spacecraftList| ==>
                  spacecraftList[k].State() == Advance(old(spacecraftList[k].State()), timeStep)
    {
      var i := 0;
      while i < |spacecraftList|
        invariant 0 <= i <= |spacecraftList| && spacecraftList == old(spacecraftList)
        invariant forall c :: c in spacecraftList ==>
                    c.State() == AdvanceTimes(old(c.State()), timeStep, multiset(spacecraftList[..i])[c])
      {
        var craft := spacecraftList[i];
        label Before:
        craft.UpdatePosition(timeStep);
        forall c | c in spacecraftList
          ensures c.State() == AdvanceTimes(old(c.State()), timeStep, multiset(spacecraftList[..i + 1])[c])
        {
          CountStep(spacecraftList, i, c);
          if c != craft {
            assert c.State() == old@Before(c.State());
          }
        }
        i := i + 1;
      }
      assert spacecraftList[..i] == spacecraftList;
      if Distinct(spacecraftList) {
        forall k | 0 <= k < |spacecraftList|
          ensures multiset(spacecraftList)[spacecraftList[k]] == 1
        {
          OccursOnce(spacecraftList, k);
        }
      }
    }

    /** Scans every pair of registry positions `i < j` in order and reports
        those closer than the threshold. */
    method CheckCollisions() returns (collisionPairs: seq<Alert>)
      ensures |collisionPairs| == |ClosePairs(States(), collisionThreshold)|
      ensures forall k :: 0 <= k < |collisionPairs| ==>
                collisionPairs[k] == AlertOf(spacecraftList, States(), ClosePairs(States(), collisionThreshold)[k])
    {
      var n := |spacecraftList|;
      ghost var s := States();
      ghost var pairs: seq<Pair> := [];
      collisionPairs := [];
      var i := 0;
      while i < n
        invariant 0 <= i <= n
        invariant pairs == PairsBefore(s, collisionThreshold, n, i)
        invariant Reports(collisionPairs, spacecraftList, s, pairs)
      {
        var row := ScanRow(i);
        ReportsConcat(collisionPairs, row, spacecraftList, s, pairs, RowPairs(s, collisionThreshold, i, n));
        collisionPairs := collisionPairs + row;
        pairs := pairs + RowPairs(s, collisionThreshold, i, n);
        i := i + 1;
      }
      assert pairs == ClosePairs(s, collisionThreshold);
    }

    /** One round of the outer scan: craft `i` against every later craft, in
        registry order. */
    method ScanRow(i: nat) returns (alerts: seq<Alert>)
      requires i < |spacecraftList|
      ensures Reports(alerts, spacecraftList, States(), RowPairs(States(), collisionThreshold, i, |spacecraftList|))
    {
      var n := |spacecraftList|;
      ghost var s := States();
      ghost var pairs: seq<Pair> := [];
      alerts := [];
      var j := i + 1;
      while j < n
        invariant i + 1 <= j <= n
        invariant pairs == RowPairs(s, collisionThreshold, i, j)
        invariant Reports(alerts, spacecraftList, s, pairs)
      {
        var craft1 := spacecraftList[i];
        var craft2 := spacecraftList[j];
        var distance := craft1.SquaredDistanceTo(craft2);
        assert s[i] == craft1.State() && s[j] == craft2.State();
        if WithinThreshold(distance, collisionThreshold) {
          assert Alert(craft1, craft2, distance) == AlertOf(spacecraftList, s, Pair(i, j));
          ReportsConcat(alerts, [Alert(craft1, craft2, distance)], spacecraftList, s, pairs, [Pair(i, j)]);
          alerts := alerts + [Alert(craft1, craft2, distance)];
          pairs := pairs + [Pair(i, j)];
        } else {
          assert pairs + [] == pairs;
        }
        j := j + 1;
      }
    }

    /** Draws the top view onto a fresh `GridDim` by `GridDim` grid, with
        `gridSize` units on each side of the centre. */
    method VisualizeSpace(gridSize: real := 200.0) returns (picture: Picture)
      ensures spacecraftList == [] ==> picture == NoSpacecraft
      ensures spacecraftList != [] && gridSize == 0.0 ==> picture == DivisionByZero
      ensures spacecraftList != [] && gridSize != 0.0 ==>
                && picture.Drawn?
                && fresh(picture.grid)
                && picture.grid.Length0 == GridDim && picture.grid.Length1 == GridDim
                && forall row, col :: 0 <= row < GridDim && 0 <= col < GridDim ==>
                     picture.grid[row, col] == CellAt(States(), gridSize, row, col)
    {
      if spacecraftList == [] {
        return NoSpacecraft;
      }
      if gridSize == 0.0 {
        return DivisionByZero;
      }
      var grid := new char[GridDim, GridDim]((row, col) => EmptyCell);
      ghost var s := States();
      var i := 0;
      while i < |spacecraftList|
        invariant 0 <= i <= |spacecraftList|
        invariant forall row, col :: 0 <= row < GridDim && 0 <= col < GridDim ==>
                    grid[row, col] == CellAt(s[..i], gridSize, row, col)
      {
        var craft := spacecraftList[i];
        var col := GridIndex(craft.x, gridSize);
        var row := GridIndex(craft.y, gridSize);
        assert s[i] == craft.State();
        label Before:
        grid[row, col] := Glyph(craft.id);
        forall r, c | 0 <= r < GridDim && 0 <= c < GridDim
          ensures grid[r, c] == CellAt(s[..i + 1], gridSize, r, c)
        {
          CellAtStep(s, i, gridSize, r, c);
          if r != row || c != col {
            assert grid[r, c] == old@Before(grid[r, c]);
          }
        }
        i := i + 1;
      }
      assert s[..i] == s;
      return Drawn(grid);
    }
  }
}
