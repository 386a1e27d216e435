/** Concrete situations of the monitoring loop, stated against the model:
    the first two crafts of the demonstration run (threshold 50, Apollo and
    Enterprise), a close pair, and a removal from a three-craft registry. */
module Scenarios {
  import opened Kinematics
  import opened Crafts
  import opened Proximity
  import opened Projection
  import opened TrafficControl

  const Apollo := CraftState("Apollo", Vec3(0.0, 0.0, 0.0), Vec3(5.0, 3.0, 0.0))
  const Enterprise := CraftState("Enterprise", Vec3(100.0, 50.0, 0.0), Vec3(-2.0, 1.0, 0.0))

  /** Apollo and Enterprise start about 111.8 apart and are about 104.6
      apart after one unit of time: no alert either time under threshold 50. */
  lemma ApolloEnterpriseApart()
    ensures ClosePairs([Apollo, Enterprise], 50.0) == []
    ensures Advance(Apollo, 1.0).pos == Vec3(5.0, 3.0, 0.0)
    ensures Advance(Enterprise, 1.0).pos == Vec3(98.0, 51.0, 0.0)
    ensures ClosePairs([Advance(Apollo, 1.0), Advance(Enterprise, 1.0)], 50.0) == []
  {
    var before := [Apollo, Enterprise];
    assert SquaredDistance(before[0].pos, before[1].pos) == 12500.0;
    ClosePairsEmpty(before, 50.0);
    var after := [Advance(Apollo, 1.0), Advance(Enterprise, 1.0)];
    assert SquaredDistance(after[0].pos, after[1].pos) == 10953.0;
    ClosePairsEmpty(after, 50.0);
  }

  /** Crafts 10 apart under threshold 20 are reported once, as positions
      (0, 1), with squared distance 100. */
  lemma ClosePairReported()
    ensures var s := [CraftState("A", Vec3(0.0, 0.0, 0.0), Vec3(0.0, 0.0, 0.0)),
                      CraftState("B", Vec3(10.0, 0.0, 0.0), Vec3(0.0, 0.0, 0.0))];
            ClosePairs(s, 20.0) == [Pair(0, 1)] && SquaredDistance(s[0].pos, s[1].pos) == 100.0
  {
    var s := [CraftState("A", Vec3(0.0, 0.0, 0.0), Vec3(0.0, 0.0, 0.0)),
              CraftState("B", Vec3(10.0, 0.0, 0.0), Vec3(0.0, 0.0, 0.0))];
    assert SquaredDistance(s[0].pos, s[1].pos) == 100.0;
    assert RowPairs(s, 20.0, 1, 2) == [];
    assert RowPairs(s, 20.0, 0, 2) == [Pair(0, 1)];
  }

  /** Falcon starts at (-50, -30): with the default span of 200 its cell is
      column 7 and row 8, because 7.5 and 8.5 are truncated, not rounded. */
  lemma FalconCell()
    ensures GridIndex(-50.0, 200.0) == 7
    ensures GridIndex(-30.0, 200.0) == 8
  {
    assert (-50.0 / 200.0) * GridHalf + GridHalf == 7.5;
    assert (-30.0 / 200.0) * GridHalf + GridHalf == 8.5;
  }

  /** The first two crafts of the demonstration run, driven through the
      controller: Apollo and Enterprise registered under threshold 50 and
      scanned. */
  method DemonstrationOpening()
  {
    var controller := new SpaceTrafficController(50.0);
    var apollo := new Spacecraft("Apollo", 0.0, 0.0, 0.0, 5.0, 3.0, 0.0);
    var enterprise := new Spacecraft("Enterprise", 100.0, 50.0, 0.0, -2.0, 1.0, 0.0);
    controller.AddSpacecraft(apollo);
    controller.AddSpacecraft(enterprise);
    ApolloEnterpriseApart();
    assert controller.States() == [Apollo, Enterprise];
    var alerts := controller.CheckCollisions();
    assert alerts == [];
  }

  /** The first step of the demonstration run's first two crafts: one
      update moves Apollo to (5, 3, 0) and Enterprise to (98, 51, 0), which
      `ApolloEnterpriseApart` shows are still not reported. */
  method DemonstrationStep()
  {
    var controller := new SpaceTrafficController(50.0);
    var apollo := new Spacecraft("Apollo", 0.0, 0.0, 0.0, 5.0, 3.0, 0.0);
    var enterprise := new Spacecraft("Enterprise", 100.0, 50.0, 0.0, -2.0, 1.0, 0.0);
    controller.AddSpacecraft(apollo);
    controller.AddSpacecraft(enterprise);
    assert controller.spacecraftList == [apollo, enterprise] && apollo != enterprise;
    assert Registry.Distinct(controller.spacecraftList);
    assert apollo.State() == Apollo && enterprise.State() == Enterprise;
    controller.UpdatePositions(1.0);
    assert controller.spacecraftList == [apollo, enterprise];
    assert apollo.State() == Advance(Apollo, 1.0);
    assert enterprise.State() == Advance(Enterprise, 1.0);
    ApolloEnterpriseApart();
    assert apollo.x == 5.0 && apollo.y == 3.0 && apollo.z == 0.0;
    assert enterprise.x == 98.0 && enterprise.y == 51.0 && enterprise.z == 0.0;
  }

  /** Removing the middle one of three registered crafts by its identifier
      leaves the other two in order. */
  method RemovalRun(controller: SpaceTrafficController, apollo: Spacecraft, enterprise: Spacecraft, falcon: Spacecraft)
    requires controller.spacecraftList == [apollo, enterprise, falcon]
    requires apollo.id == "Apollo" && enterprise.id == "Enterprise" && falcon.id == "Falcon"
    modifies controller
    ensures controller.spacecraftList == [apollo, falcon]
  {
    assert controller.Ids() == ["Apollo", "Enterprise", "Falcon"];
    var removed := controller.RemoveSpacecraft("Enterprise");
    assert removed;
  }
}
