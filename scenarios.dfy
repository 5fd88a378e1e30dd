/** Client runs of the attachment engine that show, from the contracts alone,
    how the engine behaves over whole sequences of physics events. */
module Scenarios {
  import opened Geometry
  import opened Counting
  import opened Items

  const BottomLayer: Layer := 8
  const ItemSettings := Settings(DefaultBottomLayerMask, true, true, 1, "Item")
  const Upright := Quaternion(1, 0, 0, 0)

  /** A fresh table, an item tagged "Item" at `height` above the origin, and a
      surface at the origin on the bottom layer that the item has just landed on
      at tick 0. */
  method Landed(height: int) returns (table: CountManager, item: ItemBehavior, s: Surface)
    ensures fresh(table) && fresh(item) && fresh(s) && fresh(item.itemCollider)
    ensures item.Valid() && item.counter == table && table.GetTagCount("Item") == 1
    ensures item.isOnBottom && item.hasCounted && item.bottom == s && s.alive && item.itemCollider != s
    ensures item.parent == s && item.itemCollider.layer == BottomLayer && item.itemCollider.alive
    ensures s.position == Zero && s.layer == BottomLayer
    ensures item.position == Vec3(0, height, 0) && item.relativeOffset == Vec3(0, height, 0)
    ensures item.rotation == Upright && item.lastRotation == Upright && !item.isKinematic
    ensures item.bottomLayerMask == DefaultBottomLayerMask
    ensures item.freezePositionOnContact && item.freezeRotationOnContact && item.contactThreshold == 1
    ensures item.tag == "Item" && item.targetTag == "Item"
    ensures item.pending == [] && item.events == [TaggedItemDestroyed("Item"), BottomContact(s)]
  {
    DefaultMaskAcceptsOnlyLayerEight(BottomLayer);
    table := new CountManager();
    var own := new Surface(BottomLayer, Vec3(0, height, 0));
    s := new Surface(BottomLayer, Zero);
    item := new ItemBehavior(ItemSettings, "Item", own, table, Vec3(0, height, 0), Upright,
                             Zero, Zero, false, null);
    item.OnCollisionEnter(s, 0);
  }

  /** The item lands on S1 at tick 0 and is counted. S1 moves away at tick 5;
      S2 takes its place; the re-check due at tick 7 finds S2 and the item
      migrates to it, still counted once. */
  method MigrationScenario() returns (countAfterAttach: int, countAfterMigration: int,
                                      earlyResume: bool, migrated: bool)
    ensures countAfterAttach == 1 && countAfterMigration == 1
    ensures !earlyResume && migrated
  {
    var table, item, s1 := Landed(5);
    countAfterAttach := table.GetTagCount("Item");

    item.OnCollisionExit(s1, 5);
    var s2 := new Surface(BottomLayer, Vec3(0, 1, 0));
    DefaultMaskAcceptsOnlyLayerEight(BottomLayer);
    earlyResume := item.DelayedBottomCheck(6, [Candidate(s2, 1)], 10);
    var query := [Candidate(item.itemCollider, 0), Candidate(s2, 1)];
    FirstQualifyingUnique(query, item.itemCollider, 10, 1);
    var resumed := item.DelayedBottomCheck(7, query, 10);
    migrated := resumed && item.isOnBottom && item.bottom == s2 && item.hasCounted;
    countAfterMigration := table.GetTagCount("Item");
  }

  /** A contact flicker: the contact ends and begins again one tick later. The
      new contact begin is ignored because the item is still on the bottom,
      and the re-check finds the same surface: no exit, no second count, the
      same bottom. */
  method FlickerScenario() returns (count: int, exitRaised: bool, sameBottom: bool)
    ensures count == 1 && !exitRaised && sameBottom
  {
    var table, item, s := Landed(3);
    var before := item.events;
    item.OnCollisionExit(s, 3);
    item.OnCollisionEnter(s, 4);
    var query := [Candidate(s, 0)];
    FirstQualifyingUnique(query, item.itemCollider, 10, 0);
    DefaultMaskAcceptsOnlyLayerEight(BottomLayer);
    var resumed := item.DelayedBottomCheck(5, query, 10);
    exitRaised := item.events != before;
    sameBottom := resumed && item.isOnBottom && item.bottom == s;
    count := table.GetTagCount("Item");
  }

  /** The item of `Landed`, after its contact with S1 ended at tick 1 and the
      re-check at tick 3 migrated it to S2: S2 is the bottom, S1 (not S2) stays
      the parent, and the episode is still counted once. */
  method Migrated() returns (table: CountManager, item: ItemBehavior, s1: Surface, s2: Surface)
    ensures fresh(table) && fresh(item) && fresh(s1) && fresh(s2)
    ensures item.Valid() && item.counter == table && table.GetTagCount("Item") == 1
    ensures item.isOnBottom && item.hasCounted && item.bottom == s2 && s2.alive
    ensures item.parent == s1 && s1 != s2 && s1.alive
    ensures item.bottomLayerMask == DefaultBottomLayerMask
    ensures item.tag == "Item" && item.targetTag == "Item"
  {
    table, item, s1 := Landed(2);
    item.OnCollisionExit(s1, 1);
    s2 := new Surface(BottomLayer, Zero);
    var query := [Candidate(s2, 0)];
    FirstQualifyingUnique(query, item.itemCollider, 10, 0);
    DefaultMaskAcceptsOnlyLayerEight(BottomLayer);
    var resumed := item.DelayedBottomCheck(3, query, 10);
  }

  /** A surface destroyed under an item that is not its child. After `Migrated`,
      S2 is destroyed with no contact end: the item, still S1's child, survives,
      LateUpdate detaches it with one destroyed event, and the next landing is a
      new episode counted again. */
  method DestroyedSurfaceScenario() returns (countBefore: int, parentKept: bool, free: bool,
                                             destroyedEvents: seq<Event>, countAfterNewLanding: int)
    ensures countBefore == 1 && parentKept && free && destroyedEvents == [BottomDestroyed]
    ensures countAfterNewLanding == 2
  {
    var table, item, s1, s2 := Migrated();
    countBefore := table.GetTagCount("Item");

    var before := item.events;
    s2.Destroy();
    parentKept := item.parent == s1 && s1.alive;
    assert item.Valid() && item.isOnBottom && !item.TransformLive();
    item.LateUpdate();
    free := !item.isOnBottom && item.bottom == null && !item.hasCounted;
    assert item.events == before + [BottomDestroyed];
    destroyedEvents := item.events[|before|..];

    var s3 := new Surface(BottomLayer, Zero);
    DefaultMaskAcceptsOnlyLayerEight(BottomLayer);
    item.OnCollisionEnter(s3, 9);
    countAfterNewLanding := table.GetTagCount("Item");
  }

  /** Two contact ends from the bottom with an ignored contact begin in between
      leave two re-checks suspended. When neither finds a surface, the exit
      event is raised twice for one episode: nothing removes the second
      re-check once the first has detached the item. */
  method DuplicateExitScenario() returns (exitEvents: seq<Event>, count: int)
    ensures exitEvents == [BottomExit, BottomExit] && count == 1
  {
    var table, item, s := Landed(2);
    var before := item.events;
    item.OnCollisionExit(s, 1);
    item.OnCollisionEnter(s, 2);
    item.OnCollisionExit(s, 2);
    var first := item.DelayedBottomCheck(3, [], 10);
    var second := item.DelayedBottomCheck(4, [], 10);
    assert first && second;
    exitEvents := item.events[|before|..];
    count := table.GetTagCount("Item");
  }

  /** Drift correction: a position beyond the threshold from the target snaps
      back to the target with zero velocity; a second frame changes nothing. */
  method DriftScenario() returns (snapped: Vec3, velocity: Vec3, secondFrameUnchanged: bool)
    ensures snapped == Vec3(0, 2, 0) && velocity == Zero && secondFrameUnchanged
  {
    var table, item, s := Landed(2);
    item.position := Vec3(3, 2, 0);
    item.linearVelocity := Vec3(1, 0, 0);
    assert item.Target() == Vec3(0, 2, 0);
    assert DistSq(item.position, item.Target()) == 9;
    item.Update(0);
    snapped := item.position;
    velocity := item.linearVelocity;
    item.Update(0);
    secondFrameUnchanged := item.position == snapped && item.linearVelocity == velocity;
  }
}
