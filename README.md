# Item attachment, tag counting and pickup — a Dafny model

This project models three Unity components of a small warehouse game.

- **ItemBehavior** (`item_behavior.dfy`, module `Items`) attaches an item to a
  "bottom" surface when it collides with one on an accepted physics layer. While
  attached it keeps the item at a fixed offset from the surface and, when asked,
  at a fixed rotation. When the contact ends it waits two fixed-update ticks and
  runs an overlap query. That decides whether the item still rests on something
  or has left. It notices a bottom destroyed under it while the item lives on, which is when
  that bottom is not the item's transform parent. It counts the item in the
  shared tag table once per resting episode.
- **CountManager** (`count_manager.dfy`, module `Counting`) is the shared table
  from tag name to count. It has increment, read, reset-one and reset-all
  operations, plus the start-up registration of a tag at 0.
- **ObjectPickup** (`object_pickup.dfy`, module `Pickup`) keeps the list of
  scene objects with one tag. On a key press it picks up the nearest active
  object within reach, hiding it and counting the pickup. It drops the held
  object at a given point, and it maintains the list.

`geometry.dfy` (module `Geometry`) holds integer vectors and squared distances.
`scenarios.dfy` (module `Scenarios`) holds client methods that drive the
engine through whole event sequences and prove the outcome from the contracts
alone:

- migration to a second surface;
- a contact flicker;
- a destroyed surface;
- the duplicate exit event;
- drift correction.

Modelling choices:

- **Classes.** Each component is a `class` whose methods update its fields, as
  the source does.
  - The static dictionary is one `CountManager` object. Every item holds a
    reference to it.
  - A scene object that can be destroyed carries an `alive` flag. This stands
    for Unity's overloaded `== null`, under which a destroyed object compares
    equal to null.
  - `bottomCollider` and `bottomTransform` are always assigned together. They
    are modelled as one field, `bottom: Surface?`.
- **The re-check coroutine** is a FIFO `pending` of deadlines, one per
  suspended re-check.
  - `OnCollisionExit(other, tick)` appends `tick + 2`, counting in fixed-update ticks.
  - `DelayedBottomCheck(tick, candidates)` resumes the oldest one once it is due.
  - The overlap query's results are a parameter, each with its distance to the
    item. `DelayedBottomCheck` requires every result to lie on an accepted
    layer, because the query filters by the layer mask. A result that was
    destroyed is rejected like a null one.
  - The magnitude of the item collider's extents is read at each re-check, so
    it is a parameter of `DelayedBottomCheck` as well.
- **Host inputs are parameters:**
  - the current time `Time.time` (the `time` argument, stored as the last contact time);
  - the key presses;
  - the angle between two rotations (`Quaternion.Angle`);
  - the drop point in front of the player;
  - the scene query `FindGameObjectsWithTag`.
- **Distances.** A test `distance > t` is written on squared integer
  distances, `DistSq(a, b) > t * t`.
- **Notifications.** The callbacks the engine invokes are recorded, in order,
  as a sequence `events`.

### Behaviour of the code worth knowing

- While a re-check is suspended the item is still on the bottom. A contact
  begin in that window is ignored by the `!isOnBottom` guard
  (itembehavior.cs:78), and the suspended re-check still runs
  (`FlickerScenario`).
- Every accepted contact end with the current bottom starts one more re-check
  (itembehavior.cs:113-115). Nothing cancels or merges them.
- A re-check does not look at `isOnBottom` (itembehavior.cs:120-160). It can
  rebind `bottom` while the item is already detached, or raise the exit event
  a second time for one resting episode (`DuplicateExitScenario`).
- The re-check keeps the first qualifying overlap result in query order and
  stops there (itembehavior.cs:132-146, `FirstQualifying`).
- Only the no-surface branch detaches and resets the count flag
  (itembehavior.cs:148-159). The re-check never moves the transform parent,
  and no detaching path restores the cached original parent.

## Model

| member | source | states |
|---|---|---|
| Geometry.DistSq | itembehavior.cs:168 | the squared distance is zero exactly when the two points coincide |
| Geometry.Exceeds | itembehavior.cs:168 | the threshold test `distance > threshold`, stated on squared distances |
| Counting.Incremented | CountManager.cs:54-61 | an increment adds the tag's key, creates it at 1 when absent, raises its count by one, leaves every other tag's count alone and keeps counts non-negative |
| Counting.ResetOne | CountManager.cs:75-78 | a reset keeps the key set, sets a present tag to 0 (an absent one reads 0 anyway), leaves other tags alone and keeps counts non-negative |
| Counting.Registered | CountManager.cs:21-24 | start-up registration adds the key at 0 only when absent, so no tag's observable count changes |
| Counting.ApplyAllNonNegative | CountManager.cs:52-85 | no sequence of table operations makes any count negative |
| Counting.LookupIsTally | CountManager.cs:52-85 | after any interleaving of operations, a tag's count equals its own per-tag tally: operations on other tags never disturb it |
| Counting.TallyWithoutResets | CountManager.cs:52-64 | without resets, a tag's count grows by exactly its number of increments |
| Counting.CountFromEmpty | CountManager.cs:16 | from the empty table with no resets, a tag's count is the number of times it was incremented |
| Counting.CountManager.constructor | CountManager.cs:16 | the shared table starts empty |
| Counting.CountManager.Start | CountManager.cs:18-33 | the table becomes its registration with the target tag |
| Counting.CountManager.IncrementTagCount | CountManager.cs:52-64 | the table becomes its increment at the tag; counts stay non-negative |
| Counting.CountManager.GetTagCount | CountManager.cs:67-70 | the stored count for a present tag, 0 for an absent one, never negative on a valid table |
| Counting.CountManager.ResetTagCount | CountManager.cs:73-79 | the table becomes its reset at the tag, which then reads 0 |
| Counting.CountManager.ResetAllCounts | CountManager.cs:82-85 | the table is emptied and every tag reads 0 |
| Items.LayerInMask | itembehavior.cs:76 | OR-ing the layer's bit into the mask leaves it unchanged exactly when that bit of the mask is set |
| Items.DefaultMaskAcceptsOnlyLayerEight | itembehavior.cs:9 | the default mask `1 << 8` accepts layer 8 and no other layer |
| Items.Qualifies | itembehavior.cs:134-137 | a result qualifies when it is a live (non-null) collider, not the item's own, with distance below half the magnitude of the item's extents |
| Items.FirstQualifying | itembehavior.cs:132-146 | the re-check's choice is a qualifying result (real, not the item's own collider, closer than half the extents' magnitude) with no qualifying result before it; there is none exactly when nothing qualifies |
| Items.FirstQualifyingUnique | itembehavior.cs:132-146 | any qualifying index with no qualifying index before it is the re-check's choice |
| Items.SnapPosition | itembehavior.cs:166-171 | drift correction ends within the threshold of the target; it leaves the position alone exactly when it is already within the threshold, and otherwise moves it to the target |
| Items.SnapPositionIdempotent | itembehavior.cs:166-171 | correcting an already corrected position changes nothing |
| Items.ItemBehavior.constructor | itembehavior.cs:35-56 | a new item is free (not on the bottom, no bottom, not counted), with the inspector settings, the scene's pose, velocities and parent kept, and its rotation snapshot taken |
| Items.ItemBehavior.Update | itembehavior.cs:58-72 | only while on a live bottom: exact new position, rotation and velocities. With position freezing on, the item ends within the threshold of its target. With rotation freezing on, it ends at the snapshot unless the angle was within the threshold. Otherwise nothing changes |
| Items.ItemBehavior.OnCollisionEnter | itembehavior.cs:74-107 | a contact on a rejected layer, or while already on the bottom, changes nothing. Otherwise the item attaches to the surface with offset, rotation snapshot, time, zero velocities and parent set, and is counted. The contact event is raised after the count |
| Items.ItemBehavior.OnCollisionExit | itembehavior.cs:109-118 | a re-check two ticks later is queued exactly when the layer is accepted and the surface is the current bottom; nothing else changes |
| Items.ItemBehavior.DelayedBottomCheck | itembehavior.cs:120-160 | given results on accepted layers and the current extents' magnitude, the oldest queued re-check resumes exactly when it is due and leaves the queue. The first qualifying result becomes the bottom, with a fresh offset, keeping the episode and its count. With none, the item becomes free and the exit event is raised |
| Items.ItemBehavior.MaintainRelativePosition | itembehavior.cs:162-178 | on a live bottom, the position becomes its drift correction and both velocities are zeroed exactly when it snapped; otherwise nothing changes |
| Items.ItemBehavior.FreezeRotation | itembehavior.cs:180-191 | an angle above the threshold restores the snapshot and zeroes the angular velocity unless the body is kinematic; otherwise nothing changes |
| Items.ItemBehavior.LateUpdate | itembehavior.cs:194-207 | on the bottom with a destroyed surface, the item becomes free and raises the destroyed event; otherwise nothing changes |
| Items.ItemBehavior.CheckTagAndCount | itembehavior.cs:210-221 | an item carrying the target tag increments that tag in the shared table and raises the counted event; any other item changes nothing |
| Items.ItemBehavior.SetBottomContact | itembehavior.cs:223-255 | attaching sets the bottom and, for a non-null one, the offset and the parent; snapshots rotation and time; counts unless already counted; raises the contact event. Detaching frees the item and raises the exit event |
| Items.ItemBehavior.ResetFreezeState | itembehavior.cs:262-269 | the offset is re-captured against a live bottom only; the rotation snapshot is always re-taken |
| Items.ItemBehavior.ForceExitBottom | itembehavior.cs:271-278 | the item is free and the exit event is raised |
| Items.ItemBehavior.ResetCountState | itembehavior.cs:281-284 | the item is no longer marked as counted |
| Pickup.IndexOf | ObjectPickUp.cs:126 | the position of the first occurrence of an object in a list that holds it |
| Pickup.RemoveFirst | ObjectPickUp.cs:126 | list removal drops one occurrence of the object (its multiset loses it once) and leaves a list without it unchanged |
| Pickup.RemoveFirstKeepsOrder | ObjectPickUp.cs:126 | the occurrence removed is the first one, and the elements before and after it keep their order |
| Pickup.RemoveFirstDistinct | ObjectPickUp.cs:122-128 | on a duplicate-free list, removal leaves a duplicate-free list without the object, one shorter exactly when it was present |
| Pickup.NearestIndex | ObjectPickUp.cs:72-83 | the scan's choice is an index of the list, or -1 for none; its argmin properties are `NearestIndexSpec` |
| Pickup.NearestIndexSpec | ObjectPickUp.cs:67-86 | the pickup choice is none exactly when no live, active object is within reach. Otherwise it is such an object, no farther than any other, and strictly nearer than every such object before it, so ties keep the earlier one |
| Pickup.ObjectPickup.constructor | ObjectPickUp.cs:13-21 | a new component holds nothing, has counted nothing, and tracks exactly the scene's objects of its tag |
| Pickup.ObjectPickup.FindAllObjects | ObjectPickUp.cs:23-35 | the tracked list becomes exactly the scene query's result, in order |
| Pickup.ObjectPickup.HandleInput | ObjectPickUp.cs:42-55 | a pickup happens only when the key is pressed, nothing live is held and something is in reach. A drop happens when its key is pressed and something is held, including what was just picked up. The count, the held object and the held object's visibility and position follow. No other tracked object changes, and the objects' live flags never change |
| Pickup.ObjectPickup.TryPickupObject | ObjectPickUp.cs:57-65 | with a nearest eligible object, it is held, hidden and counted, and no other tracked object's visibility changes; with none, nothing changes. Only visibility flags may change |
| Pickup.ObjectPickup.FindNearestObject | ObjectPickUp.cs:67-86 | the scan returns the nearest-object choice specified by `NearestIndexSpec` |
| Pickup.ObjectPickup.PickupObject | ObjectPickUp.cs:88-95 | the object is held and hidden, and the pickup count rises by one |
| Pickup.ObjectPickup.DropObject | ObjectPickUp.cs:97-110 | a live held object is placed at the drop point, shown again and released; otherwise nothing changes. Only its position and visibility may change |
| Pickup.ObjectPickup.AddObject | ObjectPickUp.cs:113-119 | a live object of the target tag not yet tracked is appended; anything else leaves the list unchanged; the list stays duplicate-free |
| Pickup.ObjectPickup.RemoveObject | ObjectPickUp.cs:122-128 | afterwards the object is not tracked; a tracked one is removed by list removal and an untracked one changes nothing |
| Pickup.ObjectPickup.RefreshObjectList | ObjectPickUp.cs:131-134 | the tracked list becomes the scene query's result |
| Pickup.ObjectPickup.SetObjectCount | ObjectPickUp.cs:143-146 | the count then reads back as the value set |
| Pickup.ObjectPickup.SetTargetTag | ObjectPickUp.cs:149-153 | the tag changes and the list becomes the scene's objects of the new tag |
| Scenarios.Landed | itembehavior.cs:74-107 | a first landing of an "Item" on a bottom-layer surface attaches it and counts it once, raising the counted and contact events in that order |
| Scenarios.MigrationScenario | itembehavior.cs:120-160 | after a contact end, a re-check before its deadline does nothing. The one at the deadline moves the item to the second surface, which qualifies after the item's own collider is skipped, and the count stays 1 |
| Scenarios.FlickerScenario | itembehavior.cs:74-160 | a contact end followed by an ignored contact begin and a re-check that finds the same surface raises no event, keeps the bottom and counts once |
| Scenarios.Migrated | itembehavior.cs:132-146 | after a contact end and a re-check that finds a second surface, the item rests on the second surface and is counted once. The first surface stays its parent, because the re-check does not reparent |
| Scenarios.DestroyedSurfaceScenario | itembehavior.cs:194-207 | the item is on a bottom that is not its parent. When that bottom is destroyed, the parent survives and the item is freed with exactly one destroyed event. The next landing is counted again |
| Scenarios.DuplicateExitScenario | itembehavior.cs:109-160 | two queued re-checks that find nothing raise the exit event twice for one episode |
| Scenarios.DriftScenario | itembehavior.cs:162-178 | a position beyond the threshold snaps to the target with zero velocity, and a second frame changes nothing |

## Left out

- Floating point: positions, distances, the contact threshold and the time are integers, and the float scale factors (`1.1f`, `0.5f`) appear only as the test `2 * distance < extentMagnitude`. The overlap box's size and orientation are the host's, and vector magnitudes are supplied rather than computed.
- Physics and the engine's queries are parameters: `Physics.OverlapBox` and `ClosestPoint` (the candidate list), `Quaternion.Angle` (the `angle` argument), `Time.time` (`time`), `Input.GetKeyDown` (the key flags), `player.forward` (the drop point), and `GameObject.FindGameObjectsWithTag` (a duplicate-free list of objects of that tag).
- Items.ItemBehavior.DelayedBottomCheck: the two `WaitForFixedUpdate` suspensions are a deadline in a FIFO queue. The host must resume re-checks with a non-decreasing tick.
- Items.ItemBehavior.constructor: the disable branch of `Start` for a missing rigid body or collider is not modelled, because `RequireComponent` guarantees both.
- Items.ItemBehavior.OnCollisionEnter: `collision.collider` and `collision.transform` are one `Surface`. A compound body whose collider sits on a child transform is not distinguished.
- Items.ItemBehavior.SetBottomContact: requires a live bottom when one is given, because reading the transform of a destroyed collider throws.
- `transform.SetParent` is only recorded in the `parent` field. Keeping the world position while reparenting has no further effect. `originalParent` is cached by `Start` but read nowhere, so it is not a field.
- The model does not destroy an item when its parent surface is destroyed, although Unity destroys a destroyed object's transform children with it. The model therefore keeps the item alive when its parent surface is destroyed. As a result, `LateUpdate`'s destroyed-bottom path is reachable in the model even where the source destroys the item along with its bottom. That happens when the bottom is also the parent, as after `OnCollisionEnter` or `SetBottomContact` with a surface. The source reaches that path only when the bottom is not the parent:
  - after a re-check migrated the item;
  - after `SetBottomContact(true, null)`;
  - after another component reparented the item.

  `DestroyedSurfaceScenario` is built from the migrated case.
- Notifications are recorded in `events` rather than invoked; subscribers are not modelled.
- Counting.CountManager.IncrementTagCount: counts are unbounded integers; the wrap-around of a 32-bit C# `int` after 2147483647 increments is not modelled.
- Pickup.ObjectPickup.PickupObject: `objectCount` is an unbounded integer; 32-bit wrap-around is not modelled.
- Pickup.ObjectPickup.AddObject: `List.Contains` and `List.Remove` compare by reference, as Unity objects do; a destroyed object that compares equal to null inside these list operations is not distinguished.
- `UpdateCountDisplay`, `CountManager.Update`, the display format and every `Debug.Log` call are user-interface output and are left out. `CountManager`'s per-instance `targetTag` is the argument of `Start`.
- Items.ItemBehavior.IsOnBottom, GetBottomCollider, GetRelativeOffset and GetLastContactTime, and Pickup.ObjectPickup.GetObjectCount, IsHoldingObject and GetHeldObject: plain reads of a field, carrying no contract of their own.
