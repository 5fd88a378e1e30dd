/** Pickup bookkeeping (ObjectPickup): the tracked objects of one tag, the
    object currently held, and the number of pickups so far. */
module Pickup {
  import opened Geometry

  /** A scene object that can be tracked and picked up. `alive` is false once
      it has been destroyed, which the source observes as the reference
      comparing equal to null. */
  class GameObject {
    const tag: string
    var active: bool
    var alive: bool
    var position: Vec3

    constructor (tag: string, position: Vec3)
      ensures this.tag == tag && this.position == position && active && alive
    {
      this.tag := tag;
      this.position := position;
      active := true;
      alive := true;
    }
  }

  /** The source's `obj != null`, with destroyed objects comparing equal to null. */
  predicate Live(o: GameObject?)
    reads o
  {
    o != null && o.alive
  }

  predicate Distinct<T(==)>(s: seq<T>)
  {
    forall i, j :: 0 <= i < j < |s| ==> s[i] != s[j]
  }

  /** Position of the first occurrence of `x` in `s`. */
  function IndexOf<T(==)>(s: seq<T>, x: T): (i: nat)
    requires x in s
    ensures i < |s| && s[i] == x && x !in s[..i]
    decreases |s|
  {
    if s[0] == x then 0
    else
      var j := IndexOf(s[1..], x);
      assert s[..j + 1] == [s[0]] + s[1..][..j];
      j + 1
  }

  /** List removal: the first occurrence of `x` goes, the rest keep their order. */
  function RemoveFirst<T(==)>(s: seq<T>, x: T): (r: seq<T>)
    ensures x !in s ==> r == s
    ensures multiset(r) == multiset(s) - multiset{x}
    decreases |s|
  {
    if s == [] then []
    else if s[0] == x then assert s == [s[0]] + s[1..]; s[1..]
    else
      assert s == [s[0]] + s[1..];
      [s[0]] + RemoveFirst(s[1..], x)
  }

  /** What goes is the first occurrence; the elements before and after it
      keep their places and order. */
  lemma {:induction false} RemoveFirstKeepsOrder<T>(s: seq<T>, x: T)
    requires x in s
    ensures RemoveFirst(s, x) == s[..IndexOf(s, x)] + s[IndexOf(s, x) + 1..]
    decreases |s|
  {
    if s[0] != x {
      var t := s[1..];
      var j := IndexOf(t, x);
      RemoveFirstKeepsOrder(t, x);
      assert s[..j + 1] == [s[0]] + t[..j];
      assert s[j + 2..] == t[j + 1..];
    }
  }

  /** Removal only ever drops elements. */
  lemma RemoveFirstSubset<T>(s: seq<T>, x: T, y: T)
    requires y in RemoveFirst(s, x)
    ensures y in s
  {
    assert multiset(RemoveFirst(s, x))[y] > 0;
  }

  lemma DistinctTail<T>(s: seq<T>)
    requires Distinct(s) && s != []
    ensures Distinct(s[1..]) && s[0] !in s[1..]
  {
    forall i, j | 0 <= i < j < |s[1..]| ensures s[1..][i] != s[1..][j] {
      assert s[1..][i] == s[i + 1] && s[1..][j] == s[j + 1];
    }
    forall i | 0 <= i < |s[1..]| ensures s[1..][i] != s[0] {
      assert s[1..][i] == s[i + 1];
    }
  }

  lemma DistinctCons<T>(x: T, t: seq<T>)
    requires Distinct(t) && x !in t
    ensures Distinct([x] + t)
  {
    var r := [x] + t;
    forall i, j | 0 <= i < j < |r| ensures r[i] != r[j] {
      assert r[j] == t[j - 1];
      if i > 0 { assert r[i] == t[i - 1]; }
    }
  }

  /** On a duplicate-free list, removal keeps it duplicate-free, drops `x`
      entirely, and shortens the list by one exactly when `x` was present. */
  lemma {:induction false} RemoveFirstDistinct<T>(s: seq<T>, x: T)
    requires Distinct(s)
    ensures Distinct(RemoveFirst(s, x)) && x !in RemoveFirst(s, x)
    ensures |RemoveFirst(s, x)| == if x in s then |s| - 1 else |s|
    decreases |s|
  {
    var r := RemoveFirst(s, x);
    assert |multiset(r)| == |r| && |multiset(s)| == |s|;
    if s != [] {
      DistinctTail(s);
      if s[0] != x {
        RemoveFirstDistinct(s[1..], x);
        var t := RemoveFirst(s[1..], x);
        if s[0] in t {
          RemoveFirstSubset(s[1..], x, s[0]);
        }
        DistinctCons(s[0], t);
      }
    }
  }

  /** An object the player can pick up: live, active and within reach. */
  predicate Eligible(o: GameObject, player: Vec3, range: nat)
    reads o
  {
    o.alive && o.active && DistSq(player, o.position) <= range * range
  }

  function Dist(o: GameObject, player: Vec3): nat
    reads o
  {
    DistSq(player, o.position)
  }

  /** Index of the object a pickup takes, scanning the list front to back and
      replacing the choice only by a strictly nearer eligible object; -1 when
      none is eligible. */
  function NearestIndex(objs: seq<GameObject>, player: Vec3, range: nat): (k: int)
    reads objs
    ensures -1 <= k < |objs|
    decreases |objs|
  {
    if objs == [] then -1
    else
      var k := NearestIndex(objs[..|objs| - 1], player, range);
      var last := objs[|objs| - 1];
      if Eligible(last, player, range) && (k < 0 || Dist(last, player) < Dist(objs[k], player))
      then |objs| - 1
      else k
  }

  function Nearest(objs: seq<GameObject>, player: Vec3, range: nat): GameObject?
    reads objs
  {
    var k := NearestIndex(objs, player, range);
    if k < 0 then null else objs[k]
  }

  /** The choice is -1 exactly when nothing is eligible; otherwise it is
      eligible, no farther than any eligible object, and strictly nearer than
      every eligible object listed before it (ties keep the earlier one). */
  lemma {:induction false} NearestIndexSpec(objs: seq<GameObject>, player: Vec3, range: nat)
    ensures var k := NearestIndex(objs, player, range);
      && (k == -1 <==> forall i :: 0 <= i < |objs| ==> !Eligible(objs[i], player, range))
      && (k >= 0 ==> Eligible(objs[k], player, range))
      && (k >= 0 ==> forall j :: 0 <= j < |objs| && Eligible(objs[j], player, range) ==>
            Dist(objs[k], player) <= Dist(objs[j], player))
      && (k >= 0 ==> forall j :: 0 <= j < k && Eligible(objs[j], player, range) ==>
            Dist(objs[j], player) > Dist(objs[k], player))
    decreases |objs|
  {
    if objs != [] {
      var init := objs[..|objs| - 1];
      NearestIndexSpec(init, player, range);
      assert forall i :: 0 <= i < |init| ==> init[i] == objs[i];
    }
  }

  class ObjectPickup {
    const interactionDistance: nat
    var targetTag: string
    var objectCount: int
    var objectsInScene: seq<GameObject>
    var heldObject: GameObject?

    /** The held object, as a frame. */
    function Held(): set<GameObject>
      reads this
    {
      if heldObject == null then {} else {heldObject}
    }

    /** The tracked list has no duplicates and holds only objects of the target tag. */
    ghost predicate Valid()
      reads this
    {
      Distinct(objectsInScene) && forall o :: o in objectsInScene ==> o.tag == targetTag
    }

    /** Field initialisers and Start, which gathers the scene's tagged objects. */
    constructor (interactionDistance: nat, targetTag: string, found: seq<GameObject>)
      requires Distinct(found) && forall o :: o in found ==> o.tag == targetTag
      ensures Valid()
      ensures this.interactionDistance == interactionDistance && this.targetTag == targetTag
      ensures objectCount == 0 && heldObject == null && objectsInScene == found
    {
      this.interactionDistance := interactionDistance;
      this.targetTag := targetTag;
      objectCount := 0;
      objectsInScene := [];
      heldObject := null;
      new;
      FindAllObjects(found);
    }

    /** Replaces the tracked list by the scene query's result `found` (all
        objects carrying the target tag, each once), clearing it first. */
    method FindAllObjects(found: seq<GameObject>)
      requires Distinct(found) && forall o :: o in found ==> o.tag == targetTag
      modifies this`objectsInScene
      ensures Valid()
      ensures objectsInScene == found
    {
      objectsInScene := [];
      var i := 0;
      while i < |found|
        invariant 0 <= i <= |found|
        invariant objectsInScene == found[..i]
      {
        objectsInScene := objectsInScene + [found[i]];
        i := i + 1;
      }
    }

    /** One frame of input: a pickup only when nothing live is held, then a
        drop only when something live is held (both can happen in one frame). */
    method HandleInput(pickupPressed: bool, dropPressed: bool, player: Vec3, dropPosition: Vec3)
      requires Valid()
      modifies this`heldObject, this`objectCount, objectsInScene`active, objectsInScene`position,
               Held()`active, Held()`position
      ensures Valid() && objectsInScene == old(objectsInScene)
      ensures
        var holding := old(Live(heldObject));
        var n := old(Nearest(objectsInScene, player, interactionDistance));
        var picked := pickupPressed && !holding && n != null;
        var dropped := dropPressed && (holding || picked);
        var h := if picked then n else old(heldObject);
        && objectCount == old(objectCount) + (if picked then 1 else 0)
        && heldObject == (if dropped then null else h)
        && (picked && !dropped ==> !n.active && n.position == old(n.position))
        && (dropped ==> h.active && h.position == dropPosition)
        && (!picked && !dropped && h != null ==> unchanged(h))
        && (forall o :: o in old(objectsInScene) && o != h ==>
              o.active == old(o.active) && o.position == old(o.position))
    {
      if pickupPressed && !Live(heldObject) {
        TryPickupObject(player);
      }
      if dropPressed && Live(heldObject) {
        DropObject(dropPosition);
      }
    }

    method TryPickupObject(player: Vec3)
      requires Valid()
      modifies this`heldObject, this`objectCount, objectsInScene`active
      ensures Valid() && objectsInScene == old(objectsInScene)
      ensures
        var n := old(Nearest(objectsInScene, player, interactionDistance));
        && (n == null ==> unchanged(this) && unchanged(objectsInScene))
        && (n != null ==> heldObject == n && Live(n) && !n.active && objectCount == old(objectCount) + 1)
        && (forall o :: o in old(objectsInScene) && o != n ==> o.active == old(o.active))
    {
      NearestIndexSpec(objectsInScene, player, interactionDistance);
      var nearestObject := FindNearestObject(player);
      if nearestObject != null {
        PickupObject(nearestObject);
      }
    }

    /** The argmin scan over the tracked list; the initial minimum stands for
        float.MaxValue, which exceeds every distance within reach. */
    method FindNearestObject(player: Vec3) returns (nearestObject: GameObject?)
      ensures nearestObject == Nearest(objectsInScene, player, interactionDistance)
    {
      nearestObject := null;
      var reachSq := interactionDistance * interactionDistance;
      var minDistance := reachSq + 1;
      var i := 0;
      while i < |objectsInScene|
        invariant 0 <= i <= |objectsInScene|
        invariant nearestObject == Nearest(objectsInScene[..i], player, interactionDistance)
        invariant nearestObject == null ==> minDistance == reachSq + 1
        invariant nearestObject != null ==> minDistance == Dist(nearestObject, player)
      {
        var obj := objectsInScene[i];
        assert objectsInScene[..i + 1][..i] == objectsInScene[..i];
        NearestIndexSpec(objectsInScene[..i], player, interactionDistance);
        if Live(obj) && obj.active {
          var distanceToObject := DistSq(player, obj.position);
          if distanceToObject < minDistance && distanceToObject <= reachSq {
            minDistance := distanceToObject;
            nearestObject := obj;
          }
        }
        i := i + 1;
      }
      assert objectsInScene[..i] == objectsInScene;
    }

    method PickupObject(obj: GameObject)
      modifies this`heldObject, this`objectCount, obj`active
      ensures heldObject == obj && !obj.active && objectCount == old(objectCount) + 1
    {
      heldObject := obj;
      obj.active := false;
      objectCount := objectCount + 1;
    }

    /** Puts a live held object back at `dropPosition` (the host's point in front
        of the player) and reactivates it; nothing happens when nothing live is held. */
    method DropObject(dropPosition: Vec3)
      modifies this`heldObject, Held()`position, Held()`active
      ensures old(Live(heldObject)) ==>
        heldObject == null && old(heldObject).active && old(heldObject).position == dropPosition
      ensures !old(Live(heldObject)) ==> unchanged(this)
      ensures !old(Live(heldObject)) && old(heldObject) != null ==> unchanged(old(heldObject))
    {
      if Live(heldObject) {
        heldObject.position := dropPosition;
        heldObject.active := true;
        heldObject := null;
      }
    }

    /** Tracks a live object of the target tag that is not tracked yet. */
    method AddObject(obj: GameObject?)
      requires Valid()
      modifies this`objectsInScene
      ensures Valid()
      ensures objectsInScene ==
        if Live(obj) && obj.tag == targetTag && obj !in old(objectsInScene)
        then old(objectsInScene) + [obj]
        else old(objectsInScene)
    {
      if Live(obj) && obj.tag == targetTag && obj !in objectsInScene {
        objectsInScene := objectsInScene + [obj];
      }
    }

    /** Removes a tracked object (its first and, on a valid list, only
        occurrence); an untracked one leaves the list as it is. */
    method RemoveObject(obj: GameObject?)
      requires Valid()
      modifies this`objectsInScene
      ensures Valid()
      ensures obj !in objectsInScene
      ensures obj == null || obj !in old(objectsInScene) ==> objectsInScene == old(objectsInScene)
      ensures obj != null && obj in old(objectsInScene) ==>
        objectsInScene == RemoveFirst(old(objectsInScene), obj as GameObject)
    {
      if obj != null && obj in objectsInScene {
        var o: GameObject := obj;
        var r := RemoveFirst(objectsInScene, o);
        RemoveFirstDistinct(objectsInScene, o);
        forall y | y in r ensures y in objectsInScene {
          RemoveFirstSubset(objectsInScene, o, y);
        }
        objectsInScene := r;
      }
    }

    method RefreshObjectList(found: seq<GameObject>)
      requires Distinct(found) && forall o :: o in found ==> o.tag == targetTag
      modifies this`objectsInScene
      ensures Valid()
      ensures objectsInScene == found
    {
      FindAllObjects(found);
    }

    function GetObjectCount(): int
      reads this
    {
      objectCount
    }

    method SetObjectCount(count: int)
      modifies this`objectCount
      ensures GetObjectCount() == count
    {
      objectCount := count;
    }

    /** Changes the tag and re-gathers the scene's objects of the new tag. */
    method SetTargetTag(newTag: string, found: seq<GameObject>)
      requires Distinct(found) && forall o :: o in found ==> o.tag == newTag
      modifies this`targetTag, this`objectsInScene
      ensures Valid()
      ensures targetTag == newTag && objectsInScene == found
    {
      targetTag := newTag;
      RefreshObjectList(found);
    }

    function IsHoldingObject(): bool
      reads this, heldObject
    {
      Live(heldObject)
    }

    function GetHeldObject(): GameObject?
      reads this
    {
      heldObject
    }
  }
}
