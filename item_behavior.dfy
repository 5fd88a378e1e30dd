/** The per-item attachment engine (ItemBehavior): whether the item rests on a
    bottom surface, which surface, the pose it keeps relative to it, the
    delayed re-check after a contact ends, and counting the item once per
    resting episode through the shared CountManager. */
module Items {
  import opened Geometry
  import opened Counting

  datatype Option<T> = None | Some(value: T)

  /** A physics layer index; the engine has 32 of them. */
  type Layer = l: bv32 | l < 32

  /** The mask test of the source: OR-ing the layer's bit into the mask leaves
      the mask as it was, which is to say that bit is already set. */
  predicate LayerInMask(mask: bv32, layer: Layer): (r: bool)
    ensures r <==> (mask >> layer) & 1 == 1
  {
    mask == mask | (1 << layer)
  }

  /** The field initialiser of `bottomLayerMask`: layer 8 only. */
  const DefaultBottomLayerMask: bv32 := 1 << 8

  lemma DefaultMaskAcceptsOnlyLayerEight(layer: Layer)
    ensures LayerInMask(DefaultBottomLayerMask, layer) <==> layer == 8
  {
  }

  /** Fixed-update ticks a contact end waits before the re-check runs. */
  const RecheckDelay: nat := 2

  /** A collider together with its transform: something an item can rest on.
      `alive` is false once the object has been destroyed, which the engine
      observes as its reference comparing equal to null. */
  class Surface {
    const layer: Layer
    var position: Vec3
    var alive: bool

    constructor (layer: Layer, position: Vec3)
      ensures this.layer == layer && this.position == position && alive
    {
      this.layer := layer;
      this.position := position;
      alive := true;
    }

    method Destroy()
      modifies this`alive
      ensures !alive
    {
      alive := false;
    }
  }

  /** One result of the overlap query run by the re-check: the collider, or
      null, and the distance from the item's centre to its closest point. */
  datatype Candidate = Candidate(collider: Surface?, distance: nat)

  /** The re-check's acceptance test: a live collider other than the item's
      own that lies closer than half the magnitude of the item's extents. */
  predicate Qualifies(c: Candidate, own: Surface, extentMagnitude: nat)
    reads c.collider
  {
    c.collider != null && c.collider.alive && c.collider != own && 2 * c.distance < extentMagnitude
  }

  /** The colliders named by a list of overlap results. */
  function Colliders(cs: seq<Candidate>): set<Surface?>
  {
    set i | 0 <= i < |cs| :: cs[i].collider
  }

  /** Index of the first qualifying overlap result, in query order. */
  function FirstQualifying(cs: seq<Candidate>, own: Surface, extentMagnitude: nat): (r: Option<nat>)
    reads Colliders(cs)
    ensures r.Some? ==> r.value < |cs| && Qualifies(cs[r.value], own, extentMagnitude)
    ensures r.Some? ==> forall j :: 0 <= j < r.value ==> !Qualifies(cs[j], own, extentMagnitude)
    ensures r.None? <==> forall j :: 0 <= j < |cs| ==> !Qualifies(cs[j], own, extentMagnitude)
    decreases |cs|
  {
    if cs == [] then None
    else if Qualifies(cs[0], own, extentMagnitude) then Some(0)
    else match FirstQualifying(cs[1..], own, extentMagnitude)
      case None => None
      case Some(k) => Some(k + 1)
  }

  /** The first qualifying result is the only index that qualifies with no
      qualifying result before it. */
  lemma FirstQualifyingUnique(cs: seq<Candidate>, own: Surface, extentMagnitude: nat, k: nat)
    requires k < |cs| && Qualifies(cs[k], own, extentMagnitude)
    requires forall j :: 0 <= j < k ==> !Qualifies(cs[j], own, extentMagnitude)
    ensures FirstQualifying(cs, own, extentMagnitude) == Some(k)
  {
    var r := FirstQualifying(cs, own, extentMagnitude);
    assert r.Some?;
    assert !(r.value < k);
    assert !(k < r.value);
  }

  /** Drift correction of the position: snap to the target when the distance
      exceeds the threshold, otherwise leave the position alone. */
  function SnapPosition(pos: Vec3, target: Vec3, threshold: nat): (r: Vec3)
    ensures !Exceeds(r, target, threshold)
    ensures r == pos <==> !Exceeds(pos, target, threshold)
    ensures r != pos ==> r == target
  {
    if Exceeds(pos, target, threshold) then target else pos
  }

  /** Correcting an already corrected position changes nothing. */
  lemma SnapPositionIdempotent(pos: Vec3, target: Vec3, threshold: nat)
    ensures SnapPosition(SnapPosition(pos, target, threshold), target, threshold)
         == SnapPosition(pos, target, threshold)
  {
  }

  /** Notifications the engine raises, in the order it raises them. */
  datatype Event =
    | BottomContact(surface: Surface?)        // OnBottomContact
    | BottomExit                              // OnBottomExit
    | BottomDestroyed                         // OnBottomDestroyed
    | TaggedItemDestroyed(tag: string)        // OnTaggedItemDestroyed, raised when the item is counted

  /** Inspector settings of one item. */
  datatype Settings = Settings(
    bottomLayerMask: bv32,
    freezePositionOnContact: bool,
    freezeRotationOnContact: bool,
    contactThreshold: nat,
    targetTag: string)

  class ItemBehavior {
    // settings
    const bottomLayerMask: bv32
    const freezePositionOnContact: bool
    const freezeRotationOnContact: bool
    const contactThreshold: nat
    const targetTag: string

    // the item's game object, collider and rigid body
    const tag: string                 // the game object's tag
    const itemCollider: Surface       // the item's own collider, as others see it
    const counter: CountManager       // the shared tag table
    var position: Vec3
    var rotation: Quaternion
    var linearVelocity: Vec3
    var angularVelocity: Vec3
    var isKinematic: bool
    var parent: Surface?              // the transform parent set by SetParent

    // attachment state
    var isOnBottom: bool
    var relativeOffset: Vec3
    var lastRotation: Quaternion
    var lastContactTime: int
    var bottom: Surface?              // bottomCollider and bottomTransform
    var hasCounted: bool

    /** Deadlines (in fixed-update ticks) of the re-check coroutines still
        suspended, in the order they were started. */
    var pending: seq<nat>

    /** Every notification raised so far. */
    var events: seq<Event>

    /** The item is only ever marked as counted while it is on the bottom, so
        every episode that starts from the free state is counted afresh. */
    ghost predicate Valid()
      reads this, counter
    {
      (hasCounted ==> isOnBottom) && counter.Valid()
    }

    /** The free state every detaching path ends in. */
    ghost predicate Free()
      reads this
    {
      !isOnBottom && bottom == null && !hasCounted
    }

    /** The source's `bottomTransform != null`, with destroyed objects comparing equal to null. */
    predicate TransformLive()
      reads this, bottom
    {
      bottom != null && bottom.alive
    }

    /** Where the item belongs while attached: the surface's position plus the offset. */
    function Target(): Vec3
      reads this, bottom
      requires bottom != null
    {
      bottom.position.Add(relativeOffset)
    }

    /** What counting does to the shared table. */
    function CountedTable(m: map<string, int>): map<string, int>
    {
      if tag == targetTag then Incremented(m, targetTag) else m
    }

    /** What counting raises. */
    function CountedEvents(): seq<Event>
    {
      if tag == targetTag then [TaggedItemDestroyed(targetTag)] else []
    }

    /** Field initialisers and Start (the item has its rigid body and collider).
        The body's pose, velocities and scene parent are whatever the scene gives it. */
    constructor (settings: Settings, tag: string, itemCollider: Surface,
                 counter: CountManager, position: Vec3, rotation: Quaternion,
                 linearVelocity: Vec3, angularVelocity: Vec3, isKinematic: bool, parent: Surface?)
      requires counter.Valid()
      ensures Valid() && Free()
      ensures bottomLayerMask == settings.bottomLayerMask && targetTag == settings.targetTag
      ensures freezePositionOnContact == settings.freezePositionOnContact
      ensures freezeRotationOnContact == settings.freezeRotationOnContact
      ensures contactThreshold == settings.contactThreshold
      ensures this.tag == tag && this.itemCollider == itemCollider
      ensures this.counter == counter
      ensures this.position == position && this.rotation == rotation && this.isKinematic == isKinematic
      ensures this.linearVelocity == linearVelocity && this.angularVelocity == angularVelocity
      ensures this.parent == parent
      ensures relativeOffset == Zero && lastRotation == rotation && lastContactTime == 0
      ensures pending == [] && events == []
    {
      bottomLayerMask := settings.bottomLayerMask;
      freezePositionOnContact := settings.freezePositionOnContact;
      freezeRotationOnContact := settings.freezeRotationOnContact;
      contactThreshold := settings.contactThreshold;
      targetTag := settings.targetTag;
      this.tag := tag;
      this.itemCollider := itemCollider;
      this.counter := counter;
      this.position := position;
      this.rotation := rotation;
      this.linearVelocity := linearVelocity;
      this.angularVelocity := angularVelocity;
      this.isKinematic := isKinematic;
      this.parent := parent;
      isOnBottom := false;
      relativeOffset := Zero;
      lastRotation := rotation;
      lastContactTime := 0;
      bottom := null;
      hasCounted := false;
      pending := [];
      events := [];
    }

    /** Per-frame drift correction, run only while on the bottom with a live transform. */
    method Update(angle: nat)
      requires Valid()
      requires rotation == lastRotation ==> angle == 0   // angle: the host's angle from rotation to lastRotation
      modifies this`position, this`rotation, this`linearVelocity, this`angularVelocity
      ensures Valid()
      ensures !old(isOnBottom && TransformLive()) ==> unchanged(this)
      ensures old(isOnBottom && TransformLive()) ==>
        var snapPos := freezePositionOnContact && Exceeds(old(position), old(Target()), contactThreshold);
        var snapRot := freezeRotationOnContact && angle > contactThreshold;
        && position == (if freezePositionOnContact
                        then SnapPosition(old(position), old(Target()), contactThreshold)
                        else old(position))
        && rotation == (if snapRot then lastRotation else old(rotation))
        && linearVelocity == (if snapPos then Zero else old(linearVelocity))
        && angularVelocity == (if snapPos || (snapRot && !isKinematic) then Zero else old(angularVelocity))
      ensures old(isOnBottom && TransformLive()) && freezePositionOnContact ==>
        !Exceeds(position, Target(), contactThreshold)
      ensures old(isOnBottom && TransformLive()) && freezeRotationOnContact ==>
        rotation == lastRotation || angle <= contactThreshold
    {
      if isOnBottom && TransformLive() {
        if freezePositionOnContact {
          MaintainRelativePosition();
        }
        if freezeRotationOnContact {
          FreezeRotation(angle);
        }
      }
    }

    method OnCollisionEnter(other: Surface, time: int)
      requires Valid()
      modifies this`isOnBottom, this`bottom, this`lastContactTime, this`relativeOffset,
               this`lastRotation, this`linearVelocity, this`angularVelocity, this`parent,
               this`hasCounted, this`events, counter
      ensures Valid()
      ensures !LayerInMask(bottomLayerMask, other.layer) || old(isOnBottom) ==>
        unchanged(this) && unchanged(counter)
      ensures LayerInMask(bottomLayerMask, other.layer) && !old(isOnBottom) ==>
        && isOnBottom && bottom == other && hasCounted
        && lastContactTime == time
        && relativeOffset == position.Sub(other.position)
        && lastRotation == rotation
        && linearVelocity == Zero && angularVelocity == Zero
        && parent == other
        && counter.tagCounts == CountedTable(old(counter.tagCounts))
        && events == old(events) + CountedEvents() + [BottomContact(other)]
    {
      if LayerInMask(bottomLayerMask, other.layer) {
        if !isOnBottom {
          isOnBottom := true;
          bottom := other;
          lastContactTime := time;

          relativeOffset := position.Sub(other.position);
          lastRotation := rotation;

          linearVelocity := Zero;
          angularVelocity := Zero;

          parent := other;

          if !hasCounted {
            CheckTagAndCount();
            hasCounted := true;
          }

          events := events + [BottomContact(bottom)];
        }
      }
    }

    /** A contact end with the current bottom, at fixed-update tick `tick`,
        suspends a fresh re-check until `RecheckDelay` fixed updates have passed.
        Nothing else changes. */
    method OnCollisionExit(other: Surface, tick: nat)
      modifies this`pending
      ensures pending == if LayerInMask(bottomLayerMask, other.layer) && bottom == other
                         then old(pending) + [tick + RecheckDelay]
                         else old(pending)
    {
      if LayerInMask(bottomLayerMask, other.layer) {
        if bottom == other {
          pending := pending + [tick + RecheckDelay];
        }
      }
    }

    /** At fixed-update tick `tick`, resumes the oldest suspended re-check once
        its deadline has come, against the overlap query's results at that moment
        (colliders on accepted layers) and the magnitude of the item collider's
        world-space extents at that moment. The first qualifying result
        becomes the bottom, keeping the episode (and its count) alive; with none,
        the item detaches and raises the exit event. The re-check does not look at
        whether the item is still on the bottom. */
    method DelayedBottomCheck(tick: nat, candidates: seq<Candidate>, extentMagnitude: nat)
      returns (resumed: bool)
      requires Valid()
      requires forall c :: c in candidates && c.collider != null ==> LayerInMask(bottomLayerMask, c.collider.layer)
      modifies this`pending, this`isOnBottom, this`bottom, this`relativeOffset,
               this`hasCounted, this`events
      ensures Valid()
      ensures resumed <==> old(pending) != [] && old(pending)[0] <= tick
      ensures !resumed ==> unchanged(this)
      ensures resumed ==> pending == old(pending)[1..]
      ensures resumed ==>
        match FirstQualifying(candidates, itemCollider, extentMagnitude)
        case Some(k) =>
          && bottom == candidates[k].collider
          && relativeOffset == position.Sub(candidates[k].collider.position)
          && isOnBottom == old(isOnBottom) && hasCounted == old(hasCounted)
          && events == old(events)
        case None =>
          && Free()
          && relativeOffset == old(relativeOffset)
          && events == old(events) + [BottomExit]
    {
      if !(pending != [] && pending[0] <= tick) {
        return false;
      }
      resumed := true;
      pending := pending[1..];

      var stillOnBottom := false;
      ghost var found := 0;
      var i := 0;
      while i < |candidates|
        invariant 0 <= i <= |candidates|
        invariant !stillOnBottom
        invariant forall j :: 0 <= j < i ==> !Qualifies(candidates[j], itemCollider, extentMagnitude)
        invariant bottom == old(bottom) && relativeOffset == old(relativeOffset)
        invariant isOnBottom == old(isOnBottom) && hasCounted == old(hasCounted) && events == old(events)
      {
        var col := candidates[i].collider;
        if col != null && col.alive && col != itemCollider {
          if 2 * candidates[i].distance < extentMagnitude {
            stillOnBottom := true;
            found := i;
            bottom := col;
            relativeOffset := position.Sub(col.position);
            break;
          }
        }
        i := i + 1;
      }

      if stillOnBottom {
        FirstQualifyingUnique(candidates, itemCollider, extentMagnitude, found);
      } else {
        isOnBottom := false;
        bottom := null;
        hasCounted := false;
        events := events + [BottomExit];
      }
    }

    method MaintainRelativePosition()
      modifies this`position, this`linearVelocity, this`angularVelocity
      ensures !old(isOnBottom && TransformLive()) ==> unchanged(this)
      ensures old(isOnBottom && TransformLive()) ==>
        var snap := Exceeds(old(position), old(Target()), contactThreshold);
        && position == SnapPosition(old(position), old(Target()), contactThreshold)
        && linearVelocity == (if snap then Zero else old(linearVelocity))
        && angularVelocity == (if snap then Zero else old(angularVelocity))
      ensures isOnBottom && TransformLive() ==> !Exceeds(position, Target(), contactThreshold)
    {
      if !isOnBottom || !TransformLive() {
        return;
      }
      var targetPosition := bottom.position.Add(relativeOffset);
      if Exceeds(position, targetPosition, contactThreshold) {
        position := targetPosition;
        linearVelocity := Zero;
        angularVelocity := Zero;
      }
    }

    /** Snaps the rotation back to the attach-time snapshot when the host-measured
        angle between them exceeds the threshold. */
    method FreezeRotation(angle: nat)
      requires rotation == lastRotation ==> angle == 0
      modifies this`rotation, this`angularVelocity
      ensures angle <= contactThreshold ==> unchanged(this)
      ensures angle > contactThreshold ==>
        rotation == lastRotation
        && angularVelocity == (if isKinematic then old(angularVelocity) else Zero)
    {
      if angle > contactThreshold {
        rotation := lastRotation;
        if !isKinematic {
          angularVelocity := Zero;
        }
      }
    }

    /** Detects a bottom destroyed without a contact end and detaches. */
    method LateUpdate()
      requires Valid()
      modifies this`isOnBottom, this`bottom, this`hasCounted, this`events
      ensures Valid()
      ensures old(isOnBottom && !TransformLive()) ==> Free() && events == old(events) + [BottomDestroyed]
      ensures !old(isOnBottom && !TransformLive()) ==> unchanged(this)
    {
      if isOnBottom && !TransformLive() {
        events := events + [BottomDestroyed];
        isOnBottom := false;
        bottom := null;
        hasCounted := false;
      }
    }

    /** Counts the item in the shared table when it carries the target tag. */
    method CheckTagAndCount()
      requires counter.Valid()
      modifies this`events, counter
      ensures counter.Valid()
      ensures counter.tagCounts == CountedTable(old(counter.tagCounts))
      ensures events == old(events) + CountedEvents()
    {
      if tag == targetTag {
        counter.IncrementTagCount(targetTag);
        events := events + [TaggedItemDestroyed(targetTag)];
      }
    }

    /** Manual override. Attaching captures the offset (against a non-null
        bottom) and the rotation and counts unless already counted; detaching
        resets to the free state and raises the exit event. */
    method SetBottomContact(onBottom: bool, b: Surface?, time: int)
      requires Valid()
      requires b != null ==> b.alive   // reading the transform of a destroyed collider throws
      modifies this`isOnBottom, this`bottom, this`relativeOffset, this`parent, this`lastRotation,
               this`lastContactTime, this`hasCounted, this`events, counter
      ensures Valid()
      ensures onBottom ==>
        && isOnBottom && bottom == b && hasCounted
        && relativeOffset == (if b != null then position.Sub(b.position) else old(relativeOffset))
        && parent == (if b != null then b else old(parent))
        && lastRotation == rotation && lastContactTime == time
        && counter.tagCounts == (if old(hasCounted) then old(counter.tagCounts)
                                 else CountedTable(old(counter.tagCounts)))
        && events == old(events) + (if old(hasCounted) then [] else CountedEvents()) + [BottomContact(b)]
      ensures !onBottom ==>
        && Free() && events == old(events) + [BottomExit] && unchanged(counter)
        && relativeOffset == old(relativeOffset) && parent == old(parent)
        && lastRotation == old(lastRotation) && lastContactTime == old(lastContactTime)
    {
      isOnBottom := onBottom;

      if onBottom {
        bottom := b;
        if b != null {
          relativeOffset := position.Sub(b.position);
          parent := b;
        }
        lastRotation := rotation;
        lastContactTime := time;

        if !hasCounted {
          CheckTagAndCount();
          hasCounted := true;
        }

        events := events + [BottomContact(bottom)];
      } else {
        bottom := null;
        hasCounted := false;
        events := events + [BottomExit];
      }
    }

    function IsOnBottom(): bool reads this { isOnBottom }
    function GetBottomCollider(): Surface? reads this { bottom }
    function GetRelativeOffset(): Vec3 reads this { relativeOffset }
    function GetLastContactTime(): int reads this { lastContactTime }

    /** Re-captures the offset against a live bottom, and the rotation. */
    method ResetFreezeState()
      modifies this`relativeOffset, this`lastRotation
      ensures relativeOffset == if old(TransformLive()) then position.Sub(bottom.position) else old(relativeOffset)
      ensures lastRotation == rotation
    {
      if TransformLive() {
        relativeOffset := position.Sub(bottom.position);
      }
      lastRotation := rotation;
    }

    method ForceExitBottom()
      requires Valid()
      modifies this`isOnBottom, this`bottom, this`hasCounted, this`events
      ensures Valid()
      ensures Free() && events == old(events) + [BottomExit]
    {
      isOnBottom := false;
      bottom := null;
      hasCounted := false;
      events := events + [BottomExit];
    }

    /** Lets the current episode be counted once more by a later manual attach. */
    method ResetCountState()
      requires Valid()
      modifies this`hasCounted
      ensures Valid()
      ensures !hasCounted
    {
      hasCounted := false;
    }
  }
}
