/** The shared tag counter: one table from tag name to count, shared by every
    item engine. The source keeps it in a static dictionary; here it is one
    `CountManager` object that every engine holds a reference to. */
module Counting {

  /** The count recorded for `tag`, 0 when the table has no entry for it. */
  function Lookup(m: map<string, int>, tag: string): int
  {
    if tag in m then m[tag] else 0
  }

  ghost predicate NonNegative(m: map<string, int>)
  {
    forall t :: t in m ==> m[t] >= 0
  }

  /** The table after one increment of `tag`. */
  function Incremented(m: map<string, int>, tag: string): (r: map<string, int>)
    ensures r.Keys == m.Keys + {tag}
    ensures tag !in m ==> r[tag] == 1
    ensures Lookup(r, tag) == Lookup(m, tag) + 1
    ensures forall t :: t != tag ==> Lookup(r, t) == Lookup(m, t)
    ensures NonNegative(m) ==> NonNegative(r)
  {
    if tag in m then m[tag := m[tag] + 1] else m[tag := 1]
  }

  /** The table after resetting `tag`: a present entry becomes 0, an absent one stays absent. */
  function ResetOne(m: map<string, int>, tag: string): (r: map<string, int>)
    ensures r.Keys == m.Keys
    ensures tag in m ==> r[tag] == 0
    ensures Lookup(r, tag) == 0
    ensures forall t :: t != tag ==> Lookup(r, t) == Lookup(m, t)
    ensures NonNegative(m) ==> NonNegative(r)
  {
    if tag in m then m[tag := 0] else m
  }

  /** The table after start-up registration of `tag`: an entry at 0 is created
      only if none exists, so no observable count changes. */
  function Registered(m: map<string, int>, tag: string): (r: map<string, int>)
    ensures r.Keys == m.Keys + {tag}
    ensures tag in m ==> r == m
    ensures tag !in m ==> r[tag] == 0
    ensures forall t :: Lookup(r, t) == Lookup(m, t)
    ensures NonNegative(m) ==> NonNegative(r)
  {
    if tag !in m then m[tag := 0] else m
  }

  /** The operations the source performs on the table. */
  datatype CountOp =
    | Increment(tag: string)   // IncrementTagCount
    | Reset(tag: string)       // ResetTagCount
    | ResetAll                 // ResetAllCounts
    | Register(tag: string)    // the entry initialisation in Start

  function Apply(m: map<string, int>, op: CountOp): map<string, int>
  {
    match op
    case Increment(t) => Incremented(m, t)
    case Reset(t) => ResetOne(m, t)
    case ResetAll => map[]
    case Register(t) => Registered(m, t)
  }

  /** The table after performing `ops` in order, starting from `m`. */
  function ApplyAll(m: map<string, int>, ops: seq<CountOp>): map<string, int>
    decreases |ops|
  {
    if ops == [] then m else ApplyAll(Apply(m, ops[0]), ops[1..])
  }

  /** Reference semantics for one tag: the count of `tag` seen on its own,
      starting at `c`. Only the operations that name `tag` (and ResetAll) matter. */
  function Tally(c: int, ops: seq<CountOp>, tag: string): int
    decreases |ops|
  {
    if ops == [] then c
    else
      var c' := match ops[0]
        case Increment(t) => if t == tag then c + 1 else c
        case Reset(t) => if t == tag then 0 else c
        case ResetAll => 0
        case Register(_) => c;
      Tally(c', ops[1..], tag)
  }

  /** Number of increments of `tag` in `ops`. */
  function Increments(ops: seq<CountOp>, tag: string): nat
    decreases |ops|
  {
    if ops == [] then 0
    else (if ops[0] == Increment(tag) then 1 else 0) + Increments(ops[1..], tag)
  }

  predicate ResetsNothing(ops: seq<CountOp>)
  {
    forall i :: 0 <= i < |ops| ==> !ops[i].Reset? && !ops[i].ResetAll?
  }

  /** All counts stay non-negative under any sequence of operations. */
  lemma {:induction false} ApplyAllNonNegative(m: map<string, int>, ops: seq<CountOp>)
    requires NonNegative(m)
    ensures NonNegative(ApplyAll(m, ops))
    decreases |ops|
  {
    if ops != [] {
      ApplyAllNonNegative(Apply(m, ops[0]), ops[1..]);
    }
  }

  /** The count the table reports for a tag is its own tally: operations on
      other tags never disturb it, whatever the interleaving. */
  lemma {:induction false} LookupIsTally(m: map<string, int>, ops: seq<CountOp>, tag: string)
    ensures Lookup(ApplyAll(m, ops), tag) == Tally(Lookup(m, tag), ops, tag)
    decreases |ops|
  {
    if ops != [] {
      var m' := Apply(m, ops[0]);
      assert Lookup(m', tag) == Tally(Lookup(m, tag), ops[..1], tag);
      LookupIsTally(m', ops[1..], tag);
    }
  }

  /** Without resets, a tag's count grows by exactly its number of increments. */
  lemma {:induction false} TallyWithoutResets(c: int, ops: seq<CountOp>, tag: string)
    requires ResetsNothing(ops)
    ensures Tally(c, ops, tag) == c + Increments(ops, tag)
    decreases |ops|
  {
    if ops != [] {
      assert !ops[0].Reset? && !ops[0].ResetAll?;
      assert ResetsNothing(ops[1..]) by {
        forall i | 0 <= i < |ops[1..]| ensures !ops[1..][i].Reset? && !ops[1..][i].ResetAll? {
          assert ops[1..][i] == ops[i + 1];
        }
      }
      var c' := if ops[0] == Increment(tag) then c + 1 else c;
      TallyWithoutResets(c', ops[1..], tag);
    }
  }

  /** Counting from a fresh table with no resets: the count of a tag is exactly
      the number of times it was incremented. */
  lemma CountFromEmpty(ops: seq<CountOp>, tag: string)
    requires ResetsNothing(ops)
    ensures Lookup(ApplyAll(map[], ops), tag) == Increments(ops, tag)
  {
    LookupIsTally(map[], ops, tag);
    TallyWithoutResets(0, ops, tag);
  }

  /** The shared table. */
  class CountManager {
    var tagCounts: map<string, int>

    ghost predicate Valid()
      reads this
    {
      NonNegative(tagCounts)
    }

    /** The static field initialiser: an empty table. */
    constructor ()
      ensures Valid() && tagCounts == map[]
    {
      tagCounts := map[];
    }

    /** Start: registers the component's target tag at 0 unless it already has a count. */
    method Start(targetTag: string)
      requires Valid()
      modifies this
      ensures Valid()
      ensures tagCounts == Registered(old(tagCounts), targetTag)
    {
      if targetTag !in tagCounts {
        tagCounts := tagCounts[targetTag := 0];
      }
    }

    method IncrementTagCount(tag: string)
      requires Valid()
      modifies this
      ensures Valid()
      ensures tagCounts == Incremented(old(tagCounts), tag)
    {
      if tag in tagCounts {
        tagCounts := tagCounts[tag := tagCounts[tag] + 1];
      } else {
        tagCounts := tagCounts[tag := 1];
      }
    }

    /** The stored count, or 0 for a tag the table has never seen. */
    function GetTagCount(tag: string): (n: int)
      reads this
      ensures tag in tagCounts ==> n == tagCounts[tag]
      ensures tag !in tagCounts ==> n == 0
      ensures Valid() ==> n >= 0
    {
      Lookup(tagCounts, tag)
    }

    method ResetTagCount(tag: string)
      requires Valid()
      modifies this
      ensures Valid()
      ensures tagCounts == ResetOne(old(tagCounts), tag)
      ensures GetTagCount(tag) == 0
    {
      if tag in tagCounts {
        tagCounts := tagCounts[tag := 0];
      }
    }

    method ResetAllCounts()
      requires Valid()
      modifies this
      ensures Valid()
      ensures tagCounts == map[]
      ensures forall t :: GetTagCount(t) == 0
    {
      tagCounts := map[];
    }
  }
}
