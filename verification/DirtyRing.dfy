/** The dirty-page ring between the kernel and the harvester (crates/dh-vmm/src/dirty.rs). */
module DirtyRing {
  import opened Common

  datatype Flag = Free | Dirty | Reset

  datatype Slot = Slot(flag: Flag, memslot: u32, gfn: u64)

  /** The slot of a free-running index: its remainder, stated by descent; see `PlaceMeans`. */
  function Place(k: nat, entries: nat): (p: nat)
    requires entries > 0
    ensures p < entries
  {
    if k < entries then k else Place(k - entries, entries)
  }

  /** The descent agrees with the source's remainder. */
  lemma {:induction false} PlaceMeans(k: nat, entries: nat)
    requires entries > 0
    ensures Place(k, entries) == k % entries
  {
    if k >= entries {
      PlaceMeans(k - entries, entries);
      SameRemainder(k, entries);
    }
  }

  lemma {:induction false} PlacesDiffer(j: nat, k: nat, entries: nat)
    requires entries > 0 && j < k < j + entries
    ensures Place(j, entries) != Place(k, entries)
  {
    if j >= entries { PlacesDiffer(j - entries, k - entries, entries); }
  }

  lemma PlaceWraps(k: nat, entries: nat)
    requires entries > 0
    ensures Place(k + entries, entries) == Place(k, entries)
  {}

  /** The ring, both sides' indices, everything published so far, and what was harvested. `failed` says that
      the harvester met an entry it refuses, which ends the slot's life. */
  datatype Ring = Ring(slots: seq<Slot>, resetIndex: nat, cursor: nat, publishIndex: nat,
                       published: seq<u64>, pages: nat, set_: set<u64>, failed: bool)

  // ---- the protocol, one atomic step at a time ---------------------------------------------

  datatype Action = Publish(memslot: u32, gfn: u64) | HarvestOne | ResetOne

  /** The kernel publishes into the next slot if it is free; otherwise the vCPU waits. */
  function PublishStep(s: Ring, memslot: u32, gfn: u64): Ring
    requires |s.slots| > 0
  {
    var p := Place(s.publishIndex, |s.slots|);
    if !s.slots[p].flag.Free? then s
    else s.(slots := s.slots[p := Slot(Dirty, memslot, gfn)], publishIndex := s.publishIndex + 1,
            published := s.published + [gfn])
  }

  /** One round of the harvest loop. */
  function HarvestStep(s: Ring): Ring
    requires |s.slots| > 0
  {
    var p := Place(s.cursor, |s.slots|);
    var slot := s.slots[p];
    if s.failed || !slot.flag.Dirty? then s
    else if slot.memslot != 0 || slot.gfn >= s.pages then s.(failed := true)
    else s.(slots := s.slots[p := slot.(flag := Reset)], cursor := s.cursor + 1, set_ := s.set_ + {slot.gfn})
  }

  /** The kernel re-arms the oldest slot if the harvester has released it. */
  function ResetStep(s: Ring): Ring
    requires |s.slots| > 0
  {
    var p := Place(s.resetIndex, |s.slots|);
    if !s.slots[p].flag.Reset? then s
    else s.(slots := s.slots[p := s.slots[p].(flag := Free)], resetIndex := s.resetIndex + 1)
  }

  function Apply(s: Ring, a: Action): Ring
    requires |s.slots| > 0
  {
    match a
    case Publish(memslot, gfn) => PublishStep(s, memslot, gfn)
    case HarvestOne => HarvestStep(s)
    case ResetOne => ResetStep(s)
  }

  // ---- what every step keeps -----------------------------------------------------------------

  /** What the slot of index `k` holds, by where `k` is. */
  predicate SlotRight(s: Ring, k: nat)
    requires |s.slots| > 0 && |s.published| == s.publishIndex
  {
    var slot := s.slots[Place(k, |s.slots|)];
    if k < s.cursor then slot.flag.Reset?
    else if k < s.publishIndex then slot.flag.Dirty? && slot.gfn == s.published[k]
    else slot.flag.Free?
  }

  ghost predicate Inv(s: Ring)
  {
    && |s.slots| > 0 && |s.published| == s.publishIndex
    && s.resetIndex <= s.cursor <= s.publishIndex <= s.resetIndex + |s.slots|
    && (forall k :: s.resetIndex <= k < s.resetIndex + |s.slots| ==> SlotRight(s, k))
    && (forall k :: 0 <= k < s.cursor ==> s.published[k] in s.set_)
  }

  /** A step that changes the slot of one index leaves the others of the window alone. */
  lemma OthersKeep(s: Ring, k: nat, j: nat, slot: Slot)
    requires |s.slots| > 0 && (j < k < j + |s.slots| || k < j < k + |s.slots|)
    ensures s.slots[Place(k, |s.slots|) := slot][Place(j, |s.slots|)] == s.slots[Place(j, |s.slots|)]
  {
    if j < k { PlacesDiffer(j, k, |s.slots|); } else { PlacesDiffer(k, j, |s.slots|); }
  }

  lemma PublishKeeps(s: Ring, memslot: u32, gfn: u64)
    requires Inv(s)
    ensures Inv(PublishStep(s, memslot, gfn))
  {
    var n, t := |s.slots|, PublishStep(s, memslot, gfn);
    PlaceWraps(s.resetIndex, n);
    assert SlotRight(s, s.resetIndex);
    if t != s {
      forall k | s.resetIndex <= k < s.resetIndex + n ensures SlotRight(t, k) {
        assert SlotRight(s, k);
        if k != s.publishIndex { OthersKeep(s, s.publishIndex, k, Slot(Dirty, memslot, gfn)); }
      }
    }
  }

  lemma HarvestKeeps(s: Ring)
    requires Inv(s)
    ensures Inv(HarvestStep(s))
  {
    var n, t, p := |s.slots|, HarvestStep(s), Place(s.cursor, |s.slots|);
    PlaceWraps(s.resetIndex, n);
    assert SlotRight(s, s.resetIndex);
    assert s.cursor < s.resetIndex + n ==> SlotRight(s, s.cursor);
    if t.cursor != s.cursor {
      forall k | s.resetIndex <= k < s.resetIndex + n ensures SlotRight(t, k) {
        assert SlotRight(s, k);
        if k != s.cursor { OthersKeep(s, s.cursor, k, s.slots[p].(flag := Reset)); }
      }
    } else {
      forall k | s.resetIndex <= k < s.resetIndex + n ensures SlotRight(t, k) { assert SlotRight(s, k); }
    }
  }

  lemma ResetKeeps(s: Ring)
    requires Inv(s)
    ensures Inv(ResetStep(s))
  {
    var n, t, p := |s.slots|, ResetStep(s), Place(s.resetIndex, |s.slots|);
    assert SlotRight(s, s.resetIndex);
    if t != s {
      PlaceWraps(s.resetIndex, n);
      forall k | t.resetIndex <= k < t.resetIndex + n ensures SlotRight(t, k) {
        if k < s.resetIndex + n {
          assert SlotRight(s, k);
          OthersKeep(s, s.resetIndex, k, s.slots[p].(flag := Free));
        }
      }
    }
  }

  lemma StepKeeps(s: Ring, a: Action)
    requires Inv(s)
    ensures Inv(Apply(s, a)) == true  // proved as one fact
    ensures |Apply(s, a).slots| == |s.slots|
  {
    match a
    case Publish(memslot, gfn) => PublishKeeps(s, memslot, gfn);
    case HarvestOne => HarvestKeeps(s);
    case ResetOne => ResetKeeps(s);
  }

  // ---- runs ------------------------------------------------------------------------------------

  /** The ring after a run; `history` is the run, latest action outermost. */
  datatype History = Start | Then(before: History, action: Action)

  function Fresh(entries: nat, pages: nat): Ring
  {
    Ring(seq(entries, _ => Slot(Free, 0, 0)), 0, 0, 0, [], pages, {}, false)
  }

  function After(entries: nat, pages: nat, history: History): (s: Ring)
    requires entries > 0
    ensures |s.slots| == entries
  {
    match history
    case Start => Fresh(entries, pages)
    case Then(before, a) => Apply(After(entries, pages, before), a)
  }

  /** Everything published is in the set, or is still in the ring ahead of the cursor. */
  ghost predicate LossFree(s: Ring)
  {
    && |s.slots| > 0 && s.cursor <= |s.published|
    && forall k :: 0 <= k < |s.published| ==>
         s.published[k] in s.set_
         || (s.cursor <= k && var slot := s.slots[Place(k, |s.slots|)]; slot.flag.Dirty? && slot.gfn == s.published[k])
  }

  /** In every interleaving of publishes, harvest rounds and resets, on a ring of any size, nothing is lost and
      the indices stay in order. */
  lemma {:induction false} AlwaysLossFree(entries: nat, pages: nat, history: History)
    requires entries > 0
    ensures var s := After(entries, pages, history);
            Inv(s) && LossFree(s) && s.resetIndex <= s.cursor <= s.publishIndex <= s.resetIndex + entries
  {
    match history
    case Start =>
    case Then(before, a) =>
      AlwaysLossFree(entries, pages, before);
      StepKeeps(After(entries, pages, before), a);
      InvIsLossFree(After(entries, pages, history));
  }

  lemma InvIsLossFree(s: Ring)
    requires Inv(s)
    ensures LossFree(s)
  {
    forall k | s.cursor <= k < |s.published|
      ensures var slot := s.slots[Place(k, |s.slots|)]; slot.flag.Dirty? && slot.gfn == s.published[k]
    {
      assert SlotRight(s, k);
    }
  }

  // ---- the harvest at a boundary ------------------------------------------------------------------

  /** The entry of index `k` is one that the harvester refuses: of a foreign memslot, or beyond memory. */
  predicate Refuses(s: Ring, k: nat)
    requires |s.slots| > 0
  {
    var slot := s.slots[Place(k, |s.slots|)];
    slot.memslot != 0 || slot.gfn >= s.pages
  }

  /** An entry that is waiting is refused. */
  ghost predicate MeetsRefused(s: Ring)
    requires |s.slots| > 0
  {
    exists k: nat :: s.cursor <= k < s.publishIndex && Refuses(s, k)
  }

  /** The entries ahead of the cursor are still those of `s0`. */
  ghost predicate SameAhead(s0: Ring, s: Ring)
    requires |s.slots| == |s0.slots| > 0
  {
    && s.pages == s0.pages
    && forall k: nat :: s.cursor <= k < s.publishIndex ==> s.slots[Place(k, |s.slots|)] == s0.slots[Place(k, |s.slots|)]
  }

  lemma HarvestAhead(s0: Ring, s: Ring)
    requires |s.slots| == |s0.slots| && Inv(s) && SameAhead(s0, s)
    ensures SameAhead(s0, HarvestStep(s))
  {
    var t, n, p := HarvestStep(s), |s.slots|, Place(s.cursor, |s.slots|);
    if t.cursor != s.cursor {
      forall k: nat | t.cursor <= k < t.publishIndex ensures t.slots[Place(k, n)] == s0.slots[Place(k, n)] {
        OthersKeep(s, s.cursor, k, s.slots[p].(flag := Reset));
      }
    }
  }

  /** `harvest_into`, with the vCPU stopped: as many rounds as there are entries waiting, and never more than
      the ring has. It fails exactly if one of them is refused, and then at the first such. */
  method HarvestInto(s0: Ring) returns (s: Ring, harvested: nat)
    requires Inv(s0) && !s0.failed
    ensures Inv(s) && s.publishIndex == s0.publishIndex && s.resetIndex == s0.resetIndex && s.published == s0.published
    ensures |s.slots| == |s0.slots|
    ensures s.failed <==> MeetsRefused(s0)
    ensures s.failed ==> s.cursor < s0.publishIndex && Refuses(s0, s.cursor)
    ensures forall k: nat :: s0.cursor <= k < s.cursor ==> !Refuses(s0, k)
    ensures harvested == s.cursor - s0.cursor && harvested <= |s0.slots|
    ensures !s.failed ==> s.cursor == s.publishIndex && forall gfn :: gfn in s.published ==> gfn in s.set_
    ensures s0.set_ <= s.set_ && forall gfn :: gfn in s.set_ ==> gfn in s0.set_ || gfn in s.published[s0.cursor..]
  {
    s, harvested := s0, 0;
    while s.slots[Place(s.cursor, |s.slots|)].flag.Dirty? && !s.failed
      invariant Inv(s) && s.publishIndex == s0.publishIndex && s.resetIndex == s0.resetIndex
      invariant s.published == s0.published && |s.slots| == |s0.slots| && SameAhead(s0, s)
      invariant harvested == s.cursor - s0.cursor
      invariant forall k: nat :: s0.cursor <= k < s.cursor ==> !Refuses(s0, k)
      invariant s.failed ==> s.cursor < s0.publishIndex && Refuses(s0, s.cursor)
      invariant s0.set_ <= s.set_ && forall gfn :: gfn in s.set_ ==> gfn in s0.set_ || gfn in s.published[s0.cursor..]
      decreases s.publishIndex - s.cursor, !s.failed
    {
      var next := HarvestStep(s);
      HarvestKeeps(s);
      WaitingSlot(s);
      HarvestAhead(s0, s);
      if !next.failed { harvested := harvested + 1; }
      s := next;
    }
    if !s.failed { Drained(s); }
  }

  /** A dirty slot at the cursor is a published entry. */
  lemma WaitingSlot(s: Ring)
    requires Inv(s) && s.slots[Place(s.cursor, |s.slots|)].flag.Dirty?
    ensures s.cursor < s.publishIndex && s.slots[Place(s.cursor, |s.slots|)].gfn == s.published[s.cursor]
  {
    PlaceWraps(s.resetIndex, |s.slots|);
    assert SlotRight(s, s.resetIndex);
    assert s.cursor < s.resetIndex + |s.slots| ==> SlotRight(s, s.cursor);
  }

  /** No dirty slot at the cursor means that nothing is waiting. */
  lemma Drained(s: Ring)
    requires Inv(s) && !s.slots[Place(s.cursor, |s.slots|)].flag.Dirty?
    ensures s.cursor == s.publishIndex
  {
    assert s.cursor < s.publishIndex ==> SlotRight(s, s.cursor);
  }

  /** `harvest_at_boundary`: drain, then let the kernel re-arm what was released. */
  method HarvestAtBoundary(s0: Ring) returns (s: Ring, harvested: nat, reset: nat)
    requires Inv(s0) && !s0.failed
    ensures Inv(s) && s.published == s0.published
    ensures s.failed <==> MeetsRefused(s0)
    ensures s.failed ==> harvested == s.cursor - s0.cursor && s.cursor < s0.publishIndex && Refuses(s0, s.cursor)
    ensures s.failed ==> reset == 0 && s.resetIndex == s0.resetIndex
    ensures !s.failed ==> harvested == s0.publishIndex - s0.cursor && s.cursor == s.publishIndex
    // Everything released is re-armed, also what an earlier boundary left; that is as much as was harvested
    // if and only if nothing was left.
    ensures !s.failed && harvested > 0 ==> reset == s0.publishIndex - s0.resetIndex && s.resetIndex == s.cursor
    ensures !s.failed && harvested == 0 ==> reset == 0 && s.resetIndex == s0.resetIndex
    ensures !s.failed && harvested > 0 ==> (reset == harvested <==> s0.resetIndex == s0.cursor)
    ensures !s.failed ==> forall gfn :: gfn in s.published ==> gfn in s.set_
  {
    s, harvested := HarvestInto(s0);
    reset := 0;
    if s.failed { return; }
    ghost var was := s;
    while harvested > 0 && s.slots[Place(s.resetIndex, |s.slots|)].flag.Reset?
      invariant Inv(s) && !s.failed && s.published == was.published && s.publishIndex == was.publishIndex
      invariant s.cursor == was.cursor
      invariant s.set_ == was.set_ && reset == s.resetIndex - was.resetIndex && (harvested == 0 ==> s == was)
      decreases s.cursor - s.resetIndex
    {
      Released(s);
      ResetKeeps(s);
      s := ResetStep(s);
      reset := reset + 1;
    }
    Released(s);
  }

  lemma Released(s: Ring)
    requires Inv(s)
    ensures s.resetIndex < s.cursor <==> s.slots[Place(s.resetIndex, |s.slots|)].flag.Reset?
  {
    assert SlotRight(s, s.resetIndex);
  }

  /** A lone harvest that no reset followed: the next boundary re-arms its slot as well, and counts two for one. */
  method ResetsMore() returns (s: Ring, harvested: nat, reset: nat)
    ensures !s.failed && harvested == 1 && reset == 2
  {
    ghost var one := Then(Start, Publish(0, 0));
    var s1 := PublishStep(Fresh(2, 1), 0, 0);
    var s2 := HarvestStep(s1);
    var s3 := PublishStep(s2, 0, 0);
    AlwaysLossFree(2, 1, Then(Then(one, HarvestOne), Publish(0, 0)));
    assert s1 == After(2, 1, one);
    assert s3 == After(2, 1, Then(Then(one, HarvestOne), Publish(0, 0)));
    s, harvested, reset := HarvestAtBoundary(s3);
  }
}
