/**
 The per-session undo log of the object database, and its reference machine that keeps
 whole snapshots. `UndoState` holds only deltas; everything here says that the deltas are
 worth as much as the snapshots they replace.
 */
module UndoLog {
  /** The contents of an object, in packed form. Only copies of it are made, never looked into. */
  datatype Value = Value(packed: seq<char>)

  /** An object id: `index` stands for the (space, type) pair that selects the index. */
  datatype ObjectId = ObjectId(index: nat, instance: nat)

  /** What a database holds: its objects and, for each index, the next instance number. */
  datatype Snapshot = Snapshot(objects: map<ObjectId, Value>, nextIds: map<nat, nat>) {
    ghost predicate WellFormed() {
      forall id <- objects :: id.index in nextIds && id.instance < nextIds[id.index]
    }
  }

  datatype UndoState = UndoState(
    oldValues: map<ObjectId, Value>,
    oldNextIds: map<nat, nat>,
    newIds: set<ObjectId>,
    removed: map<ObjectId, Value>)

  function EmptyState(): UndoState {
    UndoState(map[], map[], {}, map[])
  }

  // ----- the three hooks -----

  function OnCreate(s: UndoState, id: ObjectId): UndoState {
    s.(oldNextIds := if id.index in s.oldNextIds then s.oldNextIds else s.oldNextIds[id.index := id.instance],
       newIds := s.newIds + {id})
  }

  function OnModify(s: UndoState, id: ObjectId, old_: Value): UndoState {
    if id in s.newIds || id in s.oldValues then s else s.(oldValues := s.oldValues[id := old_])
  }

  function OnRemove(s: UndoState, id: ObjectId, old_: Value): UndoState {
    if id in s.newIds then s.(newIds := s.newIds - {id})
    else if id in s.oldValues then
      s.(removed := s.removed[id := s.oldValues[id]], oldValues := s.oldValues - {id})
    else if id in s.removed then s
    else s.(removed := s.removed[id := old_])
  }

  // ----- reverting and merging one state -----

  /** Reverting fails when an object to restore or delete is missing, or one to reinsert is present. */
  predicate CanRevert(s: UndoState, db: Snapshot) {
    && s.oldValues.Keys <= db.objects.Keys
    && s.newIds <= db.objects.Keys
    && s.oldNextIds.Keys <= db.nextIds.Keys
    && s.removed.Keys !! db.objects.Keys - s.newIds
  }

  function Reverted(s: UndoState, db: Snapshot): Snapshot {
    Snapshot((db.objects + s.oldValues) - s.newIds + s.removed, db.nextIds + s.oldNextIds)
  }

  function MergeStates(outer: UndoState, inner: UndoState): UndoState {
    var newIds := outer.newIds + inner.newIds;
    UndoState(
      (inner.oldValues - outer.newIds) + outer.oldValues,
      inner.oldNextIds + outer.oldNextIds,
      newIds - inner.removed.Keys,
      outer.removed + (inner.removed - newIds))
  }

  /** No object that the inner session removed is one that the outer session had modified. */
  predicate Mergeable(outer: UndoState, inner: UndoState) {
    inner.removed.Keys * outer.oldValues.Keys == {}
  }

  /** The objects with both a value to restore and one to reinsert; a state with any cannot be reverted. */
  function Spoiled(s: UndoState): set<ObjectId> {
    s.oldValues.Keys * s.removed.Keys
  }

  predicate IsClean(s: UndoState) {
    Spoiled(s) == {}
  }

  // ----- what an undo state means -----

  /** `s` records the counters of `before` that have moved since. */
  ghost predicate DescribesCounters(s: UndoState, before: map<nat, nat>, after: map<nat, nat>) {
    && before.Keys == after.Keys
    && (forall k <- before :: before[k] <= after[k])
    && s.oldNextIds.Keys <= before.Keys
    && (forall k <- before :: before[k] == if k in s.oldNextIds then s.oldNextIds[k] else after[k])
  }

  /** `s` records the objects of `before` that changed or vanished, and the ids that appeared. */
  ghost predicate DescribesObjects(s: UndoState, before: map<ObjectId, Value>, after: map<ObjectId, Value>) {
    && s.newIds == after.Keys - before.Keys
    && s.removed.Keys == before.Keys - after.Keys
    && s.oldValues.Keys <= before.Keys
    && (forall id <- before :: before[id] ==
          if id in s.oldValues then s.oldValues[id] else if id in s.removed then s.removed[id] else after[id])
  }

  /** `s` is exactly the difference that leads from `after` back to `before`. */
  ghost predicate Describes(s: UndoState, before: Snapshot, after: Snapshot) {
    && before.WellFormed() && after.WellFormed()
    && DescribesCounters(s, before.nextIds, after.nextIds)
    && DescribesObjects(s, before.objects, after.objects)
    // ids are never reused, so what appeared was numbered after `before`
    && (forall id <- s.newIds :: id.index in before.nextIds ==> before.nextIds[id.index] <= id.instance)
  }

  /** A description can be reverted exactly when it is clean, and then it leads back. */
  lemma RevertRestores(s: UndoState, before: Snapshot, after: Snapshot)
    requires Describes(s, before, after)
    ensures CanRevert(s, after) <==> IsClean(s)
    ensures IsClean(s) ==> Reverted(s, after) == before
  {
    SpoiledAreMissing(s, before.objects, after.objects);
    if IsClean(s) {
      RevertedObjects(s, before.objects, after.objects);
      RevertedCounters(s, before.nextIds, after.nextIds);
      hide DescribesObjects, DescribesCounters, IsClean;
      assert Reverted(s, after) == before;
    }
  }

  lemma SpoiledAreMissing(s: UndoState, before: map<ObjectId, Value>, after: map<ObjectId, Value>)
    requires DescribesObjects(s, before, after)
    ensures Spoiled(s) == s.oldValues.Keys - after.Keys
    ensures IsClean(s) <==> s.oldValues.Keys <= after.Keys
  {
    assert forall id <- s.oldValues :: id !in after ==> id in Spoiled(s);
  }

  lemma RevertedObjects(s: UndoState, before: map<ObjectId, Value>, after: map<ObjectId, Value>)
    requires DescribesObjects(s, before, after) && IsClean(s)
    ensures (after + s.oldValues) - s.newIds + s.removed == before
  {
    SpoiledAreMissing(s, before, after);
  }

  lemma RevertedCounters(s: UndoState, before: map<nat, nat>, after: map<nat, nat>)
    requires DescribesCounters(s, before, after)
    ensures after + s.oldNextIds == before
  {
  }

  lemma MergedNewIds(
    outer: UndoState, inner: UndoState, first: Snapshot, second: Snapshot, third: Snapshot)
    requires Describes(outer, first, second) && Describes(inner, second, third)
    ensures MergeStates(outer, inner).newIds == third.objects.Keys - first.objects.Keys
    ensures forall id <- inner.newIds :: id !in first.objects && first.nextIds[id.index] <= id.instance
  {
    forall id <- inner.newIds
      ensures id !in first.objects && first.nextIds[id.index] <= id.instance
    {
      assert id in third.objects;
      assert first.nextIds[id.index] <= second.nextIds[id.index];
    }
  }

  lemma MergedCounters(
    outer: UndoState, inner: UndoState, first: map<nat, nat>, second: map<nat, nat>, third: map<nat, nat>)
    requires DescribesCounters(outer, first, second) && DescribesCounters(inner, second, third)
    ensures DescribesCounters(MergeStates(outer, inner), first, third)
  {
  }

  lemma MergedObject(
    outer: UndoState, inner: UndoState, m: UndoState,
    first: map<ObjectId, Value>, second: map<ObjectId, Value>, third: map<ObjectId, Value>, id: ObjectId)
    requires DescribesObjects(outer, first, second) && DescribesObjects(inner, second, third)
    requires m == MergeStates(outer, inner) && inner.newIds !! first.Keys && id in first
    ensures first[id] == if id in m.oldValues then m.oldValues[id]
                         else if id in m.removed then m.removed[id] else third[id]
  {
    assert id !in outer.newIds;
    if id in second {
      assert second[id] == if id in inner.oldValues then inner.oldValues[id]
                           else if id in inner.removed then inner.removed[id] else third[id];
    }
  }

  lemma MergedKeys(
    outer: UndoState, inner: UndoState, first: set<ObjectId>, second: set<ObjectId>, third: set<ObjectId>)
    requires outer.newIds == second - first && outer.removed.Keys == first - second && outer.oldValues.Keys <= first
    requires inner.newIds == third - second && inner.removed.Keys == second - third && inner.oldValues.Keys <= second
    requires inner.newIds !! first
    ensures MergeStates(outer, inner).removed.Keys == first - third
    ensures MergeStates(outer, inner).oldValues.Keys <= first
  {
  }

  lemma MergedObjects(
    outer: UndoState, inner: UndoState, m: UndoState,
    first: map<ObjectId, Value>, second: map<ObjectId, Value>, third: map<ObjectId, Value>)
    requires DescribesObjects(outer, first, second) && DescribesObjects(inner, second, third)
    requires m == MergeStates(outer, inner) && inner.newIds !! first.Keys
    requires m.newIds == third.Keys - first.Keys
    ensures DescribesObjects(m, first, third)
  {
    MergedKeys(outer, inner, first.Keys, second.Keys, third.Keys);
    hide MergeStates;
    forall id <- first
      ensures first[id] == if id in m.oldValues then m.oldValues[id]
                           else if id in m.removed then m.removed[id] else third[id]
    {
      MergedObject(outer, inner, m, first, second, third, id);
    }
  }

  /** Merging always describes the way across both sessions, clean or not. */
  lemma MergeDescribes(
    outer: UndoState, inner: UndoState, first: Snapshot, second: Snapshot, third: Snapshot)
    requires Describes(outer, first, second) && Describes(inner, second, third)
    ensures Describes(MergeStates(outer, inner), first, third)
  {
    var m := MergeStates(outer, inner);
    MergedNewIds(outer, inner, first, second, third);
    MergedCounters(outer, inner, first.nextIds, second.nextIds, third.nextIds);
    MergedObjects(outer, inner, m, first.objects, second.objects, third.objects);
  }

  /**
   A merge spoils what the inner session removed and the outer one had modified; what the inner
   session had spoiled stays so unless the outer one created it.
   */
  lemma MergeSpoils(
    outer: UndoState, inner: UndoState, first: Snapshot, second: Snapshot, third: Snapshot)
    requires Describes(outer, first, second) && Describes(inner, second, third)
    ensures Spoiled(MergeStates(outer, inner)) ==
            Spoiled(outer) + (Spoiled(inner) - outer.newIds) + inner.removed.Keys * outer.oldValues.Keys
  {
    MergedNewIds(outer, inner, first, second, third);
    MeetOfMerged(outer.oldValues.Keys, outer.removed.Keys, inner.oldValues.Keys, inner.removed.Keys,
                 outer.newIds, inner.newIds, first.objects.Keys, second.objects.Keys);
  }

  lemma MeetOfMerged<T>(a: set<T>, b: set<T>, c: set<T>, d: set<T>, n: set<T>, m: set<T>, first: set<T>, second: set<T>)
    requires a <= first && b !! second && c <= second && d <= second
    requires n !! first && m !! first && m !! second
    ensures ((c - n) + a) * (b + (d - (n + m))) == a * b + ((c * d) - n) + d * a
  {
  }

  /**
   Of two clean states, merging is session composition exactly when no modified
   object is removed by the inner session.
   */
  lemma MergeIsComposition(
    outer: UndoState, inner: UndoState, first: Snapshot, second: Snapshot, third: Snapshot)
    requires Describes(outer, first, second) && Describes(inner, second, third) && IsClean(outer) && IsClean(inner)
    ensures CanRevert(inner, third) && CanRevert(outer, second)
    ensures CanRevert(MergeStates(outer, inner), third) <==> Mergeable(outer, inner)
    ensures Mergeable(outer, inner) ==>
              Reverted(MergeStates(outer, inner), third) == Reverted(outer, Reverted(inner, third)) == first
  {
    hide Describes, CanRevert, Reverted, MergeStates, Spoiled;
    RevertRestores(inner, second, third);
    RevertRestores(outer, first, second);
    MergeDescribes(outer, inner, first, second, third);
    MergeSpoils(outer, inner, first, second, third);
    RevertRestores(MergeStates(outer, inner), first, third);
    assert IsClean(MergeStates(outer, inner)) <==> inner.removed.Keys * outer.oldValues.Keys == {};
  }
}
