/**
 The undo database as a state machine over sessions, the same machine with whole
 snapshots instead of deltas, and the proof that no run can tell them apart.
 */
module UndoDatabase {
  import opened Wrappers
  import opened UndoLog

  datatype Machine = Machine(
    db: Snapshot, stack: seq<UndoState>, active: nat, disabled: bool, maxSize: nat)
  {
    /** The stack after a hook made sure that there is a state to record in. */
    function Recording(): (s: seq<UndoState>) {
      if stack == [] then [EmptyState()] else stack
    }

    function Top(): UndoState {
      Recording()[|Recording()| - 1]
    }

    function Record(s: UndoState): seq<UndoState> {
      Recording()[..|Recording()| - 1] + [s]
    }
  }

  datatype Op =
    | StartSession
    | Create(index: nat, value: Value)
    | Modify(id: ObjectId, value: Value)
    | Remove(id: ObjectId)
    | Undo
    | Merge
    | Commit
    | PopCommit

  /** Starting a session on a full stack first drops the oldest state. */
  function Pushed<T>(stack: seq<T>, maxSize: nat, t: T): seq<T> {
    (if |stack| == maxSize && stack != [] then stack[1..] else stack) + [t]
  }

  function Step(m: Machine, op: Op): Option<Machine> {
    match op
    case StartSession =>
      Some(if m.disabled then m else m.(stack := Pushed(m.stack, m.maxSize, EmptyState()), active := m.active + 1))
    case Create(index, value) =>
      if index !in m.db.nextIds then None
      else
        var id := ObjectId(index, m.db.nextIds[index]);
        if id in m.db.objects then None
        else Some(m.(db := Snapshot(m.db.objects[id := value], m.db.nextIds[index := id.instance + 1]),
                     stack := if m.disabled then m.stack else m.Record(OnCreate(m.Top(), id))))
    case Modify(id, value) =>
      if id !in m.db.objects then None
      else Some(m.(db := m.db.(objects := m.db.objects[id := value]),
                   stack := if m.disabled then m.stack else m.Record(OnModify(m.Top(), id, m.db.objects[id]))))
    case Remove(id) =>
      if id !in m.db.objects then None
      else Some(m.(db := m.db.(objects := m.db.objects - {id}),
                   stack := if m.disabled then m.stack else m.Record(OnRemove(m.Top(), id, m.db.objects[id]))))
    case Undo =>
      if m.disabled || m.active == 0 || m.stack == [] || !CanRevert(m.Top(), m.db) then None
      else
        var rest := m.stack[..|m.stack| - 1];
        Some(m.(db := Reverted(m.Top(), m.db),
                stack := if rest == [] then [EmptyState()] else rest,
                active := m.active - 1))
    case Merge =>
      if m.active == 0 || |m.stack| < 2 then None
      else
        var n := |m.stack|;
        Some(m.(stack := m.stack[..n - 2] + [MergeStates(m.stack[n - 2], m.stack[n - 1])], active := m.active - 1))
    case Commit =>
      if m.active == 0 then None else Some(m.(active := m.active - 1))
    case PopCommit =>
      if m.active > 0 || m.stack == [] || !CanRevert(m.Top(), m.db) then None
      else Some(m.(db := Reverted(m.Top(), m.db), stack := m.stack[..|m.stack| - 1], disabled := false))
  }

  // ----- the reference machine: a stack of whole snapshots -----

  datatype Reference = Reference(db: Snapshot, snapshots: seq<Snapshot>, active: nat, maxSize: nat)

  /** What the client does to the objects, with no record of it anywhere. */
  function Edit(db: Snapshot, op: Op): Option<Snapshot> {
    match op
    case Create(index, value) =>
      if index !in db.nextIds || ObjectId(index, db.nextIds[index]) in db.objects then None
      else Some(Snapshot(db.objects[ObjectId(index, db.nextIds[index]) := value],
                         db.nextIds[index := db.nextIds[index] + 1]))
    case Modify(id, value) =>
      if id !in db.objects then None else Some(db.(objects := db.objects[id := value]))
    case Remove(id) =>
      if id !in db.objects then None else Some(db.(objects := db.objects - {id}))
    case _ => Some(db)
  }

  /** An edit outside any session opens a level of its own. */
  function Edited(r: Reference, db: Snapshot): Reference {
    r.(db := db, snapshots := if r.snapshots == [] then [r.db] else r.snapshots)
  }

  function ReferenceStep(r: Reference, op: Op): Option<Reference> {
    var n := |r.snapshots|;
    match op
    case StartSession =>
      Some(r.(snapshots := Pushed(r.snapshots, r.maxSize, r.db), active := r.active + 1))
    case Undo =>
      if r.active == 0 then None
      else if n == 0 then None
      else Some(r.(db := r.snapshots[n - 1],
                   snapshots := if n == 1 then [r.snapshots[0]] else r.snapshots[..n - 1],
                   active := r.active - 1))
    case Merge =>
      if r.active == 0 || n < 2 then None
      else Some(r.(snapshots := r.snapshots[..n - 1], active := r.active - 1))
    case Commit =>
      if r.active == 0 then None else Some(r.(active := r.active - 1))
    case PopCommit =>
      if r.active > 0 || n == 0 then None
      else Some(r.(db := r.snapshots[n - 1], snapshots := r.snapshots[..n - 1]))
    case _ =>
      if Edit(r.db, op).None? then None else Some(Edited(r, Edit(r.db, op).value))
  }

  // ----- the refinement -----

  /** The snapshot that was current when the level above `i` was opened; the database itself above the last. */
  ghost function Level(r: Reference, i: nat): Snapshot
    requires i <= |r.snapshots|
  {
    if i == |r.snapshots| then r.db else r.snapshots[i]
  }

  ghost predicate Refines(m: Machine, r: Reference) {
    && m.db == r.db && m.active == r.active && m.maxSize == r.maxSize > 0 && !m.disabled
    && m.db.WellFormed()
    && (m.active > 0 ==> m.stack != [])
    && |m.stack| == |r.snapshots|
    && forall i {:trigger m.stack[i]} | 0 <= i < |m.stack| :: Describes(m.stack[i], r.snapshots[i], Level(r, i + 1))
  }

  ghost function BelowTop(r: Reference): Snapshot {
    if r.snapshots == [] then r.db else r.snapshots[|r.snapshots| - 1]
  }

  /** A session may be merged when its state and the one below it compose. */
  predicate Admissible(m: Machine, op: Op) {
    op.Merge? && |m.stack| >= 2 ==> Mergeable(m.stack[|m.stack| - 2], m.stack[|m.stack| - 1])
  }

  /** An operation that reverts the top state. */
  predicate Rewinds(op: Op) {
    op.Undo? || op.PopCommit?
  }

  lemma EmptyDescribes(db: Snapshot)
    requires db.WellFormed()
    ensures Describes(EmptyState(), db, db) && IsClean(EmptyState())
  {
  }

  lemma CreateObject(s: UndoState, before: map<ObjectId, Value>, now: map<ObjectId, Value>, id: ObjectId, value: Value)
    requires DescribesObjects(s, before, now) && id !in before && id !in now
    ensures DescribesObjects(OnCreate(s, id), before, now[id := value])
  {
  }

  lemma CreateCounter(s: UndoState, before: map<nat, nat>, now: map<nat, nat>, index: nat)
    requires DescribesCounters(s, before, now) && index in now
    ensures before[index] <= now[index]
    ensures DescribesCounters(OnCreate(s, ObjectId(index, now[index])), before, now[index := now[index] + 1])
  {
  }

  lemma CreateDescribes(s: UndoState, before: Snapshot, now: Snapshot, index: nat, value: Value)
    requires Describes(s, before, now) && index in now.nextIds
    ensures var id := ObjectId(index, now.nextIds[index]);
            && id !in now.objects
            && Describes(OnCreate(s, id), before,
                         Snapshot(now.objects[id := value], now.nextIds[index := id.instance + 1]))
  {
    var id := ObjectId(index, now.nextIds[index]);
    CreateCounter(s, before.nextIds, now.nextIds, index);
    CreateObject(s, before.objects, now.objects, id, value);
    hide DescribesCounters, DescribesObjects;
  }

  lemma ModifyDescribes(s: UndoState, before: Snapshot, now: Snapshot, id: ObjectId, value: Value)
    requires Describes(s, before, now) && id in now.objects
    ensures Describes(OnModify(s, id, now.objects[id]), before, now.(objects := now.objects[id := value]))
  {
    var t, after := OnModify(s, id, now.objects[id]), now.objects[id := value];
    assert after.Keys == now.objects.Keys;
    assert DescribesObjects(t, before.objects, after);
  }

  lemma RemoveObject(s: UndoState, before: map<ObjectId, Value>, now: map<ObjectId, Value>, id: ObjectId)
    requires DescribesObjects(s, before, now) && id in now
    ensures DescribesObjects(OnRemove(s, id, now[id]), before, now - {id})
  {
    var t := OnRemove(s, id, now[id]);
    assert t.newIds == (now - {id}).Keys - before.Keys;
    assert t.removed.Keys == before.Keys - (now - {id}).Keys;
  }

  lemma RemoveDescribes(s: UndoState, before: Snapshot, now: Snapshot, id: ObjectId)
    requires Describes(s, before, now) && id in now.objects
    ensures Describes(OnRemove(s, id, now.objects[id]), before, now.(objects := now.objects - {id}))
  {
    RemoveObject(s, before.objects, now.objects, id);
  }

  /** Replacing the database and the top level, and only these, keeps the refinement. */
  lemma TopRefines(m: Machine, r: Reference, db: Snapshot, top: UndoState)
    requires Refines(m, r) && Describes(top, BelowTop(r), db)
    ensures Refines(m.(db := db, stack := m.Record(top)), Edited(r, db))
  {
  }

  lemma TopDescribes(m: Machine, r: Reference)
    requires Refines(m, r)
    ensures Describes(m.Top(), BelowTop(r), m.db)
  {
  }

  lemma RefinedFields(m: Machine, r: Reference)
    requires Refines(m, r)
    ensures m.db == r.db && m.active == r.active && |m.stack| == |r.snapshots| && (m.active > 0 ==> m.stack != [])
    ensures !m.disabled && m.maxSize == r.maxSize
  {
  }

  lemma CreateRefines(m: Machine, r: Reference, index: nat, value: Value)
    requires Refines(m, r) && index in m.db.nextIds
    ensures ObjectId(index, m.db.nextIds[index]) !in m.db.objects
    ensures Refines(Step(m, Create(index, value)).value, ReferenceStep(r, Create(index, value)).value)
  {
    hide Refines, Describes, OnCreate;
    var id := ObjectId(index, m.db.nextIds[index]);
    RefinedFields(m, r);
    TopDescribes(m, r);
    CreateDescribes(m.Top(), BelowTop(r), m.db, index, value);
    TopRefines(m, r, Snapshot(m.db.objects[id := value], m.db.nextIds[index := id.instance + 1]), OnCreate(m.Top(), id));
  }

  lemma ModifyRefines(m: Machine, r: Reference, id: ObjectId, value: Value)
    requires Refines(m, r) && id in m.db.objects
    ensures Refines(Step(m, Modify(id, value)).value, ReferenceStep(r, Modify(id, value)).value)
  {
    hide Refines, Describes, OnModify;
    RefinedFields(m, r);
    TopDescribes(m, r);
    ModifyDescribes(m.Top(), BelowTop(r), m.db, id, value);
    TopRefines(m, r, m.db.(objects := m.db.objects[id := value]), OnModify(m.Top(), id, m.db.objects[id]));
  }

  lemma RemoveRefines(m: Machine, r: Reference, id: ObjectId)
    requires Refines(m, r) && id in m.db.objects
    ensures Refines(Step(m, Remove(id)).value, ReferenceStep(r, Remove(id)).value)
  {
    hide Refines, Describes, OnRemove;
    RefinedFields(m, r);
    TopDescribes(m, r);
    RemoveDescribes(m.Top(), BelowTop(r), m.db, id);
    TopRefines(m, r, m.db.(objects := m.db.objects - {id}), OnRemove(m.Top(), id, m.db.objects[id]));
  }

  /**
   Every step of the log is matched by a step of the snapshots, and succeeds exactly when that one does
   and the state that it reverts, if any, is clean.
   */
  lemma StepRefines(m: Machine, r: Reference, op: Op)
    requires Refines(m, r)
    ensures Step(m, op).Some? <==> ReferenceStep(r, op).Some? && (Rewinds(op) ==> IsClean(m.Top()))
    ensures Step(m, op).Some? ==> Refines(Step(m, op).value, ReferenceStep(r, op).value)
  {
    match op
    case Create(index, value) => if index in m.db.nextIds { CreateRefines(m, r, index, value); }
    case Modify(id, value) => if id in m.db.objects { ModifyRefines(m, r, id, value); }
    case Remove(id) => if id in m.db.objects { RemoveRefines(m, r, id); }
    case StartSession => StartRefines(m, r);
    case Undo => RewindRefines(m, r, op);
    case PopCommit => RewindRefines(m, r, op);
    case Merge => MergeRefines(m, r);
    case Commit =>
  }

  lemma StartRefines(m: Machine, r: Reference)
    requires Refines(m, r)
    ensures Refines(Step(m, StartSession).value, ReferenceStep(r, StartSession).value)
  {
    EmptyDescribes(r.db);
    var m', r' := Step(m, StartSession).value, ReferenceStep(r, StartSession).value;
    var dropped := if |m.stack| == m.maxSize then 1 else 0;
    forall i | 0 <= i < |m'.stack|
      ensures Describes(m'.stack[i], r'.snapshots[i], Level(r', i + 1))
    {
      if i < |m'.stack| - 1 {
        assert Describes(m.stack[i + dropped], r.snapshots[i + dropped], Level(r, i + dropped + 1));
      }
    }
  }

  lemma RewindRefines(m: Machine, r: Reference, op: Op)
    requires Refines(m, r) && Rewinds(op)
    ensures Step(m, op).Some? <==> ReferenceStep(r, op).Some? && IsClean(m.Top())
    ensures Step(m, op).Some? ==> Refines(Step(m, op).value, ReferenceStep(r, op).value)
  {
    var n := |m.stack|;
    if n > 0 {
      TopDescribes(m, r);
      RevertRestores(m.Top(), BelowTop(r), m.db);
      EmptyDescribes(BelowTop(r));
      if Step(m, op).Some? {
        var m', r' := Step(m, op).value, ReferenceStep(r, op).value;
        forall i | 0 <= i < n - 1
          ensures Describes(m.stack[i], r.snapshots[i], r.snapshots[i + 1])
        {
          assert Describes(m.stack[i], r.snapshots[i], Level(r, i + 1));
        }
      }
    }
  }

  lemma MergeRefines(m: Machine, r: Reference)
    requires Refines(m, r)
    ensures Step(m, Merge).Some? <==> ReferenceStep(r, Merge).Some?
    ensures Step(m, Merge).Some? ==> Refines(Step(m, Merge).value, ReferenceStep(r, Merge).value)
  {
    hide Describes, MergeStates, OnCreate, OnModify, OnRemove, Reverted;
    var n := |m.stack|;
    if Step(m, Merge).Some? {
      var m', r' := Step(m, Merge).value, ReferenceStep(r, Merge).value;
      forall i | 0 <= i < n - 1
        ensures Describes(m'.stack[i], r'.snapshots[i], Level(r', i + 1))
      {
        assert Describes(m.stack[i], r.snapshots[i], Level(r, i + 1));
        if i == n - 2 {
          TopDescribes(m, r);
          MergeDescribes(m.stack[i], m.stack[i + 1], r.snapshots[i], r.snapshots[i + 1], r.db);
        }
      }
    }
  }

  // ----- whole runs -----

  function Run(m: Machine, ops: seq<Op>): Option<Machine>
    decreases |ops|
  {
    if ops == [] then Some(m)
    else if Step(m, ops[0]).None? then None
    else Run(Step(m, ops[0]).value, ops[1..])
  }

  function ReferenceRun(r: Reference, ops: seq<Op>): Option<Reference>
    decreases |ops|
  {
    if ops == [] then Some(r)
    else if ReferenceStep(r, ops[0]).None? then None
    else ReferenceRun(ReferenceStep(r, ops[0]).value, ops[1..])
  }

  /** Every state that the run reverts is clean. */
  predicate CleanRun(m: Machine, ops: seq<Op>)
    decreases |ops|
  {
    ops != [] ==>
      && (Rewinds(ops[0]) ==> IsClean(m.Top()))
      && (Step(m, ops[0]).Some? ==> CleanRun(Step(m, ops[0]).value, ops[1..]))
  }

  lemma {:induction false} RunRefines(m: Machine, r: Reference, ops: seq<Op>)
    requires Refines(m, r)
    ensures Run(m, ops).Some? <==> ReferenceRun(r, ops).Some? && CleanRun(m, ops)
    ensures Run(m, ops).Some? ==> Refines(Run(m, ops).value, ReferenceRun(r, ops).value)
    decreases |ops|
  {
    hide Step, ReferenceStep, Refines, IsClean;
    if ops == [] {
    } else {
      StepRefines(m, r, ops[0]);
      if Step(m, ops[0]).Some? {
        RunRefines(Step(m, ops[0]).value, ReferenceStep(r, ops[0]).value, ops[1..]);
      }
    }
  }

  // ----- runs that merge admissibly -----

  predicate AdmissibleRun(m: Machine, ops: seq<Op>)
    decreases |ops|
  {
    ops != [] ==> Admissible(m, ops[0]) && (Step(m, ops[0]).Some? ==> AdmissibleRun(Step(m, ops[0]).value, ops[1..]))
  }

  ghost predicate AllClean(m: Machine) {
    forall i {:trigger m.stack[i]} | 0 <= i < |m.stack| :: IsClean(m.stack[i])
  }

  lemma StepStaysClean(m: Machine, r: Reference, op: Op)
    requires Refines(m, r) && AllClean(m) && Admissible(m, op) && Step(m, op).Some?
    ensures AllClean(Step(m, op).value)
  {
    hide Refines, OnCreate, OnModify, OnRemove, MergeStates, Spoiled, Reverted;
    EmptyIsClean();
    match op
    case Merge => MergedTopSpoils(m, r);
    case Create(index, value) => EditStaysClean(m, r, ObjectId(index, m.db.nextIds[index]));
    case Modify(id, _) => EditStaysClean(m, r, id);
    case Remove(id) => EditStaysClean(m, r, id);
    case _ =>
  }

  lemma EmptyIsClean()
    ensures IsClean(EmptyState())
  {
  }

  lemma MergedTopSpoils(m: Machine, r: Reference)
    requires Refines(m, r) && |m.stack| >= 2
    ensures var (outer, inner) := (m.stack[|m.stack| - 2], m.stack[|m.stack| - 1]);
            Spoiled(MergeStates(outer, inner)) ==
            Spoiled(outer) + (Spoiled(inner) - outer.newIds) + inner.removed.Keys * outer.oldValues.Keys
  {
    var n := |m.stack|;
    LevelDescribed(m, r, n - 2);
    LevelDescribed(m, r, n - 1);
    hide Refines, Describes, MergeStates;
    MergeSpoils(m.stack[n - 2], m.stack[n - 1], r.snapshots[n - 2], r.snapshots[n - 1], r.db);
  }

  /** The hooks spoil nothing. */
  lemma EditStaysClean(m: Machine, r: Reference, id: ObjectId)
    requires Refines(m, r) && AllClean(m)
    ensures IsClean(OnCreate(m.Top(), id))
    ensures id in m.db.objects ==>
              IsClean(OnModify(m.Top(), id, m.db.objects[id])) && IsClean(OnRemove(m.Top(), id, m.db.objects[id]))
  {
    TopDescribes(m, r);
    TopIsClean(m);
    hide Refines;
    HooksSpoilNothing(m.Top(), BelowTop(r), m.db, id);
  }

  lemma HooksSpoilNothing(s: UndoState, before: Snapshot, now: Snapshot, id: ObjectId)
    requires Describes(s, before, now)
    ensures Spoiled(OnCreate(s, id)) == Spoiled(s)
    ensures id in now.objects ==>
              Spoiled(OnModify(s, id, now.objects[id])) == Spoiled(OnRemove(s, id, now.objects[id])) == Spoiled(s)
  {
  }

  /** As long as all merges are admissible, nothing is ever spoiled, and every revert succeeds. */
  lemma {:induction false} AdmissibleRunIsClean(m: Machine, r: Reference, ops: seq<Op>)
    requires Refines(m, r) && AllClean(m) && AdmissibleRun(m, ops)
    ensures CleanRun(m, ops)
    ensures Run(m, ops).Some? ==> AllClean(Run(m, ops).value)
    decreases |ops|
  {
    hide Step, ReferenceStep, Refines, IsClean, Admissible;
    if ops == [] {
    } else {
      TopIsClean(m);
      if Step(m, ops[0]).Some? {
        StepRefines(m, r, ops[0]);
        StepStaysClean(m, r, ops[0]);
        AdmissibleRunIsClean(Step(m, ops[0]).value, ReferenceStep(r, ops[0]).value, ops[1..]);
      }
    }
  }

  lemma TopIsClean(m: Machine)
    requires AllClean(m)
    ensures IsClean(m.Top())
  {
  }

  // ----- rewinding -----

  lemma LevelDescribed(m: Machine, r: Reference, i: nat)
    requires Refines(m, r) && i < |m.stack|
    ensures Describes(m.stack[i], r.snapshots[i], Level(r, i + 1))
  {
  }

  function Repeat(op: Op, k: nat): seq<Op> {
    if k == 0 then [] else [op] + Repeat(op, k - 1)
  }

  predicate RewindsWith(m: Machine, op: Op, k: nat) {
    (op.Undo? && k <= m.active) || (op.PopCommit? && m.active == 0)
  }

  /** The top `k` states are clean. */
  ghost predicate CleanTop(m: Machine, k: nat)
    requires k <= |m.stack|
  {
    forall i {:trigger m.stack[i]} | |m.stack| - k <= i < |m.stack| :: IsClean(m.stack[i])
  }

  /**
   `k` reverts, by `undo` while sessions are active or by `pop_commit` when none is, succeed exactly when the
   top `k` states are clean, and lead back `k` levels.
   */
  lemma {:induction false} RewindsToSnapshot(m: Machine, r: Reference, op: Op, k: nat)
    requires Refines(m, r) && k <= |m.stack|
    requires RewindsWith(m, op, k)
    ensures Run(m, Repeat(op, k)).Some? <==> CleanTop(m, k)
    ensures Run(m, Repeat(op, k)).Some? ==> Run(m, Repeat(op, k)).value.db == Level(r, |r.snapshots| - k)
    decreases k
  {
    hide Step, IsClean, Refines, CleanTop;
    CleanTopSteps(m, op, k);
    RefinedFields(m, r);
    if k == 0 {
    } else {
      RewindRefines(m, r, op);
      assert Repeat(op, k)[0] == op;
      if Step(m, op).Some? {
        var m', r' := Step(m, op).value, ReferenceStep(r, op).value;
        StillRewinds(m, op, k);
        RewindsToSnapshot(m', r', op, k - 1);
        RunUnfolds(m, op, Repeat(op, k - 1));
      }
    }
  }

  lemma StillRewinds(m: Machine, op: Op, k: nat)
    requires 0 < k <= |m.stack| && RewindsWith(m, op, k) && Step(m, op).Some?
    ensures RewindsWith(Step(m, op).value, op, k - 1) && k - 1 <= |Step(m, op).value.stack|
  {
  }

  lemma CleanTopSteps(m: Machine, op: Op, k: nat)
    requires k <= |m.stack| && Rewinds(op)
    ensures k == 0 ==> CleanTop(m, k)
    ensures k > 0 && Step(m, op).Some? ==>
              k - 1 <= |Step(m, op).value.stack| && (CleanTop(m, k) <==> IsClean(m.Top()) && CleanTop(Step(m, op).value, k - 1))
    ensures k > 0 && CleanTop(m, k) ==> IsClean(m.Top())
  {
    hide IsClean, CanRevert, Reverted;
    if k > 0 && Step(m, op).Some? {
      var n, rest := |m.stack|, Step(m, op).value.stack;
      assert forall i | n - k <= i < n - 1 :: rest[i] == m.stack[i];
    }
  }

  lemma RewoundStack(m: Machine, op: Op)
    requires Rewinds(op) && Step(m, op).Some?
    ensures |m.stack| > 1 ==> Step(m, op).value.stack == m.stack[..|m.stack| - 1]
  {
  }

  lemma {:induction false} RunUnfolds(m: Machine, op: Op, ops: seq<Op>)
    requires Step(m, op).Some?
    ensures Run(m, [op] + ops) == Run(Step(m, op).value, ops)
  {
  }

  function Fresh(db: Snapshot, maxSize: nat): Machine {
    Machine(db, [], 0, false, maxSize)
  }

  function FreshReference(db: Snapshot, maxSize: nat): Reference {
    Reference(db, [], 0, maxSize)
  }

  /**
   Over every run, the log of deltas succeeds exactly when the stack of snapshots does and every state that
   is reverted is clean. It ends in the same database, and `k` reverts from there succeed exactly when the
   top `k` states are clean, and give the `k`-th snapshot from the top.
   */
  lemma {:induction false} UndoRefinesSnapshots(db: Snapshot, maxSize: nat, ops: seq<Op>, op: Op, k: nat)
    requires db.WellFormed() && maxSize > 0
    ensures Run(Fresh(db, maxSize), ops).Some? <==>
              ReferenceRun(FreshReference(db, maxSize), ops).Some? && CleanRun(Fresh(db, maxSize), ops)
    ensures Run(Fresh(db, maxSize), ops).Some? ==>
              var m, r := Run(Fresh(db, maxSize), ops).value, ReferenceRun(FreshReference(db, maxSize), ops).value;
              && m.db == r.db && m.active == r.active && |m.stack| == |r.snapshots|
              && (0 < k <= |m.stack| && RewindsWith(m, op, k) ==>
                    && (Run(m, Repeat(op, k)).Some? <==> CleanTop(m, k))
                    && (CleanTop(m, k) ==> Run(m, Repeat(op, k)).value.db == r.snapshots[|m.stack| - k]))
  {
    hide Step, ReferenceStep, CleanRun, CleanTop;
    var m0, r0 := Fresh(db, maxSize), FreshReference(db, maxSize);
    RunRefines(m0, r0, ops);
    if Run(m0, ops).Some? {
      var m, r := Run(m0, ops).value, ReferenceRun(r0, ops).value;
      if 0 < k <= |m.stack| && RewindsWith(m, op, k) {
        RewindsToSnapshot(m, r, op, k);
      }
    }
  }

  lemma UndoTwice(m: Machine, r: Reference)
    requires Refines(m, r) && m.active >= 2 && |m.stack| >= 2
    ensures var n, m1 := |m.stack|, Step(m, Undo);
            && (m1.Some? <==> IsClean(m.stack[n - 1]))
            && (m1.Some? ==>
                  && (Step(m1.value, Undo).Some? <==> IsClean(m.stack[n - 2]))
                  && (Step(m1.value, Undo).Some? ==> Step(m1.value, Undo).value.db == r.snapshots[n - 2]))
  {
    hide IsClean;
    RewindRefines(m, r, Undo);
    if Step(m, Undo).Some? {
      RewoundStack(m, Undo);
      RewindRefines(Step(m, Undo).value, ReferenceStep(r, Undo).value, Undo);
    }
  }

  lemma UndoMerged(m: Machine, r: Reference)
    requires Refines(m, r) && m.active >= 2 && |m.stack| >= 2
    ensures Step(m, Merge).Some?
    ensures var n, m1 := |m.stack|, Step(m, Merge).value;
            && (Step(m1, Undo).Some? <==> IsClean(MergeStates(m.stack[n - 2], m.stack[n - 1])))
            && (Step(m1, Undo).Some? ==> Step(m1, Undo).value.db == r.snapshots[n - 2])
  {
    hide IsClean, Step, Refines, MergeStates;
    MergedMachine(m);
    RefinedFields(m, r);
    MergeRefines(m, r);
    RewindRefines(Step(m, Merge).value, ReferenceStep(r, Merge).value, Undo);
    var r1 := ReferenceStep(r, Merge).value;
    assert r1.active > 0 && r1.snapshots == r.snapshots[..|r.snapshots| - 1];
    if Step(Step(m, Merge).value, Undo).Some? {
      RefinedFields(Step(Step(m, Merge).value, Undo).value, ReferenceStep(r1, Undo).value);
    }
  }

  lemma MergedMachine(m: Machine)
    requires m.active > 0 && |m.stack| >= 2
    ensures var n := |m.stack|;
            && Step(m, Merge) == Some(m.(stack := m.stack[..n - 2] + [MergeStates(m.stack[n - 2], m.stack[n - 1])],
                                         active := m.active - 1))
            && Step(m, Merge).value.Top() == MergeStates(m.stack[n - 2], m.stack[n - 1])
  {
  }

  /**
   Undoing after a merge succeeds exactly when the outer session was clean, had created whatever the inner
   one had spoiled, and had modified nothing that the inner one removed; and then it gives what undoing
   both sessions gives, which succeeds exactly when both are clean.
   */
  lemma MergeThenUndo(m: Machine, r: Reference)
    requires Refines(m, r) && m.active >= 2 && |m.stack| >= 2
    ensures Step(m, Merge).Some?
    ensures var (outer, inner) := (m.stack[|m.stack| - 2], m.stack[|m.stack| - 1]);
            var (once, merged) := (Step(m, Undo), Step(Step(m, Merge).value, Undo));
            var twice := if once.Some? then Step(once.value, Undo) else None;
            && (merged.Some? <==> IsClean(outer) && Spoiled(inner) <= outer.newIds && Admissible(m, Merge))
            && (twice.Some? <==> IsClean(outer) && IsClean(inner))
            && (merged.Some? && twice.Some? ==> merged.value.db == twice.value.db)
  {
    hide Step, Refines, MergeStates, Describes, Spoiled;
    var n := |m.stack|;
    UndoTwice(m, r);
    UndoMerged(m, r);
    MergedTopSpoils(m, r);
    NoneSpoiled(Spoiled(m.stack[n - 2]), Spoiled(m.stack[n - 1]), m.stack[n - 2].newIds,
                m.stack[n - 1].removed.Keys * m.stack[n - 2].oldValues.Keys);
  }

  lemma NoneSpoiled<T>(a: set<T>, b: set<T>, n: set<T>, c: set<T>)
    ensures a + (b - n) + c == {} <==> a == {} && b <= n && c == {}
  {
    if a + (b - n) + c == {} {
      forall x <- b
        ensures x in n
      {
        assert x !in a + (b - n) + c;
      }
    }
  }

  lemma InadmissibleSteps(a: Value, b: Value) returns (m1: Machine, m2: Machine, m3: Machine, m4: Machine)
    ensures Step(Fresh(Snapshot(map[ObjectId(0, 0) := a], map[0 := 1]), 256), StartSession) == Some(m1)
    ensures Step(m1, Modify(ObjectId(0, 0), b)) == Some(m2)
    ensures Step(m2, StartSession) == Some(m3)
    ensures Step(m3, Remove(ObjectId(0, 0))) == Some(m4)
    ensures m4.active == |m4.stack| == 2 && !Admissible(m4, Merge)
  {
    var id := ObjectId(0, 0);
    m1 := Step(Fresh(Snapshot(map[id := a], map[0 := 1]), 256), StartSession).value;
    assert m1.stack == [EmptyState()];
    m2 := Step(m1, Modify(id, b)).value;
    assert m2.stack == [OnModify(EmptyState(), id, a)];
    m3 := Step(m2, StartSession).value;
    assert m3.stack == m2.stack + [EmptyState()];
    m4 := Step(m3, Remove(id)).value;
    assert m4.stack == m2.stack + [OnRemove(EmptyState(), id, b)];
    assert id in m4.stack[0].oldValues && id in m4.stack[1].removed;
  }

  /** The inadmissible case is reachable: modify an object in one session, remove it in a nested one. */
  lemma InadmissibleMergeReachable(a: Value, b: Value)
    ensures var id := ObjectId(0, 0);
            var ops := [StartSession] + ([Modify(id, b)] + ([StartSession] + ([Remove(id)] + [])));
            var m := Run(Fresh(Snapshot(map[id := a], map[0 := 1]), 256), ops);
            m.Some? && m.value.active == |m.value.stack| == 2 && !Admissible(m.value, Merge)
  {
    hide Step, Admissible;
    var id := ObjectId(0, 0);
    var m0 := Fresh(Snapshot(map[id := a], map[0 := 1]), 256);
    var m1, m2, m3, m4 := InadmissibleSteps(a, b);
    RunUnfolds(m3, Remove(id), []);
    RunUnfolds(m2, StartSession, [Remove(id)] + []);
    RunUnfolds(m1, Modify(id, b), [StartSession] + ([Remove(id)] + []));
    RunUnfolds(m0, StartSession, [Modify(id, b)] + ([StartSession] + ([Remove(id)] + [])));
  }
}
