/**
 What a block or a transaction does inside its undo session: edits of objects, and sessions
 nested in it that are merged into it or undone. The effect on the objects and on the session's
 own undo state does not depend on what is below on the stack, and whether the session can be
 reverted later depends on that state alone.
 */
module Sessions {
  import opened Wrappers
  import opened UndoLog
  import opened UndoDatabase

  type EditOp = op: Op | op.Create? || op.Modify? || op.Remove? witness Remove(ObjectId(0, 0))

  datatype Action = Edit(op: EditOp) | Nested(actions: seq<Action>, merged: bool)

  /** How deep sessions are nested. */
  function Nesting(actions: seq<Action>): nat
    decreases actions
  {
    if actions == [] then 0 else Max(Depth(actions[0]), Nesting(actions[1..]))
  }

  function Depth(a: Action): nat
    decreases a
  {
    if a.Edit? then 0 else 1 + Nesting(a.actions)
  }

  function Max(a: nat, b: nat): nat {
    if a < b then b else a
  }

  function Min(a: int, b: int): int {
    if a < b then a else b
  }

  /** The operations of the undo database that the actions are. */
  function Ops(actions: seq<Action>): seq<Op>
    decreases actions
  {
    if actions == [] then [] else ActionOps(actions[0]) + Ops(actions[1..])
  }

  function ActionOps(a: Action): seq<Op>
    decreases a
  {
    match a
    case Edit(op) => [op]
    case Nested(inner, merged) => [StartSession] + (Ops(inner) + [End(merged)])
  }

  function End(merged: bool): Op {
    if merged then Merge else Undo
  }

  /** What the hook of an edit makes of the session's state. */
  function Hook(db: Snapshot, top: UndoState, op: EditOp): UndoState
    requires UndoDatabase.Edit(db, op).Some?
  {
    match op
    case Create(index, _) => OnCreate(top, ObjectId(index, db.nextIds[index]))
    case Modify(id, _) => OnModify(top, id, db.objects[id])
    case Remove(id) => OnRemove(top, id, db.objects[id])
  }

  /** The objects and the session's own state after the actions; none if an edit or an undo throws. */
  function Do(db: Snapshot, top: UndoState, actions: seq<Action>): Option<(Snapshot, UndoState)>
    decreases actions
  {
    if actions == [] then Some((db, top))
    else
      match DoOne(db, top, actions[0])
      case None => None
      case Some((db1, top1)) => Do(db1, top1, actions[1..])
  }

  function DoOne(db: Snapshot, top: UndoState, a: Action): Option<(Snapshot, UndoState)>
    decreases a
  {
    match a
    case Edit(op) =>
      if UndoDatabase.Edit(db, op).None? then None else Some((UndoDatabase.Edit(db, op).value, Hook(db, top, op)))
    case Nested(inner, merged) =>
      match Do(db, EmptyState(), inner)
      case None => None
      case Some((db1, state)) => Ended(db1, top, state, merged)
  }

  function Ended(db: Snapshot, top: UndoState, state: UndoState, merged: bool): Option<(Snapshot, UndoState)> {
    if merged then Some((db, MergeStates(top, state)))
    else if CanRevert(state, db) then Some((Reverted(state, db), top))
    else None
  }

  /** What is left of a list when it is cut down to its last `n` elements. */
  function Last<T>(s: seq<T>, n: nat): (r: seq<T>)
    ensures |r| == Min(|s|, n)
  {
    if |s| <= n then s else s[|s| - n..]
  }

  lemma LastOfLast<T>(s: seq<T>, m: nat, n: nat)
    ensures Last(Last(s, m), n) == Last(s, Min(m, n))
  {
  }

  lemma LastIsAll<T>(s: seq<T>, n: nat)
    requires |s| <= n
    ensures Last(s, n) == s
  {
  }

  lemma LastKeepsTop<T>(base: seq<T>, top: T, n: nat)
    requires n > 0
    ensures Last(base + [top], n) == Last(base, n - 1) + [top]
  {
  }

  // ----- running the actions on the log -----

  lemma {:induction false} RunConcat(m: Machine, a: seq<Op>, b: seq<Op>)
    ensures Run(m, a + b) == if Run(m, a).None? then None else Run(Run(m, a).value, b)
    decreases |a|
  {
    hide Step;
    if a == [] {
      assert a + b == b;
    } else {
      assert (a + b)[1..] == a[1..] + b;
      if Step(m, a[0]).Some? { RunConcat(Step(m, a[0]).value, a[1..], b); }
    }
  }

  lemma {:induction false} RunOne(m: Machine, op: Op)
    ensures Run(m, [op]) == Step(m, op)
  {
    hide Step;
    if Step(m, op).Some? { assert Run(Step(m, op).value, [op][1..]) == Step(m, op); }
  }

  /** The machine inside a session whose state is `top`. */
  predicate Inside(m: Machine, base: seq<UndoState>, top: UndoState) {
    m.stack == base + [top] && !m.disabled && m.active > 0 && |m.stack| <= m.maxSize
  }

  /** After something that nests `depth` sessions had the given effect on the objects and on the session's state. */
  function Affected(m: Machine, base: seq<UndoState>, depth: nat, effect: Option<(Snapshot, UndoState)>): Option<Machine>
    requires depth < m.maxSize
  {
    match effect
    case None => None
    case Some((db, state)) => Some(m.(db := db, stack := Last(base, m.maxSize - 1 - depth) + [state]))
  }

  lemma {:induction false} EditRuns(m: Machine, base: seq<UndoState>, top: UndoState, op: EditOp)
    requires Inside(m, base, top)
    ensures Run(m, [op]) == Affected(m, base, 0, DoOne(m.db, top, Edit(op)))
  {
    hide OnCreate, OnModify, OnRemove, Run;
    RunOne(m, op);
    assert m.stack[..|m.stack| - 1] == base;
    assert Last(base, m.maxSize - 1) == base;
  }

  /** A nested session starts on an empty state of its own, and may push the oldest state off the stack. */
  lemma NestedStarts(m: Machine, base: seq<UndoState>, top: UndoState)
    requires Inside(m, base, top) && m.maxSize >= 2
    ensures var below := Last(base, m.maxSize - 2) + [top];
            && Step(m, StartSession) == Some(m.(stack := below + [EmptyState()], active := m.active + 1))
            && Inside(Step(m, StartSession).value, below, EmptyState())
  {
    if |m.stack| == m.maxSize { assert m.stack[1..] == base[1..] + [top]; }
  }

  lemma NestedEnds(m: Machine, base: seq<UndoState>, top: UndoState, state: UndoState, merged: bool)
    requires Inside(m, base + [top], state)
    ensures Step(m, End(merged)) ==
              match Ended(m.db, top, state, merged)
              case None => None
              case Some((db, s)) => Some(m.(db := db, stack := base + [s], active := m.active - 1))
  {
    hide MergeStates, CanRevert, Reverted;
    var n := |m.stack|;
    assert m.stack[n - 1] == m.Top() == state && m.stack[n - 2] == top;
    assert m.stack[..n - 2] == base && m.stack[..n - 1] == base + [top];
    if merged {
      assert Step(m, Merge) == Some(m.(stack := base + [MergeStates(top, state)], active := m.active - 1));
    } else if CanRevert(state, m.db) {
      assert base + [top] != [];
      assert Step(m, Undo) == Some(m.(db := Reverted(state, m.db), stack := base + [top], active := m.active - 1));
    }
  }

  lemma {:induction false} ActionRuns(m: Machine, base: seq<UndoState>, top: UndoState, a: Action)
    requires Inside(m, base, top) && Depth(a) < m.maxSize
    ensures Run(m, ActionOps(a)) == Affected(m, base, Depth(a), DoOne(m.db, top, a))
    decreases a
  {
    hide Run, Step, Ended, MergeStates, Last;
    match a
    case Edit(op) => EditRuns(m, base, top, op);
    case Nested(inner, merged) =>
      NestedStarts(m, base, top);
      var m1, below := Step(m, StartSession).value, Last(base, m.maxSize - 2) + [top];
      RunOne(m, StartSession);
      RunConcat(m, [StartSession], Ops(inner) + [End(merged)]);
      RunConcat(m1, Ops(inner), [End(merged)]);
      ActionsRun(m1, below, EmptyState(), inner);
      LastKeepsTop(Last(base, m.maxSize - 2), top, m.maxSize - 1 - Nesting(inner));
      LastOfLast(base, m.maxSize - 2, m.maxSize - 2 - Nesting(inner));
      match Do(m.db, EmptyState(), inner) {
        case None =>
        case Some((db, state)) =>
          var m2 := Run(m1, Ops(inner)).value;
          RunOne(m2, End(merged));
          NestedEnds(m2, Last(base, m.maxSize - 2 - Nesting(inner)), top, state, merged);
      }
  }

  /**
   On any stack with room for the nested sessions, the actions do what `Do` says to its top, and drop the
   oldest states.
   */
  lemma {:induction false} ActionsRun(m: Machine, base: seq<UndoState>, top: UndoState, actions: seq<Action>)
    requires Inside(m, base, top) && Nesting(actions) < m.maxSize
    ensures Run(m, Ops(actions)) == Affected(m, base, Nesting(actions), Do(m.db, top, actions))
    decreases actions
  {
    hide Step, DoOne, ActionOps, Depth, Last;
    if actions == [] {
      LastIsAll(base, m.maxSize - 1);
    } else {
      var (a, rest) := (actions[0], actions[1..]);
      ActionRuns(m, base, top, a);
      RunConcat(m, ActionOps(a), Ops(rest));
      match DoOne(m.db, top, a) {
        case None =>
        case Some((db, state)) =>
          ActionsRun(Run(m, ActionOps(a)).value, Last(base, m.maxSize - 1 - Depth(a)), state, rest);
          LastOfLast(base, m.maxSize - 1 - Depth(a), m.maxSize - 1 - Nesting(rest));
      }
    }
  }

  // ----- what the session's state says -----

  lemma EditDescribes(db: Snapshot, top: UndoState, before: Snapshot, op: EditOp)
    requires Describes(top, before, db) && UndoDatabase.Edit(db, op).Some?
    ensures Describes(Hook(db, top, op), before, UndoDatabase.Edit(db, op).value)
    ensures Spoiled(Hook(db, top, op)) == Spoiled(top)
  {
    hide Describes, OnCreate, OnModify, OnRemove, Spoiled;
    match op
    case Create(index, value) =>
      CreateDescribes(top, before, db, index, value);
      HooksSpoilNothing(top, before, db, ObjectId(index, db.nextIds[index]));
    case Modify(id, value) =>
      ModifyDescribes(top, before, db, id, value);
      HooksSpoilNothing(top, before, db, id);
    case Remove(id) =>
      RemoveDescribes(top, before, db, id);
      HooksSpoilNothing(top, before, db, id);
  }

  lemma EndDescribes(db: Snapshot, top: UndoState, before: Snapshot, db1: Snapshot, state: UndoState, merged: bool)
    requires Describes(top, before, db) && Describes(state, db, db1)
    ensures Ended(db1, top, state, merged).Some? <==> merged || IsClean(state)
    ensures Ended(db1, top, state, merged).Some? ==>
              var (db2, top2) := Ended(db1, top, state, merged).value;
              && Describes(top2, before, db2)
              && (!merged ==> db2 == db && top2 == top)
  {
    hide Describes, CanRevert, Reverted, MergeStates, Spoiled;
    RevertRestores(state, db, db1);
    MergeDescribes(top, state, before, db, db1);
  }

  /** The session's state always describes the way back to where the session started. */
  lemma {:induction false} DoDescribes(db: Snapshot, top: UndoState, before: Snapshot, actions: seq<Action>)
    requires Describes(top, before, db)
    ensures Do(db, top, actions).Some? ==>
              Describes(Do(db, top, actions).value.1, before, Do(db, top, actions).value.0)
    decreases actions
  {
    hide Describes, DoOne;
    if actions == [] {
    } else {
      DoOneDescribes(db, top, before, actions[0]);
      match DoOne(db, top, actions[0]) {
        case None =>
        case Some((db1, top1)) => DoDescribes(db1, top1, before, actions[1..]);
      }
    }
  }

  lemma {:induction false} DoOneDescribes(db: Snapshot, top: UndoState, before: Snapshot, a: Action)
    requires Describes(top, before, db)
    ensures DoOne(db, top, a).Some? ==> Describes(DoOne(db, top, a).value.1, before, DoOne(db, top, a).value.0)
    decreases a
  {
    hide Describes, Ended, Hook, UndoDatabase.Edit;
    match a
    case Edit(op) => if UndoDatabase.Edit(db, op).Some? { EditDescribes(db, top, before, op); }
    case Nested(inner, merged) =>
      DescribesWellFormed(top, before, db);
      EmptyDescribes(db);
      DoDescribes(db, EmptyState(), db, inner);
      match Do(db, EmptyState(), inner) {
        case None =>
        case Some((db1, state)) => EndDescribes(db, top, before, db1, state, merged);
      }
  }

  lemma DescribesWellFormed(s: UndoState, before: Snapshot, now: Snapshot)
    requires Describes(s, before, now)
    ensures before.WellFormed() && now.WellFormed()
  {
  }

  // ----- when it can be reverted -----

  /**
   The merged session removed nothing that the outer one had modified, and left spoiled only what the outer
   one had created.
   */
  predicate MergesWell(outer: UndoState, inner: UndoState) {
    Mergeable(outer, inner) && Spoiled(inner) <= outer.newIds
  }

  predicate OneMergesWell(db: Snapshot, top: UndoState, a: Action) {
    a.Nested? && a.merged && Do(db, EmptyState(), a.actions).Some? ==>
      MergesWell(top, Do(db, EmptyState(), a.actions).value.1)
  }

  /** All sessions that the actions merge into their own session merge well. */
  predicate MergeWell(db: Snapshot, top: UndoState, actions: seq<Action>)
    decreases |actions|
  {
    actions != [] ==>
      && OneMergesWell(db, top, actions[0])
      && (DoOne(db, top, actions[0]).Some? ==>
            var (db1, top1) := DoOne(db, top, actions[0]).value;
            MergeWell(db1, top1, actions[1..]))
  }

  /** An action leaves its session clean exactly when it was and what the action merges merges well. */
  lemma {:induction false} OneIsClean(db: Snapshot, top: UndoState, before: Snapshot, a: Action)
    requires Describes(top, before, db) && DoOne(db, top, a).Some?
    ensures IsClean(DoOne(db, top, a).value.1) <==> IsClean(top) && OneMergesWell(db, top, a)
  {
    hide Describes, Hook, UndoDatabase.Edit, MergeStates, Spoiled, CanRevert, Reverted;
    match a
    case Edit(op) => EditDescribes(db, top, before, op);
    case Nested(inner, merged) =>
      DescribesWellFormed(top, before, db);
      EmptyDescribes(db);
      DoDescribes(db, EmptyState(), db, inner);
      var (db1, state) := Do(db, EmptyState(), inner).value;
      if merged {
        MergeSpoils(top, state, before, db, db1);
        NoneSpoiled(Spoiled(top), Spoiled(state), top.newIds, state.removed.Keys * top.oldValues.Keys);
      }
  }

  /** A session ends clean exactly when it was clean and every session merged into it merges well. */
  lemma {:induction false} SessionIsClean(db: Snapshot, top: UndoState, before: Snapshot, actions: seq<Action>)
    requires Describes(top, before, db) && Do(db, top, actions).Some?
    ensures IsClean(Do(db, top, actions).value.1) <==> IsClean(top) && MergeWell(db, top, actions)
    decreases |actions|
  {
    hide Describes, DoOne, IsClean, OneMergesWell;
    if actions == [] {
    } else {
      var (db1, top1) := DoOne(db, top, actions[0]).value;
      OneIsClean(db, top, before, actions[0]);
      DoOneDescribes(db, top, before, actions[0]);
      SessionIsClean(db1, top1, before, actions[1..]);
    }
  }

  // ----- a session on its own: a block -----

  predicate Idle(m: Machine) {
    m.active == 0 && !m.disabled && |m.stack| <= m.maxSize
  }

  lemma BlockStarts(m: Machine)
    requires Idle(m) && m.maxSize > 0
    ensures var base := Last(m.stack, m.maxSize - 1);
            && Step(m, StartSession) == Some(m.(stack := base + [EmptyState()], active := 1))
            && Inside(Step(m, StartSession).value, base, EmptyState())
  {
  }

  /** The session of a block up to its end. */
  lemma {:induction false} BlockRuns(m: Machine, actions: seq<Action>, end: Op)
    requires Idle(m) && Nesting(actions) < m.maxSize
    ensures Run(m, [StartSession] + (Ops(actions) + [end])) ==
              match Do(m.db, EmptyState(), actions)
              case None => None
              case Some((db, state)) =>
                Step(m.(db := db, stack := Last(m.stack, m.maxSize - 1 - Nesting(actions)) + [state], active := 1), end)
  {
    hide Step, Do, Ops, Last, Nesting, Run;
    BlockStarts(m);
    var m1, base := Step(m, StartSession).value, Last(m.stack, m.maxSize - 1);
    RunOne(m, StartSession);
    RunConcat(m, [StartSession], Ops(actions) + [end]);
    RunConcat(m1, Ops(actions), [end]);
    ActionsRun(m1, base, EmptyState(), actions);
    LastOfLast(m.stack, m.maxSize - 1, m.maxSize - 1 - Nesting(actions));
    match Do(m.db, EmptyState(), actions) {
      case None =>
      case Some((db, state)) =>
        RunOne(Run(m1, Ops(actions)).value, end);
        assert m1.(db := db, stack := Last(m.stack, m.maxSize - 1 - Nesting(actions)) + [state]) ==
               m.(db := db, stack := Last(m.stack, m.maxSize - 1 - Nesting(actions)) + [state], active := 1);
    }
  }

  function SessionOps(actions: seq<Action>, end: Op): seq<Op> {
    [StartSession] + (Ops(actions) + [end])
  }

  /** The states that a session with such actions leaves below itself. */
  function Below(m: Machine, actions: seq<Action>): seq<UndoState>
    requires Nesting(actions) < m.maxSize
  {
    Last(m.stack, m.maxSize - 1 - Nesting(actions))
  }

  /**
   A committed block can be popped exactly when every session merged into it merges well; popping it
   gives back the objects before it, and all of the stack that it had not pushed off the end.
   */
  lemma {:induction false} CommittedBlock(m: Machine, actions: seq<Action>)
    requires Idle(m) && m.db.WellFormed() && Nesting(actions) < m.maxSize
    ensures Run(m, SessionOps(actions, Commit)).Some? <==> Do(m.db, EmptyState(), actions).Some?
    ensures Run(m, SessionOps(actions, Commit)).Some? ==>
              var m1, (db, state) := Run(m, SessionOps(actions, Commit)).value, Do(m.db, EmptyState(), actions).value;
              && m1 == m.(db := db, stack := Below(m, actions) + [state])
              && Describes(state, m.db, db)
              && (Step(m1, PopCommit).Some? <==> IsClean(state))
              && (IsClean(state) <==> MergeWell(m.db, EmptyState(), actions))
              && (IsClean(state) ==> Step(m1, PopCommit) == Some(m.(stack := Below(m, actions))))
  {
    hide Do, Ops, Last, Nesting, Run, Describes, MergeWell, IsClean, CanRevert, Reverted;
    BlockRuns(m, actions, Commit);
    match Do(m.db, EmptyState(), actions) {
      case None =>
      case Some((db, state)) =>
        EmptyDescribes(m.db);
        DoDescribes(m.db, EmptyState(), m.db, actions);
        SessionIsClean(m.db, EmptyState(), m.db, actions);
        RevertRestores(state, m.db, db);
        var m1 := m.(db := db, stack := Below(m, actions) + [state]);
        assert m1.Top() == state && m1.stack[..|m1.stack| - 1] == Below(m, actions);
    }
  }

  /**
   A block that throws after such actions is undone exactly when every session
   merged into it until then merges well.
   */
  lemma {:induction false} UndoneBlock(m: Machine, actions: seq<Action>)
    requires Idle(m) && m.db.WellFormed() && Nesting(actions) < m.maxSize
    ensures Run(m, SessionOps(actions, Undo)).Some? <==>
              Do(m.db, EmptyState(), actions).Some? && MergeWell(m.db, EmptyState(), actions)
    ensures Run(m, SessionOps(actions, Undo)).Some? ==>
              Run(m, SessionOps(actions, Undo)).value ==
              m.(stack := if Below(m, actions) == [] then [EmptyState()] else Below(m, actions))
  {
    hide Do, Ops, Last, Nesting, Run, Describes, MergeWell, IsClean, CanRevert, Reverted;
    BlockRuns(m, actions, Undo);
    match Do(m.db, EmptyState(), actions) {
      case None =>
      case Some((db, state)) =>
        EmptyDescribes(m.db);
        DoDescribes(m.db, EmptyState(), m.db, actions);
        SessionIsClean(m.db, EmptyState(), m.db, actions);
        RevertRestores(state, m.db, db);
        var m1 := m.(db := db, stack := Below(m, actions) + [state], active := 1);
        assert m1.Top() == state && m1.stack[..|m1.stack| - 1] == Below(m, actions);
    }
  }

  // ----- admissible merges -----

  /** Every merge in the actions, at any depth, is admissible. */
  predicate AllAdmissible(db: Snapshot, top: UndoState, actions: seq<Action>)
    decreases actions
  {
    actions != [] ==>
      && OneAdmissible(db, top, actions[0])
      && (DoOne(db, top, actions[0]).Some? ==>
            var (db1, top1) := DoOne(db, top, actions[0]).value;
            AllAdmissible(db1, top1, actions[1..]))
  }

  predicate OneAdmissible(db: Snapshot, top: UndoState, a: Action)
    decreases a
  {
    a.Nested? ==>
      && AllAdmissible(db, EmptyState(), a.actions)
      && (a.merged && Do(db, EmptyState(), a.actions).Some? ==>
            Mergeable(top, Do(db, EmptyState(), a.actions).value.1))
  }

  /** Admissible merges merge well; if sessions are nested once only, there is no other way to. */
  lemma {:induction false} AdmissibleMergesWell(db: Snapshot, top: UndoState, before: Snapshot, actions: seq<Action>)
    requires Describes(top, before, db)
    ensures AllAdmissible(db, top, actions) ==> MergeWell(db, top, actions)
    ensures Nesting(actions) <= 1 && MergeWell(db, top, actions) ==> AllAdmissible(db, top, actions)
    decreases actions
  {
    hide Describes, DoOne, IsClean, OneMergesWell, OneAdmissible, Depth;
    if actions == [] {
    } else {
      OneAdmissibleMergesWell(db, top, before, actions[0]);
      match DoOne(db, top, actions[0]) {
        case None =>
        case Some((db1, top1)) =>
          DoOneDescribes(db, top, before, actions[0]);
          AdmissibleMergesWell(db1, top1, before, actions[1..]);
      }
    }
  }

  lemma {:induction false} OneAdmissibleMergesWell(db: Snapshot, top: UndoState, before: Snapshot, a: Action)
    requires Describes(top, before, db)
    ensures OneAdmissible(db, top, a) ==> OneMergesWell(db, top, a)
    ensures Depth(a) <= 1 && OneMergesWell(db, top, a) ==> OneAdmissible(db, top, a)
    decreases a
  {
    hide Describes;
    if a.Nested? {
      DescribesWellFormed(top, before, db);
      EmptyDescribes(db);
      AdmissibleMergesWell(db, EmptyState(), db, a.actions);
      if Do(db, EmptyState(), a.actions).Some? {
        SessionIsClean(db, EmptyState(), db, a.actions);
      }
      if Nesting(a.actions) == 0 { EditsAreAdmissible(db, EmptyState(), a.actions); }
    }
  }

  lemma {:induction false} EditsAreAdmissible(db: Snapshot, top: UndoState, actions: seq<Action>)
    requires Nesting(actions) == 0
    ensures AllAdmissible(db, top, actions)
    decreases |actions|
  {
    hide DoOne;
    if actions == [] {
    } else {
      match DoOne(db, top, actions[0]) {
        case None =>
        case Some((db1, top1)) => EditsAreAdmissible(db1, top1, actions[1..]);
      }
    }
  }

  // ----- the failing input: a block that executes a proposal -----

  lemma {:induction false} DoConcat(db: Snapshot, top: UndoState, a: seq<Action>, b: seq<Action>)
    ensures Do(db, top, a + b) ==
              match Do(db, top, a)
              case None => None
              case Some((db1, top1)) => Do(db1, top1, b)
    decreases |a|
  {
    hide DoOne;
    if a == [] {
      assert a + b == b;
    } else {
      assert (a + b)[1..] == a[1..] + b;
      match DoOne(db, top, a[0]) {
        case None =>
        case Some((db1, top1)) => DoConcat(db1, top1, a[1..], b);
      }
    }
  }

  /**
   What an approval that completes a proposal does: it modifies the proposal, then a merged session applies it
   and removes it.
   */
  function Execution(p: ObjectId, approved: Value, applied: seq<Action>): seq<Action> {
    [Edit(Modify(p, approved)), Nested(applied + [Edit(Remove(p))], true)]
  }

  /** The state of a session that modified an older object holds a value to restore for it. */
  lemma ModifiedIsRecorded(top: UndoState, before: Snapshot, db: Snapshot, p: ObjectId)
    requires Describes(top, before, db) && p in before.objects && p in db.objects
    ensures p in OnModify(top, p, db.objects[p]).oldValues
  {
  }

  lemma RemovedIsRecorded(state: UndoState, before: Snapshot, db: Snapshot, p: ObjectId)
    requires Describes(state, before, db) && p in before.objects && p !in db.objects
    ensures p in state.removed
  {
  }

  /** Executing a proposal that is older than the session spoils the session's state, whatever the proposal does. */
  lemma {:induction false} ExecutionSpoils(
    db: Snapshot, top: UndoState, before: Snapshot, p: ObjectId, approved: Value, applied: seq<Action>)
    requires Describes(top, before, db) && p in before.objects
    requires Do(db, top, Execution(p, approved, applied)).Some?
    ensures !IsClean(Do(db, top, Execution(p, approved, applied)).value.1)
  {
    hide Describes, DoOne, OnModify, MergeStates, Spoiled, Mergeable;
    var approval, execution := Edit(Modify(p, approved)), Nested(applied + [Edit(Remove(p))], true);
    DoPair(db, top, approval, execution);
    ModificationRuns(db, top, p, approved);
    var (db1, top1) := DoOne(db, top, approval).value;
    ModifiedIsRecorded(top, before, db, p);
    DoOneDescribes(db, top, before, approval);
    RemovalRuns(db1, top1, before, p, applied);
    OneIsClean(db1, top1, before, execution);
  }

  lemma {:induction false} DoSingle(db: Snapshot, top: UndoState, a: Action)
    ensures Do(db, top, [a]) == DoOne(db, top, a)
  {
    hide DoOne;
    assert [a][1..] == [];
  }

  lemma {:induction false} DoPair(db: Snapshot, top: UndoState, a: Action, b: Action)
    ensures Do(db, top, [a, b]) ==
              match DoOne(db, top, a)
              case None => None
              case Some((db1, top1)) => DoOne(db1, top1, b)
  {
    hide DoOne;
    assert [a, b][1..] == [b];
    match DoOne(db, top, a) {
      case None =>
      case Some((db1, top1)) => DoSingle(db1, top1, b);
    }
  }

  lemma {:induction false} ModificationRuns(db: Snapshot, top: UndoState, p: ObjectId, v: Value)
    ensures DoOne(db, top, Edit(Modify(p, v))) ==
              if p !in db.objects then None
              else Some((db.(objects := db.objects[p := v]), OnModify(top, p, db.objects[p])))
  {
  }

  lemma {:induction false} RemovalRuns(db: Snapshot, top: UndoState, before: Snapshot, p: ObjectId, applied: seq<Action>)
    requires Describes(top, before, db) && p in db.objects && p in top.oldValues
    requires DoOne(db, top, Nested(applied + [Edit(Remove(p))], true)).Some?
    ensures !OneMergesWell(db, top, Nested(applied + [Edit(Remove(p))], true))
  {
    hide Describes, MergeStates, OnRemove;
    var remove := [Edit(Remove(p))];
    DescribesWellFormed(top, before, db);
    EmptyDescribes(db);
    DoConcat(db, EmptyState(), applied, remove);
    DoDescribes(db, EmptyState(), db, applied + remove);
    var (db1, state) := Do(db, EmptyState(), applied + remove).value;
    assert remove[1..] == [] && p !in db1.objects;
    RemovedIsRecorded(state, db, db1, p);
    assert p in state.removed.Keys * top.oldValues.Keys;
  }

  /** So does everything around it. */
  lemma {:induction false} ProposalSpoils(
    db: Snapshot, before: seq<Action>, p: ObjectId, approved: Value, applied: seq<Action>, rest: seq<Action>)
    requires db.WellFormed() && p in db.objects
    requires Do(db, EmptyState(), before + (Execution(p, approved, applied) + rest)).Some?
    ensures !IsClean(Do(db, EmptyState(), before + (Execution(p, approved, applied) + rest)).value.1)
  {
    hide Do, Execution, Describes, IsClean, MergeWell;
    EmptyDescribes(db);
    DoConcat(db, EmptyState(), before, Execution(p, approved, applied) + rest);
    DoDescribes(db, EmptyState(), db, before);
    var (db1, top1) := Do(db, EmptyState(), before).value;
    DoConcat(db1, top1, Execution(p, approved, applied), rest);
    ExecutionSpoils(db1, top1, db, p, approved, applied);
    DoDescribes(db1, top1, db, Execution(p, approved, applied));
    var (db2, top2) := Do(db1, top1, Execution(p, approved, applied)).value;
    SessionIsClean(db2, top2, db, rest);
  }

  /** So a block that completes the approval of a proposal of an earlier block commits, and can never be popped. */
  lemma {:induction false} ProposalBlockStays(
    m: Machine, before: seq<Action>, p: ObjectId, approved: Value, applied: seq<Action>, rest: seq<Action>)
    requires Idle(m) && m.db.WellFormed() && p in m.db.objects
    requires var actions := before + (Execution(p, approved, applied) + rest);
             Nesting(actions) < m.maxSize && Do(m.db, EmptyState(), actions).Some?
    ensures var m1 := Run(m, SessionOps(before + (Execution(p, approved, applied) + rest), Commit));
            m1.Some? && Step(m1.value, PopCommit).None?
  {
    hide Do, Execution, Describes, IsClean, Nesting, Step, Run, MergeWell;
    ProposalSpoils(m.db, before, p, approved, applied, rest);
    CommittedBlock(m, before + (Execution(p, approved, applied) + rest));
  }

  lemma {:induction false} AdmissiblePair(db: Snapshot, top: UndoState, a: Action, b: Action)
    requires DoOne(db, top, a).Some?
    requires !OneAdmissible(DoOne(db, top, a).value.0, DoOne(db, top, a).value.1, b)
    ensures !AllAdmissible(db, top, [a, b])
  {
    hide DoOne, OneAdmissible;
    assert [a, b][1..] == [b];
  }

  /** Modifying an object and removing it in a session of its own merges inadmissibly. */
  lemma {:induction false} ModifiedThenRemoved(db: Snapshot, id: ObjectId, w: Value)
    requires id in db.objects
    ensures var actions, v := [Edit(Modify(id, w)), Nested([Edit(Remove(id))], true)], db.objects[id];
            && Do(db, EmptyState(), actions) ==
               Some((db.(objects := db.objects - {id}), UndoState(map[id := v], map[], {}, map[id := w])))
            && !AllAdmissible(db, EmptyState(), actions)
  {
    var modified, recorded := db.(objects := db.objects[id := w]), OnModify(EmptyState(), id, db.objects[id]);
    var nested := Nested([Edit(Remove(id))], true);
    DoPair(db, EmptyState(), Edit(Modify(id, w)), nested);
    DoSingle(modified, EmptyState(), Edit(Remove(id)));
    assert modified.objects - {id} == db.objects - {id};
    assert recorded == UndoState(map[id := db.objects[id]], map[], {}, map[]);
    assert OnRemove(EmptyState(), id, w) == UndoState(map[], map[], {}, map[id := w]);
    assert id in recorded.oldValues.Keys * OnRemove(EmptyState(), id, w).removed.Keys;
    assert MergeStates(recorded, OnRemove(EmptyState(), id, w)) ==
           UndoState(map[id := db.objects[id]], map[], {}, map[id := w]);
    AdmissiblePair(db, EmptyState(), Edit(Modify(id, w)), nested);
  }

  /** Three sessions deep, such a merge is made good by the session that created the object. */
  lemma {:induction false} CreationHeals(db: Snapshot, index: nat, v: Value, w: Value)
    requires db.WellFormed() && index in db.nextIds
    ensures var id := ObjectId(index, db.nextIds[index]);
            var actions := [Edit(Create(index, v)), Nested([Edit(Modify(id, w)), Nested([Edit(Remove(id))], true)], true)];
            && Do(db, EmptyState(), actions).Some?
            && IsClean(Do(db, EmptyState(), actions).value.1) && !AllAdmissible(db, EmptyState(), actions)
  {
    hide Do;
    var id := ObjectId(index, db.nextIds[index]);
    assert id !in db.objects;
    var created := Snapshot(db.objects[id := v], db.nextIds[index := id.instance + 1]);
    var creation, nested := Edit(Create(index, v)), Nested([Edit(Modify(id, w)), Nested([Edit(Remove(id))], true)], true);
    DoPair(db, EmptyState(), creation, nested);
    ModifiedThenRemoved(created, id, w);
    AdmissiblePair(db, EmptyState(), creation, nested);
  }
}
