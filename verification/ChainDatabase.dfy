/**
 The chain database over its object database, updated in place; each method is tied to its function in
 `BlockApplication`.
 */
module ChainDatabase {
  import opened Wrappers
  import opened Blocks
  import opened BlockApplication
  import opened Sessions
  import opened UndoLog
  import ForkDatabase
  import ObjectDatabase
  import Undo = UndoDatabase

  class Database {
    const rules: Rules
    const objects: ObjectDatabase.Database
    const fork: ForkDatabase.Database
    var pendingPrevious: BlockId

    ghost function State(): Chain
      reads this, objects, fork
    {
      Chain(objects.State(), pendingPrevious, fork.Tree())
    }

    constructor (rules: Rules, objects: ObjectDatabase.Database)
      ensures State() == Chain(objects.State(), NULL_ID, ForkDatabase.ForkTree(map[], None, 0))
      ensures this.rules == rules && this.objects == objects && fresh(fork)
    {
      this.rules, this.objects := rules, objects;
      pendingPrevious := NULL_ID;
      fork := new ForkDatabase.Database();
    }

    /** One edit, or a session with what is done in it, merged or undone in the end. */
    method Perform(a: Action) returns (ok: bool)
      modifies objects
      ensures ok <==> Undo.Run(old(objects.State()), ActionOps(a)).Some?
      ensures ok ==> objects.State() == Undo.Run(old(objects.State()), ActionOps(a)).value
      decreases a
    {
      hide Undo.Run, Undo.Step;
      ghost var start := objects.State();
      match a {
        case Edit(op) =>
          RunOne(start, op);
          ok := Change(op);
        case Nested(inner, merged) =>
          SessionUnfolds(start, inner, End(merged));
          objects.StartUndoSession();
          ok := PerformAll(inner);
          if !ok {
            return;
          }
          RunOne(objects.State(), End(merged));
          if merged {
            ok := objects.Merge();
          } else {
            ok := objects.Undo();
          }
      }
    }

    method PerformAll(actions: seq<Action>) returns (ok: bool)
      modifies objects
      ensures ok <==> Undo.Run(old(objects.State()), Ops(actions)).Some?
      ensures ok ==> objects.State() == Undo.Run(old(objects.State()), Ops(actions)).value
      decreases actions
    {
      hide Undo.Run, Undo.Step, ActionOps;
      ghost var start := objects.State();
      var i := 0;
      while i < |actions|
        invariant i <= |actions|
        invariant Undo.Run(start, Ops(actions)) == Undo.Run(objects.State(), Ops(actions[i..]))
      {
        assert actions[i..][0] == actions[i] && actions[i..][1..] == actions[i + 1..];
        RunConcat(objects.State(), ActionOps(actions[i]), Ops(actions[i + 1..]));
        ok := Perform(actions[i]);
        if !ok {
          return;
        }
        i := i + 1;
      }
      RunNothing(objects.State());
      return true;
    }

    method Change(op: EditOp) returns (ok: bool)
      modifies objects
      ensures ok <==> Undo.Step(old(objects.State()), op).Some?
      ensures ok ==> objects.State() == Undo.Step(old(objects.State()), op).value
    {
      hide Undo.Step;
      match op
      case Create(index, value) => ok := objects.Create(index, value);
      case Modify(id, value) => ok := objects.Modify(id, value);
      case Remove(id) => ok := objects.Remove(id);
    }

    /** One block in an undo session of its own; the session breaks if an undo throws. */
    method ApplyInSession(b: Block) returns (applied: bool, broken: bool)
      modifies this, objects
      ensures broken <==> old(InSession(rules, State(), b)).None?
      ensures !broken ==> State() == old(InSession(rules, State(), b)).value && applied == old(Applies(rules, State(), b))
    {
      hide Undo.Run, Undo.Step, Ops;
      var script := ScriptOf(rules, Snapshot(objects.objects, objects.nextIds), pendingPrevious, b);
      var end := if script.throws then Undo.Undo else Undo.Commit;
      applied := !script.throws;
      SessionUnfolds(objects.State(), script.actions, end);
      objects.StartUndoSession();
      var ok := PerformAll(script.actions);
      if !ok {
        return applied, true;
      }
      RunOne(objects.State(), end);
      if script.throws {
        ok := objects.Undo();
      } else {
        ok := objects.Commit();
        pendingPrevious := b.Id();
      }
      broken := !ok;
    }

    /** Without a state to pop, nothing changes; if the top one cannot be reverted, the objects are left half restored. */
    method PopBlock() returns (ok: bool)
      modifies this, objects, fork`head
      ensures ok <==> old(Popped(rules, State())).Some?
      ensures ok ==> State() == old(Popped(rules, State())).value
      ensures !ok && old(objects.stack) == [] ==> State() == old(State())
      ensures !ok ==> objects.stack == old(objects.stack)
    {
      hide Undo.Step;
      ok := objects.PopCommit();
      if !ok {
        return;
      }
      pendingPrevious := rules.head(Snapshot(objects.objects, objects.nextIds));
      fork.PopBlock();
    }

    method PopTo(target: BlockId) returns (failure: Option<Failure>)
      modifies this, objects, fork`head
      ensures failure == old(PoppedTo(rules, State(), target)).1
      ensures failure != Some(Broken) ==> State() == old(PoppedTo(rules, State(), target)).0
    {
      hide Popped;
      ghost var start := State();
      while rules.head(Snapshot(objects.objects, objects.nextIds)) != target
        invariant PoppedTo(rules, start, target) == PoppedTo(rules, State(), target)
        decreases |objects.stack|
      {
        if objects.stack == [] {
          return Some(Stranded);
        }
        PoppingShortens(rules, State());
        var ok := PopBlock();
        if !ok {
          return Some(Broken);
        }
      }
      return None;
    }

    /** Applies a branch from its far end and stops at the first block that throws. */
    method ApplyBranch(branch: seq<ForkDatabase.ForkItem>) returns (left: nat, broken: bool)
      modifies this, objects
      ensures broken <==> old(BranchApplied(rules, State(), branch)).None?
      ensures !broken ==> Some((State(), left)) == old(BranchApplied(rules, State(), branch))
    {
      hide InSession, Applies;
      ghost var start := State();
      left, broken := |branch|, false;
      assert branch[..left] == branch;
      while left > 0
        invariant left <= |branch| && !broken
        invariant BranchApplied(rules, start, branch) == BranchApplied(rules, State(), branch[..left])
      {
        assert branch[..left][..left - 1] == branch[..left - 1];
        var applied;
        applied, broken := ApplyInSession(branch[left - 1].block);
        if broken || !applied {
          return;
        }
        left := left - 1;
      }
    }

    method RemoveAll(items: seq<ForkDatabase.ForkItem>)
      modifies fork`index
      ensures fork.index == old(fork.index) - IdsOf(items)
    {
      var i := 0;
      while i < |items|
        invariant i <= |items|
        invariant fork.index == old(fork.index) - IdsOf(items[..i])
      {
        fork.Remove(items[i].block.Id());
        i := i + 1;
      }
      assert items[..i] == items;
    }

    method SwitchForks(new_: seq<ForkDatabase.ForkItem>, old_: seq<ForkDatabase.ForkItem>) returns (outcome: Outcome)
      requires old_ != []
      modifies this, objects, fork
      ensures outcome == old(Switch(rules, State(), new_, old_)).1
      ensures outcome != Failed(Broken) ==> State() == old(Switch(rules, State(), new_, old_)).0
    {
      hide PoppedTo, BranchApplied, IdsOf;
      var target := old_[|old_| - 1].block.previous;
      var failure := PopTo(target);
      if failure.Some? {
        return Failed(failure.value);
      }
      var left, broken := ApplyBranch(new_);
      if broken {
        return Failed(Broken);
      }
      if left == 0 {
        return Switched;
      }
      RemoveAll(new_[..left]);
      fork.SetHead(old_[0]);
      failure := PopTo(target);
      if failure.Some? {
        return Failed(failure.value);
      }
      left, broken := ApplyBranch(old_);
      if broken {
        return Failed(Broken);
      }
      return Threw;
    }

    method PushBlock(b: Block, skipForkDb: bool) returns (outcome: Outcome)
      requires ForkDatabase.ValidTree(fork.Tree())
      modifies this, objects, fork
      ensures outcome == old(BlockApplication.PushBlock(rules, State(), b, skipForkDb)).1
      ensures outcome != Failed(Broken) ==> State() == old(BlockApplication.PushBlock(rules, State(), b, skipForkDb)).0
    {
      hide InSession, Applies, Switch, ForkDatabase.Pushed, ForkDatabase.ValidTree, ForkDatabase.BranchesFrom;
      ghost var start := State();
      if !skipForkDb {
        var linked := fork.PushBlock(b);
        if !linked {
          return Threw;
        }
        ForkDatabase.PushedIsValid(start.fork, b);
        var newHead, head := fork.head.value.block, rules.head(Snapshot(objects.objects, objects.nextIds));
        if newHead.previous != head {
          if newHead.Num() > head.num {
            var branches := fork.FetchBranchFrom(newHead.Id(), pendingPrevious);
            if branches.None? {
              return Threw;
            }
            outcome := SwitchForks(branches.value.0, branches.value.1);
            return;
          }
          return Kept;
        }
      }
      var applied, broken := ApplyInSession(b);
      if broken {
        return Failed(Broken);
      }
      if !applied {
        fork.Remove(b.Id());
        return Threw;
      }
      return Kept;
    }
  }

  lemma {:induction false} RunNothing(m: Undo.Machine)
    ensures Undo.Run(m, Ops([])) == Some(m)
  {
  }

  lemma {:induction false} SessionUnfolds(m: Undo.Machine, actions: seq<Action>, end: Undo.Op)
    ensures Undo.Step(m, Undo.StartSession).Some?
    ensures var m1 := Undo.Step(m, Undo.StartSession).value;
            Undo.Run(m, SessionOps(actions, end)) ==
              if Undo.Run(m1, Ops(actions)).None? then None else Undo.Step(Undo.Run(m1, Ops(actions)).value, end)
  {
    hide Ops;
    var m1 := Undo.Step(m, Undo.StartSession).value;
    RunOne(m, Undo.StartSession);
    RunConcat(m, [Undo.StartSession], Ops(actions) + [end]);
    RunConcat(m1, Ops(actions), [end]);
    if Undo.Run(m1, Ops(actions)).Some? { RunOne(Undo.Run(m1, Ops(actions)).value, end); }
  }

  lemma PoppingShortens(rules: Rules, c: Chain)
    ensures Popped(rules, c).Some? ==>
              c.machine.stack != [] && |Popped(rules, c).value.machine.stack| < |c.machine.stack|
  {
  }
}
