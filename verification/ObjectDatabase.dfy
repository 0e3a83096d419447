/**
 The object database with its undo log, updated in place. Every operation is tied to
 the step of the machine in `UndoDatabase`, about which the results are proved.
 */
module ObjectDatabase {
  import opened Wrappers
  import opened UndoLog
  import opened UndoDatabase

  class Database {
    var objects: map<ObjectId, Value>
    var nextIds: map<nat, nat>
    var stack: seq<UndoState>
    var activeSessions: nat
    var disabled: bool
    const maxSize: nat

    ghost function State(): Machine
      reads this
    {
      Machine(Snapshot(objects, nextIds), stack, activeSessions, disabled, maxSize)
    }

    constructor (indexes: set<nat>, maxSize: nat)
      ensures State() == Fresh(Snapshot(map[], map i | i in indexes :: 0), maxSize)
    {
      objects, nextIds := map[], map i | i in indexes :: 0;
      stack, activeSessions, disabled := [], 0, false;
      this.maxSize := maxSize;
    }

    method StartUndoSession()
      modifies this
      ensures Some(State()) == Step(old(State()), StartSession)
    {
      if disabled {
        return;
      }
      if |stack| == maxSize && stack != [] {
        stack := stack[1..];
      }
      stack := stack + [EmptyState()];
      activeSessions := activeSessions + 1;
    }

    /** The state that a hook records in; the first hook of all opens one. */
    method Recording() returns (s: UndoState)
      modifies `stack
      ensures stack == old(State().Recording()) && s == old(State().Top())
    {
      if stack == [] {
        stack := [EmptyState()];
      }
      s := stack[|stack| - 1];
    }

    method OnCreateHook(id: ObjectId)
      modifies `stack
      ensures stack == if disabled then old(stack) else old(State().Record(OnCreate(State().Top(), id)))
    {
      if disabled {
        return;
      }
      var s := Recording();
      if id.index !in s.oldNextIds {
        s := s.(oldNextIds := s.oldNextIds[id.index := id.instance]);
      }
      s := s.(newIds := s.newIds + {id});
      stack := stack[..|stack| - 1] + [s];
    }

    method OnModifyHook(id: ObjectId)
      requires id in objects
      modifies `stack
      ensures stack == if disabled then old(stack)
                       else old(State().Record(OnModify(State().Top(), id, objects[id])))
    {
      if disabled {
        return;
      }
      var s := Recording();
      if id in s.newIds || id in s.oldValues {
        stack := stack[..|stack| - 1] + [s];
        return;
      }
      s := s.(oldValues := s.oldValues[id := objects[id]]);
      stack := stack[..|stack| - 1] + [s];
    }

    method OnRemoveHook(id: ObjectId)
      requires id in objects
      modifies `stack
      ensures stack == if disabled then old(stack)
                       else old(State().Record(OnRemove(State().Top(), id, objects[id])))
    {
      if disabled {
        return;
      }
      var s := Recording();
      if id in s.newIds {
        s := s.(newIds := s.newIds - {id});
      } else if id in s.oldValues {
        s := s.(removed := s.removed[id := s.oldValues[id]]);
        s := s.(oldValues := s.oldValues - {id});
      } else if id !in s.removed {
        s := s.(removed := s.removed[id := objects[id]]);
      }
      stack := stack[..|stack| - 1] + [s];
    }

    /** Creates an object under the next id of its index; the hook runs after the object exists. */
    method Create(index: nat, value: Value) returns (ok: bool)
      modifies this
      ensures ok <==> Step(old(State()), Op.Create(index, value)).Some?
      ensures State() == if ok then Step(old(State()), Op.Create(index, value)).value else old(State())
    {
      if index !in nextIds || ObjectId(index, nextIds[index]) in objects {
        return false;
      }
      var id := ObjectId(index, nextIds[index]);
      objects := objects[id := value];
      nextIds := nextIds[index := id.instance + 1];
      OnCreateHook(id);
      return true;
    }

    method Modify(id: ObjectId, value: Value) returns (ok: bool)
      modifies this
      ensures ok <==> Step(old(State()), Op.Modify(id, value)).Some?
      ensures State() == if ok then Step(old(State()), Op.Modify(id, value)).value else old(State())
    {
      if id !in objects {
        return false;
      }
      OnModifyHook(id);
      objects := objects[id := value];
      return true;
    }

    method Remove(id: ObjectId) returns (ok: bool)
      modifies this
      ensures ok <==> Step(old(State()), Op.Remove(id)).Some?
      ensures State() == if ok then Step(old(State()), Op.Remove(id)).value else old(State())
    {
      if id !in objects {
        return false;
      }
      OnRemoveHook(id);
      objects := objects - {id};
      return true;
    }

    method RestoreValues(s: UndoState) returns (ok: bool)
      modifies `objects
      ensures ok <==> s.oldValues.Keys <= old(objects).Keys
      ensures ok ==> objects == old(objects) + s.oldValues
    {
      var todo := s.oldValues.Keys;
      while todo != {}
        invariant todo <= s.oldValues.Keys
        invariant s.oldValues.Keys - todo <= old(objects).Keys
        invariant objects == old(objects) + (s.oldValues - todo)
      {
        var id :| id in todo;
        todo := todo - {id};
        if id !in objects {
          return false;
        }
        objects := objects[id := s.oldValues[id]];
      }
      assert s.oldValues - todo == s.oldValues;
      return true;
    }

    method DeleteNew(s: UndoState) returns (ok: bool)
      modifies `objects
      ensures ok <==> s.newIds <= old(objects).Keys
      ensures ok ==> objects == old(objects) - s.newIds
    {
      var todo := s.newIds;
      while todo != {}
        invariant todo <= s.newIds
        invariant s.newIds - todo <= old(objects).Keys
        invariant objects == old(objects) - (s.newIds - todo)
      {
        var id :| id in todo;
        todo := todo - {id};
        if id !in objects {
          return false;
        }
        objects := objects - {id};
      }
      assert s.newIds - todo == s.newIds;
      return true;
    }

    method RestoreCounters(s: UndoState) returns (ok: bool)
      modifies `nextIds
      ensures ok <==> s.oldNextIds.Keys <= old(nextIds).Keys
      ensures ok ==> nextIds == old(nextIds) + s.oldNextIds
    {
      var todo := s.oldNextIds.Keys;
      while todo != {}
        invariant todo <= s.oldNextIds.Keys
        invariant s.oldNextIds.Keys - todo <= old(nextIds).Keys
        invariant nextIds == old(nextIds) + (s.oldNextIds - todo)
      {
        var index :| index in todo;
        todo := todo - {index};
        if index !in nextIds {
          return false;
        }
        nextIds := nextIds[index := s.oldNextIds[index]];
      }
      assert s.oldNextIds - todo == s.oldNextIds;
      return true;
    }

    method Reinsert(s: UndoState) returns (ok: bool)
      modifies `objects
      ensures ok <==> s.removed.Keys !! old(objects).Keys
      ensures ok ==> objects == old(objects) + s.removed
    {
      var todo := s.removed.Keys;
      while todo != {}
        invariant todo <= s.removed.Keys
        invariant (s.removed.Keys - todo) !! old(objects).Keys
        invariant objects == old(objects) + (s.removed - todo)
      {
        var id :| id in todo;
        todo := todo - {id};
        if id in objects {
          return false;
        }
        objects := objects[id := s.removed[id]];
      }
      assert s.removed - todo == s.removed;
      return true;
    }

    /** The four loops that `undo` and `pop_commit` share. A failed revert leaves the objects half restored. */
    method RevertTop() returns (ok: bool)
      requires stack != []
      modifies `objects, `nextIds
      ensures ok <==> CanRevert(old(State().Top()), old(State().db))
      ensures ok ==> State().db == Reverted(old(State().Top()), old(State().db))
    {
      var s := stack[|stack| - 1];
      ok := RestoreValues(s);
      if !ok { return; }
      ok := DeleteNew(s);
      if !ok { return; }
      ok := RestoreCounters(s);
      if !ok { return; }
      ok := Reinsert(s);
    }

    /** A failed undo leaves the log disabled, since the exception skips the call that enables it again. */
    method Undo() returns (ok: bool)
      modifies this
      ensures ok <==> Step(old(State()), Op.Undo).Some?
      ensures ok ==> State() == Step(old(State()), Op.Undo).value
      ensures !ok ==> disabled == (old(disabled) || (old(activeSessions) > 0 && old(stack) != []))
      ensures !ok ==> stack == old(stack) && activeSessions == old(activeSessions)
    {
      if disabled || activeSessions == 0 || stack == [] {
        return false;
      }
      disabled := true;
      ok := RevertTop();
      if !ok { return; }
      stack := stack[..|stack| - 1];
      if stack == [] {
        stack := [EmptyState()];
      }
      disabled := false;
      activeSessions := activeSessions - 1;
    }

    method Commit() returns (ok: bool)
      modifies `activeSessions
      ensures ok <==> Step(old(State()), Op.Commit).Some?
      ensures State() == if ok then Step(old(State()), Op.Commit).value else old(State())
    {
      if activeSessions == 0 {
        return false;
      }
      activeSessions := activeSessions - 1;
      return true;
    }

    method PopCommit() returns (ok: bool)
      modifies this
      ensures ok <==> Step(old(State()), Op.PopCommit).Some?
      ensures ok ==> State() == Step(old(State()), Op.PopCommit).value
      ensures !ok ==> stack == old(stack) && activeSessions == old(activeSessions)
      ensures !ok && (old(activeSessions) > 0 || old(stack) == []) ==> State() == old(State())
    {
      if activeSessions > 0 || stack == [] {
        return false;
      }
      disabled := true;
      ok := RevertTop();
      if ok {
        stack := stack[..|stack| - 1];
      }
      disabled := false;
    }

    /** Folds the top state into the one below it, set by set, in the order of the source. */
    method Merge() returns (ok: bool)
      modifies `stack, `activeSessions
      ensures ok <==> Step(old(State()), Op.Merge).Some?
      ensures State() == if ok then Step(old(State()), Op.Merge).value else old(State())
    {
      if activeSessions == 0 || |stack| < 2 {
        return false;
      }
      var state, prev := stack[|stack| - 1], stack[|stack| - 2];
      var oldValues := FoldValues(prev, state);
      var oldNextIds := FoldCounters(prev, state);
      var newIds, removed := FoldRemovals(prev, state);
      stack := stack[..|stack| - 2] + [UndoState(oldValues, oldNextIds, newIds, removed)];
      activeSessions := activeSessions - 1;
      return true;
    }
  }

  method FoldValues(prev: UndoState, state: UndoState) returns (oldValues: map<ObjectId, Value>)
    ensures oldValues == MergeStates(prev, state).oldValues
  {
    oldValues := prev.oldValues;
    var todo := state.oldValues.Keys;
    while todo != {}
      invariant todo <= state.oldValues.Keys
      invariant oldValues == ((state.oldValues - todo) - prev.newIds) + prev.oldValues
    {
      var id :| id in todo;
      todo := todo - {id};
      if id !in prev.newIds && id !in oldValues {
        oldValues := oldValues[id := state.oldValues[id]];
      }
    }
    assert state.oldValues - todo == state.oldValues;
  }

  method FoldCounters(prev: UndoState, state: UndoState) returns (oldNextIds: map<nat, nat>)
    ensures oldNextIds == MergeStates(prev, state).oldNextIds
  {
    oldNextIds := prev.oldNextIds;
    var todo := state.oldNextIds.Keys;
    while todo != {}
      invariant todo <= state.oldNextIds.Keys
      invariant oldNextIds == (state.oldNextIds - todo) + prev.oldNextIds
    {
      var index :| index in todo;
      todo := todo - {index};
      if index !in oldNextIds {
        oldNextIds := oldNextIds[index := state.oldNextIds[index]];
      }
    }
    assert state.oldNextIds - todo == state.oldNextIds;
  }

  method FoldRemovals(prev: UndoState, state: UndoState)
    returns (newIds: set<ObjectId>, removed: map<ObjectId, Value>)
    ensures newIds == MergeStates(prev, state).newIds && removed == MergeStates(prev, state).removed
  {
    newIds, removed := prev.newIds + state.newIds, prev.removed;
    var todo := state.removed.Keys;
    while todo != {}
      invariant todo <= state.removed.Keys
      invariant newIds == (prev.newIds + state.newIds) - (state.removed.Keys - todo)
      invariant removed == prev.removed + ((state.removed - todo) - (prev.newIds + state.newIds))
    {
      var id :| id in todo;
      todo := todo - {id};
      if id !in newIds {
        removed := removed[id := state.removed[id]];
      } else {
        newIds := newIds - {id};
      }
    }
    assert state.removed - todo == state.removed;
  }
}
