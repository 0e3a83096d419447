/**
 Pushing a block is atomic as long as the sessions it reverts can be reverted: over every run the objects
 are the fold of block application along the path to the head, a push that throws changes nothing, and the
 head never gets lower. How many blocks can be popped is counted along, from nothing for a fresh chain.
 */
module ChainSafety {
  import opened Wrappers
  import opened Blocks
  import opened ForkDatabase
  import opened BlockApplication
  import opened Sessions
  import Undo = UndoDatabase
  import opened UndoLog

  // ----- the reference: what blocks do to the objects -----

  /** What the script of a block makes of the objects, and the state of its session. */
  function Effect(rules: Rules, db: Snapshot, b: Block): Option<(Snapshot, UndoState)> {
    Do(db, EmptyState(), ScriptOf(rules, db, rules.head(db), b).actions)
  }

  predicate Throws(rules: Rules, db: Snapshot, b: Block) {
    ScriptOf(rules, db, rules.head(db), b).throws
  }

  /** All sessions in the block, up to where it throws if it does, can be reverted and merge well into its own. */
  predicate Retracts(rules: Rules, db: Snapshot, b: Block) {
    Effect(rules, db, b).Some? && MergeWell(db, EmptyState(), ScriptOf(rules, db, rules.head(db), b).actions)
  }

  function Applied(rules: Rules, db: Snapshot, b: Block): Option<Snapshot> {
    if Throws(rules, db, b) || Effect(rules, db, b).None? then None else Some(Effect(rules, db, b).value.0)
  }

  /** Applying a list of blocks, one on top of the other. */
  function Fold(rules: Rules, db: Snapshot, blocks: seq<Block>): Option<Snapshot>
    decreases |blocks|
  {
    if blocks == [] then Some(db)
    else if Applied(rules, db, blocks[0]).None? then None
    else Fold(rules, Applied(rules, db, blocks[0]).value, blocks[1..])
  }

  /** Every block up to the first that throws can be reverted. */
  predicate Retractable(rules: Rules, db: Snapshot, blocks: seq<Block>)
    decreases |blocks|
  {
    blocks != [] ==>
      && Retracts(rules, db, blocks[0])
      && (Applied(rules, db, blocks[0]).Some? ==>
            Retractable(rules, Applied(rules, db, blocks[0]).value, blocks[1..]))
  }

  /** Blocks do not nest sessions deeper than the rules say, and record themselves as the head. */
  ghost predicate Sound(rules: Rules) {
    forall db: Snapshot, b: Block {:trigger rules.script(db, b)} ::
      var script := rules.script(db, b);
      && Nesting(script.actions) <= rules.nesting
      && (!script.throws && Do(db, EmptyState(), script.actions).Some? ==>
            rules.head(Do(db, EmptyState(), script.actions).value.0) == b.Id())
  }

  lemma {:induction false} FoldConcat(rules: Rules, db: Snapshot, a: seq<Block>, b: seq<Block>)
    ensures Fold(rules, db, a + b) ==
            if Fold(rules, db, a).None? then None else Fold(rules, Fold(rules, db, a).value, b)
    ensures Retractable(rules, db, a + b) <==>
            Retractable(rules, db, a) && (Fold(rules, db, a).Some? ==> Retractable(rules, Fold(rules, db, a).value, b))
    decreases |a|
  {
    hide Applied, Retracts;
    if a == [] {
      assert a + b == b;
    } else {
      assert (a + b)[1..] == a[1..] + b;
      if Applied(rules, db, a[0]).Some? { FoldConcat(rules, Applied(rules, db, a[0]).value, a[1..], b); }
    }
  }

  lemma {:induction false} FoldOne(rules: Rules, db: Snapshot, b: Block)
    ensures Fold(rules, db, [b]) == Applied(rules, db, b)
    ensures Retractable(rules, db, [b]) <==> Retracts(rules, db, b)
  {
    hide Applied, Retracts;
    assert [b][1..] == [];
  }

  /** The last block of a list that applies. */
  lemma {:induction false} FoldLast(rules: Rules, db: Snapshot, blocks: seq<Block>)
    requires blocks != [] && Fold(rules, db, blocks).Some?
    ensures var (init, last) := (blocks[..|blocks| - 1], blocks[|blocks| - 1]);
            && Fold(rules, db, init).Some?
            && Applied(rules, Fold(rules, db, init).value, last) == Fold(rules, db, blocks)
            && (Retractable(rules, db, blocks) <==>
                  Retractable(rules, db, init) && Retracts(rules, Fold(rules, db, init).value, last))
  {
    hide Applied, Retracts, Fold, Retractable;
    var (init, last) := (blocks[..|blocks| - 1], blocks[|blocks| - 1]);
    assert blocks == init + [last];
    FoldConcat(rules, db, init, [last]);
    if Fold(rules, db, init).Some? { FoldOne(rules, Fold(rules, db, init).value, last); }
  }

  lemma EffectDescribes(rules: Rules, db: Snapshot, b: Block)
    requires db.WellFormed() && Effect(rules, db, b).Some?
    ensures Describes(Effect(rules, db, b).value.1, db, Effect(rules, db, b).value.0)
    ensures IsClean(Effect(rules, db, b).value.1) <==> Retracts(rules, db, b)
  {
    hide Describes, MergeWell, Do, IsClean;
    var actions := ScriptOf(rules, db, rules.head(db), b).actions;
    Undo.EmptyDescribes(db);
    DoDescribes(db, EmptyState(), db, actions);
    SessionIsClean(db, EmptyState(), db, actions);
  }

  /** The objects before any block was applied. */
  ghost predicate IsGenesis(rules: Rules, first: Snapshot) {
    Sound(rules) && first.WellFormed() && rules.head(first) == NULL_ID
  }

  lemma {:induction false} FoldHead(rules: Rules, first: Snapshot, blocks: seq<Block>)
    requires IsGenesis(rules, first) && Fold(rules, first, blocks).Some?
    ensures var db := Fold(rules, first, blocks).value;
            && db.WellFormed()
            && rules.head(db).num == |blocks|
            && rules.head(db) == if blocks == [] then NULL_ID else blocks[|blocks| - 1].Id()
    decreases |blocks|
  {
    hide Fold, Do, MergeWell, Describes;
    if blocks == [] {
      assert Fold(rules, first, blocks) == Some(first) by { FoldNone(rules, first); }
    } else {
      var (init, last) := (blocks[..|blocks| - 1], blocks[|blocks| - 1]);
      FoldLast(rules, first, blocks);
      FoldHead(rules, first, init);
      var db := Fold(rules, first, init).value;
      EffectDescribes(rules, db, last);
      DescribesWellFormed(Effect(rules, db, last).value.1, db, Effect(rules, db, last).value.0);
      assert last.previous == rules.head(db);
    }
  }

  lemma {:induction false} FoldNone(rules: Rules, db: Snapshot)
    ensures Fold(rules, db, []) == Some(db)
  {
  }

  // ----- the invariant -----

  /** How many blocks can be remembered at most: one state each, less the room for nested sessions. */
  function Capacity(rules: Rules, m: Undo.Machine): int {
    m.maxSize - rules.nesting
  }

  /** The states of the last `d` sessions on the stack are those of the last `d` blocks. */
  ghost predicate Remembers(rules: Rules, first: Snapshot, stack: seq<UndoState>, chain: seq<Block>, d: nat)
    decreases d
  {
    d == 0 ||
    (&& stack != [] && chain != []
     && Fold(rules, first, chain[..|chain| - 1]).Some?
     && (var effect := Effect(rules, Fold(rules, first, chain[..|chain| - 1]).value, chain[|chain| - 1]);
         effect.Some? && stack[|stack| - 1] == effect.value.1)
     && Remembers(rules, first, stack[..|stack| - 1], chain[..|chain| - 1], d - 1))
  }

  /** The objects are the fold along `chain`, which is the path to the head, and its last `d` blocks are remembered. */
  ghost predicate Inv(rules: Rules, first: Snapshot, c: Chain, chain: seq<Block>, d: nat) {
    && IsGenesis(rules, first)
    && Fold(rules, first, chain) == Some(c.machine.db)
    && c.pending == rules.head(c.machine.db)
    && Idle(c.machine) && d <= Capacity(rules, c.machine)
    && Remembers(rules, first, c.machine.stack, chain, d)
    && ValidTree(c.fork)
    && Capacity(rules, c.machine) > 0
  }

  function Fresh(first: Snapshot, maxSize: nat): Chain {
    Chain(Undo.Fresh(first, maxSize), NULL_ID, ForkTree(map[], None, 0))
  }

  lemma FreshInv(rules: Rules, first: Snapshot, maxSize: nat)
    requires IsGenesis(rules, first) && rules.nesting < maxSize
    ensures Inv(rules, first, Fresh(first, maxSize), [], 0)
  {
  }

  lemma {:induction false} RememberingLess(
    rules: Rules, first: Snapshot, stack: seq<UndoState>, chain: seq<Block>, d: nat, e: nat)
    requires Remembers(rules, first, stack, chain, d) && e <= d
    ensures d <= |stack| && d <= |chain|
    ensures Remembers(rules, first, stack, chain, e)
    decreases d
  {
    hide Fold, Effect;
    if d == 0 {
    } else {
      RememberingLess(rules, first, stack[..|stack| - 1], chain[..|chain| - 1], d - 1, if e == 0 then 0 else e - 1);
    }
  }

  lemma {:induction false} ForgettingOldest(
    rules: Rules, first: Snapshot, stack: seq<UndoState>, chain: seq<Block>, d: nat, n: nat)
    requires Remembers(rules, first, stack, chain, d) && d <= n
    ensures Remembers(rules, first, Last(stack, n), chain, d)
    decreases d
  {
    hide Fold, Effect;
    if d == 0 {
    } else {
      ForgettingOldest(rules, first, stack[..|stack| - 1], chain[..|chain| - 1], d - 1, n - 1);
      assert Last(stack, n)[..|Last(stack, n)| - 1] == Last(stack[..|stack| - 1], n - 1);
    }
  }

  /** Cutting the stack to some length keeps what fits on it. */
  lemma {:induction false} CutRemembers(
    rules: Rules, first: Snapshot, stack: seq<UndoState>, chain: seq<Block>, d: nat, n: nat)
    requires Remembers(rules, first, stack, chain, d)
    ensures forall e: nat | e <= d && e <= n :: Remembers(rules, first, Last(stack, n), chain, e)
  {
    hide Remembers, Last;
    forall e: nat | e <= d && e <= n
      ensures Remembers(rules, first, Last(stack, n), chain, e)
    {
      RememberingLess(rules, first, stack, chain, d, e);
      ForgettingOldest(rules, first, stack, chain, e, n);
    }
  }

  // ----- one block -----

  /**
   The block's session: none if an undo in or of it throws; otherwise its state, if
   it commits, is that of its effect.
   */
  lemma SessionEffect(rules: Rules, c: Chain, b: Block)
    requires Sound(rules) && Idle(c.machine) && c.machine.db.WellFormed() && Capacity(rules, c.machine) > 0
    requires c.pending == rules.head(c.machine.db)
    ensures var (m, db) := (c.machine, c.machine.db);
            var below := Below(m, ScriptOf(rules, db, c.pending, b).actions);
            InSession(rules, c, b) ==
              if Throws(rules, db, b) then
                if !Retracts(rules, db, b) then None
                else Some(c.(machine := m.(stack := if below == [] then [EmptyState()] else below)))
              else
                match Effect(rules, db, b)
                case None => None
                case Some((db1, state)) =>
                  Some(c.(machine := m.(db := db1, stack := below + [state]), pending := b.Id()))
  {
    hide Do, MergeWell, IsClean, Describes, Undo.Run, Undo.Step, Nesting, SessionOps, Last;
    var actions := ScriptOf(rules, c.machine.db, c.pending, b).actions;
    ScriptFits(rules, c.machine.db, c.pending, b);
    CommittedBlock(c.machine, actions);
    UndoneBlock(c.machine, actions);
  }

  lemma ScriptFits(rules: Rules, db: Snapshot, pending: BlockId, b: Block)
    requires Sound(rules)
    ensures Nesting(ScriptOf(rules, db, pending, b).actions) <= rules.nesting
  {
  }

  /** A block that applies is remembered as far as the capacity goes. */
  lemma SessionCommits(rules: Rules, first: Snapshot, c: Chain, chain: seq<Block>, d: nat, b: Block)
    requires Inv(rules, first, c, chain, d) && Applied(rules, c.machine.db, b).Some?
    ensures InSession(rules, c, b).Some? && Applies(rules, c, b)
    ensures Inv(rules, first, InSession(rules, c, b).value, chain + [b], Min(d + 1, Capacity(rules, c.machine)))
    ensures InSession(rules, c, b).value.fork == c.fork
    ensures InSession(rules, c, b).value.machine.maxSize == c.machine.maxSize
    ensures InSession(rules, c, b).value.machine.db == Applied(rules, c.machine.db, b).value
  {
    hide Do, MergeWell, Undo.Run, Nesting, SessionOps, Last, Fold, Retracts, Remembers, InSession, IsGenesis;
    var m, e := c.machine, Min(d, Capacity(rules, c.machine) - 1);
    Genesis(rules, first, chain);
    var actions := ScriptOf(rules, m.db, c.pending, b).actions;
    ScriptFits(rules, m.db, c.pending, b);
    SessionEffect(rules, c, b);
    FoldConcat(rules, first, chain, [b]);
    FoldOne(rules, m.db, b);
    CutRemembers(rules, first, m.stack, chain, d, m.maxSize - 1 - Nesting(actions));
    RemembersOne(rules, first, Below(m, actions), chain, e, b);
    HeadOfApplied(rules, m.db, b);
  }

  lemma {:induction false} Genesis(rules: Rules, first: Snapshot, chain: seq<Block>)
    requires IsGenesis(rules, first) && Fold(rules, first, chain).Some?
    ensures Sound(rules) && Fold(rules, first, chain).value.WellFormed()
  {
    FoldHead(rules, first, chain);
  }

  lemma HeadOfApplied(rules: Rules, db: Snapshot, b: Block)
    requires Sound(rules) && Applied(rules, db, b).Some?
    ensures rules.head(Applied(rules, db, b).value) == b.Id() && b.previous == rules.head(db)
  {
  }

  lemma RemembersOne(rules: Rules, first: Snapshot, stack: seq<UndoState>, chain: seq<Block>, d: nat, b: Block)
    requires Remembers(rules, first, stack, chain, d)
    requires Fold(rules, first, chain).Some? && Effect(rules, Fold(rules, first, chain).value, b).Some?
    ensures Remembers(rules, first, stack + [Effect(rules, Fold(rules, first, chain).value, b).value.1], chain + [b], d + 1)
  {
    hide Fold, Effect;
    var pushed := stack + [Effect(rules, Fold(rules, first, chain).value, b).value.1];
    assert pushed[..|pushed| - 1] == stack && (chain + [b])[..|chain + [b]| - 1] == chain;
  }

  /** A block that throws changes no object; it may push one state off the stack. */
  lemma SessionThrows(rules: Rules, first: Snapshot, c: Chain, chain: seq<Block>, d: nat, b: Block)
    requires Inv(rules, first, c, chain, d) && Throws(rules, c.machine.db, b) && Retracts(rules, c.machine.db, b)
    ensures InSession(rules, c, b).Some? && !Applies(rules, c, b)
    ensures Inv(rules, first, InSession(rules, c, b).value, chain, Min(d, Capacity(rules, c.machine) - 1))
    ensures InSession(rules, c, b).value.fork == c.fork
    ensures InSession(rules, c, b).value.machine.maxSize == c.machine.maxSize
  {
    hide Do, MergeWell, Undo.Run, Nesting, SessionOps, Last, Fold, Retracts, Remembers, InSession, IsGenesis;
    var m, e := c.machine, Min(d, Capacity(rules, c.machine) - 1);
    Genesis(rules, first, chain);
    var actions := ScriptOf(rules, m.db, c.pending, b).actions;
    ScriptFits(rules, m.db, c.pending, b);
    SessionEffect(rules, c, b);
    CutRemembers(rules, first, m.stack, chain, d, m.maxSize - 1 - Nesting(actions));
    RememberingLess(rules, first, Below(m, actions), chain, e, 0);
    if Below(m, actions) == [] { RemembersNothing(rules, first, [EmptyState()], chain); }
  }

  lemma {:induction false} RemembersNothing(rules: Rules, first: Snapshot, stack: seq<UndoState>, chain: seq<Block>)
    ensures Remembers(rules, first, stack, chain, 0)
  {
  }

  /** Otherwise the session breaks. */
  lemma SessionBreaks(rules: Rules, first: Snapshot, c: Chain, chain: seq<Block>, d: nat, b: Block)
    requires Inv(rules, first, c, chain, d)
    ensures InSession(rules, c, b).None? <==>
              Applied(rules, c.machine.db, b).None? && !Retracts(rules, c.machine.db, b)
  {
    hide Do, MergeWell, Undo.Run, Nesting, SessionOps, Last, Fold, Remembers, InSession, IsGenesis;
    Genesis(rules, first, chain);
    SessionEffect(rules, c, b);
  }

  // ----- popping -----

  /** The fork database after some blocks were popped: its head moves along the weak links, and nothing else. */
  function PoppedFork(t: ForkTree, n: nat): (r: ForkTree)
    ensures r.index == t.index && r.nextSerial == t.nextSerial
    decreases n
  {
    if n == 0 then t else PoppedFork(t.(head := if t.head.None? then None else t.Lock(t.head.value)), n - 1)
  }

  /** A remembered block can be popped exactly when it retracts. */
  lemma {:induction false} PopStep(rules: Rules, first: Snapshot, c: Chain, chain: seq<Block>, d: nat)
    requires Inv(rules, first, c, chain, d) && d > 0
    ensures c.machine.stack != [] && chain != [] && Fold(rules, first, chain[..|chain| - 1]).Some?
    ensures Popped(rules, c).Some? <==>
              Retracts(rules, Fold(rules, first, chain[..|chain| - 1]).value, chain[|chain| - 1])
    ensures Popped(rules, c).Some? ==>
              var c' := Popped(rules, c).value;
              && Inv(rules, first, c', chain[..|chain| - 1], d - 1)
              && c'.fork == PoppedFork(c.fork, 1) && c'.machine.maxSize == c.machine.maxSize
  {
    hide Do, MergeWell, Fold, IsGenesis, Describes, IsClean, CanRevert, Reverted, Retracts, Applied;
    var (init, last) := (chain[..|chain| - 1], chain[|chain| - 1]);
    var db := Fold(rules, first, init).value;
    var m := c.machine;
    FoldLast(rules, first, chain);
    Genesis(rules, first, init);
    EffectDescribes(rules, db, last);
    AppliedIsEffect(rules, db, last);
    assert m.Top() == Effect(rules, db, last).value.1;
    RevertRestores(m.Top(), db, m.db);
  }

  lemma AppliedIsEffect(rules: Rules, db: Snapshot, b: Block)
    requires Applied(rules, db, b).Some?
    ensures Effect(rules, db, b).Some? && Applied(rules, db, b).value == Effect(rules, db, b).value.0
  {
  }

  /** Popping down to the head of `fork` pops exactly the blocks above it, if they all retract; otherwise it breaks. */
  lemma {:induction false} PopsExactly(
    rules: Rules, first: Snapshot, c: Chain, fork: seq<Block>, above: seq<Block>, d: nat, target: BlockId)
    requires Inv(rules, first, c, fork + above, d) && |above| <= d
    requires Fold(rules, first, fork).Some? && target == rules.head(Fold(rules, first, fork).value)
    ensures var (c', failure) := PoppedTo(rules, c, target);
            if Retractable(rules, Fold(rules, first, fork).value, above) then
              && failure.None? && Inv(rules, first, c', fork, d - |above|)
              && c'.machine.maxSize == c.machine.maxSize && c'.fork == PoppedFork(c.fork, |above|)
            else failure == Some(Broken)
    decreases |above|
  {
    hide Fold, Inv, Retractable, Retracts, Popped, IsGenesis;
    InvFields(rules, first, c, fork + above, d);
    FoldHead(rules, first, fork + above);
    FoldHead(rules, first, fork);
    var db := Fold(rules, first, fork).value;
    if above == [] {
      assert fork + [] == fork;
      NothingRetracts(rules, db);
    } else {
      var below, chain := above[..|above| - 1], fork + above;
      assert chain[..|chain| - 1] == fork + below;
      PopStep(rules, first, c, chain, d);
      FoldConcat(rules, first, fork, below);
      FoldConcat(rules, first, fork, above);
      FoldLast(rules, db, above);
      if Popped(rules, c).Some? { PopsExactly(rules, first, Popped(rules, c).value, fork, below, d - 1, target); }
    }
  }

  lemma {:induction false} NothingRetracts(rules: Rules, db: Snapshot)
    ensures Retractable(rules, db, [])
  {
  }

  lemma {:induction false} InvFields(rules: Rules, first: Snapshot, c: Chain, chain: seq<Block>, d: nat)
    requires Inv(rules, first, c, chain, d)
    ensures IsGenesis(rules, first) && Fold(rules, first, chain) == Some(c.machine.db)
    ensures c.pending == Head(rules, c) && ValidTree(c.fork) && 0 < Capacity(rules, c.machine)
    ensures d <= Capacity(rules, c.machine)
    ensures d <= |chain|
  {
    RememberingLess(rules, first, c.machine.stack, chain, d, 0);
  }

  // ----- applying a branch -----

  lemma {:induction false} BranchLength(branch: seq<ForkItem>)
    ensures |BlocksOf(branch)| == |branch|
    decreases |branch|
  {
    if branch == [] {
    } else {
      BranchLength(branch[..|branch| - 1]);
    }
  }

  /** What is applied of a branch is on the chain and remembered; all of it is exactly when its blocks fold. */
  lemma {:induction false} BranchMoves(
    rules: Rules, first: Snapshot, c: Chain, chain: seq<Block>, d: nat, branch: seq<ForkItem>)
    requires Inv(rules, first, c, chain, d)
    ensures var (db, blocks, result) := (c.machine.db, BlocksOf(branch), BranchApplied(rules, c, branch));
            && |blocks| == |branch|
            && (Fold(rules, db, blocks).Some? || Retractable(rules, db, blocks) ==> result.Some?)
            && (result.Some? ==>
                  var (c', left) := result.value;
                  var n, capacity := |branch| - left, Capacity(rules, c.machine);
                  && c'.fork == c.fork && c'.machine.maxSize == c.machine.maxSize
                  && (left == 0 <==> Fold(rules, db, blocks).Some?)
                  && Fold(rules, db, blocks[..n]).Some?
                  && (left > 0 ==> Fold(rules, db, blocks[..n + 1]).None?)
                  && Inv(rules, first, c', chain + blocks[..n], Min(d + n, if left == 0 then capacity else capacity - 1))
                  && (left > 0 ==> (Retractable(rules, db, blocks) <==> Retractable(rules, db, blocks[..n]))))
    decreases |branch|
  {
    hide Inv, Fold, Retractable, Retracts, InSession, IsGenesis, Applied, Applies, Throws;
    BranchLength(branch);
    var db := c.machine.db;
    InvFields(rules, first, c, chain, d);
    FoldNone(rules, db);
    NothingRetracts(rules, db);
    assert chain + [] == chain;
    if branch == [] {
    } else {
      var b, rest := branch[|branch| - 1].block, branch[..|branch| - 1];
      BlockDecides(rules, first, c, chain, d, b);
      FoldFirst(rules, db, b, BlocksOf(rest));
      if Applied(rules, db, b).None? {
        assert BlocksOf(branch)[..1] == [b];
        FoldOne(rules, db, b);
      } else {
        var c1 := InSession(rules, c, b).value;
        BranchMoves(rules, first, c1, chain + [b], Min(d + 1, Capacity(rules, c.machine)), rest);
        var result := BranchApplied(rules, c1, rest);
        if result.Some? {
          var n := |rest| - result.value.1;
          FoldFirst(rules, db, b, BlocksOf(rest)[..n]);
          assert BlocksOf(branch)[..n + 1] == [b] + BlocksOf(rest)[..n];
          if result.value.1 > 0 {
            FoldFirst(rules, db, b, BlocksOf(rest)[..n + 1]);
            assert BlocksOf(branch)[..n + 2] == [b] + BlocksOf(rest)[..n + 1];
          }
          assert chain + ([b] + BlocksOf(rest)[..n]) == (chain + [b]) + BlocksOf(rest)[..n];
        }
      }
    }
  }

  lemma {:induction false} FoldFirst(rules: Rules, db: Snapshot, b: Block, rest: seq<Block>)
    ensures Fold(rules, db, [b] + rest) ==
            if Applied(rules, db, b).None? then None else Fold(rules, Applied(rules, db, b).value, rest)
    ensures Retractable(rules, db, [b] + rest) <==>
            Retracts(rules, db, b) &&
            (Applied(rules, db, b).Some? ==> Retractable(rules, Applied(rules, db, b).value, rest))
  {
    hide Applied, Retracts;
    assert ([b] + rest)[1..] == rest;
  }

  /** What becomes of one block of a branch. */
  lemma BlockDecides(rules: Rules, first: Snapshot, c: Chain, chain: seq<Block>, d: nat, b: Block)
    requires Inv(rules, first, c, chain, d)
    ensures var (db, after, capacity) := (c.machine.db, InSession(rules, c, b), Capacity(rules, c.machine));
            if Applied(rules, db, b).Some? then
              && after.Some? && Applies(rules, c, b) && after.value.machine.db == Applied(rules, db, b).value
              && Inv(rules, first, after.value, chain + [b], Min(d + 1, capacity))
              && after.value.fork == c.fork && after.value.machine.maxSize == c.machine.maxSize
            else if Retracts(rules, db, b) then
              && after.Some? && !Applies(rules, c, b)
              && Inv(rules, first, after.value, chain, Min(d, capacity - 1))
              && after.value.fork == c.fork && after.value.machine.maxSize == c.machine.maxSize
            else after.None?
  {
    hide Inv, Fold, InSession, IsGenesis, Applies, Effect, MergeWell;
    InvFields(rules, first, c, chain, d);
    SessionBreaks(rules, first, c, chain, d, b);
    if Applied(rules, c.machine.db, b).Some? {
      SessionCommits(rules, first, c, chain, d, b);
    } else if Retracts(rules, c.machine.db, b) {
      SessionThrows(rules, first, c, chain, d, b);
    }
  }

  // ----- the old branch is the chain -----

  lemma {:induction false} BlocksOfFirst(branch: seq<ForkItem>)
    requires branch != []
    ensures BlocksOf(branch) == BlocksOf(branch[1..]) + [branch[0].block]
    decreases |branch|
  {
    if |branch| == 1 {
    } else {
      var init := branch[..|branch| - 1];
      BlocksOfFirst(init);
      assert branch[1..][..|branch[1..]| - 1] == init[1..];
      assert init[0] == branch[0];
    }
  }

  /** A linked path from the head follows the chain downwards, since an id stands for the whole block. */
  lemma {:induction false} PathIsChain(
    rules: Rules, first: Snapshot, t: ForkTree, chain: seq<Block>, item: ForkItem, path: seq<ForkItem>)
    returns (fork: seq<Block>)
    requires IsGenesis(rules, first) && Fold(rules, first, chain).Some?
    requires item.block.Id() == rules.head(Fold(rules, first, chain).value)
    requires Linked(item) && IsPath(t, item, path)
    ensures chain == fork + BlocksOf(path)
    ensures Fold(rules, first, fork).Some?
    ensures path[|path| - 1].block.previous == rules.head(Fold(rules, first, fork).value)
    decreases |path|
  {
    hide Fold, IsGenesis, Effect;
    FoldHead(rules, first, chain);
    fork := chain[..|chain| - 1];
    assert chain == fork + [item.block];
    FoldLast(rules, first, chain);
    BlocksOfFirst(path);
    if |path| == 1 {
      assert path[1..] == [];
    } else {
      PathTail(t, item, path);
      var chain1 := fork;
      fork := PathIsChain(rules, first, t, chain1, path[1], path[1..]);
      assert (fork + BlocksOf(path[1..])) + [item.block] == fork + (BlocksOf(path[1..]) + [item.block]);
    }
  }

  // ----- the switch -----

  /** Marking the old branch in the fork database touches nothing that the invariant speaks of. */
  lemma {:induction false} MarkedInv(
    rules: Rules, first: Snapshot, c: Chain, chain: seq<Block>, d: nat, ids: set<BlockId>, item: ForkItem)
    requires Inv(rules, first, c, chain, d) && Linked(item)
    ensures Inv(rules, first, c.(fork := c.fork.(index := c.fork.index - ids, head := Some(item))), chain, d)
  {
    hide Fold, Remembers, IsGenesis;
  }

  /** At the fork point the old branch applies again. */
  lemma {:induction false} OldBranchApplies(
    rules: Rules, first: Snapshot, c: Chain, fork: seq<Block>, d: nat, old_: seq<ForkItem>)
    requires Inv(rules, first, c, fork, d) && Fold(rules, first, fork + BlocksOf(old_)).Some?
    ensures var result := BranchApplied(rules, c, old_);
            && result.Some?
            && Inv(rules, first, result.value.0, fork + BlocksOf(old_), Min(d + |old_|, Capacity(rules, c.machine)))
  {
    hide Inv, Fold, Retractable, BranchApplied, IsGenesis, BlocksOf, Capacity;
    InvFields(rules, first, c, fork, d);
    FoldConcat(rules, first, fork, BlocksOf(old_));
    BranchMoves(rules, first, c, fork, d, old_);
    BranchWhole(old_);
  }

  /** The bad branch is popped and the old one applied again, exactly when the bad one retracts. */
  lemma {:induction false} SwitchBackRestores(
    rules: Rules, first: Snapshot, c: Chain, fork: seq<Block>, bad: seq<Block>, d: nat,
    left: seq<ForkItem>, old_: seq<ForkItem>)
    requires Inv(rules, first, c, fork + bad, d) && |bad| <= d
    requires Fold(rules, first, fork).Some? && Fold(rules, first, fork + BlocksOf(old_)).Some?
    requires old_ != [] && Linked(old_[0])
    requires old_[|old_| - 1].block.previous == rules.head(Fold(rules, first, fork).value)
    ensures var (c', outcome) := SwitchBack(rules, c, left, old_);
            if Retractable(rules, Fold(rules, first, fork).value, bad) then
              && outcome == Threw
              && Inv(rules, first, c', fork + BlocksOf(old_), Min(d - |bad| + |old_|, Capacity(rules, c.machine)))
            else outcome.Failed?
  {
    hide Inv, Fold, Retractable, PoppedTo, BranchApplied, IsGenesis, BlocksOf, IdsOf, Linked;
    var target := old_[|old_| - 1].block.previous;
    var marked := c.(fork := c.fork.(index := c.fork.index - IdsOf(left), head := Some(old_[0])));
    MarkedInv(rules, first, c, fork + bad, d, IdsOf(left), old_[0]);
    PopsExactly(rules, first, marked, fork, bad, d, target);
    if Retractable(rules, Fold(rules, first, fork).value, bad) {
      OldBranchApplies(rules, first, PoppedTo(rules, marked, target).0, fork, d - |bad|, old_);
    }
  }

  lemma InvLess(rules: Rules, first: Snapshot, c: Chain, chain: seq<Block>, d: nat, e: nat)
    requires Inv(rules, first, c, chain, d) && e <= d
    ensures Inv(rules, first, c, chain, e)
  {
    hide Fold, IsGenesis;
    RememberingLess(rules, first, c.machine.stack, chain, d, e);
  }

  lemma {:induction false} BranchWhole(branch: seq<ForkItem>)
    ensures |BlocksOf(branch)| == |branch| && BlocksOf(branch)[..|branch|] == BlocksOf(branch)
  {
    BranchLength(branch);
  }

  /**
   From a fork point with `d` blocks remembered, the new branch was applied, or else the old one again if
   what was applied of the new one retracts; otherwise the switch fails half-way.
   */
  ghost predicate Lands(
    rules: Rules, first: Snapshot, fork: seq<Block>, d: nat, capacity: nat,
    new_: seq<Block>, old_: seq<Block>, c: Chain, outcome: Outcome)
    requires Fold(rules, first, fork).Some?
  {
    var db := Fold(rules, first, fork).value;
    if Fold(rules, db, new_).Some? then
      outcome == Switched && Inv(rules, first, c, fork + new_, Min(d + |new_|, capacity))
    else if Retractable(rules, db, new_) then
      && outcome == Threw && |new_| <= capacity
      && Inv(rules, first, c, fork + old_, |old_| + Min(d, capacity - |new_|))
    else outcome.Failed?
  }

  lemma {:induction false} SwitchFromFork(
    rules: Rules, first: Snapshot, c: Chain, fork: seq<Block>, d: nat, new_: seq<ForkItem>, old_: seq<ForkItem>)
    requires Inv(rules, first, c, fork, d) && Fold(rules, first, fork + BlocksOf(old_)).Some?
    requires old_ != [] && Linked(old_[0]) && |new_| <= Capacity(rules, c.machine)
    requires d + |old_| <= Capacity(rules, c.machine)
    requires old_[|old_| - 1].block.previous == rules.head(c.machine.db)
    ensures Fold(rules, first, fork).Some?
    ensures var (c', outcome) := SwitchFrom(rules, c, new_, old_);
            Lands(rules, first, fork, d, Capacity(rules, c.machine), BlocksOf(new_), BlocksOf(old_), c', outcome)
  {
    hide Inv, Fold, Retractable, BranchApplied, IsGenesis, BlocksOf, SwitchBack;
    var capacity := Capacity(rules, c.machine);
    InvFields(rules, first, c, fork, d);
    BranchWhole(new_);
    BranchWhole(old_);
    BranchMoves(rules, first, c, fork, d, new_);
    var result := BranchApplied(rules, c, new_);
    if result.Some? && result.value.1 > 0 {
      var (applied, left) := result.value;
      BadBranchLeft(rules, first, applied, fork, d, |new_| - left, capacity, new_, old_);
    }
  }

  lemma {:induction false} BadBranchLeft(
    rules: Rules, first: Snapshot, c: Chain, fork: seq<Block>, d: nat, n: nat, capacity: nat,
    new_: seq<ForkItem>, old_: seq<ForkItem>)
    requires Fold(rules, first, fork).Some? && Fold(rules, first, fork + BlocksOf(old_)).Some?
    requires capacity == Capacity(rules, c.machine) && n < |new_| <= capacity && d + |old_| <= capacity
    requires |BlocksOf(new_)| == |new_| && |BlocksOf(old_)| == |old_|
    requires Inv(rules, first, c, fork + BlocksOf(new_)[..n], Min(d + n, capacity - 1))
    requires old_ != [] && Linked(old_[0])
    requires old_[|old_| - 1].block.previous == rules.head(Fold(rules, first, fork).value)
    ensures var (c', outcome) := SwitchBack(rules, c, new_[..|new_| - n], old_);
            if Retractable(rules, Fold(rules, first, fork).value, BlocksOf(new_)[..n]) then
              && outcome == Threw
              && Inv(rules, first, c', fork + BlocksOf(old_), |old_| + Min(d, capacity - |new_|))
            else outcome.Failed?
  {
    hide Inv, Fold, Retractable, IsGenesis, BlocksOf, SwitchBack;
    var bad, d1 := BlocksOf(new_)[..n], Min(d + n, capacity - 1);
    SwitchBackRestores(rules, first, c, fork, bad, d1, new_[..|new_| - n], old_);
    if Retractable(rules, Fold(rules, first, fork).value, bad) {
      InvLess(rules, first, SwitchBack(rules, c, new_[..|new_| - n], old_).0, fork + BlocksOf(old_),
              Min(d1 - n + |old_|, capacity), |old_| + Min(d, capacity - |new_|));
    }
  }

  /**
   A switch of which the old branch is remembered: it fails half-way if that branch does not retract;
   otherwise it pops exactly that branch and goes on from the fork point.
   */
  lemma {:induction false} SwitchIsAtomic(
    rules: Rules, first: Snapshot, c: Chain, fork: seq<Block>, d: nat, new_: seq<ForkItem>, old_: seq<ForkItem>)
    requires Inv(rules, first, c, fork + BlocksOf(old_), d)
    requires old_ != [] && Linked(old_[0]) && |old_| <= d && |new_| <= Capacity(rules, c.machine)
    requires Fold(rules, first, fork).Some?
    requires old_[|old_| - 1].block.previous == rules.head(Fold(rules, first, fork).value)
    ensures var (c', outcome) := Switch(rules, c, new_, old_);
            if Retractable(rules, Fold(rules, first, fork).value, BlocksOf(old_)) then
              Lands(rules, first, fork, d - |old_|, Capacity(rules, c.machine), BlocksOf(new_), BlocksOf(old_), c', outcome)
            else outcome.Failed?
  {
    hide Inv, Fold, Retractable, PoppedTo, IsGenesis, BlocksOf, SwitchFrom, Lands;
    var target := old_[|old_| - 1].block.previous;
    BranchWhole(old_);
    InvFields(rules, first, c, fork + BlocksOf(old_), d);
    PopsExactly(rules, first, c, fork, BlocksOf(old_), d, target);
    if Retractable(rules, Fold(rules, first, fork).value, BlocksOf(old_)) {
      var popped := PoppedTo(rules, c, target).0;
      InvFields(rules, first, popped, fork, d - |old_|);
      SwitchFromFork(rules, first, popped, fork, d - |old_|, new_, old_);
    }
  }

  // ----- pushing a block -----

  /** What pushing a block comes to: appending it, switching branches, or neither. */
  datatype Course = Appending | Switching(new_: seq<ForkItem>, old_: seq<ForkItem>) | Idling

  /** The chain after the fork database took the block. */
  function Taken(c: Chain, b: Block, skipForkDb: bool): Chain {
    if skipForkDb || ForkDatabase.Pushed(c.fork, b).None? then c else c.(fork := ForkDatabase.Pushed(c.fork, b).value)
  }

  function CourseOf(rules: Rules, c: Chain, b: Block, skipForkDb: bool): (r: Course)
    ensures r.Switching? ==> r.new_ != [] && r.old_ != []
  {
    if skipForkDb then Appending
    else if ForkDatabase.Pushed(c.fork, b).None? then Idling
    else
      var t := Taken(c, b, skipForkDb);
      if t.fork.head.value.block.previous == Head(rules, c) then Appending
      else if t.fork.head.value.block.Num() <= Head(rules, c).num || SwitchBranches(t).None? then Idling
      else Switching(SwitchBranches(t).value.0, SwitchBranches(t).value.1)
  }

  lemma PushTakesCourse(rules: Rules, c: Chain, b: Block, skipForkDb: bool)
    ensures var (result, t) := (PushBlock(rules, c, b, skipForkDb), Taken(c, b, skipForkDb));
            match CourseOf(rules, c, b, skipForkDb)
            case Appending => result == Append(rules, t, b)
            case Switching(new_, old_) => result == Switch(rules, t, new_, old_)
            case Idling => result.0 == t && (result.1.Kept? || result.1.Threw?)
  {
    hide Append, Switch, SwitchBranches, ForkDatabase.Pushed;
  }

  /** There is room for the switch, if one is attempted: the old branch is remembered and the new one can be. */
  predicate Fits(rules: Rules, c: Chain, d: int, b: Block, skipForkDb: bool) {
    var course := CourseOf(rules, c, b, skipForkDb);
    course.Switching? ==> |course.old_| <= d && |course.new_| <= Capacity(rules, c.machine)
  }

  /** The path to the fork point, the blocks to apply there, and those to pop before. */
  function Plan(chain: seq<Block>, course: Course, b: Block): (seq<Block>, seq<Block>, seq<Block>) {
    match course
    case Appending => (chain, [b], [])
    case Switching(new_, old_) =>
      (if |old_| <= |chain| then chain[..|chain| - |old_|] else [], BlocksOf(new_), BlocksOf(old_))
    case Idling => (chain, [], [])
  }

  /** When a push fails half-way: the old branch does not retract, or the new one neither applies nor retracts. */
  predicate Fails(rules: Rules, first: Snapshot, chain: seq<Block>, course: Course, b: Block) {
    var (fork, new_, old_) := Plan(chain, course, b);
    Fold(rules, first, fork).Some? ==>
      var db := Fold(rules, first, fork).value;
      !Retractable(rules, db, old_) || (Fold(rules, db, new_).None? && !Retractable(rules, db, new_))
  }

  /** The path to the head after a push with the given outcome, and how much of it is remembered. */
  function NewChain(chain: seq<Block>, course: Course, b: Block, outcome: Outcome): seq<Block> {
    var (fork, new_, old_) := Plan(chain, course, b);
    if outcome.Threw? then chain else fork + new_
  }

  function NewDepth(capacity: int, d: int, course: Course, outcome: Outcome): int {
    match course
    case Appending => if outcome.Threw? then Min(d, capacity - 1) else Min(d + 1, capacity)
    case Switching(new_, old_) =>
      if outcome.Threw? then |old_| + Min(d - |old_|, capacity - |new_|) else Min(d - |old_| + |new_|, capacity)
    case Idling => d
  }

  lemma AppendIsAtomic(rules: Rules, first: Snapshot, c: Chain, chain: seq<Block>, d: nat, b: Block)
    requires Inv(rules, first, c, chain, d)
    ensures var (c', outcome) := Append(rules, c, b);
            var (db, capacity) := (c.machine.db, Capacity(rules, c.machine));
            if Applied(rules, db, b).Some? then outcome == Kept && Inv(rules, first, c', chain + [b], Min(d + 1, capacity))
            else if Retracts(rules, db, b) then outcome == Threw && Inv(rules, first, c', chain, Min(d, capacity - 1))
            else outcome.Failed?
  {
    hide Inv, Applied, Retracts, InSession, Applies, IsGenesis;
    BlockDecides(rules, first, c, chain, d, b);
    InvFields(rules, first, c, chain, d);
    if Applied(rules, c.machine.db, b).None? && Retracts(rules, c.machine.db, b) {
      RemovedInv(rules, first, InSession(rules, c, b).value, chain, Min(d, Capacity(rules, c.machine) - 1), b.Id());
    }
  }

  lemma RemovedInv(rules: Rules, first: Snapshot, c: Chain, chain: seq<Block>, d: nat, id: BlockId)
    requires Inv(rules, first, c, chain, d)
    ensures Inv(rules, first, c.(fork := c.fork.(index := c.fork.index - {id})), chain, d)
  {
    hide Fold, Remembers, IsGenesis;
  }

  lemma TakenInv(rules: Rules, first: Snapshot, c: Chain, chain: seq<Block>, d: nat, b: Block, skipForkDb: bool)
    requires Inv(rules, first, c, chain, d)
    ensures Inv(rules, first, Taken(c, b, skipForkDb), chain, d)
  {
    hide Fold, Remembers, IsGenesis, ForkDatabase.Pushed, ValidTree;
    if ForkDatabase.Pushed(c.fork, b).Some? { PushedIsValid(c.fork, b); }
  }

  /** The branch that is left follows the chain from its head; the one that is taken is higher. */
  lemma SwitchingFromHead(rules: Rules, first: Snapshot, c: Chain, chain: seq<Block>, d: nat, b: Block)
    returns (fork: seq<Block>)
    requires Inv(rules, first, c, chain, d) && CourseOf(rules, c, b, false).Switching?
    ensures var Switching(new_, old_) := CourseOf(rules, c, b, false);
            && chain == fork + BlocksOf(old_) && Linked(old_[0])
            && Fold(rules, first, fork).Some?
            && old_[|old_| - 1].block.previous == rules.head(Fold(rules, first, fork).value)
            && |fork| + |new_| > |chain| == |fork| + |old_|
            && |BlocksOf(old_)| == |old_| && |BlocksOf(new_)| == |new_|
  {
    hide Fold, BlocksOf, Branches, Remembers, IsGenesis, ForkDatabase.Pushed;
    var t := Taken(c, b, false).fork;
    var Switching(new_, old_) := CourseOf(rules, c, b, false);
    var x, y := t.index[t.head.value.block.Id()], t.index[c.pending];
    TakenInv(rules, first, c, chain, d, b, false);
    BranchesAreCorrect(t, x, y);
    PathDescends(t, x, new_);
    PathDescends(t, y, old_);
    fork := PathIsChain(rules, first, t, chain, y, old_);
    BranchLength(old_);
    BranchLength(new_);
    FoldHead(rules, first, chain);
    FoldHead(rules, first, fork);
  }

  lemma SwitchPushIsAtomic(rules: Rules, first: Snapshot, c: Chain, chain: seq<Block>, d: nat, b: Block)
    requires Inv(rules, first, c, chain, d) && CourseOf(rules, c, b, false).Switching? && Fits(rules, c, d, b, false)
    ensures var (c', outcome) := PushBlock(rules, c, b, false);
            var course := CourseOf(rules, c, b, false);
            && (outcome.Switched? || outcome.Threw? || outcome.Failed?)
            && (outcome.Failed? <==> Fails(rules, first, chain, course, b))
            && (outcome.Switched? ==> |NewChain(chain, course, b, outcome)| > |chain|)
            && (!outcome.Failed? ==>
                  && NewDepth(Capacity(rules, c.machine), d, course, outcome) >= 0
                  && Inv(rules, first, c', NewChain(chain, course, b, outcome),
                         NewDepth(Capacity(rules, c.machine), d, course, outcome)))
  {
    hide Inv, Fold, Retractable, Switch, SwitchBranches, ForkDatabase.Pushed, BlocksOf, IsGenesis, CourseOf, Capacity;
    var course, t := CourseOf(rules, c, b, false), Taken(c, b, false);
    var Switching(new_, old_) := course;
    var fork := SwitchingFromHead(rules, first, c, chain, d, b);
    PushTakesCourse(rules, c, b, false);
    TakenInv(rules, first, c, chain, d, b, false);
    SameCapacity(rules, c, b, false);
    SwitchIsAtomic(rules, first, t, fork, d, new_, old_);
    assert chain[..|chain| - |old_|] == fork;
  }

  lemma SameCapacity(rules: Rules, c: Chain, b: Block, skipForkDb: bool)
    ensures Capacity(rules, Taken(c, b, skipForkDb).machine) == Capacity(rules, c.machine)
  {
  }

  /**
   Every push for which there is room keeps the invariant, unless it fails half-way, which it does exactly when
   `Fails` says. A push that throws leaves the objects as they were; any other extends the path to the head, or
   replaces its last blocks by a longer branch and pops exactly those.
   */
  lemma PushIsAtomic(rules: Rules, first: Snapshot, c: Chain, chain: seq<Block>, d: nat, b: Block, skipForkDb: bool)
    requires Inv(rules, first, c, chain, d) && Fits(rules, c, d, b, skipForkDb)
    ensures var (c', outcome) := PushBlock(rules, c, b, skipForkDb);
            var course, capacity := CourseOf(rules, c, b, skipForkDb), Capacity(rules, c.machine);
            && (outcome.Failed? <==> Fails(rules, first, chain, course, b))
            && (!outcome.Failed? ==>
                  && NewDepth(capacity, d, course, outcome) >= 0
                  && Inv(rules, first, c', NewChain(chain, course, b, outcome), NewDepth(capacity, d, course, outcome))
                  && Head(rules, c').num >= Head(rules, c).num)
            && (outcome.Switched? ==> Head(rules, c').num > Head(rules, c).num)
            && (outcome.Threw? ==> c'.machine.db == c.machine.db)
  {
    hide Inv, Fold, Retractable, SwitchBranches, Switch, Append, ForkDatabase.Pushed, BlocksOf, IsGenesis,
         CourseOf, Capacity, Applied, Retracts;
    var course, t := CourseOf(rules, c, b, skipForkDb), Taken(c, b, skipForkDb);
    var (c', outcome) := PushBlock(rules, c, b, skipForkDb);
    PushTakesCourse(rules, c, b, skipForkDb);
    TakenInv(rules, first, c, chain, d, b, skipForkDb);
    SameCapacity(rules, c, b, skipForkDb);
    InvFields(rules, first, c, chain, d);
    assert chain + [] == chain;
    match course {
      case Appending =>
        AppendIsAtomic(rules, first, t, chain, d, b);
        FoldOne(rules, c.machine.db, b);
        NothingRetracts(rules, c.machine.db);
      case Switching(_, _) =>
        SwitchesUnskipped(rules, c, b, skipForkDb);
        SwitchPushIsAtomic(rules, first, c, chain, d, b);
      case Idling =>
        NothingRetracts(rules, c.machine.db);
        FoldNone(rules, c.machine.db);
    }
    if !outcome.Failed? {
      var end := NewChain(chain, course, b, outcome);
      InvFields(rules, first, c', end, NewDepth(Capacity(rules, c.machine), d, course, outcome));
      FoldHead(rules, first, chain);
      FoldHead(rules, first, end);
    }
  }

  lemma SwitchesUnskipped(rules: Rules, c: Chain, b: Block, skipForkDb: bool)
    requires CourseOf(rules, c, b, skipForkDb).Switching?
    ensures !skipForkDb
  {
  }

  // ----- which blocks retract -----

  /** A block retracts if all its merges are admissible; if it nests sessions once only, exactly then. */
  lemma {:induction false} AdmissibleBlocksRetract(rules: Rules, db: Snapshot, b: Block)
    requires db.WellFormed() && Effect(rules, db, b).Some?
    ensures var actions := ScriptOf(rules, db, rules.head(db), b).actions;
            && (AllAdmissible(db, EmptyState(), actions) ==> Retracts(rules, db, b))
            && (Nesting(actions) <= 1 && Retracts(rules, db, b) ==> AllAdmissible(db, EmptyState(), actions))
  {
    hide Do, MergeWell, AllAdmissible, Nesting;
    Undo.EmptyDescribes(db);
    AdmissibleMergesWell(db, EmptyState(), db, ScriptOf(rules, db, rules.head(db), b).actions);
  }

  /**
   A block that completes the approval of an older proposal never does, so a switch from a branch with such a
   block fails half-way.
   */
  lemma {:induction false} ProposalBlocksStay(
    rules: Rules, db: Snapshot, b: Block, before: seq<Action>, p: ObjectId, approved: Value, applied: seq<Action>, rest: seq<Action>)
    requires db.WellFormed() && p in db.objects && Effect(rules, db, b).Some?
    requires ScriptOf(rules, db, rules.head(db), b).actions == before + (Execution(p, approved, applied) + rest)
    ensures !Retracts(rules, db, b)
    ensures forall more: seq<Block> :: !Retractable(rules, db, [b] + more)
  {
    hide Do, MergeWell, Execution;
    ProposalSpoils(db, before, p, approved, applied, rest);
    EffectDescribes(rules, db, b);
  }

  // ----- whole runs -----

  function Run(rules: Rules, c: Chain, pushes: seq<(Block, bool)>): Chain
    decreases |pushes|
  {
    if pushes == [] then c
    else Run(rules, PushBlock(rules, c, pushes[0].0, pushes[0].1).0, pushes[1..])
  }

  /** At every push there is room, and it does not fail half-way. */
  predicate RunFits(rules: Rules, c: Chain, d: int, pushes: seq<(Block, bool)>)
    decreases |pushes|
  {
    pushes != [] ==>
      var (b, skip) := pushes[0];
      var (c', outcome) := PushBlock(rules, c, b, skip);
      && Fits(rules, c, d, b, skip) && !outcome.Failed?
      && RunFits(rules, c', NewDepth(Capacity(rules, c.machine), d, CourseOf(rules, c, b, skip), outcome), pushes[1..])
  }

  /** Over every run of pushes the objects are the fold along some path at least as long as the one before. */
  lemma {:induction false} RunIsFold(
    rules: Rules, first: Snapshot, c: Chain, chain: seq<Block>, d: nat, pushes: seq<(Block, bool)>)
    returns (end: seq<Block>, depth: nat)
    requires Inv(rules, first, c, chain, d) && RunFits(rules, c, d, pushes)
    ensures Inv(rules, first, Run(rules, c, pushes), end, depth)
    ensures Fold(rules, first, end) == Some(Run(rules, c, pushes).machine.db)
    ensures Head(rules, Run(rules, c, pushes)).num >= Head(rules, c).num
    decreases |pushes|
  {
    hide Inv, Fails, Fits, CourseOf, PushBlock, NewChain, NewDepth, Fold, Capacity;
    if pushes == [] {
      end, depth := chain, d;
      InvFields(rules, first, c, chain, d);
    } else {
      var (b, skip) := pushes[0];
      var (course, result) := (CourseOf(rules, c, b, skip), PushBlock(rules, c, b, skip));
      PushIsAtomic(rules, first, c, chain, d, b, skip);
      end, depth := RunIsFold(rules, first, result.0, NewChain(chain, course, b, result.1),
                              NewDepth(Capacity(rules, c.machine), d, course, result.1), pushes[1..]);
    }
  }

  /** So it is from a fresh chain on, of which nothing is remembered yet. */
  lemma FreshRunIsFold(rules: Rules, first: Snapshot, maxSize: nat, pushes: seq<(Block, bool)>) returns (path: seq<Block>)
    requires IsGenesis(rules, first) && rules.nesting < maxSize
    requires RunFits(rules, Fresh(first, maxSize), 0, pushes)
    ensures Fold(rules, first, path) == Some(Run(rules, Fresh(first, maxSize), pushes).machine.db)
  {
    hide RunFits, Fold, Inv, IsGenesis;
    var depth;
    FreshInv(rules, first, maxSize);
    path, depth := RunIsFold(rules, first, Fresh(first, maxSize), [], 0, pushes);
  }
}
