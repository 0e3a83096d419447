/**
 Applying, popping and switching blocks over the undo log. What a block does to the objects is
 an arbitrary deterministic script of edits and nested sessions, run in a session of the log.
 */
module BlockApplication {
  import opened Wrappers
  import opened Blocks
  import opened ForkDatabase
  import opened Sessions
  import Undo = UndoDatabase
  import opened UndoLog

  /** What a block does up to its end, or up to where it throws. */
  datatype Script = Script(actions: seq<Action>, throws: bool)

  /**
   The rules of the chain: the script of a block on given objects, the head that the dynamic global
   properties among the objects record, and how deep scripts nest sessions. They stand for the rules under
   one set of skip flags: all pushes of a run pass the same flags, but for the one that skips the fork database.
   */
  datatype Rules = Rules(script: (Snapshot, Block) -> Script, head: Snapshot -> BlockId, nesting: nat)

  datatype Chain = Chain(machine: Undo.Machine, pending: BlockId, fork: ForkTree)

  function Head(rules: Rules, c: Chain): BlockId {
    rules.head(c.machine.db)
  }

  /** A block that does not extend the pending predecessor throws at once. */
  function ScriptOf(rules: Rules, db: Snapshot, pending: BlockId, b: Block): Script {
    if b.previous != pending then Script([], true) else rules.script(db, b)
  }

  predicate Applies(rules: Rules, c: Chain, b: Block) {
    !ScriptOf(rules, c.machine.db, c.pending, b).throws
  }

  /** One block inside an undo session: committed if it applies, undone if it throws. None if an undo throws. */
  function InSession(rules: Rules, c: Chain, b: Block): Option<Chain> {
    var script := ScriptOf(rules, c.machine.db, c.pending, b);
    match Undo.Run(c.machine, SessionOps(script.actions, if script.throws then Undo.Undo else Undo.Commit))
    case None => None
    case Some(m) => Some(c.(machine := m, pending := if script.throws then c.pending else b.Id()))
  }

  /** Popping a block: none if the top state cannot be reverted. */
  function Popped(rules: Rules, c: Chain): Option<Chain> {
    match Undo.Step(c.machine, Undo.PopCommit)
    case None => None
    case Some(m) =>
      Some(Chain(m, rules.head(m.db),
                 c.fork.(head := if c.fork.head.None? then None else c.fork.Lock(c.fork.head.value))))
  }

  /** How a switch can fail half-way: the undo log ends before the fork point, or a session cannot be reverted. */
  datatype Failure = Stranded | Broken

  /** `Failed` leaves the database somewhere between the branches; after `Threw` it is as before the push. */
  datatype Outcome = Switched | Kept | Threw | Failed(how: Failure)

  /** Pops until the head is `target`, with all that could be popped popped if that fails. */
  function PoppedTo(rules: Rules, c: Chain, target: BlockId): (Chain, Option<Failure>)
    decreases |c.machine.stack|
  {
    if Head(rules, c) == target then (c, None)
    else if c.machine.stack == [] then (c, Some(Stranded))
    else
      match Popped(rules, c)
      case None => (c, Some(Broken))
      case Some(c') => PoppedTo(rules, c', target)
  }

  /** Applies a branch from its far end; stops at the first block that throws. Also returns how many are left. */
  function BranchApplied(rules: Rules, c: Chain, branch: seq<ForkItem>): (r: Option<(Chain, nat)>)
    ensures r.Some? ==> r.value.1 <= |branch|
    decreases |branch|
  {
    if branch == [] then Some((c, 0))
    else
      var b := branch[|branch| - 1].block;
      match InSession(rules, c, b)
      case None => None
      case Some(c') =>
        if Applies(rules, c, b) then BranchApplied(rules, c', branch[..|branch| - 1]) else Some((c', |branch|))
  }

  /** The blocks of a branch from its far end. */
  function BlocksOf(branch: seq<ForkItem>): seq<Block> {
    if branch == [] then [] else [branch[|branch| - 1].block] + BlocksOf(branch[..|branch| - 1])
  }

  function IdsOf(branch: seq<ForkItem>): set<BlockId> {
    set i | 0 <= i < |branch| :: branch[i].block.Id()
  }

  /** Reverting a switch: the bad branch leaves the fork database and the old one is applied again. */
  function SwitchBack(rules: Rules, c: Chain, left: seq<ForkItem>, old_: seq<ForkItem>): (Chain, Outcome)
    requires old_ != []
  {
    var marked := c.(fork := c.fork.(index := c.fork.index - IdsOf(left), head := Some(old_[0])));
    var (popped, failure) := PoppedTo(rules, marked, old_[|old_| - 1].block.previous);
    if failure.Some? then (popped, Failed(failure.value))
    else
      match BranchApplied(rules, popped, old_)
      case None => (popped, Failed(Broken))
      case Some((restored, _)) => (restored, Threw)
  }

  /** From the fork point on to the new branch, or back to the old one. */
  function SwitchFrom(rules: Rules, c: Chain, new_: seq<ForkItem>, old_: seq<ForkItem>): (Chain, Outcome)
    requires old_ != []
  {
    match BranchApplied(rules, c, new_)
    case None => (c, Failed(Broken))
    case Some((applied, left)) =>
      if left == 0 then (applied, Switched) else SwitchBack(rules, applied, new_[..left], old_)
  }

  function Switch(rules: Rules, c: Chain, new_: seq<ForkItem>, old_: seq<ForkItem>): (Chain, Outcome)
    requires old_ != []
  {
    var (popped, failure) := PoppedTo(rules, c, old_[|old_| - 1].block.previous);
    if failure.Some? then (popped, Failed(failure.value)) else SwitchFrom(rules, popped, new_, old_)
  }

  /** Appending to the head; a block that throws leaves the fork database again. */
  function Append(rules: Rules, c: Chain, b: Block): (Chain, Outcome) {
    match InSession(rules, c, b)
    case None => (c, Failed(Broken))
    case Some(after) =>
      if Applies(rules, c, b) then (after, Kept)
      else (after.(fork := after.fork.(index := after.fork.index - {b.Id()})), Threw)
  }

  /** The branches to switch between, when pushing `b` moves the longest chain away from the head. */
  function SwitchBranches(c: Chain): (r: Option<(seq<ForkItem>, seq<ForkItem>)>)
    requires c.fork.head.Some?
    ensures r.Some? ==> r.value.0 != [] && r.value.1 != []
  {
    BranchesFrom(c.fork, c.fork.head.value.block.Id(), c.pending)
  }

  function PushBlock(rules: Rules, c: Chain, b: Block, skipForkDb: bool): (Chain, Outcome) {
    if skipForkDb then Append(rules, c, b)
    else if ForkDatabase.Pushed(c.fork, b).None? then (c, Threw)
    else
      var c' := c.(fork := ForkDatabase.Pushed(c.fork, b).value);
      var newHead := c'.fork.head.value.block;
      if newHead.previous == Head(rules, c) then Append(rules, c', b)
      else if newHead.Num() <= Head(rules, c).num then (c', Kept)
      else if SwitchBranches(c').None? then (c', Threw)
      else Switch(rules, c', SwitchBranches(c').value.0, SwitchBranches(c').value.1)
  }
}
