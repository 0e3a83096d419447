/**
 What pushing blocks brings about: blocks that extend the head are taken one after the other, a higher
 branch that applies is switched to, and blocks that do not apply leave the fork database again.
 */
module ChainProgress {
  import opened Wrappers
  import opened Blocks
  import opened ForkDatabase
  import opened BlockApplication
  import opened Sessions
  import opened ChainSafety
  import Undo = UndoDatabase
  import opened UndoLog

  // ----- extending the head -----

  /** The head of the fork database is the head of the chain, and can be built on. */
  ghost predicate AtTip(rules: Rules, c: Chain) {
    if c.fork.head.None? then Head(rules, c) == NULL_ID
    else c.fork.head.value.block.Id() == Head(rules, c) && Head(rules, c) in c.fork.index
  }

  /** A block on the head that applies is kept, and the next one can be built on it. */
  lemma HeadBlockIsKept(rules: Rules, first: Snapshot, c: Chain, chain: seq<Block>, d: nat, b: Block)
    requires Inv(rules, first, c, chain, d) && AtTip(rules, c)
    requires b.previous == Head(rules, c) && Applied(rules, c.machine.db, b).Some?
    ensures var (c', outcome) := PushBlock(rules, c, b, false);
            && outcome == Kept && c'.machine.db == Applied(rules, c.machine.db, b).value
            && Inv(rules, first, c', chain + [b], Min(d + 1, Capacity(rules, c.machine)))
            && Head(rules, c') == b.Id() && AtTip(rules, c')
  {
    hide Inv, Applied, Applies, InSession, ForkDatabase.Pushed, ValidTree, Fold, IsGenesis;
    InvFields(rules, first, c, chain, d);
    PushIndexes(c.fork, b);
    var taken := Taken(c, b, false);
    TakenInv(rules, first, c, chain, d, b, false);
    SameCapacity(rules, c, b, false);
    AppendIsAtomic(rules, first, taken, chain, d, b);
    BlockDecides(rules, first, taken, chain, d, b);
    SoundOf(rules, first);
    HeadOfApplied(rules, c.machine.db, b);
  }

  lemma SoundOf(rules: Rules, first: Snapshot)
    requires IsGenesis(rules, first)
    ensures Sound(rules)
  {
  }

  function Unskipped(blocks: seq<Block>): seq<(Block, bool)> {
    if blocks == [] then [] else [(blocks[0], false)] + Unskipped(blocks[1..])
  }

  /** What becomes of each push of a run. */
  function Outcomes(rules: Rules, c: Chain, pushes: seq<(Block, bool)>): (r: seq<Outcome>)
    ensures |r| == |pushes|
    decreases |pushes|
  {
    if pushes == [] then []
    else
      var (c', outcome) := PushBlock(rules, c, pushes[0].0, pushes[0].1);
      [outcome] + Outcomes(rules, c', pushes[1..])
  }

  /** Blocks that apply one on top of the other are all kept when they are pushed in turn. */
  lemma {:induction false} ChainGrows(
    rules: Rules, first: Snapshot, c: Chain, chain: seq<Block>, d: nat, blocks: seq<Block>)
    requires Inv(rules, first, c, chain, d) && AtTip(rules, c) && Fold(rules, c.machine.db, blocks).Some?
    ensures Run(rules, c, Unskipped(blocks)).machine.db == Fold(rules, c.machine.db, blocks).value
    ensures forall outcome <- Outcomes(rules, c, Unskipped(blocks)) :: outcome == Kept
    decreases |blocks|
  {
    hide Inv, AtTip, Applied, PushBlock, IsGenesis;
    if blocks == [] {
    } else {
      var b := blocks[0];
      InvFields(rules, first, c, chain, d);
      SoundOf(rules, first);
      HeadOfApplied(rules, c.machine.db, b);
      HeadBlockIsKept(rules, first, c, chain, d, b);
      assert Unskipped(blocks)[1..] == Unskipped(blocks[1..]);
      ChainGrows(rules, first, PushBlock(rules, c, b, false).0, chain + [b], Min(d + 1, Capacity(rules, c.machine)), blocks[1..]);
    }
  }

  /** So it is from a fresh chain on. */
  lemma {:induction false} FreshChainGrows(rules: Rules, first: Snapshot, maxSize: nat, blocks: seq<Block>)
    requires IsGenesis(rules, first) && rules.nesting < maxSize && Fold(rules, first, blocks).Some?
    ensures Run(rules, Fresh(first, maxSize), Unskipped(blocks)).machine.db == Fold(rules, first, blocks).value
    ensures forall outcome <- Outcomes(rules, Fresh(first, maxSize), Unskipped(blocks)) :: outcome == Kept
  {
    hide Inv, Fold;
    FreshInv(rules, first, maxSize);
    ChainGrows(rules, first, Fresh(first, maxSize), [], 0, blocks);
  }

  // ----- the higher branch wins -----

  /** The search finds just the two paths on which no pair above the last meets. */
  lemma {:induction false} MeetingPathsAreBranches(t: ForkTree, a: ForkItem, b: ForkItem, p: seq<ForkItem>,
                                                   q: seq<ForkItem>)
    requires Linked(a) && Linked(b) && IsPath(t, a, p) && IsPath(t, b, q) && FirstMeeting(p, q)
    ensures Branches(t, a, b) == Some((p, q))
  {
    hide Linked, IsPath;
    BranchesAreFound(t, a, b, p, q);
    BranchesAreCorrect(t, a, b);
    var (x, y) := Branches(t, a, b).value;
    assert x[|x| - 1] == p[|x| - 1] && y[|y| - 1] == q[|y| - 1];
    assert x == p && y == q;
  }

  /** The branches of the fork database after it took the block, from that block and from the head of the chain. */
  ghost predicate Diverge(rules: Rules, c: Chain, b: Block, p: seq<ForkItem>, q: seq<ForkItem>) {
    var t := Taken(c, b, false).fork;
    && ForkDatabase.Pushed(c.fork, b).Some? && Rises(c.fork, b)
    && b.Id() in t.index && Head(rules, c) in t.index
    && b.previous != Head(rules, c) && b.Num() > Head(rules, c).num
    && IsPath(t, t.index[b.Id()], p) && IsPath(t, t.index[Head(rules, c)], q) && FirstMeeting(p, q)
  }

  lemma DivergingIsSwitching(rules: Rules, first: Snapshot, c: Chain, chain: seq<Block>, d: nat, b: Block,
                             p: seq<ForkItem>, q: seq<ForkItem>)
    requires Inv(rules, first, c, chain, d) && Diverge(rules, c, b, p, q)
    ensures CourseOf(rules, c, b, false) == Switching(p, q)
  {
    hide Branches, Fold, Remembers, IsGenesis, FirstMeeting, IsPath, ForkDatabase.Pushed;
    var t := Taken(c, b, false).fork;
    PushedIsValid(c.fork, b);
    PushIndexes(c.fork, b);
    MeetingPathsAreBranches(t, t.index[b.Id()], t.index[Head(rules, c)], p, q);
  }

  /**
   A block that makes a branch higher than the chain brings that branch about: if the chain can be
   taken back to where they part, there is room, and the branch applies, its end is the new head.
   */
  lemma HigherBranchWins(rules: Rules, first: Snapshot, c: Chain, chain: seq<Block>, d: nat, b: Block,
                         p: seq<ForkItem>, q: seq<ForkItem>) returns (fork: seq<Block>)
    requires Inv(rules, first, c, chain, d) && Diverge(rules, c, b, p, q)
    requires |q| <= d && |p| <= Capacity(rules, c.machine)
    ensures chain == fork + BlocksOf(q) && Fold(rules, first, fork).Some?
    ensures var (c', outcome) := PushBlock(rules, c, b, false);
            var db := Fold(rules, first, fork).value;
            Retractable(rules, db, BlocksOf(q)) && Fold(rules, db, BlocksOf(p)).Some? ==>
              && outcome == Switched && Some(c'.machine.db) == Fold(rules, db, BlocksOf(p))
              && Head(rules, c') == b.Id()
              && Inv(rules, first, c', fork + BlocksOf(p), Min(d - |q| + |p|, Capacity(rules, c.machine)))
  {
    hide Inv, Fold, Retractable, ForkDatabase.Pushed, BlocksOf, IsGenesis, CourseOf, Capacity, Diverge, Switch;
    DivergingIsSwitching(rules, first, c, chain, d, b, p, q);
    fork := SwitchingFromHead(rules, first, c, chain, d, b);
    var db := Fold(rules, first, fork).value;
    if Retractable(rules, db, BlocksOf(q)) && Fold(rules, db, BlocksOf(p)).Some? {
      var taken := Taken(c, b, false);
      PushTakesCourse(rules, c, b, false);
      TakenInv(rules, first, c, chain, d, b, false);
      SameCapacity(rules, c, b, false);
      SwitchIsAtomic(rules, first, taken, fork, d, p, q);
      var c' := PushBlock(rules, c, b, false).0;
      InvFields(rules, first, c', fork + BlocksOf(p), Min(d - |q| + |p|, Capacity(rules, c.machine)));
      FoldConcat(rules, first, fork, BlocksOf(p));
      FoldHead(rules, first, fork + BlocksOf(p));
      BlocksOfFirst(p);
      InvFields(rules, first, c, chain, d);
      StartsWith(c, b, p, rules, q);
    }
  }

  lemma StartsWith(c: Chain, b: Block, p: seq<ForkItem>, rules: Rules, q: seq<ForkItem>)
    requires Diverge(rules, c, b, p, q) && ValidTree(c.fork)
    ensures p != [] && p[0].block == b
  {
    hide FirstMeeting, ForkDatabase.Pushed;
    PushedIsValid(c.fork, b);
    PushIndexes(c.fork, b);
  }

  // ----- blocks that change nothing yet -----

  /** A block without a known predecessor is refused, and nothing changes. */
  lemma UnlinkedIsRefused(rules: Rules, c: Chain, b: Block)
    requires c.fork.head.Some? && b.previous != NULL_ID && b.previous !in c.fork.index
    ensures PushBlock(rules, c, b, false) == (c, Threw)
  {
  }

  /** A block that is not higher than the head waits in the fork database. */
  lemma SideBlockWaits(rules: Rules, c: Chain, b: Block)
    requires ValidTree(c.fork) && AtTip(rules, c) && c.fork.head.Some? && b.Num() <= c.fork.head.value.block.Num()
    requires b.previous == NULL_ID || b.previous in c.fork.index
    ensures var (c', outcome) := PushBlock(rules, c, b, false);
            && outcome == Kept && c' == c.(fork := c'.fork) && b.Id() in c'.fork.index
            && c'.fork.head == c.fork.head && AtTip(rules, c')
  {
    hide ForkDatabase.Pushed, ValidTree, Append, Switch, SwitchBranches;
    PushIndexes(c.fork, b);
    NeverOnItself(c.fork.head.value.block);
  }

  lemma NeverOnItself(b: Block)
    ensures b.previous != b.Id()
  {
  }

  // ----- popping -----

  /** Popping to a block either gets there, or fails; it is stranded only where no state is left. */
  lemma {:induction false} PopsReach(rules: Rules, c: Chain, target: BlockId)
    ensures var (c', failure) := PoppedTo(rules, c, target);
            && (failure.None? ==> Head(rules, c') == target)
            && (failure == Some(Stranded) ==> c'.machine.stack == [] && Head(rules, c') != target)
    decreases |c.machine.stack|
  {
    hide Popped;
    if Head(rules, c) == target || c.machine.stack == [] {
    } else if Popped(rules, c).Some? {
      PoppedHasLess(rules, c);
      PopsReach(rules, Popped(rules, c).value, target);
    }
  }

  lemma PoppedHasLess(rules: Rules, c: Chain)
    requires Popped(rules, c).Some?
    ensures |Popped(rules, c).value.machine.stack| < |c.machine.stack|
  {
  }

  // ----- the fork database after a push -----

  /** A block that was appended and threw is not indexed any more; the head of the fork database stays where it went. */
  lemma ThrownBlockLeaves(rules: Rules, first: Snapshot, c: Chain, chain: seq<Block>, d: nat, b: Block, skipForkDb: bool)
    requires Inv(rules, first, c, chain, d) && CourseOf(rules, c, b, skipForkDb).Appending?
    ensures var (c', outcome) := PushBlock(rules, c, b, skipForkDb);
            var t := Taken(c, b, skipForkDb).fork;
            && (outcome == Threw ==> c'.fork == t.(index := t.index - {b.Id()}))
            && (outcome == Kept ==> c'.fork == t)
  {
    hide Inv, Applied, Applies, InSession, ForkDatabase.Pushed, Fold, IsGenesis, CourseOf;
    var taken := Taken(c, b, skipForkDb);
    PushTakesCourse(rules, c, b, skipForkDb);
    TakenInv(rules, first, c, chain, d, b, skipForkDb);
    BlockDecides(rules, first, taken, chain, d, b);
  }

  /** How many blocks of a branch apply, from its far end. */
  ghost predicate AppliesUpTo(rules: Rules, db: Snapshot, blocks: seq<Block>, n: nat) {
    && n <= |blocks| && Fold(rules, db, blocks[..n]).Some?
    && (n < |blocks| ==> Fold(rules, db, blocks[..n + 1]).None?)
  }

  /** The fork database after going back: without the blocks that did not apply, and its head down from the old branch. */
  function ForkBack(popped: ForkTree, new_: seq<ForkItem>, old_: seq<ForkItem>, n: nat): ForkTree
    requires n <= |new_| && old_ != []
  {
    PoppedFork(popped.(index := popped.index - IdsOf(new_[..|new_| - n]), head := Some(old_[0])), n)
  }

  lemma BlocksThatApplied(
    rules: Rules, first: Snapshot, c: Chain, fork: seq<Block>, d: nat, new_: seq<ForkItem>, old_: seq<ForkItem>)
    returns (n: nat)
    requires Inv(rules, first, c, fork + BlocksOf(old_), d)
    requires old_ != [] && Linked(old_[0]) && |old_| <= d && |new_| <= Capacity(rules, c.machine)
    requires Fold(rules, first, fork).Some?
    requires old_[|old_| - 1].block.previous == rules.head(Fold(rules, first, fork).value)
    requires Retractable(rules, Fold(rules, first, fork).value, BlocksOf(old_))
    ensures var (c', outcome) := Switch(rules, c, new_, old_);
            var popped := PoppedFork(c.fork, |old_|);
            && (outcome == Switched ==> c'.fork == popped)
            && (outcome == Threw ==>
                  && n < |new_| && AppliesUpTo(rules, Fold(rules, first, fork).value, BlocksOf(new_), n)
                  && c'.fork == ForkBack(popped, new_, old_, n))
  {
    hide Inv, Fold, Retractable, PoppedTo, BranchApplied, IsGenesis, BlocksOf, IdsOf, Linked, SwitchBack;
    n := 0;
    var target, db := old_[|old_| - 1].block.previous, Fold(rules, first, fork).value;
    BranchWhole(old_);
    BranchWhole(new_);
    InvFields(rules, first, c, fork + BlocksOf(old_), d);
    PopsExactly(rules, first, c, fork, BlocksOf(old_), d, target);
    var popped := PoppedTo(rules, c, target).0;
    InvFields(rules, first, popped, fork, d - |old_|);
    BranchMoves(rules, first, popped, fork, d - |old_|, new_);
    var result := BranchApplied(rules, popped, new_);
    if result.Some? && result.value.1 > 0 {
      n := |new_| - result.value.1;
      ForkAfterSwitchBack(rules, first, result.value.0, fork, BlocksOf(new_)[..n],
                          Min(d - |old_| + n, Capacity(rules, c.machine) - 1), new_[..|new_| - n], old_);
    }
  }

  /**
   After a switch the head of the fork database has gone down as many links as blocks were popped. After one
   that threw, the blocks of the new branch that did not apply are not indexed any more, and the
   head has gone down from the old branch as many links as blocks of the new one had applied.
   */
  lemma {:induction false} ForkAfterSwitch(
    rules: Rules, first: Snapshot, c: Chain, fork: seq<Block>, d: nat, new_: seq<ForkItem>, old_: seq<ForkItem>)
    requires Inv(rules, first, c, fork + BlocksOf(old_), d)
    requires old_ != [] && Linked(old_[0]) && |old_| <= d && |new_| <= Capacity(rules, c.machine)
    requires Fold(rules, first, fork).Some?
    requires old_[|old_| - 1].block.previous == rules.head(Fold(rules, first, fork).value)
    requires Retractable(rules, Fold(rules, first, fork).value, BlocksOf(old_))
    ensures var (c', outcome) := Switch(rules, c, new_, old_);
            var popped := PoppedFork(c.fork, |old_|);
            && (outcome == Switched ==> c'.fork == popped)
            && (outcome == Threw ==>
                  exists n: nat :: n < |new_| && AppliesUpTo(rules, Fold(rules, first, fork).value, BlocksOf(new_), n)
                                   && c'.fork == ForkBack(popped, new_, old_, n))
  {
    hide Inv, Fold, Retractable, Switch, PoppedFork, ForkBack, AppliesUpTo, BlocksOf, Linked;
    var n := BlocksThatApplied(rules, first, c, fork, d, new_, old_);
  }

  lemma {:induction false} ForkAfterSwitchBack(
    rules: Rules, first: Snapshot, c: Chain, fork: seq<Block>, bad: seq<Block>, d: nat,
    left: seq<ForkItem>, old_: seq<ForkItem>)
    requires Inv(rules, first, c, fork + bad, d) && |bad| <= d
    requires Fold(rules, first, fork).Some? && Fold(rules, first, fork + BlocksOf(old_)).Some?
    requires old_ != [] && Linked(old_[0])
    requires old_[|old_| - 1].block.previous == rules.head(Fold(rules, first, fork).value)
    ensures var (c', outcome) := SwitchBack(rules, c, left, old_);
            && outcome != Switched
            && (outcome == Threw ==>
                  c'.fork == PoppedFork(c.fork.(index := c.fork.index - IdsOf(left), head := Some(old_[0])), |bad|))
  {
    hide Inv, Fold, Retractable, PoppedTo, BranchApplied, IsGenesis, BlocksOf, IdsOf, Linked;
    var target := old_[|old_| - 1].block.previous;
    var marked := c.(fork := c.fork.(index := c.fork.index - IdsOf(left), head := Some(old_[0])));
    MarkedInv(rules, first, c, fork + bad, d, IdsOf(left), old_[0]);
    PopsExactly(rules, first, marked, fork, bad, d, target);
    if Retractable(rules, Fold(rules, first, fork).value, bad) {
      var popped := PoppedTo(rules, marked, target).0;
      InvFields(rules, first, popped, fork, d - |bad|);
      FoldConcat(rules, first, fork, BlocksOf(old_));
      BranchMoves(rules, first, popped, fork, d - |bad|, old_);
    }
  }
}
