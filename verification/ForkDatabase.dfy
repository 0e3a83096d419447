/**
 The tree of recent blocks. An item's link to its predecessor is weak: it can be followed
 only while that item is still indexed or is the head.
 */
module ForkDatabase {
  import opened Wrappers
  import opened Blocks

  /** `serial` is the identity of the item, which a second push of the same block does not share. */
  datatype ForkItem = ForkItem(serial: nat, block: Block, prev: Option<ForkItem>)

  datatype ForkTree = ForkTree(index: map<BlockId, ForkItem>, head: Option<ForkItem>, nextSerial: nat) {

    /** Following the weak link. */
    function Lock(item: ForkItem): Option<ForkItem> {
      if item.prev.Some? && (item.prev == head || item.prev.value in index.Values) then item.prev else None
    }
  }

  const MAX_FORK_DEPTH := 1024

  /** Linking the item and indexing it; an unlinkable block throws. A known id is not indexed again. */
  function Pushed(t: ForkTree, b: Block): (r: Option<ForkTree>)
    ensures r.Some? ==> r.value.head.Some?
  {
    if t.head.Some? && b.previous != NULL_ID && b.previous !in t.index then None
    else
      var prev := if t.head.Some? && b.previous != NULL_ID then Some(t.index[b.previous]) else None;
      var item := ForkItem(t.nextSerial, b, prev);
      var index := if b.Id() in t.index then t.index else t.index[b.Id() := item];
      Some(if t.head.None? then ForkTree(index, Some(item), t.nextSerial + 1)
           else if b.Num() > t.head.value.block.Num() then
             ForkTree(map id | id in index && index[id].block.Num() + MAX_FORK_DEPTH != b.Num() :: index[id],
                      Some(item), t.nextSerial + 1)
           else ForkTree(index, t.head, t.nextSerial + 1))
  }

  /** The two branches from `a` and `b` down to the first pair of equal height with one predecessor. */
  function Branches(t: ForkTree, a: ForkItem, b: ForkItem): (r: Option<(seq<ForkItem>, seq<ForkItem>)>)
    ensures r.Some? ==> r.value.0 != [] && r.value.1 != []
    decreases a, b
  {
    if a.block.Num() > b.block.Num() then
      if t.Lock(a).None? then None
      else
        var rest :- Branches(t, t.Lock(a).value, b);
        Some(([a] + rest.0, rest.1))
    else if b.block.Num() > a.block.Num() then
      if t.Lock(b).None? then None
      else
        var rest :- Branches(t, a, t.Lock(b).value);
        Some((rest.0, [b] + rest.1))
    else if a.block.previous != b.block.previous then
      if t.Lock(a).None? || t.Lock(b).None? then None
      else
        var rest :- Branches(t, t.Lock(a).value, t.Lock(b).value);
        Some(([a] + rest.0, [b] + rest.1))
    else
      Some(([a], [b]))
  }

  function BranchesFrom(t: ForkTree, first: BlockId, second: BlockId): (r: Option<(seq<ForkItem>, seq<ForkItem>)>)
    ensures r.Some? ==> r.value.0 != [] && r.value.1 != []
  {
    if first !in t.index || second !in t.index then None
    else Branches(t, t.index[first], t.index[second])
  }

  // ----- the tree is linked as its blocks say -----

  /** Every link leads to the block that the item names as its predecessor. */
  predicate Linked(item: ForkItem) {
    item.prev.Some? ==> item.prev.value.block.Id() == item.block.previous && Linked(item.prev.value)
  }

  ghost predicate ValidTree(t: ForkTree) {
    && (forall id <- t.index :: t.index[id].block.Id() == id && Linked(t.index[id]))
    && (t.head.Some? ==> Linked(t.head.value))
  }

  lemma PushedIsValid(t: ForkTree, b: Block)
    requires ValidTree(t) && Pushed(t, b).Some?
    ensures ValidTree(Pushed(t, b).value)
    ensures t.head.Some? ==>
              Pushed(t, b).value.head.value.block ==
              if b.Num() > t.head.value.block.Num() then b else t.head.value.block
  {
  }

  /** The items that drop out when a block of this height is the first so high. */
  function TooDeep(t: ForkTree, height: nat): set<BlockId> {
    set id <- t.index | id.num + 1024 == height
  }

  predicate Rises(t: ForkTree, b: Block) {
    t.head.None? || b.Num() > t.head.value.block.Num()
  }

  /**
   A block is taken exactly when there is no head yet, it names no predecessor, or it names an indexed one.
   It is indexed then: as a new item, linked to the predecessor, unless its id was indexed already. Every
   other item stays, but those 1024 below a block that rises above the head, and the head moves to just
   such a block.
   */
  lemma PushIndexes(t: ForkTree, b: Block)
    requires ValidTree(t)
    ensures Pushed(t, b).Some? <==> t.head.None? || b.previous == NULL_ID || b.previous in t.index
    ensures Pushed(t, b).Some? ==>
              var t' := Pushed(t, b).value;
              var link := if t.head.Some? && b.previous != NULL_ID then Some(t.index[b.previous]) else None;
              var item := ForkItem(t.nextSerial, b, link);
              && t'.index.Keys == t.index.Keys + {b.Id()} - (if t.head.Some? && Rises(t, b) then TooDeep(t, b.Num()) else {})
              && b.Id() in t'.index
              && (b.Id() !in t.index ==> t'.index[b.Id()] == item)
              && (forall id <- t'.index :: id in t.index ==> t'.index[id] == t.index[id])
              && t'.head == (if Rises(t, b) then Some(item) else t.head)
              && t'.nextSerial == t.nextSerial + 1
  {
    var t' := Pushed(t, b);
    if t'.Some? {
      forall id
        ensures id in t'.value.index <==>
                id in t.index.Keys + {b.Id()} - (if t.head.Some? && Rises(t, b) then TooDeep(t, b.Num()) else {})
      {
      }
    }
  }

  /** `path` starts at `item` and follows the weak links. */
  ghost predicate IsPath(t: ForkTree, item: ForkItem, path: seq<ForkItem>) {
    && path != [] && path[0] == item
    && forall i {:trigger path[i]} | 0 < i < |path| :: t.Lock(path[i - 1]) == Some(path[i])
  }

  ghost predicate Meet(a: ForkItem, b: ForkItem) {
    a.block.Num() == b.block.Num() && a.block.previous == b.block.previous
  }

  /** The higher of two items on paths that meet is not the last of its path. */
  lemma {:induction false} HigherGoesOn(t: ForkTree, a: ForkItem, b: ForkItem, p: seq<ForkItem>, q: seq<ForkItem>)
    requires Linked(a) && Linked(b)
    requires IsPath(t, a, p) && IsPath(t, b, q) && Meet(p[|p| - 1], q[|q| - 1])
    requires a.block.Num() > b.block.Num() || (a.block.Num() == b.block.Num() && !Meet(a, b))
    ensures |p| > 1 && t.Lock(a) == Some(p[1]) && Linked(p[1]) && IsPath(t, p[1], p[1..]) && [a] + p[1..] == p
  {
    PathDescends(t, a, p);
    PathDescends(t, b, q);
    assert p[0] == a && q[0] == b;
    PathTail(t, a, p);
  }

  lemma PathStarts(t: ForkTree, item: ForkItem, path: seq<ForkItem>)
    requires IsPath(t, item, path)
    ensures [item] <= path
  {
  }

  /** The search throws only when the weak links give out first: any two paths that meet bound its result. */
  lemma {:induction false} BranchesAreFound(
    t: ForkTree, a: ForkItem, b: ForkItem, p: seq<ForkItem>, q: seq<ForkItem>)
    requires Linked(a) && Linked(b)
    requires IsPath(t, a, p) && IsPath(t, b, q) && Meet(p[|p| - 1], q[|q| - 1])
    ensures Branches(t, a, b).Some?
    ensures Branches(t, a, b).value.0 <= p && Branches(t, a, b).value.1 <= q
    decreases a, b
  {
    hide Linked, IsPath;
    PathStarts(t, a, p);
    PathStarts(t, b, q);
    if a.block.Num() > b.block.Num() {
      HigherGoesOn(t, a, b, p, q);
      BranchesAreFound(t, p[1], b, p[1..], q);
    } else if b.block.Num() > a.block.Num() {
      HigherGoesOn(t, b, a, q, p);
      BranchesAreFound(t, a, q[1], p, q[1..]);
    } else if a.block.previous != b.block.previous {
      HigherGoesOn(t, a, b, p, q);
      HigherGoesOn(t, b, a, q, p);
      BranchesAreFound(t, p[1], q[1], p[1..], q[1..]);
    }
  }

  lemma PathTail(t: ForkTree, item: ForkItem, path: seq<ForkItem>)
    requires IsPath(t, item, path) && |path| > 1
    ensures t.Lock(item) == Some(path[1]) && IsPath(t, path[1], path[1..])
  {
  }

  /** Height drops by one per step, because an id embeds the number of its block. */
  lemma {:induction false} PathDescends(t: ForkTree, item: ForkItem, path: seq<ForkItem>)
    requires Linked(item) && IsPath(t, item, path)
    ensures forall i | 0 <= i < |path| :: Linked(path[i]) && path[i].block.Num() + i == item.block.Num()
    decreases |path|
  {
    if |path| == 1 {
    } else {
      PathTail(t, item, path);
      PathDescends(t, path[1], path[1..]);
      forall i | 0 <= i < |path|
        ensures Linked(path[i]) && path[i].block.Num() + i == item.block.Num()
      {
        if i > 0 {
          assert path[i] == path[1..][i - 1];
        }
      }
    }
  }

  /** The last items of the two paths meet, and no other pair on them does. */
  ghost predicate FirstMeeting(x: seq<ForkItem>, y: seq<ForkItem>) {
    && x != [] && y != []
    && Meet(x[|x| - 1], y[|y| - 1])
    && forall i, j | 0 <= i < |x| && 0 <= j < |y| && Meet(x[i], y[j]) :: i == |x| - 1 && j == |y| - 1
  }

  /** An item above the start of a path, or level with it and not meeting it, meets nothing on it. */
  lemma {:induction false} MeetsNone(t: ForkTree, a: ForkItem, b: ForkItem, y: seq<ForkItem>)
    requires Linked(b) && IsPath(t, b, y)
    requires a.block.Num() > b.block.Num() || (a.block.Num() == b.block.Num() && !Meet(a, b))
    ensures forall j | 0 <= j < |y| :: !Meet(a, y[j])
  {
    hide Linked;
    PathDescends(t, b, y);
  }

  lemma PathExtends(t: ForkTree, item: ForkItem, rest: seq<ForkItem>)
    requires t.Lock(item).Some? && IsPath(t, t.Lock(item).value, rest)
    ensures IsPath(t, item, [item] + rest)
  {
  }

  lemma MeetingExtends(a: ForkItem, x: seq<ForkItem>, y: seq<ForkItem>)
    requires FirstMeeting(x, y) && forall j | 0 <= j < |y| :: !Meet(a, y[j])
    ensures FirstMeeting([a] + x, y) && FirstMeeting(y, [a] + x)
  {
    hide Meet;
    var p := [a] + x;
    forall i, j | 0 <= i < |p| && 0 <= j < |y| && Meet(p[i], y[j])
      ensures i == |p| - 1 && j == |y| - 1
    {
      assert i > 0 && p[i] == x[i - 1];
    }
    MeetIsSymmetric(p, y);
  }

  lemma MeetIsSymmetric(x: seq<ForkItem>, y: seq<ForkItem>)
    requires FirstMeeting(x, y)
    ensures FirstMeeting(y, x)
  {
  }

  /** Both branches are linked paths down to a pair that meets, and no pair above it on them does. */
  lemma {:induction false} BranchesAreCorrect(t: ForkTree, a: ForkItem, b: ForkItem)
    requires Linked(a) && Linked(b) && Branches(t, a, b).Some?
    ensures var (x, y) := Branches(t, a, b).value;
            IsPath(t, a, x) && IsPath(t, b, y) && FirstMeeting(x, y)
    decreases a, b
  {
    hide Linked, IsPath, FirstMeeting;
    if a.block.Num() > b.block.Num() {
      var p := t.Lock(a).value;
      LinkedDown(t, a);
      BranchesAreCorrect(t, p, b);
      var (x, y) := Branches(t, p, b).value;
      PathExtends(t, a, x);
      MeetsNone(t, a, b, y);
      MeetingExtends(a, x, y);
    } else if b.block.Num() > a.block.Num() {
      var q := t.Lock(b).value;
      LinkedDown(t, b);
      BranchesAreCorrect(t, a, q);
      var (x, y) := Branches(t, a, q).value;
      PathExtends(t, b, y);
      MeetsNone(t, b, a, x);
      MeetIsSymmetric(x, y);
      MeetingExtends(b, y, x);
    } else if a.block.previous != b.block.previous {
      var p, q := t.Lock(a).value, t.Lock(b).value;
      LinkedDown(t, a);
      LinkedDown(t, b);
      BranchesAreCorrect(t, p, q);
      var (x, y) := Branches(t, p, q).value;
      PathExtends(t, a, x);
      PathExtends(t, b, y);
      MeetsNone(t, a, q, y);
      MeetingExtends(a, x, y);
      MeetsNone(t, b, a, [a] + x);
      MeetIsSymmetric([a] + x, y);
      MeetingExtends(b, y, [a] + x);
    } else {
      SingleMeeting(t, a, b);
    }
  }

  lemma SingleMeeting(t: ForkTree, a: ForkItem, b: ForkItem)
    requires Meet(a, b)
    ensures IsPath(t, a, [a]) && IsPath(t, b, [b]) && FirstMeeting([a], [b])
  {
  }

  /** Locked links are links, so what they lead to is one lower, and linked. */
  lemma {:induction false} LinkedDown(t: ForkTree, item: ForkItem)
    requires Linked(item) && t.Lock(item).Some?
    ensures Linked(t.Lock(item).value) && t.Lock(item).value.block.Num() + 1 == item.block.Num()
    ensures t.Lock(item).value < item
  {
  }

  // ----- a new block extends the paths to it -----

  /** A link can be followed as long as its end is indexed. */
  lemma LockFinds(t: ForkTree, item: ForkItem, id: BlockId)
    requires id in t.index && item.prev == Some(t.index[id])
    ensures t.Lock(item) == Some(t.index[id])
  {
  }

  /** A link is lost when its end is neither indexed nor the head. */
  lemma LockLoses(t: ForkTree, item: ForkItem)
    requires item.prev.Some? && item.prev != t.head && forall id <- t.index :: t.index[id] != item.prev.value
    ensures t.Lock(item).None?
  {
  }

  /** The items of the path are indexed, and not so far below the height that a push drops them. */
  ghost predicate StaysIndexed(t: ForkTree, path: seq<ForkItem>, height: nat) {
    forall i | 0 <= i < |path| ::
      && path[i].block.Id() in t.index && t.index[path[i].block.Id()] == path[i]
      && path[i].block.Num() + 1024 != height
  }

  /** A path through indexed items that are not dropped is one after the push, and the new block is a path's new start. */
  lemma PushExtendsPath(t: ForkTree, b: Block, path: seq<ForkItem>)
    requires ValidTree(t) && t.head.Some? && b.previous in t.index && b.previous != NULL_ID && b.Id() !in t.index
    requires IsPath(t, t.index[b.previous], path) && StaysIndexed(t, path, b.Num())
    ensures Pushed(t, b).Some? && b.Id() in Pushed(t, b).value.index
    ensures var t' := Pushed(t, b).value;
            && IsPath(t', t.index[b.previous], path)
            && IsPath(t', t'.index[b.Id()], [t'.index[b.Id()]] + path)
  {
    hide Pushed, ValidTree, Linked;
    PushIndexes(t, b);
    var t' := Pushed(t, b).value;
    PathIsKept(t, b, path);
    LockFinds(t', t'.index[b.Id()], b.previous);
    PathExtends(t', t'.index[b.Id()], path);
  }

  lemma PathIsKept(t: ForkTree, b: Block, path: seq<ForkItem>)
    requires ValidTree(t) && Pushed(t, b).Some? && path != [] && IsPath(t, path[0], path)
    requires StaysIndexed(t, path, b.Num())
    ensures IsPath(Pushed(t, b).value, path[0], path)
    ensures forall i | 0 <= i < |path| ::
              path[i].block.Id() in Pushed(t, b).value.index && Pushed(t, b).value.index[path[i].block.Id()] == path[i]
  {
    hide Pushed, ValidTree, Linked;
    PushIndexes(t, b);
    var t' := Pushed(t, b).value;
    forall i | 0 <= i < |path|
      ensures path[i].block.Id() in t'.index && t'.index[path[i].block.Id()] == path[i]
    {
    }
    forall i | 0 < i < |path|
      ensures t'.Lock(path[i - 1]) == Some(path[i])
    {
      assert t.Lock(path[i - 1]) == Some(path[i]);
      LockFinds(t', path[i - 1], path[i].block.Id());
    }
  }

  // ----- the object that is updated in place -----

  /** What is left of a search, after what two loops have already pushed. */
  function After(
    x: seq<ForkItem>, y: seq<ForkItem>, rest: Option<(seq<ForkItem>, seq<ForkItem>)>): Option<(seq<ForkItem>, seq<ForkItem>)>
  {
    if rest.None? then None else Some((x + rest.value.0, y + rest.value.1))
  }

  lemma AfterPushes(x: seq<ForkItem>, y: seq<ForkItem>, p: seq<ForkItem>, q: seq<ForkItem>,
                    rest: Option<(seq<ForkItem>, seq<ForkItem>)>)
    ensures After(x + p, y + q, rest) ==
            if rest.None? then None else After(x, y, Some((p + rest.value.0, q + rest.value.1)))
  {
    if rest.Some? {
      assert (x + p) + rest.value.0 == x + (p + rest.value.0);
      assert (y + q) + rest.value.1 == y + (q + rest.value.1);
    }
  }

  class Database {
    var index: map<BlockId, ForkItem>
    var head: Option<ForkItem>
    var nextSerial: nat

    ghost function Tree(): ForkTree
      reads this
    {
      ForkTree(index, head, nextSerial)
    }

    constructor ()
      ensures Tree() == ForkTree(map[], None, 0)
    {
      index, head, nextSerial := map[], None, 0;
    }

    /** Indexes a block without linking it and makes it the head. */
    method StartBlock(b: Block)
      modifies this
      ensures head == Some(ForkItem(old(nextSerial), b, None)) && nextSerial == old(nextSerial) + 1
      ensures index == if b.Id() in old(index) then old(index) else old(index)[b.Id() := head.value]
    {
      var item := ForkItem(nextSerial, b, None);
      nextSerial := nextSerial + 1;
      if b.Id() !in index {
        index := index[b.Id() := item];
      }
      head := Some(item);
    }

    method PushBlock(b: Block) returns (ok: bool)
      modifies this
      ensures ok <==> Pushed(old(Tree()), b).Some?
      ensures Tree() == if ok then Pushed(old(Tree()), b).value else old(Tree())
    {
      var item := ForkItem(nextSerial, b, None);
      if head.Some? && b.previous != NULL_ID {
        if b.previous !in index {
          return false;
        }
        item := item.(prev := Some(index[b.previous]));
      }
      nextSerial := nextSerial + 1;
      if b.Id() !in index {
        index := index[b.Id() := item];
      }
      if head.None? {
        head := Some(item);
      } else if b.Num() > head.value.block.Num() {
        head := Some(item);
        index := map id | id in index && index[id].block.Num() + MAX_FORK_DEPTH != b.Num() :: index[id];
      }
      return true;
    }

    method PopBlock()
      modifies `head
      ensures head == if old(head).None? then None else old(Tree().Lock(head.value))
    {
      if head.Some? {
        head := Lock(head.value);
      }
    }

    method SetHead(item: ForkItem)
      modifies `head
      ensures head == Some(item)
    {
      head := Some(item);
    }

    method Remove(id: BlockId)
      modifies `index
      ensures index == old(index) - {id}
    {
      index := index - {id};
    }

    method Lock(item: ForkItem) returns (prev: Option<ForkItem>)
      ensures prev == Tree().Lock(item)
    {
      if item.prev.Some? && (item.prev == head || item.prev.value in index.Values) {
        return item.prev;
      }
      return None;
    }

    /** Walks the higher branch down to the height of the other, then both until their predecessors agree. */
    method FetchBranchFrom(first: BlockId, second: BlockId)
      returns (branches: Option<(seq<ForkItem>, seq<ForkItem>)>)
      requires ValidTree(Tree())
      ensures branches == BranchesFrom(Tree(), first, second)
    {
      if first !in index || second !in index {
        return None;
      }
      ghost var t := Tree();
      var a, b := index[first], index[second];
      var x, y := [], [];
      ghost var found := BranchesFrom(t, first, second);
      assert found.Some? ==> [] + found.value.0 == found.value.0 && [] + found.value.1 == found.value.1;
      while a.block.Num() > b.block.Num()
        invariant Linked(a) && Linked(b)
        invariant found == After(x, y, Branches(t, a, b))
        decreases a
      {
        var prev := Lock(a);
        if prev.None? {
          return None;
        }
        AfterPushes(x, y, [a], [], Branches(t, prev.value, b));
        assert y + [] == y;
        x := x + [a];
        a := prev.value;
      }
      while b.block.Num() > a.block.Num()
        invariant Linked(a) && Linked(b) && a.block.Num() <= b.block.Num()
        invariant found == After(x, y, Branches(t, a, b))
        decreases b
      {
        var prev := Lock(b);
        if prev.None? {
          return None;
        }
        AfterPushes(x, y, [], [b], Branches(t, a, prev.value));
        assert x + [] == x;
        y := y + [b];
        b := prev.value;
      }
      while a.block.previous != b.block.previous
        invariant Linked(a) && Linked(b) && a.block.Num() == b.block.Num()
        invariant found == After(x, y, Branches(t, a, b))
        decreases a
      {
        var prevA := Lock(a);
        if prevA.None? {
          return None;
        }
        var prevB := Lock(b);
        if prevB.None? {
          return None;
        }
        AfterPushes(x, y, [a], [b], Branches(t, prevA.value, prevB.value));
        x, y := x + [a], y + [b];
        a, b := prevA.value, prevB.value;
      }
      return Some((x + [a], y + [b]));
    }
  }
}
