/** The cached tree of recent blocks (libraries/chain/fork_database.cpp). */
module ForkTree {
  import opened Wrappers
  import opened Blocks

  /**
   A tree node. The code links nodes by weak pointers, so a link must die with the node it
   points at even when an equal block is inserted again later: `serial` is the identity of a
   node, and `prev` the identity of its parent, when it was linked at insertion.
   */
  datatype ForkItem = ForkItem(serial: nat, block: Block, prev: Option<nat>)

  type Index = map<BlockId, ForkItem>

  ghost predicate WellKeyed(index: Index) {
    forall id | id in index :: index[id].block.Id() == id
  }

  /** Follows a weak pointer: the parent node, if it is still in the index. */
  function Lock(index: Index, item: ForkItem): (r: Option<ForkItem>)
    requires WellKeyed(index)
    ensures r.Some? ==> r.value.block.Id() == item.block.previous
    ensures r.Some? ==> r.value.block.Num() + 1 == item.block.Num()
  {
    var id := item.block.previous;
    if item.prev.Some? && id in index && index[id].serial == item.prev.value then
      assert index[id].block.Id() == id;
      Some(index[id])
    else
      None
  }

  /** The nodes reached from `item` by following links, `item` first. */
  function Ancestry(index: Index, item: ForkItem): (r: seq<ForkItem>)
    requires WellKeyed(index)
    ensures r != [] && r[0] == item
    decreases item.block.Num()
  {
    match Lock(index, item)
    case None => [item]
    case Some(parent) => [item] + Ancestry(index, parent)
  }

  lemma {:induction false} AncestryStep(index: Index, item: ForkItem, k: nat)
    requires WellKeyed(index) && k < |Ancestry(index, item)|
    ensures var line := Ancestry(index, item);
            && line[k].block.Num() + k == item.block.Num()
            && IsAncestor(line[k].block.Id(), item.block.Id())
            && Ancestry(index, line[k]) == line[k..]
            && (k + 1 < |line| ==> Lock(index, line[k]) == Some(line[k + 1]))
            && (k + 1 == |line| ==> Lock(index, line[k]) == None)
    decreases k
  {
    if k > 0 {
      var parent := Lock(index, item).value;
      assert Ancestry(index, item)[1..] == Ancestry(index, parent);
      AncestryStep(index, parent, k - 1);
    }
  }

  /** Two branches, youngest block first. */
  type Branches = (seq<ForkItem>, seq<ForkItem>)

  /**
   What `fetch_branch_from` computes from two nodes: climb the longer branch to equal height,
   then both in step, until the two nodes have the same predecessor. `None` is a failed lock.
   */
  function Climb(index: Index, a: ForkItem, b: ForkItem): (r: Option<Branches>)
    requires WellKeyed(index)
    ensures r.Some? ==> r.value.0 != [] && r.value.1 != []
    decreases a.block.Num() + b.block.Num()
  {
    if a.block.Num() > b.block.Num() then
      match Lock(index, a)
      case None => None
      case Some(parent) => Below([a], [], Climb(index, parent, b))
    else if b.block.Num() > a.block.Num() then
      match Lock(index, b)
      case None => None
      case Some(parent) => Below([], [b], Climb(index, a, parent))
    else if a.block.previous != b.block.previous then
      match (Lock(index, a), Lock(index, b))
      case (Some(pa), Some(pb)) => Below([a], [b], Climb(index, pa, pb))
      case _ => None
    else
      Some(([a], [b]))
  }

  function Below(a: seq<ForkItem>, b: seq<ForkItem>, r: Option<Branches>): Option<Branches> {
    match r
    case None => None
    case Some(pair) => Some((a + pair.0, b + pair.1))
  }

  lemma {:induction false} BelowBelow(a: seq<ForkItem>, b: seq<ForkItem>, c: seq<ForkItem>, d: seq<ForkItem>,
                                      r: Option<Branches>)
    ensures Below(a, b, Below(c, d, r)) == Below(a + c, b + d, r)
  {
    if r.Some? {
      assert a + (c + r.value.0) == a + c + r.value.0;
      assert b + (d + r.value.1) == b + d + r.value.1;
    }
  }

  function BranchesFrom(index: Index, first: BlockId, second: BlockId): (r: Option<Branches>)
    requires WellKeyed(index)
    ensures r.Some? ==> r.value.0 != [] && r.value.1 != []
  {
    if first in index && second in index then Climb(index, index[first], index[second]) else None
  }

  /** Position i of one line and position j of another hold siblings (or the same block). */
  predicate Meet(x: seq<ForkItem>, y: seq<ForkItem>, i: nat, j: nat) {
    i < |x| && j < |y| && x[i].block.previous == y[j].block.previous
  }

  /** What a successful climb returns: two linked lines cut after siblings. */
  lemma {:induction false} ClimbEndsAtSiblings(index: Index, a: ForkItem, b: ForkItem)
    requires WellKeyed(index) && Climb(index, a, b).Some?
    ensures var (f, s) := Climb(index, a, b).value;
            var x, y := Ancestry(index, a), Ancestry(index, b);
            && f != [] && f <= x
            && s != [] && s <= y
            && f[|f| - 1].block.previous == s[|s| - 1].block.previous
    decreases a.block.Num() + b.block.Num()
  {
    var la, lb := Lock(index, a), Lock(index, b);
    if a.block.Num() > b.block.Num() {
      ClimbEndsAtSiblings(index, la.value, b);
    } else if b.block.Num() > a.block.Num() {
      ClimbEndsAtSiblings(index, a, lb.value);
    } else if a.block.previous != b.block.previous {
      ClimbEndsAtSiblings(index, la.value, lb.value);
    }
  }

  /** Any siblings on the two lines make the climb succeed, no further down than they are. */
  lemma {:induction false} ClimbFindsSiblings(index: Index, a: ForkItem, b: ForkItem, i: nat, j: nat)
    requires WellKeyed(index) && Meet(Ancestry(index, a), Ancestry(index, b), i, j)
    ensures Climb(index, a, b).Some?
    ensures |Climb(index, a, b).value.0| <= i + 1 && |Climb(index, a, b).value.1| <= j + 1
    decreases i + j
  {
    AncestryStep(index, a, i);
    AncestryStep(index, b, j);
    var x, y := Ancestry(index, a), Ancestry(index, b);
    assert a.block.Num() - i == b.block.Num() - j;
    if a.block.Num() > b.block.Num() {
      assert x[1..] == Ancestry(index, Lock(index, a).value);
      ClimbFindsSiblings(index, Lock(index, a).value, b, i - 1, j);
    } else if b.block.Num() > a.block.Num() {
      assert y[1..] == Ancestry(index, Lock(index, b).value);
      ClimbFindsSiblings(index, a, Lock(index, b).value, i, j - 1);
    } else if a.block.previous != b.block.previous {
      assert i > 0 && j > 0;
      assert x[1..] == Ancestry(index, Lock(index, a).value);
      assert y[1..] == Ancestry(index, Lock(index, b).value);
      ClimbFindsSiblings(index, Lock(index, a).value, Lock(index, b).value, i - 1, j - 1);
    }
  }

  /**
   `fetch_branch_from` succeeds exactly when the linked lines of the two blocks hold siblings,
   and then it returns the two lines cut after the highest siblings.
   */
  lemma {:induction false} ClimbStopsAtHighestMeeting(index: Index, a: ForkItem, b: ForkItem)
    requires WellKeyed(index)
    ensures var x, y := Ancestry(index, a), Ancestry(index, b);
            match Climb(index, a, b)
            case None => forall i: nat, j: nat :: !Meet(x, y, i, j)
            case Some((f, s)) =>
              && f != [] && f <= x
              && s != [] && s <= y
              && Meet(x, y, |f| - 1, |s| - 1)
              && (forall i: nat, j: nat | Meet(x, y, i, j) :: |f| - 1 <= i && |s| - 1 <= j)
  {
    if Climb(index, a, b).Some? {
      ClimbEndsAtSiblings(index, a, b);
    }
    forall i: nat, j: nat | Meet(Ancestry(index, a), Ancestry(index, b), i, j)
      ensures Climb(index, a, b).Some?
      ensures |Climb(index, a, b).value.0| <= i + 1 && |Climb(index, a, b).value.1| <= j + 1
    {
      ClimbFindsSiblings(index, a, b, i, j);
    }
  }

  /** A line of blocks, each the predecessor of the one before it. */
  predicate Linked(line: seq<ForkItem>) {
    forall i | 0 <= i < |line| - 1 :: line[i].block.previous == line[i + 1].block.Id()
  }

  lemma {:induction false} AncestryLinked(index: Index, item: ForkItem, line: seq<ForkItem>)
    requires WellKeyed(index) && line != [] && line <= Ancestry(index, item)
    ensures Linked(line) && line[0] == item
    ensures item.block.Num() == NumFromId(line[|line| - 1].block.previous) + |line|
  {
    AncestryStep(index, item, |line| - 1);
    forall i | 0 <= i < |line| - 1
      ensures line[i].block.previous == line[i + 1].block.Id()
    {
      AncestryStep(index, item, i);
    }
  }

  /**
   The two branches are parent-linked, headed by the two blocks asked for, and end in blocks
   with one predecessor; their lengths differ by the height difference of the two blocks.
   */
  lemma {:induction false} BranchShape(index: Index, first: BlockId, second: BlockId)
    requires WellKeyed(index) && BranchesFrom(index, first, second).Some?
    ensures var (f, s) := BranchesFrom(index, first, second).value;
            && f != [] && s != [] && f[0] == index[first] && s[0] == index[second]
            && f[0].block.Id() == first && s[0].block.Id() == second
            && Linked(f) && Linked(s)
            && f[|f| - 1].block.previous == s[|s| - 1].block.previous
            && NumFromId(first) - |f| == NumFromId(second) - |s| == NumFromId(f[|f| - 1].block.previous)
  {
    var a, b := index[first], index[second];
    var (f, s) := BranchesFrom(index, first, second).value;
    ClimbEndsAtSiblings(index, a, b);
    AncestryLinked(index, a, f);
    AncestryLinked(index, b, s);
  }

  lemma {:induction false} IndexedLine(idx: Index, id: BlockId, i: nat)
    requires WellKeyed(idx) && id in idx && i < |Ancestry(idx, idx[id])|
    ensures Ancestry(idx, idx[id])[i].block.Id() in idx
    decreases i
  {
    if i > 0 {
      var parent := Lock(idx, idx[id]).value;
      assert parent.block.Id() == idx[id].block.previous;
      IndexedLine(idx, parent.block.Id(), i - 1);
    }
  }

  lemma {:induction false} BranchIsIndexed(index: Index, first: BlockId, second: BlockId, i: nat)
    requires WellKeyed(index) && BranchesFrom(index, first, second).Some?
    requires i < |BranchesFrom(index, first, second).value.0|
    ensures BranchesFrom(index, first, second).value.0[i].block.Id() in index
  {
    ClimbEndsAtSiblings(index, index[first], index[second]);
    IndexedLine(index, first, i);
  }

  lemma {:induction false} OldBranchIsIndexed(index: Index, first: BlockId, second: BlockId, i: nat)
    requires WellKeyed(index) && BranchesFrom(index, first, second).Some?
    requires i < |BranchesFrom(index, first, second).value.1|
    ensures BranchesFrom(index, first, second).value.1[i].block.Id() in index
  {
    ClimbEndsAtSiblings(index, index[first], index[second]);
    IndexedLine(index, second, i);
  }

  lemma {:induction false} LineAncestors(line: seq<ForkItem>, id: BlockId)
    requires Linked(line) && line != [] && IsAncestor(id, line[0].block.Id())
    ensures (exists i :: 0 <= i < |line| && line[i].block.Id() == id) || IsAncestor(id, line[|line| - 1].block.previous)
    decreases |line|
  {
    if id != line[0].block.Id() && |line| > 1 {
      assert Linked(line[1..]);
      LineAncestors(line[1..], id);
      if i :| 0 <= i < |line[1..]| && line[1..][i].block.Id() == id {
        assert line[i + 1].block.Id() == id;
      }
    }
  }

  lemma {:induction false} LineMembersAreAncestors(line: seq<ForkItem>, i: nat)
    requires Linked(line) && i < |line|
    ensures IsAncestor(line[i].block.Id(), line[0].block.Id())
    ensures IsAncestor(line[|line| - 1].block.previous, line[i].block.Id())
    ensures NumFromId(line[i].block.Id()) + i == NumFromId(line[0].block.Id())
    decreases i, |line|
  {
    if i > 0 {
      LineMembersAreAncestors(line, i - 1);
      AncestorTransitive(line[i].block.Id(), line[i - 1].block.Id(), line[0].block.Id());
      LineBottom(line, i);
    } else {
      LineBottom(line, 0);
    }
  }

  lemma {:induction false} LineBottom(line: seq<ForkItem>, i: nat)
    requires Linked(line) && i < |line|
    ensures IsAncestor(line[|line| - 1].block.previous, line[i].block.Id())
    decreases |line| - i
  {
    if i + 1 < |line| {
      LineBottom(line, i + 1);
      AncestorTransitive(line[|line| - 1].block.previous, line[i + 1].block.Id(), line[i].block.Id());
    }
  }

  /** Two linked lines over one bottom block that share a block share their last block. */
  lemma {:induction false} SharedBlockReachesBottom(f: seq<ForkItem>, s: seq<ForkItem>, i: nat, j: nat)
    requires Linked(f) && Linked(s) && i < |f| && j < |s| && f[i].block == s[j].block
    requires f[|f| - 1].block.previous == s[|s| - 1].block.previous
    ensures f[|f| - 1].block == s[|s| - 1].block
    decreases |f| - i
  {
    LineMembersAreAncestors(f, i);
    LineMembersAreAncestors(f, |f| - 1);
    LineMembersAreAncestors(s, j);
    LineMembersAreAncestors(s, |s| - 1);
    if i + 1 < |f| {
      assert j + 1 < |s|;
      SharedBlockReachesBottom(f, s, i + 1, j + 1);
    }
  }

  /** Branches of more than one block each were cut at siblings, not at one shared block. */
  lemma {:induction false} BottomsDiffer(index: Index, first: BlockId, second: BlockId, f: seq<ForkItem>,
                                         s: seq<ForkItem>)
    requires WellKeyed(index) && BranchesFrom(index, first, second) == Some((f, s))
    requires |f| > 1 && |s| > 1
    ensures f[|f| - 1].block != s[|s| - 1].block
  {
    BranchShape(index, first, second);
    if f[|f| - 1].block == s[|s| - 1].block {
      ClimbStopsAtHighestMeeting(index, index[first], index[second]);
      assert f[|f| - 2].block.previous == s[|s| - 2].block.previous;
      assert Meet(Ancestry(index, index[first]), Ancestry(index, index[second]), |f| - 2, |s| - 2);
    }
  }

  /** A block on both branches is the only block of one of them. */
  lemma {:induction false} SharedBlockIsWholeBranch(index: Index, first: BlockId, second: BlockId, f: seq<ForkItem>,
                                                    s: seq<ForkItem>, i: nat, j: nat)
    requires WellKeyed(index) && BranchesFrom(index, first, second) == Some((f, s))
    requires i < |f| && j < |s| && f[i].block == s[j].block
    ensures |f| == 1 || |s| == 1
  {
    BranchShape(index, first, second);
    SharedBlockReachesBottom(f, s, i, j);
    if |f| > 1 && |s| > 1 {
      BottomsDiffer(index, first, second, f, s);
    }
  }

  /**
   When neither block is an ancestor of the other, the branches share no block and the block
   under them is the highest common ancestor.
   */
  lemma {:induction false} BranchesPartAtHighestCommonAncestor(index: Index, first: BlockId, second: BlockId,
                                                               f: seq<ForkItem>, s: seq<ForkItem>)
    requires WellKeyed(index) && BranchesFrom(index, first, second) == Some((f, s))
    requires !IsAncestor(first, second) && !IsAncestor(second, first)
    ensures f != [] && s != []
    ensures forall i, j | 0 <= i < |f| && 0 <= j < |s| :: f[i].block != s[j].block
    ensures IsAncestor(f[|f| - 1].block.previous, first) && IsAncestor(f[|f| - 1].block.previous, second)
    ensures forall id | IsAncestor(id, first) && IsAncestor(id, second) :: IsAncestor(id, f[|f| - 1].block.previous)
  {
    BranchShape(index, first, second);
    LineMembersAreAncestors(f, 0);
    LineMembersAreAncestors(s, 0);
    forall i, j | 0 <= i < |f| && 0 <= j < |s|
      ensures f[i].block != s[j].block
    {
      if f[i].block == s[j].block {
        SharedBlockIsWholeBranch(index, first, second, f, s, i, j);
        LineMembersAreAncestors(f, i);
        LineMembersAreAncestors(s, j);
      }
    }
    forall id | IsAncestor(id, first) && IsAncestor(id, second)
      ensures IsAncestor(id, f[|f| - 1].block.previous)
    {
      LineAncestors(f, id);
      LineAncestors(s, id);
    }
  }

  /** No block of the first branch lies below the second block, if the first branch is longer. */
  lemma {:induction false} LongerBranchIsNotBelow(index: Index, first: BlockId, second: BlockId, f: seq<ForkItem>,
                                                  s: seq<ForkItem>, i: nat)
    requires WellKeyed(index) && BranchesFrom(index, first, second) == Some((f, s))
    requires NumFromId(first) > NumFromId(second) && i < |f|
    ensures f[i].block.Id() == second || !IsAncestor(f[i].block.Id(), second)
  {
    BranchShape(index, first, second);
    var id, fork := f[i].block.Id(), s[|s| - 1].block.previous;
    LineMembersAreAncestors(f, i);
    LineMembersAreAncestors(f, |f| - 1);
    if IsAncestor(id, second) {
      LineAncestors(s, id);
      if IsAncestor(id, fork) {
        AncestorIsLower(id, fork);
      } else {
        var j :| 0 <= j < |s| && s[j].block.Id() == id;
        SharedBlockIsWholeBranch(index, first, second, f, s, i, j);
      }
    }
  }

  /** The lowest number kept when the head has number `headNum`. */
  function Floor(headNum: nat, maxSize: nat): nat {
    headNum - if maxSize < headNum then maxSize else headNum
  }

  function Pruned(index: Index, floor: nat): Index {
    map id | id in index && index[id].block.Num() >= floor :: index[id]
  }

  /** When `_push_block` takes a block: not too old, and linked unless it needs no link. */
  predicate Acceptable(index: Index, head: Option<ForkItem>, maxSize: nat, b: Block) {
    head.Some? ==>
      && b.Num() > 0
      && b.Num() + maxSize > head.value.block.Num()
      && (b.previous != Zero ==> b.previous in index)
  }

  function NewItem(index: Index, head: Option<ForkItem>, serial: nat, b: Block): ForkItem {
    if head.Some? && b.previous != Zero && b.previous in index
    then ForkItem(serial, b, Some(index[b.previous].serial))
    else ForkItem(serial, b, None)
  }

  /** A push moves the head only to a strictly higher block. */
  function PushedHead(head: Option<ForkItem>, item: ForkItem): ForkItem {
    if head.Some? && item.block.Num() <= head.value.block.Num() then head.value else item
  }

  /** A known id keeps its node; a new head prunes what has fallen below the window. */
  function PushedIndex(index: Index, head: Option<ForkItem>, maxSize: nat, item: ForkItem): (r: Index)
    ensures WellKeyed(index) ==> WellKeyed(r)
  {
    var inserted := if item.block.Id() in index then index else index[item.block.Id() := item];
    if head.Some? && item.block.Num() > head.value.block.Num()
    then Pruned(inserted, Floor(item.block.Num(), maxSize))
    else inserted
  }

  class ForkDatabase {
    var index: Index
    var head: Option<ForkItem>
    var maxSize: nat
    var nextSerial: nat

    ghost predicate Valid()
      reads this
    {
      WellKeyed(index)
    }

    constructor ()
      ensures Valid() && index == map[] && head == None && maxSize == 1024 && nextSerial == 0
    {
      index, head, maxSize, nextSerial := map[], None, 1024, 0;
    }

    /** `start_block`: the item has no link to a parent. */
    method StartBlock(b: Block)
      requires Valid()
      modifies this
      ensures Valid() && maxSize == old(maxSize)
      ensures head.Some? && head.value.block == b && head.value.prev == None
      ensures index == if b.Id() in old(index) then old(index) else old(index)[b.Id() := head.value]
    {
      var item := ForkItem(nextSerial, b, None);
      nextSerial := nextSerial + 1;
      if b.Id() !in index {
        index := index[b.Id() := item];
      }
      head := Some(item);
    }

    /** Erases the lowest nodes until none is below `floor`. */
    method PruneBelow(floor: nat)
      requires Valid()
      modifies this`index
      ensures Valid() && index == Pruned(old(index), floor)
    {
      while exists id :: id in index && index[id].block.Num() < floor
        invariant Valid()
        invariant index.Keys <= old(index).Keys
        invariant forall id | id in index :: index[id] == old(index)[id]
        invariant forall id | id in old(index) && old(index)[id].block.Num() >= floor :: id in index
        decreases |index|
      {
        var id :| id in index && index[id].block.Num() < floor;
        var rest := index - {id};
        assert rest.Keys == index.Keys - {id};
        assert |rest| < |index|;
        index := rest;
      }
    }

    /** `push_block`; false stands for the two exceptions it can throw. */
    method PushBlock(b: Block) returns (ok: bool)
      requires Valid()
      modifies this
      ensures Valid() && maxSize == old(maxSize)
      ensures ok <==> Acceptable(old(index), old(head), maxSize, b)
      ensures !ok ==> index == old(index) && head == old(head)
      ensures !ok <==> old(head).Some?
                       && (b.Num() + maxSize <= old(head).value.block.Num()
                           || (b.previous != Zero && b.previous !in old(index)))
      ensures var item := NewItem(old(index), old(head), old(nextSerial), b);
              ok ==> head == Some(PushedHead(old(head), item))
                     && index == PushedIndex(old(index), old(head), maxSize, item)
      ensures nextSerial == old(nextSerial) + 1
    {
      var item := ForkItem(nextSerial, b, None);
      nextSerial := nextSerial + 1;
      if head.Some? {
        var floor: int := head.value.block.Num() - maxSize;
        if b.Num() <= if floor > 0 then floor else 0 {
          return false;
        }
      }
      if head.Some? && b.previous != Zero {
        if b.previous !in index {
          return false;
        }
        item := item.(prev := Some(index[b.previous].serial));
      }
      if b.Id() !in index {
        index := index[b.Id() := item];
      }
      if head.None? {
        head := Some(item);
      } else if b.Num() > head.value.block.Num() {
        head := Some(item);
        PruneBelow(Floor(b.Num(), maxSize));
      }
      return true;
    }

    /**
     `pop_block` steps the head back along its link; false stands for its assertions. A weak pointer
     also locks if its node has left the index but is `held` by the caller.
     */
    method PopBlock(held: Index) returns (ok: bool)
      requires Valid() && WellKeyed(held)
      modifies this`head
      ensures ok <==> old(head).Some? && Lock(held + index, old(head).value).Some?
      ensures head == if ok then Lock(held + index, old(head).value) else old(head)
    {
      if head.None? {
        return false;
      }
      var prev := Lock(held + index, head.value);
      if prev.None? {
        return false;
      }
      head := prev;
      return true;
    }

    method SetHead(h: ForkItem)
      modifies this`head
      ensures head == Some(h)
    {
      head := Some(h);
    }

    method Remove(id: BlockId)
      requires Valid()
      modifies this`index
      ensures Valid() && index == old(index) - {id}
    {
      index := index - {id};
    }

    method SetMaxSize(s: nat)
      requires Valid()
      modifies this`index, this`maxSize
      ensures Valid() && maxSize == s
      ensures index == if head.Some? then Pruned(old(index), Floor(head.value.block.Num(), s)) else old(index)
      ensures forall id :: id in index
                           <==> id in old(index) && (head.Some? ==> NumFromId(id) + s >= head.value.block.Num())
    {
      maxSize := s;
      if head.Some? {
        PruneBelow(Floor(head.value.block.Num(), s));
      }
    }

    /** The three climbing loops of `fetch_branch_from`. */
    method FetchBranchFrom(first: BlockId, second: BlockId) returns (r: Option<Branches>)
      requires Valid()
      ensures r == BranchesFrom(index, first, second)
    {
      if first !in index || second !in index {
        return None;
      }
      var a, b := index[first], index[second];
      var f: seq<ForkItem>, s: seq<ForkItem> := [], [];
      ghost var goal := Climb(index, a, b);
      assert goal.Some? ==> [] + goal.value.0 == goal.value.0 && [] + goal.value.1 == goal.value.1;
      while a.block.Num() > b.block.Num()
        invariant goal == Below(f, s, Climb(index, a, b))
      {
        f := f + [a];
        var up := Lock(index, a);
        if up.None? {
          return None;
        }
        BelowBelow(f[..|f| - 1], s, [a], [], Climb(index, up.value, b));
        assert f[..|f| - 1] + [a] == f && s + [] == s;
        a := up.value;
      }
      while b.block.Num() > a.block.Num()
        invariant a.block.Num() <= b.block.Num()
        invariant goal == Below(f, s, Climb(index, a, b))
      {
        s := s + [b];
        var up := Lock(index, b);
        if up.None? {
          return None;
        }
        BelowBelow(f, s[..|s| - 1], [], [b], Climb(index, a, up.value));
        assert s[..|s| - 1] + [b] == s && f + [] == f;
        b := up.value;
      }
      while a.block.previous != b.block.previous
        invariant a.block.Num() == b.block.Num()
        invariant goal == Below(f, s, Climb(index, a, b))
        decreases a.block.Num()
      {
        f, s := f + [a], s + [b];
        var upA, upB := Lock(index, a), Lock(index, b);
        if upA.None? || upB.None? {
          return None;
        }
        BelowBelow(f[..|f| - 1], s[..|s| - 1], [a], [b], Climb(index, upA.value, upB.value));
        assert f[..|f| - 1] + [a] == f && s[..|s| - 1] + [b] == s;
        a, b := upA.value, upB.value;
      }
      return Some((f + [a], s + [b]));
    }
  }
}
