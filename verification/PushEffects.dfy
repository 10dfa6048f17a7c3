/** What each kind of push leaves behind, in terms of the block, the head and the ids that are cached. */
module PushEffects {
  import opened Arithmetic
  import opened Wrappers
  import opened Blocks
  import opened ForkTree
  import opened Reorg
  import opened ReorgProperties

  // one push into the fork database

  /** With no head anything goes; else a block is recent enough, and its predecessor known unless it needs none. */
  predicate Takes(index: Index, head: Option<ForkItem>, maxSize: nat, b: Block) {
    head.Some? ==>
      && head.value.block.Num() < b.Num() + maxSize
      && (b.previous == Zero || b.previous in index)
  }

  /** The higher of the head's block and a new one; the head's if they are level. */
  function Higher(head: Option<ForkItem>, b: Block): Block {
    if head.None? || head.value.block.Num() < b.Num() then b else head.value.block
  }

  /** The window under a block reaches down to the id. */
  predicate InWindow(top: Block, window: nat, id: BlockId) {
    NumFromId(id) + window >= top.Num()
  }

  /** The id is cached after a push of `b`: it was, or it is that of `b`, and a new head's window reaches down to it. */
  predicate CachedAfter(index: Index, head: Option<ForkItem>, maxSize: nat, b: Block, id: BlockId) {
    && (id in index || id == b.Id())
    && (head.Some? && head.value.block.Num() < b.Num() ==> InWindow(b, maxSize, id))
  }

  /** A window under a head keeps exactly the nodes that it reaches down to. */
  lemma {:induction false} WindowKeeps(index: Index, top: Block, window: nat, id: BlockId)
    requires WellKeyed(index)
    ensures var kept := Pruned(index, Floor(top.Num(), window));
            && (id in kept <==> id in index && InWindow(top, window, id))
            && (id in kept ==> kept[id] == index[id])
  {
    assert id in index ==> index[id].block.Num() == NumFromId(id);
  }

  /** What is taken in, and the head and the nodes after that. */
  lemma {:induction false} ForkPush(index: Index, head: Option<ForkItem>, maxSize: nat, serial: nat, b: Block,
                                    id: BlockId)
    requires WellKeyed(index)
    ensures Acceptable(index, head, maxSize, b) <==> Takes(index, head, maxSize, b)
    ensures var item := NewItem(index, head, serial, b);
            var now := PushedIndex(index, head, maxSize, item);
            && item.block == b && PushedHead(head, item).block == Higher(head, b)
            && (head.Some? && b.Num() <= head.value.block.Num() ==> PushedHead(head, item) == head.value)
            && (id in now <==> CachedAfter(index, head, maxSize, b, id))
            && (id in now && id in index ==> now[id] == index[id])
            && (id in now && id !in index ==> now[id].block == b)
  {
    var item := NewItem(index, head, serial, b);
    var inserted := if b.Id() in index then index else index[b.Id() := item];
    WindowKeeps(inserted, b, maxSize, id);
  }

  /**
   A new block is taken in exactly if it is recent enough and its link would lock; then it is linked, to
   the node that its predecessor has in the index.
   */
  lemma {:induction false} TakenInIsLinked(index: Index, head: ForkItem, maxSize: nat, serial: nat, b: Block)
    requires WellKeyed(index) && maxSize > 0 && b.previous != Zero && b.Id() !in index
    ensures var item := NewItem(index, Some(head), serial, b);
            var now := PushedIndex(index, Some(head), maxSize, item);
            && (Acceptable(index, Some(head), maxSize, b)
                <==> head.block.Num() < b.Num() + maxSize && Lock(index, item).Some?)
            && (Acceptable(index, Some(head), maxSize, b) ==>
                  && b.previous in index && b.Id() in now
                  && Lock(now, now[b.Id()]) == Some(index[b.previous])
                  && Ancestry(now, now[b.Id()])[1..] == Ancestry(now, index[b.previous]))
  {
    ForkPush(index, Some(head), maxSize, serial, b, b.Id());
    ForkPush(index, Some(head), maxSize, serial, b, b.previous);
  }

  /** No cached block is higher than the head. */
  ghost predicate Highest(index: Index, head: ForkItem) {
    forall id | id in index :: NumFromId(id) <= head.block.Num()
  }

  /** The head stays the highest cached block; of several it is the first that came. */
  lemma {:induction false} HeadStaysHighest(index: Index, head: ForkItem, maxSize: nat, serial: nat, b: Block)
    requires WellKeyed(index) && Highest(index, head)
    ensures var item := NewItem(index, Some(head), serial, b);
            var top := PushedHead(Some(head), item);
            && Highest(PushedIndex(index, Some(head), maxSize, item), top)
            && top.block.Num() == Max(head.block.Num(), b.Num())
            && (top.block.Num() == head.block.Num() ==> top == head)
  {
    var item := NewItem(index, Some(head), serial, b);
    var now := PushedIndex(index, Some(head), maxSize, item);
    forall id | id in now
      ensures NumFromId(id) <= PushedHead(Some(head), item).block.Num()
    {
      ForkPush(index, Some(head), maxSize, serial, b, id);
    }
    ForkPush(index, Some(head), maxSize, serial, b, b.Id());
  }

  /** A link dies with the node that it points at, even if an equal block is inserted again. */
  lemma {:induction false} LinkDiesWithItsNode(index: Index, item: ForkItem, again: ForkItem)
    requires WellKeyed(index) && again.block.Id() == item.block.previous
    ensures Lock(index - {item.block.previous}, item) == None
    ensures Lock(index[item.block.previous := again], item)
            == if item.prev == Some(again.serial) then Some(again) else None
  {
  }

  // what a session keeps

  /** `now` of `was` undo states are left: the newest, as many as the window holds beside the open sessions. */
  predicate Fits(was: nat, now: nat, window: nat, open: nat) {
    && now <= was
    && (now > 0 ==> now + open <= window)
    && (now < was ==> now + open >= window)
  }

  lemma {:induction false} TrimFits(was: nat, now: nat, window: nat, open: nat)
    ensures Fits(was, now, window, open) <==> now == Trim(was, window, open)
  {
  }

  // a push that is refused, or that only parks the block

  /** A block that is too old or not linked changes nothing at all; any other is not refused. */
  lemma {:induction false} RefusedPush<S>(exec: Exec<S>, n: Node<S>, b: Block)
    requires WellKeyed(n.caches.index) && n.caches.undo.depth <= |n.links|
    ensures Push(exec, n, b).result == Refused <==> !Takes(n.caches.index, n.head, n.caches.maxSize, b)
    ensures !Takes(n.caches.index, n.head, n.caches.maxSize, b)
            ==> Push(exec, n, b) == Effect(Refused, n.links, n.caches, n.head)
  {
    ForkPush(n.caches.index, n.head, n.caches.maxSize, n.nextSerial, b, b.Id());
    if Takes(n.caches.index, n.head, n.caches.maxSize, b) && n.NewHead(b).block.previous != n.Tip() {
      FollowTakes(exec, n, b);
    }
  }

  lemma {:induction false} FollowTakes<S>(exec: Exec<S>, n: Node<S>, b: Block)
    requires WellKeyed(n.caches.index) && n.caches.undo.depth <= |n.links|
    ensures WellKeyed(n.NewIndex(b))
    ensures var r := Follow(exec, n.base, n.baseId, n.links, n.caches.(index := n.NewIndex(b)), n.NewHead(b)).result;
            r !in {Refused, Extended, ApplyFailed}
  {
  }

  /**
   The chain, the windows and the undo states are as before; only the block and the head went into the fork
   database.
   */
  ghost predicate OnlyCached<S>(n: Node<S>, b: Block, e: Effect<S>, id: BlockId) {
    && e.links == n.links && e.caches.undo == n.caches.undo && e.caches.maxSize == n.caches.maxSize
    && e.head.Some? && e.head.value.block == Higher(n.head, b)
    && (id in e.caches.index <==> CachedAfter(n.caches.index, n.head, n.caches.maxSize, b, id))
    && (id in e.caches.index && id in n.caches.index ==> e.caches.index[id] == n.caches.index[id])
  }

  /** Off the chain, a block whose branch is not higher than the chain is only cached. */
  lemma {:induction false} ParkedPush<S>(exec: Exec<S>, n: Node<S>, b: Block, id: BlockId)
    requires WellKeyed(n.caches.index) && n.caches.undo.depth <= |n.links|
    requires Takes(n.caches.index, n.head, n.caches.maxSize, b) && Higher(n.head, b).previous != n.Tip()
    ensures Push(exec, n, b).result == Parked <==> Higher(n.head, b).Num() <= NumFromId(n.Tip())
    ensures Push(exec, n, b).result in {Parked, NoBranch} ==> OnlyCached(n, b, Push(exec, n, b), id)
  {
    ForkPush(n.caches.index, n.head, n.caches.maxSize, n.nextSerial, b, id);
    FollowTakes(exec, n, b);
    FollowParks(exec, n, b);
  }

  lemma {:induction false} FollowParks<S>(exec: Exec<S>, n: Node<S>, b: Block)
    requires WellKeyed(n.caches.index) && n.caches.undo.depth <= |n.links| && WellKeyed(n.NewIndex(b))
    ensures var c := n.caches.(index := n.NewIndex(b));
            var e := Follow(exec, n.base, n.baseId, n.links, c, n.NewHead(b));
            && (e.result == Parked <==> n.NewHead(b).block.Num() <= NumFromId(n.Tip()))
            && (e.result in {Parked, NoBranch} ==> e == Effect(e.result, n.links, c, Some(n.NewHead(b))))
            && (e.result == NoBranch <==> n.NewHead(b).block.Num() > NumFromId(n.Tip()) && n.Plan(b) == None)
  {
  }

  /** A higher branch is not found exactly if the cached lines of the head and of the tip hold no siblings. */
  lemma {:induction false} NoBranchIff<S>(exec: Exec<S>, n: Node<S>, b: Block)
    requires WellKeyed(n.caches.index) && n.caches.undo.depth <= |n.links|
    requires Takes(n.caches.index, n.head, n.caches.maxSize, b)
    requires Higher(n.head, b).previous != n.Tip() && Higher(n.head, b).Num() > NumFromId(n.Tip())
    ensures WellKeyed(n.NewIndex(b))
    ensures var idx, top := n.NewIndex(b), Higher(n.head, b).Id();
            Push(exec, n, b).result != NoBranch
            <==> top in idx && n.Tip() in idx
                 && exists i: nat, j: nat :: Meet(Ancestry(idx, idx[top]), Ancestry(idx, idx[n.Tip()]), i, j)
  {
    ForkPush(n.caches.index, n.head, n.caches.maxSize, n.nextSerial, b, b.Id());
    FollowParks(exec, n, b);
    var idx, top := n.NewIndex(b), Higher(n.head, b).Id();
    if top in idx && n.Tip() in idx {
      ClimbStopsAtHighestMeeting(idx, idx[top], idx[n.Tip()]);
    }
  }

  // a push on top of the chain

  /** The id is left in the fork index by the window that a block sets. */
  predicate Leaves<S>(o: Outcome<S>, top: Block, id: BlockId) {
    match o
    case Done(_, m) => InWindow(top, m.window, id)
    case Failed(After(m)) => InWindow(top, m.window, id)
    case Failed(Before(_)) => true
  }

  /** The fork index after a block was applied, or has failed: the window that it set, if it got there, prunes. */
  lemma {:induction false} OutcomePrunes<S>(c: Caches, hd: ForkItem, o: Outcome<S>, id: BlockId)
    requires WellKeyed(c.index)
    ensures var now := AfterOutcome(c, Some(hd), o).index;
            && (id in now <==> id in c.index && Leaves(o, hd.block, id))
            && (id in now ==> now[id] == c.index[id])
  {
    match o
    case Done(_, m) => WindowKeeps(c.index, hd.block, m.window, id);
    case Failed(After(m)) => WindowKeeps(c.index, hd.block, m.window, id);
    case Failed(Before(_)) =>
  }

  /** What a push on top comes to: the new head builds on the tip. */
  lemma {:induction false} PushIsOnTop<S>(exec: Exec<S>, n: Node<S>, b: Block, id: BlockId, o: Outcome<S>)
    requires WellKeyed(n.caches.index) && n.caches.undo.depth <= |n.links|
    requires Takes(n.caches.index, n.head, n.caches.maxSize, b) && Higher(n.head, b).previous == n.Tip()
    requires o == if b.previous != n.Tip() then Failed(Before(0)) else exec(TipState(n.base, n.links), b)
    ensures var e := Push(exec, n, b);
            var after := AfterOutcome(n.caches.(index := n.NewIndex(b)), Some(n.NewHead(b)), o);
            && (e.result == Extended <==> o.Done?) && (e.result == ApplyFailed <==> o.Failed?)
            && e.links == (if o.Done? then n.links + [Link(b, o.state, o.mark)] else n.links)
            && e.head == Some(n.NewHead(b)) && e.head.value.block == Higher(n.head, b)
            && e.caches == if o.Done? then after else after.(index := after.index - {b.Id()})
    ensures id in AfterOutcome(n.caches.(index := n.NewIndex(b)), Some(n.NewHead(b)), o).index
            <==> CachedAfter(n.caches.index, n.head, n.caches.maxSize, b, id) && Leaves(o, Higher(n.head, b), id)
  {
    ForkPush(n.caches.index, n.head, n.caches.maxSize, n.nextSerial, b, id);
    OutcomePrunes(n.caches.(index := n.NewIndex(b)), n.NewHead(b), o, id);
  }

  /** A block that applies on the tip is the new tip, and the other ids stay cached as far as its window reaches. */
  lemma {:induction false} PushExtends<S>(exec: Exec<S>, n: Node<S>, b: Block, id: BlockId, s': S, m: Mark)
    requires WellKeyed(n.caches.index) && n.caches.undo.depth <= |n.links|
    requires Takes(n.caches.index, n.head, n.caches.maxSize, b) && Higher(n.head, b).previous == n.Tip()
    requires b.previous == n.Tip() && exec(TipState(n.base, n.links), b) == Done(s', m)
    ensures var e := Push(exec, n, b);
            && e.result == Extended && e.links == n.links + [Link(b, s', m)]
            && e.head.Some? && e.head.value.block == Higher(n.head, b)
            && e.caches.maxSize == e.caches.undo.window == m.window
            && (id in e.caches.index
                <==> CachedAfter(n.caches.index, n.head, n.caches.maxSize, b, id)
                     && InWindow(Higher(n.head, b), m.window, id))
    ensures var now := Push(exec, n, b).caches.undo.depth;
            exists d: nat :: Fits(n.caches.undo.depth, d, n.caches.undo.window, m.before)
                             && if m.after == 0 then now == d + 1 else now > 0 && Fits(d, now - 1, m.window, m.after)
  {
    PushIsOnTop(exec, n, b, id, Done(s', m));
    var d := Trim(n.caches.undo.depth, n.caches.undo.window, m.before);
    TrimFits(n.caches.undo.depth, d, n.caches.undo.window, m.before);
    if m.after > 0 {
      TrimFits(d, Trim(d, m.window, m.after), m.window, m.after);
    }
  }

  /**
   A block that fails on top of the chain is forgotten. Every other id is cached exactly if it was and is
   not below the floors of a new head and of the window that the block set before it failed.
   */
  lemma {:induction false} FailedPushForgets<S>(exec: Exec<S>, n: Node<S>, b: Block, id: BlockId)
    requires WellKeyed(n.caches.index) && n.caches.undo.depth <= |n.links|
    requires Takes(n.caches.index, n.head, n.caches.maxSize, b) && Higher(n.head, b).previous == n.Tip()
    requires b.previous != n.Tip() || exec(TipState(n.base, n.links), b).Failed?
    ensures var e := Push(exec, n, b);
            && e.result == ApplyFailed && e.links == n.links
            && e.head.Some? && e.head.value.block == Higher(n.head, b)
            && b.Id() !in e.caches.index
            && (id != b.Id() ==>
                  (id in e.caches.index
                   <==> && id in n.caches.index
                        && (n.head.Some? && n.head.value.block.Num() < b.Num() ==> InWindow(b, n.caches.maxSize, id))
                        && (b.previous == n.Tip() ==>
                              Leaves(exec(TipState(n.base, n.links), b), Higher(n.head, b), id))))
            && (id in e.caches.index ==> id in n.caches.index && e.caches.index[id] == n.caches.index[id])
  {
    var o := if b.previous != n.Tip() then Failed(Before(0)) else exec(TipState(n.base, n.links), b);
    PushIsOnTop(exec, n, b, id, o);
    ForkPush(n.caches.index, n.head, n.caches.maxSize, n.nextSerial, b, id);
    OutcomePrunes(n.caches.(index := n.NewIndex(b)), n.NewHead(b), o, id);
  }

  /** The undo states that a failing block costs, and the windows that it leaves. */
  lemma {:induction false} FailedPushUndo<S>(exec: Exec<S>, n: Node<S>, b: Block)
    requires WellKeyed(n.caches.index) && n.caches.undo.depth <= |n.links|
    requires Takes(n.caches.index, n.head, n.caches.maxSize, b) && Higher(n.head, b).previous == n.Tip()
    requires b.previous == n.Tip() && exec(TipState(n.base, n.links), b).Failed?
    ensures var was, now := n.caches, Push(exec, n, b).caches;
            match exec(TipState(n.base, n.links), b).reached
            case Before(k) =>
              && Fits(was.undo.depth, now.undo.depth, was.undo.window, k)
              && now.undo.window == was.undo.window && now.maxSize == was.maxSize
            case After(m) =>
              && now.undo.window == now.maxSize == m.window
              && exists d: nat :: Fits(was.undo.depth, d, was.undo.window, m.before)
                                  && if m.after == 0 then now.undo.depth == d
                                     else Fits(d, now.undo.depth, m.window, m.after)
  {
    var o := exec(TipState(n.base, n.links), b);
    PushIsOnTop(exec, n, b, b.Id(), o);
    match o.reached
    case Before(k) => TrimFits(n.caches.undo.depth, Push(exec, n, b).caches.undo.depth, n.caches.undo.window, k);
    case After(m) =>
      var d := Trim(n.caches.undo.depth, n.caches.undo.window, m.before);
      TrimFits(n.caches.undo.depth, d, n.caches.undo.window, m.before);
      if m.after > 0 {
        TrimFits(d, Trim(d, m.window, m.after), m.window, m.after);
      }
  }

  /** So a child of a block that failed on top of the chain does not link. */
  lemma {:induction false} ChildOfFailedIsRefused<S>(exec: Exec<S>, n: Node<S>, b: Block, n': Node<S>, child: Block)
    requires WellKeyed(n.caches.index) && n.caches.undo.depth <= |n.links|
    requires Takes(n.caches.index, n.head, n.caches.maxSize, b) && Higher(n.head, b).previous == n.Tip()
    requires b.previous != n.Tip() || exec(TipState(n.base, n.links), b).Failed?
    requires Follows(exec, n, b, n') && child.previous == b.Id()
    requires WellKeyed(n'.caches.index) && n'.caches.undo.depth <= |n'.links|
    ensures Push(exec, n', child) == Effect(Refused, n.links, n'.caches, n'.head)
  {
    FailedPushForgets(exec, n, b, b.Id());
    RefusedPush(exec, n', child);
  }

  /**
   The failed block stays the fork database's head, though it is not cached. As long as it is, a linked
   block of another branch that is not higher is not parked: it is applied on top of the chain, where it
   does not fit, and forgotten.
   */
  lemma {:induction false} FailedHeadForgetsSideBlocks<S>(exec: Exec<S>, n: Node<S>, b: Block, n': Node<S>, side: Block)
    requires WellKeyed(n.caches.index) && n.caches.undo.depth <= |n.links|
    requires Takes(n.caches.index, n.head, n.caches.maxSize, b) && Higher(n.head, b).previous == n.Tip()
    requires b.previous != n.Tip() || exec(TipState(n.base, n.links), b).Failed?
    requires Follows(exec, n, b, n') && WellKeyed(n'.caches.index) && n'.caches.undo.depth <= |n'.links|
    requires Takes(n'.caches.index, n'.head, n'.caches.maxSize, side)
    requires side.previous != n.Tip() && side.Num() <= Higher(n.head, b).Num()
    ensures var e := Push(exec, n', side);
            e.result == ApplyFailed && e.links == n.links && side.Id() !in e.caches.index
            && e.head.Some? && e.head.value.block == Higher(n.head, b)
  {
    FailedPushForgets(exec, n, b, b.Id());
    FailedPushForgets(exec, n', side, side.Id());
  }

  // a push that switches

  lemma {:induction false} WindowsKeep(index: Index, top: nat, windows: seq<nat>, id: BlockId)
    requires WellKeyed(index)
    ensures var kept := Pruned(index, Sunk(top, windows));
            id in kept <==> id in index && forall j | 0 <= j < |windows| :: NumFromId(id) + windows[j] >= top
  {
    assert id in index ==> index[id].block.Num() == NumFromId(id);
    SunkAbove(top, windows, NumFromId(id));
    forall j | 0 <= j < |windows|
      ensures Floor(top, windows[j]) <= NumFromId(id) <==> NumFromId(id) + windows[j] >= top
    {
      FloorBelow(top, windows[j], NumFromId(id));
    }
  }

  /** Every window set by these links reaches down to the id. */
  predicate InWindows<S>(top: Block, links: seq<Link<S>>, id: BlockId) {
    forall i | 0 <= i < |links| :: InWindow(top, links[i].mark.window, id)
  }

  lemma {:induction false} LinksKeep<S>(c: Caches, head: ForkItem, links: seq<Link<S>>, id: BlockId)
    requires WellKeyed(c.index)
    ensures id in AfterLinks(c, Some(head), links).index <==> id in c.index && InWindows(head.block, links, id)
  {
    LinksSink(c, head, links);
    var windows := WindowsOf(MarksOf(links));
    WindowsKeep(c.index, head.block.Num(), windows, id);
    forall j | 0 <= j < |links|
      ensures InWindow(head.block, links[j].mark.window, id) <==> NumFromId(id) + windows[j] >= head.block.Num()
    {
    }
  }

  /**
   After a switch the fork database's head is where the pops of the old branch took it, as far below the
   new tip as that branch is long; ids stay cached down to the windows under that block.
   */
  lemma {:induction false} SwitchLeaves<S>(exec: Exec<S>, n: Node<S>, b: Block, f: seq<ForkItem>, s: seq<ForkItem>,
                                           id: BlockId, e: Effect<S>)
    requires Inv(exec, n) && Switches(n, b, f, s) && e == Push(exec, n, b) && e.result == Switched
    ensures |s| <= |n.links| && e.head.Some?
    ensures e.head.value.block.Num() + |s| == Higher(n.head, b).Num()
            && IsAncestor(e.head.value.block.Id(), Higher(n.head, b).Id())
    ensures id in e.caches.index
            <==> CachedAfter(n.caches.index, n.head, n.caches.maxSize, b, id)
                 && InWindows(e.head.value.block, e.links[|n.links| - |s|..], id)
  {
    var c, hd := n.caches.(index := n.NewIndex(b)), n.NewHead(b);
    ForkPush(n.caches.index, n.head, n.caches.maxSize, n.nextSerial, b, id);
    SwitchOf(exec, n, b, f, s, c, hd, e);
    var c', top := SwitchTries(exec, n.base, n.baseId, n.links, c, hd, f, s, e);
    var kept, tried := n.links[..|n.links| - |s|], Tried(exec, n.base, n.baseId, n.links, f, s);
    TryIsRun(exec, n.base, n.baseId, n.links, c', top, f, s, kept, tried);
    AncestryStep(c.index, hd, |s|);
    LinksKeep(c', top, tried, id);
    assert (kept + tried)[|kept|..] == tried;
  }

  /**
   After a rollback the fork database's head is as far below the old tip as blocks were tried. An id is
   cached exactly if it was, or is the pushed one, is not that of the failing block or of one above it,
   and is reached by the windows set by the tried blocks, the failing one and the restored ones.
   */
  lemma {:induction false} RollbackLeaves<S>(exec: Exec<S>, n: Node<S>, b: Block, f: seq<ForkItem>, s: seq<ForkItem>,
                                             id: BlockId, e: Effect<S>)
    returns (kept: seq<Link<S>>, tried: seq<Link<S>>, failing: nat)
    requires Inv(exec, n) && Switches(n, b, f, s) && e == Push(exec, n, b) && e.result == RolledBack
    ensures |s| <= |n.links| && kept == n.links[..|n.links| - |s|]
            && tried == Tried(exec, n.base, n.baseId, n.links, f, s)
    ensures e.links == n.links && |tried| < |f| && failing == |f| - 1 - |tried| && e.head.Some?
    ensures e.head.value.block.Num() + |tried| == NumFromId(n.Tip())
            && IsAncestor(e.head.value.block.Id(), n.Tip())
    ensures var r := NextFailure(exec, n.base, n.baseId, kept, tried, f);
            id in e.caches.index
            <==> && CachedAfter(n.caches.index, n.head, n.caches.maxSize, b, id)
                 && (forall i | 0 <= i <= failing :: f[i].block.Id() != id)
                 && (forall i | 0 <= i < |tried| ::
                       NumFromId(id) + tried[i].mark.window + |s| >= Higher(n.head, b).Num())
                 && (r.After? ==> NumFromId(id) + r.mark.window + |s| >= Higher(n.head, b).Num())
                 && InWindows(e.head.value.block, n.links[|n.links| - |s|..], id)
  {
    var c, hd := n.caches.(index := n.NewIndex(b)), n.NewHead(b);
    ForkPush(n.caches.index, n.head, n.caches.maxSize, n.nextSerial, b, id);
    SwitchOf(exec, n, b, f, s, c, hd, e);
    kept, tried := SwitchTakenBack(exec, n.base, n.baseId, n.links, c, hd, f, s, n.Tip(), id, e);
    failing := |f| - 1 - |tried|;
  }

  lemma {:induction false} SwitchTakenBack<S>(exec: Exec<S>, base: S, baseId: BlockId, links: seq<Link<S>>, c: Caches,
                                              hd: ForkItem, f: seq<ForkItem>, s: seq<ForkItem>, tip: BlockId,
                                              id: BlockId, e: Effect<S>)
    returns (kept: seq<Link<S>>, tried: seq<Link<S>>)
    requires WellKeyed(c.index) && c.undo.depth <= |links| && f != [] && s != []
    requires BranchesFrom(c.index, hd.block.Id(), tip) == Some((f, s))
    requires e == Switch(exec, base, baseId, links, c, hd, f, s) && e.result == RolledBack
    ensures |s| <= |links| && kept == links[..|links| - |s|] && tried == Tried(exec, base, baseId, links, f, s)
    ensures e.links == links && |tried| < |f| && e.head.Some?
    ensures e.head.value.block.Num() + |tried| == NumFromId(tip) && IsAncestor(e.head.value.block.Id(), tip)
    ensures var r := NextFailure(exec, base, baseId, kept, tried, f);
            id in e.caches.index
            <==> && id in c.index && (forall i | 0 <= i < |f| - |tried| :: f[i].block.Id() != id)
                 && (forall i | 0 <= i < |tried| :: NumFromId(id) + tried[i].mark.window + |s| >= hd.block.Num())
                 && (r.After? ==> NumFromId(id) + r.mark.window + |s| >= hd.block.Num())
                 && InWindows(e.head.value.block, links[|links| - |s|..], id)
  {
    var c', top;
    RolledBackKeeps(exec, base, baseId, links, c, hd, f, s, e);
    c', top, kept, tried := RolledBackTries(exec, base, baseId, links, c, hd, f, s, e);
    TryLeaves(exec, base, baseId, links, c', top, f, s, kept, tried, id, e);
    BranchShape(c.index, hd.block.Id(), tip);
  }

  lemma {:induction false} TryLeaves<S>(exec: Exec<S>, base: S, baseId: BlockId, links: seq<Link<S>>, c: Caches,
                                        top: ForkItem, f: seq<ForkItem>, s: seq<ForkItem>, kept: seq<Link<S>>,
                                        tried: seq<Link<S>>, id: BlockId, e: Effect<S>)
    requires WellKeyed(c.index) && s != [] && |s| <= |links| && c.undo.depth <= |links| - |s|
    requires kept == links[..|links| - |s|] && tried == Tried(exec, base, baseId, links, f, s) && |tried| < |f|
    requires e == Try(exec, base, baseId, links, c, top, f, s) && e.result == RolledBack
    ensures e.head.Some? && e.head.value.block.Num() + |tried| == s[0].block.Num()
            && IsAncestor(e.head.value.block.Id(), s[0].block.Id())
    ensures var r := NextFailure(exec, base, baseId, kept, tried, f);
            id in e.caches.index
            <==> && id in c.index && (forall i | 0 <= i < |f| - |tried| :: f[i].block.Id() != id)
                 && (forall i | 0 <= i < |tried| :: NumFromId(id) + tried[i].mark.window >= top.block.Num())
                 && (r.After? ==> NumFromId(id) + r.mark.window >= top.block.Num())
                 && InWindows(e.head.value.block, links[|links| - |s|..], id)
  {
    TryIsRun(exec, base, baseId, links, c, top, f, s, kept, tried);
    var r := NextFailure(exec, base, baseId, kept, tried, f);
    var left := Forgotten(exec, base, baseId, kept, tried, c, top, f);
    ForgottenCaches(exec, base, baseId, kept, tried, c, top, f, r);
    WindowsSetKeep(c.index, top.block.Num(), tried, r, id);
    BackLeaves(Held(c.index, s), left, links, tried, s, id, e);
    assert (exists g | g in f[..|f| - |tried|] :: g.block.Id() == id)
      <==> exists i | 0 <= i < |f| - |tried| :: f[i].block.Id() == id;
  }

  lemma {:induction false} WindowsSetKeep<S>(index: Index, top: nat, tried: seq<Link<S>>, r: Reached, id: BlockId)
    requires WellKeyed(index)
    ensures id in Pruned(index, Sunk(top, WindowsSet(MarksOf(tried), r)))
            <==> && id in index
                 && (forall i | 0 <= i < |tried| :: NumFromId(id) + tried[i].mark.window >= top)
                 && (r.After? ==> NumFromId(id) + r.mark.window >= top)
  {
    var windows := WindowsSet(MarksOf(tried), r);
    WindowsKeep(index, top, windows, id);
    assert forall i | 0 <= i < |tried| :: windows[i] == tried[i].mark.window;
    assert r.After? ==> windows[|tried|] == r.mark.window;
  }

  lemma {:induction false} BackLeaves<S>(held: Index, c: Caches, links: seq<Link<S>>, tried: seq<Link<S>>,
                                         s: seq<ForkItem>, id: BlockId, e: Effect<S>)
    requires WellKeyed(held) && WellKeyed(c.index) && s != []
    requires |s| <= |links| && c.undo.depth <= |links| - |s| + |tried|
    requires e == Back(held, c, links, tried, s) && e.result == RolledBack
    ensures e.head.Some? && e.head.value.block.Num() + |tried| == s[0].block.Num()
            && IsAncestor(e.head.value.block.Id(), s[0].block.Id())
    ensures id in e.caches.index
            <==> id in c.index && InWindows(e.head.value.block, links[|links| - |s|..], id)
  {
    var was := links[|links| - |s|..];
    var u := Pops(held + c.index, Top(links[..|links| - |s|] + tried, c.undo.depth, Some(s[0])), |tried|).1;
    AncestryStep(held + c.index, s[0], |tried|);
    LinksKeep(c.(undo := Undo(u.depth, c.undo.window)), u.head.value, was, id);
  }
}
