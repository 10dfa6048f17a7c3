/** The applied chain and its reorganisation (libraries/chain/db_block.cpp). */
module Reorg {
  import opened Arithmetic
  import opened Wrappers
  import opened Blocks
  import opened ForkTree

  const MIN_UNDO_HISTORY := 10

  /**
   What applying a block does to the windows of the undo history and of the fork database: it sets
   both to one more than the distance from the block to the last irreversible one. Proposals that the
   block carries out open sessions inside the block's own, before the window is set and after that;
   `before` and `after` say how deep they are nested.
   */
  datatype Mark = Mark(window: nat, before: nat, after: nat)

  /** How far a failing block got: into its transactions, or past the point where it sets the windows. */
  datatype Reached = Before(sessions: nat) | After(mark: Mark)

  /** An applied block, the state after it, and what applying it did to the windows. */
  datatype Link<S> = Link(block: Block, state: S, mark: Mark)

  /** How `apply_block` ends; a block that fails late leaves its window behind. */
  datatype Outcome<S> = Done(state: S, mark: Mark) | Failed(reached: Reached)

  /** `apply_block` on the state of the predecessor. */
  type Exec<!S> = (S, Block) -> Outcome<S>

  /** The block id and the state that link i sits on. */
  function IdAt<S>(baseId: BlockId, links: seq<Link<S>>, i: nat): BlockId
    requires i <= |links|
  {
    if i == 0 then baseId else links[i - 1].block.Id()
  }

  function StateAt<S>(base: S, links: seq<Link<S>>, i: nat): S
    requires i <= |links|
  {
    if i == 0 then base else links[i - 1].state
  }

  function TipId<S>(baseId: BlockId, links: seq<Link<S>>): BlockId {
    IdAt(baseId, links, |links|)
  }

  function TipState<S>(base: S, links: seq<Link<S>>): S {
    StateAt(base, links, |links|)
  }

  /** The links made by applying `blocks` in order, up to the first one that fails. */
  function Extend<S>(exec: Exec<S>, s: S, id: BlockId, blocks: seq<Block>): (r: seq<Link<S>>)
    ensures |r| <= |blocks|
    decreases |blocks|
  {
    if blocks == [] || blocks[0].previous != id then []
    else match exec(s, blocks[0])
      case Failed(_) => []
      case Done(s', m) => [Link(blocks[0], s', m)] + Extend(exec, s', blocks[0].Id(), blocks[1..])
  }

  function BlocksOf<S>(links: seq<Link<S>>): seq<Block> {
    seq(|links|, i requires 0 <= i < |links| => links[i].block)
  }

  /** Link i holds a block on its predecessor, and the state that applying it there gives. */
  ghost predicate Step<S>(exec: Exec<S>, base: S, baseId: BlockId, links: seq<Link<S>>, i: nat)
    requires i < |links|
  {
    Sits(baseId, links, i) && exec(StateAt(base, links, i), links[i].block) == Done(links[i].state, links[i].mark)
  }

  ghost predicate Stepwise<S>(exec: Exec<S>, base: S, baseId: BlockId, links: seq<Link<S>>) {
    forall i: nat {:trigger Step(exec, base, baseId, links, i)} | i < |links| :: Step(exec, base, baseId, links, i)
  }

  /** The links sit on each other, whatever their states are. */
  ghost predicate Sits<S>(baseId: BlockId, links: seq<Link<S>>, i: nat)
    requires i < |links|
  {
    links[i].block.previous == IdAt(baseId, links, i)
  }

  ghost predicate Chained<S>(baseId: BlockId, links: seq<Link<S>>) {
    forall i: nat {:trigger Sits(baseId, links, i)} | i < |links| :: Sits(baseId, links, i)
  }

  lemma {:induction false} StepwisePush<S>(exec: Exec<S>, base: S, baseId: BlockId, links: seq<Link<S>>, l: Link<S>)
    requires Stepwise(exec, base, baseId, links)
    requires l.block.previous == TipId(baseId, links)
    requires exec(TipState(base, links), l.block) == Done(l.state, l.mark)
    ensures Stepwise(exec, base, baseId, links + [l])
  {
    forall i: nat | i < |links| + 1
      ensures Step(exec, base, baseId, links + [l], i)
    {
      assert i < |links| ==> Step(exec, base, baseId, links, i);
    }
  }

  lemma {:induction false} StepwisePrefix<S>(exec: Exec<S>, base: S, baseId: BlockId, links: seq<Link<S>>, n: nat)
    requires Stepwise(exec, base, baseId, links) && n <= |links|
    ensures Stepwise(exec, base, baseId, links[..n])
  {
    forall i: nat | i < n
      ensures Step(exec, base, baseId, links[..n], i)
    {
      assert Step(exec, base, baseId, links, i);
    }
  }

  lemma {:induction false} StepAt<S>(exec: Exec<S>, base: S, baseId: BlockId, links: seq<Link<S>>, i: nat)
    requires Stepwise(exec, base, baseId, links) && i < |links|
    ensures links[i].block.previous == TipId(baseId, links[..i])
    ensures exec(TipState(base, links[..i]), links[i].block) == Done(links[i].state, links[i].mark)
    ensures links[..i + 1] == links[..i] + [links[i]]
  {
    assert Step(exec, base, baseId, links, i);
  }

  lemma {:induction false} StepwiseIsChained<S>(exec: Exec<S>, base: S, baseId: BlockId, links: seq<Link<S>>)
    requires Stepwise(exec, base, baseId, links)
    ensures Chained(baseId, links)
  {
    forall i: nat | i < |links|
      ensures Sits(baseId, links, i)
    {
      assert Step(exec, base, baseId, links, i);
    }
  }

  /** A stepwise chain is exactly what replaying its own blocks from the base gives. */
  lemma {:induction false} ChainIsReplay<S>(exec: Exec<S>, base: S, baseId: BlockId, links: seq<Link<S>>, n: nat)
    requires n <= |links| && Stepwise(exec, base, baseId, links)
    ensures Extend(exec, StateAt(base, links, n), IdAt(baseId, links, n), BlocksOf(links[n..])) == links[n..]
    decreases |links| - n
  {
    if n < |links| {
      ChainIsReplay(exec, base, baseId, links, n + 1);
      assert Step(exec, base, baseId, links, n);
      assert links[n..] == [links[n]] + links[n + 1..];
      assert BlocksOf(links[n..])[1..] == BlocksOf(links[n + 1..]);
    }
  }

  /** What `Extend` adds continues a stepwise chain, and stops only at a failing block. */
  lemma {:induction false} ExtendContinues<S>(exec: Exec<S>, base: S, baseId: BlockId, links: seq<Link<S>>,
                                              blocks: seq<Block>)
    requires Stepwise(exec, base, baseId, links)
    ensures var more := Extend(exec, TipState(base, links), TipId(baseId, links), blocks);
            && |more| <= |blocks|
            && (forall i | 0 <= i < |more| :: more[i].block == blocks[i])
            && Stepwise(exec, base, baseId, links + more)
            && (|more| < |blocks| ==>
                blocks[|more|].previous != TipId(baseId, links + more)
                || exec(TipState(base, links + more), blocks[|more|]).Failed?)
    decreases |blocks|
  {
    var more := Extend(exec, TipState(base, links), TipId(baseId, links), blocks);
    if more == [] {
      assert links + more == links;
    } else {
      var next, rest := links + [more[0]], more[1..];
      StepwisePush(exec, base, baseId, links, more[0]);
      assert rest == Extend(exec, TipState(base, next), TipId(baseId, next), blocks[1..]);
      ExtendContinues(exec, base, baseId, next, blocks[1..]);
      assert links + more == next + rest;
      assert forall i | 0 < i < |more| :: more[i].block == rest[i - 1].block == blocks[1..][i - 1];
    }
  }

  lemma {:induction false} TipNumber<S>(baseId: BlockId, links: seq<Link<S>>, n: nat)
    requires Chained(baseId, links) && n <= |links|
    ensures NumFromId(IdAt(baseId, links, n)) == NumFromId(baseId) + n
    decreases n
  {
    if n > 0 {
      TipNumber(baseId, links, n - 1);
      assert Sits(baseId, links, n - 1);
    }
  }

  /** A branch headed by the tip lists the top of the chain, youngest first. */
  lemma {:induction false} BranchIsChainTop<S>(baseId: BlockId, links: seq<Link<S>>, s: seq<ForkItem>, k: nat)
    requires Chained(baseId, links)
    requires s != [] && Linked(s) && s[0].block.Id() == TipId(baseId, links)
    requires k <= |s| && k <= |links|
    ensures IdAt(baseId, links, |links| - k) == if k < |s| then s[k].block.Id() else s[|s| - 1].block.previous
    ensures k > 0 ==> links[|links| - k].block == s[k - 1].block
    decreases k
  {
    if k > 0 {
      BranchIsChainTop(baseId, links, s, k - 1);
      assert Sits(baseId, links, |links| - k);
    }
  }

  /** How the two branches lie to the chain when the fork database's head is the higher one. */
  lemma {:induction false} SwitchFacts<S>(baseId: BlockId, links: seq<Link<S>>, idx: Index, hd: ForkItem,
                                          f: seq<ForkItem>, s: seq<ForkItem>)
    requires WellKeyed(idx) && Chained(baseId, links)
    requires BranchesFrom(idx, hd.block.Id(), TipId(baseId, links)) == Some((f, s))
    requires hd.block.Num() > NumFromId(TipId(baseId, links))
    ensures |f| > |s| > 0 && Linked(f) && Linked(s)
    ensures s[0].block.Id() == TipId(baseId, links)
    ensures NumFromId(s[|s| - 1].block.previous) + |s| == NumFromId(TipId(baseId, links))
    ensures f[|f| - 1].block.previous == s[|s| - 1].block.previous
    ensures |s| <= |links| ==> IdAt(baseId, links, |links| - |s|) == s[|s| - 1].block.previous
  {
    var tip := TipId(baseId, links);
    BranchShape(idx, hd.block.Id(), tip);
    if |s| <= |links| {
      BranchIsChainTop(baseId, links, s, |s|);
    }
  }

  /** Branch blocks, oldest first: the order in which they are applied. */
  function Upward(line: seq<ForkItem>): seq<Block> {
    seq(|line|, i requires 0 <= i < |line| => line[|line| - 1 - i].block)
  }

  /** How applying a block on top of some links ends; the header check comes before everything else. */
  function OutcomeAt<S>(exec: Exec<S>, base: S, baseId: BlockId, links: seq<Link<S>>, b: Block): Outcome<S> {
    if b.previous != TipId(baseId, links) then Failed(Before(0)) else exec(TipState(base, links), b)
  }

  /** Applying a branch from a link on is applying its oldest block, and then the others. */
  lemma {:induction false} UpwardStep<S>(exec: Exec<S>, base: S, baseId: BlockId, links: seq<Link<S>>, f: seq<ForkItem>,
                                         k: nat)
    requires 0 < k <= |f|
    ensures var all := Extend(exec, TipState(base, links), TipId(baseId, links), Upward(f[..k]));
            match OutcomeAt(exec, base, baseId, links, f[k - 1].block)
            case Failed(_) => all == []
            case Done(s', m) =>
              var link := Link(f[k - 1].block, s', m);
              all == [link] + Extend(exec, s', link.block.Id(), Upward(f[..k - 1]))
  {
    assert Upward(f[..k])[0] == f[k - 1].block && Upward(f[..k])[1..] == Upward(f[..k - 1]);
  }

  /** The undo history: how many states it holds, and how many it keeps when a session starts. */
  datatype Undo = Undo(depth: nat, window: nat)

  /** What applying a block changes besides the chain. */
  datatype Caches = Caches(undo: Undo, index: Index, maxSize: nat)

  /** What is left of the undo states when a session starts inside `open` others. */
  function Trim(depth: nat, window: nat, open: nat): (r: nat)
    ensures r <= depth
  {
    Min(depth, Max(window - open, 0))
  }

  /** `start_undo_session` drops the oldest states as long as these and the open records outgrow the window. */
  function Opened(c: Caches, open: nat): Caches {
    c.(undo := Undo(Trim(c.undo.depth, c.undo.window, open), c.undo.window))
  }

  /** The fork index when its window is set: nothing stays below the floor under the head. */
  function PrunedBelow(index: Index, head: Option<ForkItem>, w: nat): Index {
    if head.Some? then Pruned(index, Floor(head.value.block.Num(), w)) else index
  }

  /** Both windows are set, and the fork database prunes below its own head's. */
  function Resized(c: Caches, head: Option<ForkItem>, w: nat): Caches {
    Caches(Undo(c.undo.depth, w), PrunedBelow(c.index, head, w), w)
  }

  /** The undo states that the sessions of a block leave, before and after it sets the window. */
  function Remaining(u: Undo, m: Mark): (r: nat)
    ensures r <= u.depth
  {
    var d := Trim(u.depth, u.window, m.before);
    if m.after == 0 then d else Trim(d, m.window, m.after)
  }

  /** The sessions of a block, and the windows that it sets in between. */
  function Marked(c: Caches, head: Option<ForkItem>, m: Mark): Caches {
    Caches(Undo(Remaining(c.undo, m), m.window), PrunedBelow(c.index, head, m.window), m.window)
  }

  /** An undo session with one block in it: committed, or undone. */
  function AfterOutcome<S>(c: Caches, head: Option<ForkItem>, o: Outcome<S>): Caches {
    match o
    case Done(_, m) => AfterBlock(c, head, m)
    case Failed(After(m)) => Marked(c, head, m)
    case Failed(Before(k)) => Opened(c, k)
  }

  function AfterBlock(c: Caches, head: Option<ForkItem>, m: Mark): Caches {
    Caches(Undo(Remaining(c.undo, m) + 1, m.window), PrunedBelow(c.index, head, m.window), m.window)
  }

  /** One session for each of some applied blocks. */
  function AfterLinks<S>(c: Caches, head: Option<ForkItem>, links: seq<Link<S>>): (r: Caches)
    ensures r.undo.depth <= c.undo.depth + |links|
    ensures WellKeyed(c.index) ==> WellKeyed(r.index)
  {
    if links == [] then c
    else AfterBlock(AfterLinks(c, head, links[..|links| - 1]), head, links[|links| - 1].mark)
  }

  lemma {:induction false} OneMoreLink<S>(kept: seq<Link<S>>, done: seq<Link<S>>, link: Link<S>, c: Caches,
                                          head: Option<ForkItem>)
    ensures kept + done + [link] == kept + (done + [link])
    ensures AfterLinks(c, head, done + [link]) == AfterBlock(AfterLinks(c, head, done), head, link.mark)
    ensures forall rest: seq<Link<S>> :: done + ([link] + rest) == done + [link] + rest
  {
    assert (done + [link])[..|done|] == done;
  }

  datatype PushResult =
    | Refused      // the fork database threw: too old, or not linked
    | Parked       // stored on a branch that is not higher
    | Extended     // applied on top of the chain
    | ApplyFailed  // did not apply on top of the chain
    | NoBranch     // fetch_branch_from threw
    | Switched     // the chain now follows the other branch
    | RolledBack   // the other branch failed and the old one was restored
    | Stranded     // a pop threw half way

  /** The values of a node that a push reads and writes. */
  datatype Node<S> = Node(
    base: S, baseId: BlockId, links: seq<Link<S>>,
    caches: Caches, head: Option<ForkItem>, nextSerial: nat)
  {
    function Tip(): BlockId {
      TipId(baseId, links)
    }

    /** The node, head and index that the fork database has after taking in `b`. */
    function Item(b: Block): ForkItem {
      NewItem(caches.index, head, nextSerial, b)
    }

    function NewHead(b: Block): ForkItem {
      PushedHead(head, Item(b))
    }

    function NewIndex(b: Block): Index {
      PushedIndex(caches.index, head, caches.maxSize, Item(b))
    }

    /** The branches of the new head and of the chain head. */
    function Plan(b: Block): Option<Branches>
      requires WellKeyed(caches.index)
    {
      BranchesFrom(NewIndex(b), NewHead(b).block.Id(), Tip())
    }
  }

  /** A chain that is the replay of its blocks, with no more undo states than blocks. */
  ghost predicate Inv<S>(exec: Exec<S>, n: Node<S>) {
    && Stepwise(exec, n.base, n.baseId, n.links) && WellKeyed(n.caches.index)
    && n.caches.undo.depth <= |n.links|
  }

  /** How many pops succeed when there are this many undo states and this many fork nodes. */
  function Poppable(depth: nat, line: nat): nat
    requires line > 0
  {
    if depth < line - 1 then depth else line - 1
  }

  /** `index` without the nodes of `line`. */
  function Without(index: Index, line: seq<ForkItem>): Index {
    index - set item | item in line :: item.block.Id()
  }

  /** What pops work on: the chain, how many of its blocks can be undone, and the fork database's head. */
  datatype Top<S> = Top(links: seq<Link<S>>, depth: nat, head: Option<ForkItem>)

  /** One pop, unless one of its two halves throws. */
  function Down<S>(alive: Index, t: Top<S>): (r: Option<Top<S>>)
    requires WellKeyed(alive) && t.depth <= |t.links|
    ensures r.Some? ==> r.value.depth + 1 == t.depth && r.value.depth <= |r.value.links|
  {
    if t.depth == 0 || t.head.None? || Lock(alive, t.head.value).None? then None
    else Some(Top(t.links[..|t.links| - 1], t.depth - 1, Lock(alive, t.head.value)))
  }

  /** Pops down to a block, or until a pop throws. */
  function DownTo<S>(alive: Index, baseId: BlockId, target: BlockId, t: Top<S>): (bool, Top<S>)
    requires WellKeyed(alive) && t.depth <= |t.links|
    decreases t.depth
  {
    if TipId(baseId, t.links) == target then (true, t)
    else
      match Down(alive, t)
      case None => (false, t)
      case Some(u) => DownTo(alive, baseId, target, u)
  }

  /** The outcome of wanting k pops: as many are made as are possible. */
  function Pops<S>(alive: Index, t: Top<S>, k: nat): (bool, Top<S>)
    requires WellKeyed(alive) && t.depth <= |t.links| && t.head.Some?
  {
    var line := Ancestry(alive, t.head.value);
    var p := Poppable(t.depth, |line|);
    var n := if k <= p then k else p;
    (k <= p, Top(t.links[..|t.links| - n], t.depth - n, Some(line[n])))
  }

  lemma {:induction false} PopsStep<S>(alive: Index, t: Top<S>, k: nat)
    requires WellKeyed(alive) && t.depth <= |t.links| && t.head.Some?
    ensures k == 0 ==> Pops(alive, t, k) == (true, t)
    ensures k > 0 && Down(alive, t) == None ==> Pops(alive, t, k) == (false, t)
    ensures k > 0 && Down(alive, t).Some? ==> Pops(alive, t, k) == Pops(alive, Down(alive, t).value, k - 1)
  {
    var line := Ancestry(alive, t.head.value);
    assert t.links[..|t.links|] == t.links;
    if k > 0 && Down(alive, t).Some? {
      var u := Down(alive, t).value;
      assert line[1..] == Ancestry(alive, u.head.value);
      var n := Pops(alive, u, k - 1).1.depth;
      assert u.links[..|u.links| - (u.depth - n)] == t.links[..|t.links| - (t.depth - n)];
    }
  }

  lemma {:induction false} ChainedPrefix<S>(baseId: BlockId, links: seq<Link<S>>, n: nat)
    requires Chained(baseId, links) && n <= |links|
    ensures Chained(baseId, links[..n])
  {
    forall i: nat | i < n
      ensures Sits(baseId, links[..n], i)
    {
      assert Sits(baseId, links, i);
    }
  }

  lemma {:induction false} OneBelow<S>(baseId: BlockId, links: seq<Link<S>>, target: BlockId, k: nat,
                                       below: seq<Link<S>>)
    requires Chained(baseId, links) && 0 < k && links != [] && below == links[..|links| - 1]
    requires NumFromId(target) + k == NumFromId(TipId(baseId, links))
    requires k <= |links| ==> IdAt(baseId, links, |links| - k) == target
    ensures TipId(baseId, links) != target
    ensures Chained(baseId, below) && NumFromId(target) + (k - 1) == NumFromId(TipId(baseId, below))
    ensures k - 1 <= |below| ==> IdAt(baseId, below, |below| - (k - 1)) == target
  {
    TipNumber(baseId, links, |links|);
    TipNumber(baseId, links, |below|);
    ChainedPrefix(baseId, links, |below|);
  }

  /** Wanting k pops, one after the other. */
  function DownBy<S>(alive: Index, t: Top<S>, k: nat): (bool, Top<S>)
    requires WellKeyed(alive) && t.depth <= |t.links|
    decreases k
  {
    if k == 0 then (true, t)
    else
      match Down(alive, t)
      case None => (false, t)
      case Some(u) => DownBy(alive, u, k - 1)
  }

  lemma {:induction false} PopsAreDowns<S>(alive: Index, t: Top<S>, k: nat)
    requires WellKeyed(alive) && t.depth <= |t.links| && t.head.Some?
    ensures DownBy(alive, t, k) == Pops(alive, t, k)
    decreases k
  {
    PopsStep(alive, t, k);
    if k > 0 && Down(alive, t).Some? {
      PopsAreDowns(alive, Down(alive, t).value, k - 1);
    }
  }

  lemma {:induction false} DownsReach<S>(alive: Index, baseId: BlockId, target: BlockId, t: Top<S>, k: nat)
    requires WellKeyed(alive) && t.depth <= |t.links| && Chained(baseId, t.links)
    requires NumFromId(target) + k == NumFromId(TipId(baseId, t.links))
    requires k <= |t.links| ==> IdAt(baseId, t.links, |t.links| - k) == target
    ensures DownTo(alive, baseId, target, t) == DownBy(alive, t, k)
    decreases k
  {
    if k > 0 && Down(alive, t).Some? {
      var u := Down(alive, t).value;
      OneBelow(baseId, t.links, target, k, u.links);
      DownsReach(alive, baseId, target, u, k - 1);
    }
  }

  /** Popping down to the block k down is popping k times. */
  lemma {:induction false} PopsReach<S>(alive: Index, baseId: BlockId, target: BlockId, t: Top<S>, k: nat)
    requires WellKeyed(alive) && t.depth <= |t.links| && t.head.Some? && Chained(baseId, t.links)
    requires NumFromId(target) + k == NumFromId(TipId(baseId, t.links))
    requires k <= |t.links| ==> IdAt(baseId, t.links, |t.links| - k) == target
    ensures DownTo(alive, baseId, target, t) == Pops(alive, t, k)
  {
    DownsReach(alive, baseId, target, t, k);
    PopsAreDowns(alive, t, k);
  }

  /** The nodes of `line`, which stay alive while `_push_block` holds the branches. */
  function Held(index: Index, line: seq<ForkItem>): Index {
    map id | id in index && index[id] in line :: index[id]
  }

  /** What a push returns and leaves behind. */
  datatype Effect<S> = Effect(result: PushResult, links: seq<Link<S>>, caches: Caches, head: Option<ForkItem>)

  /** The effect of `_push_block`; `head` means nothing when the result is `Stranded`. */
  function Push<S>(exec: Exec<S>, n: Node<S>, b: Block): Effect<S>
    requires WellKeyed(n.caches.index) && n.caches.undo.depth <= |n.links|
  {
    var hd, c := n.NewHead(b), n.caches.(index := n.NewIndex(b));
    if !Acceptable(n.caches.index, n.head, n.caches.maxSize, b) then
      Effect(Refused, n.links, n.caches, n.head)
    else if hd.block.previous == n.Tip() then OnTop(exec, n.base, n.baseId, n.links, c, hd, b)
    else Follow(exec, n.base, n.baseId, n.links, c, hd)
  }

  /** The effect when the fork database's head is on top of the chain: the block is applied, or forgotten. */
  function OnTop<S>(exec: Exec<S>, base: S, baseId: BlockId, links: seq<Link<S>>, c: Caches, hd: ForkItem,
                    b: Block): Effect<S>
  {
    var o := OutcomeAt(exec, base, baseId, links, b);
    var after := AfterOutcome(c, Some(hd), o);
    match o
    case Done(s', m) => Effect(Extended, links + [Link(b, s', m)], after, Some(hd))
    case Failed(_) => Effect(ApplyFailed, links, after.(index := after.index - {b.Id()}), Some(hd))
  }

  /** The effect when the fork database's head is not on top of the chain: it is followed if it is higher. */
  function Follow<S>(exec: Exec<S>, base: S, baseId: BlockId, links: seq<Link<S>>, c: Caches, hd: ForkItem): Effect<S>
    requires WellKeyed(c.index) && c.undo.depth <= |links|
  {
    if hd.block.Num() <= NumFromId(TipId(baseId, links)) then Effect(Parked, links, c, Some(hd))
    else
      match BranchesFrom(c.index, hd.block.Id(), TipId(baseId, links))
      case None => Effect(NoBranch, links, c, Some(hd))
      case Some((f, s)) => Switch(exec, base, baseId, links, c, hd, f, s)
  }

  /** The effect of the switch from the old branch `s` to the new branch `f`. */
  function Switch<S>(exec: Exec<S>, base: S, baseId: BlockId, links: seq<Link<S>>, c: Caches, hd: ForkItem,
                     f: seq<ForkItem>, s: seq<ForkItem>): Effect<S>
    requires WellKeyed(c.index) && c.undo.depth <= |links| && f != [] && s != []
  {
    var (ok, u) := Pops(c.index, Top(links, c.undo.depth, Some(hd)), |s|);
    var after := c.(undo := Undo(u.depth, c.undo.window));
    if ok then Try(exec, base, baseId, links, after, u.head.value, f, s)
    else Effect(Stranded, u.links, after, None)
  }

  /** The links that the blocks of `f` make once the old branch `s` has been popped. */
  function Tried<S>(exec: Exec<S>, base: S, baseId: BlockId, links: seq<Link<S>>, f: seq<ForkItem>,
                    s: seq<ForkItem>): seq<Link<S>>
    requires |s| <= |links|
  {
    var kept := links[..|links| - |s|];
    Extend(exec, TipState(base, kept), TipId(baseId, kept), Upward(f))
  }

  /** The loop over the first k nodes of a branch, the last of them first: how many are left, and what it leaves. */
  function RunBranch<S>(exec: Exec<S>, base: S, baseId: BlockId, links: seq<Link<S>>, c: Caches, head: Option<ForkItem>,
                        f: seq<ForkItem>, k: nat): (nat, seq<Link<S>>, Caches)
    requires k <= |f|
    decreases k
  {
    if k == 0 then (0, links, c)
    else
      var b := f[k - 1].block;
      var o := OutcomeAt(exec, base, baseId, links, b);
      var after := AfterOutcome(c, head, o);
      match o
      case Failed(_) => (k, links, after)
      case Done(s', m) => RunBranch(exec, base, baseId, links + [Link(b, s', m)], after, head, f, k - 1)
  }

  lemma {:induction false} RunBranchStep<S>(exec: Exec<S>, base: S, baseId: BlockId, links: seq<Link<S>>, c: Caches,
                                            head: Option<ForkItem>, f: seq<ForkItem>, k: nat)
    requires 0 < k <= |f|
    ensures var o := OutcomeAt(exec, base, baseId, links, f[k - 1].block);
            RunBranch(exec, base, baseId, links, c, head, f, k)
            == if o.Failed? then (k, links, AfterOutcome(c, head, o))
               else RunBranch(exec, base, baseId, links + [Link(f[k - 1].block, o.state, o.mark)],
                              AfterOutcome(c, head, o), head, f, k - 1)
  {
  }

  /** The caches when the blocks of `f` have been applied on some links, as far as `tried`. */
  function AfterBranch<S>(exec: Exec<S>, base: S, baseId: BlockId, kept: seq<Link<S>>, tried: seq<Link<S>>, c: Caches,
                          head: Option<ForkItem>, f: seq<ForkItem>): (r: Caches)
    requires |tried| <= |f|
    ensures WellKeyed(c.index) ==> WellKeyed(r.index)
    ensures r.undo.depth <= c.undo.depth + |tried|
  {
    var after := AfterLinks(c, head, tried);
    if |tried| == |f| then after
    else
      var o := OutcomeAt(exec, base, baseId, kept + tried, f[|f| - |tried| - 1].block);
      if o.Failed? then AfterOutcome(after, head, o) else after
  }

  lemma {:induction false} RunBranchStops<S>(exec: Exec<S>, base: S, baseId: BlockId, kept: seq<Link<S>>, c: Caches,
                                             head: Option<ForkItem>, f: seq<ForkItem>, done: seq<Link<S>>, k: nat)
    requires k <= |f| && |done| + k == |f|
    requires k > 0 ==> OutcomeAt(exec, base, baseId, kept + done, f[k - 1].block).Failed?
    ensures RunBranch(exec, base, baseId, kept + done, AfterLinks(c, head, done), head, f, k)
            == (k, kept + done, AfterBranch(exec, base, baseId, kept, done, c, head, f))
  {
  }

  /** The loop applies what `Extend` extends by. */
  lemma {:induction false} RunBranchExtends<S>(exec: Exec<S>, base: S, baseId: BlockId, kept: seq<Link<S>>, c: Caches,
                                               head: Option<ForkItem>, f: seq<ForkItem>, all: seq<Link<S>>,
                                               done: seq<Link<S>>, k: nat)
    requires k <= |f| && |done| + k == |f|
    requires all == done + Extend(exec, TipState(base, kept + done), TipId(baseId, kept + done), Upward(f[..k]))
    ensures |all| <= |f|
    ensures RunBranch(exec, base, baseId, kept + done, AfterLinks(c, head, done), head, f, k)
            == (|f| - |all|, kept + all, AfterBranch(exec, base, baseId, kept, all, c, head, f))
    ensures |all| < |f| ==> OutcomeAt(exec, base, baseId, kept + all, f[|f| - |all| - 1].block).Failed?
    decreases k
  {
    if k == 0 {
      assert all == done;
      RunBranchStops(exec, base, baseId, kept, c, head, f, done, k);
    } else {
      UpwardStep(exec, base, baseId, kept + done, f, k);
      match OutcomeAt(exec, base, baseId, kept + done, f[k - 1].block)
      case Failed(_) =>
        assert all == done;
        RunBranchStops(exec, base, baseId, kept, c, head, f, done, k);
      case Done(s', m) =>
        var link := Link(f[k - 1].block, s', m);
        OneMoreLink(kept, done, link, c, head);
        RunBranchStep(exec, base, baseId, kept + done, AfterLinks(c, head, done), head, f, k);
        RunBranchExtends(exec, base, baseId, kept, c, head, f, all, done + [link], k - 1);
    }
  }

  lemma {:induction false} RunBranchFromStart<S>(exec: Exec<S>, base: S, baseId: BlockId, kept: seq<Link<S>>, c: Caches,
                                                 head: Option<ForkItem>, f: seq<ForkItem>, all: seq<Link<S>>)
    requires all == Extend(exec, TipState(base, kept), TipId(baseId, kept), Upward(f))
    ensures |all| <= |f|
    ensures RunBranch(exec, base, baseId, kept, c, head, f, |f|)
            == (|f| - |all|, kept + all, AfterBranch(exec, base, baseId, kept, all, c, head, f))
    ensures |all| < |f| ==> OutcomeAt(exec, base, baseId, kept + all, f[|f| - |all| - 1].block).Failed?
  {
    var done, whole := all[..0], f[..|f|];
    assert kept + done == kept && whole == f && done + all == all;
    assert all == done + Extend(exec, TipState(base, kept + done), TipId(baseId, kept + done), Upward(whole));
    assert AfterLinks(c, head, done) == c;
    RunBranchExtends(exec, base, baseId, kept, c, head, f, all, done, |f|);
  }

  /** The caches when a block of `f` has failed on top of `tried`, and it and those above it are forgotten. */
  function Forgotten<S>(exec: Exec<S>, base: S, baseId: BlockId, kept: seq<Link<S>>, tried: seq<Link<S>>, c: Caches,
                        hd: ForkItem, f: seq<ForkItem>): (r: Caches)
    requires |tried| < |f|
    ensures WellKeyed(c.index) ==> WellKeyed(r.index)
    ensures r.undo.depth <= c.undo.depth + |tried|
  {
    var after := AfterBranch(exec, base, baseId, kept, tried, c, Some(hd), f);
    after.(index := Without(after.index, f[..|f| - |tried|]))
  }

  /** The effect of going back to `links`, whose top `s` was replaced by `tried`. */
  function Back<S>(held: Index, c: Caches, links: seq<Link<S>>, tried: seq<Link<S>>, s: seq<ForkItem>): Effect<S>
    requires WellKeyed(held) && WellKeyed(c.index) && s != []
    requires |s| <= |links| && c.undo.depth <= |links| - |s| + |tried|
  {
    var (ok, u) := Pops(held + c.index, Top(links[..|links| - |s|] + tried, c.undo.depth, Some(s[0])), |tried|);
    var after := c.(undo := Undo(u.depth, c.undo.window));
    if ok then Effect(RolledBack, links, AfterLinks(after, u.head, links[|links| - |s|..]), u.head)
    else Effect(Stranded, u.links, after, None)
  }

  /** Going back is popping as often as blocks were tried, and then restoring. */
  lemma {:induction false} BackIsPops<S>(held: Index, c: Caches, baseId: BlockId, was: seq<Link<S>>,
                                         tried: seq<Link<S>>, s: seq<ForkItem>)
    requires WellKeyed(held) && WellKeyed(c.index)
    requires s != [] && |s| <= |was| && Linked(s) && s[0].block.Id() == TipId(baseId, was)
    requires Chained(baseId, was) && Chained(baseId, was[..|was| - |s|] + tried)
    requires c.undo.depth <= |was| - |s| + |tried|
    ensures var t := Top(was[..|was| - |s|] + tried, c.undo.depth, Some(s[0]));
            var r := Pops(held + c.index, t, |tried|);
            && DownTo(held + c.index, baseId, s[|s| - 1].block.previous, t) == r
            && r.1.links == t.links[..|r.1.links|]
            && (r.0 ==> r.1.links == was[..|was| - |s|])
  {
    var kept := was[..|was| - |s|];
    var t := Top(kept + tried, c.undo.depth, Some(s[0]));
    BranchIsChainTop(baseId, was, s, |s|);
    TipNumber(baseId, t.links, |t.links|);
    TipNumber(baseId, t.links, |kept|);
    assert IdAt(baseId, t.links, |kept|) == IdAt(baseId, was, |kept|);
    PopsReach(held + c.index, baseId, s[|s| - 1].block.previous, t, |tried|);
  }

  /** The effect of trying `f` once the old branch `s` has been popped. */
  function Try<S>(exec: Exec<S>, base: S, baseId: BlockId, links: seq<Link<S>>, c: Caches, hd: ForkItem,
                  f: seq<ForkItem>, s: seq<ForkItem>): Effect<S>
    requires WellKeyed(c.index) && s != [] && |s| <= |links| && c.undo.depth <= |links| - |s|
  {
    var kept, tried := links[..|links| - |s|], Tried(exec, base, baseId, links, f, s);
    if |tried| == |f| then
      Effect(Switched, kept + tried, AfterBranch(exec, base, baseId, kept, tried, c, Some(hd), f), Some(hd))
    else
      Back(Held(c.index, s), Forgotten(exec, base, baseId, kept, tried, c, hd, f), links, tried, s)
  }

  /** Trying a branch is running it, and going back if a block is left. */
  lemma {:induction false} TryIsRun<S>(exec: Exec<S>, base: S, baseId: BlockId, was: seq<Link<S>>, c: Caches,
                                       hd: ForkItem, f: seq<ForkItem>, s: seq<ForkItem>, kept: seq<Link<S>>,
                                       tried: seq<Link<S>>)
    requires WellKeyed(c.index) && s != [] && |s| <= |was| && c.undo.depth <= |was| - |s|
    requires kept == was[..|was| - |s|] && tried == Tried(exec, base, baseId, was, f, s)
    ensures |tried| <= |f|
    ensures |tried| < |f| ==> OutcomeAt(exec, base, baseId, kept + tried, f[|f| - |tried| - 1].block).Failed?
    ensures RunBranch(exec, base, baseId, kept, c, Some(hd), f, |f|)
            == (|f| - |tried|, kept + tried, AfterBranch(exec, base, baseId, kept, tried, c, Some(hd), f))
    ensures Try(exec, base, baseId, was, c, hd, f, s)
            == if |tried| == |f| then
                 Effect(Switched, kept + tried, AfterBranch(exec, base, baseId, kept, tried, c, Some(hd), f), Some(hd))
               else
                 Back(Held(c.index, s), Forgotten(exec, base, baseId, kept, tried, c, hd, f), was, tried, s)
  {
    RunBranchFromStart(exec, base, baseId, kept, c, Some(hd), f, tried);
  }

  lemma {:induction false} ForgottenLeft<S>(exec: Exec<S>, base: S, baseId: BlockId, kept: seq<Link<S>>,
                                            tried: seq<Link<S>>, c: Caches, hd: ForkItem, f: seq<ForkItem>, left: nat,
                                            after: Caches)
    requires 0 < left <= |f| && left == |f| - |tried|
    requires after == AfterBranch(exec, base, baseId, kept, tried, c, Some(hd), f)
    ensures Forgotten(exec, base, baseId, kept, tried, c, hd, f) == after.(index := Without(after.index, f[..left]))
  {
  }

  /** What a try comes to, in terms of where the loop over the new branch ended. */
  lemma {:induction false} TryFromRun<S>(exec: Exec<S>, base: S, baseId: BlockId, was: seq<Link<S>>, c: Caches,
                                         hd: ForkItem, f: seq<ForkItem>, s: seq<ForkItem>, kept: seq<Link<S>>,
                                         tried: seq<Link<S>>, left: nat, now: seq<Link<S>>, after: Caches)
    returns (forgotten: Caches)
    requires WellKeyed(c.index) && s != [] && |s| <= |was| && c.undo.depth <= |was| - |s|
    requires kept == was[..|was| - |s|] && tried == Tried(exec, base, baseId, was, f, s)
    requires left <= |f| && (left, now, after) == RunBranch(exec, base, baseId, kept, c, Some(hd), f, |f|)
    ensures now == kept + tried && now[|kept|..] == tried
    ensures left == 0 ==> Try(exec, base, baseId, was, c, hd, f, s) == Effect(Switched, now, after, Some(hd))
    ensures left > 0 ==>
              && forgotten == after.(index := Without(after.index, f[..left]))
              && WellKeyed(forgotten.index) && forgotten.undo.depth <= |was| - |s| + |tried|
              && Try(exec, base, baseId, was, c, hd, f, s) == Back(Held(c.index, s), forgotten, was, tried, s)
  {
    TryIsRun(exec, base, baseId, was, c, hd, f, s, kept, tried);
    forgotten := after;
    if left > 0 {
      forgotten := Forgotten(exec, base, baseId, kept, tried, c, hd, f);
      ForgottenLeft(exec, base, baseId, kept, tried, c, hd, f, left, after);
    }
  }

  /** What has been popped applies again, with the same outcome. */
  lemma {:induction false} AppliesAgain<S>(exec: Exec<S>, base: S, baseId: BlockId, was: seq<Link<S>>,
                                           s: seq<ForkItem>, i: nat)
    requires Stepwise(exec, base, baseId, was) && Linked(s) && |s| <= |was| && |was| - |s| <= i < |was|
    requires s[0].block.Id() == TipId(baseId, was)
    ensures s[|was| - i - 1].block == was[i].block && was[..i] + [was[i]] == was[..i + 1]
    ensures OutcomeAt(exec, base, baseId, was[..i], was[i].block) == Done(was[i].state, was[i].mark)
  {
    StepwiseIsChained(exec, base, baseId, was);
    StepAt(exec, base, baseId, was, i);
    BranchIsChainTop(baseId, was, s, |was| - i);
  }

  lemma {:induction false} AfterOneMore<S>(was: seq<Link<S>>, bottom: nat, i: nat, c: Caches, head: Option<ForkItem>)
    requires bottom <= i < |was|
    ensures AfterLinks(c, head, was[bottom..i + 1])
            == AfterBlock(AfterLinks(c, head, was[bottom..i]), head, was[i].mark)
  {
    assert was[bottom..i + 1][..i - bottom] == was[bottom..i];
  }

  /** What the block files say is stored under each number: an id, and a block. */
  type Files = map<nat, (BlockId, Block)>

  /** `block_database::store`: the slot goes by the id, whatever the block. */
  function Store(files: Files, id: BlockId, b: Block): Files {
    files[NumFromId(id) := (id, b)]
  }

  /** Every block stored under its own id, in order. */
  function Stored<S>(files: Files, links: seq<Link<S>>): Files {
    if links == [] then files
    else
      var b := links[|links| - 1].block;
      Store(Stored(files, links[..|links| - 1]), b.Id(), b)
  }

  lemma {:induction false} StoredNext<S>(files: Files, links: seq<Link<S>>, link: Link<S>)
    ensures Stored(files, links + [link]) == Store(Stored(files, links), link.block.Id(), link.block)
  {
    assert (links + [link])[..|links|] == links;
  }

  /** The block is stored under its number, and under its own id. */
  predicate FiledAt<S>(files: Files, link: Link<S>) {
    var num := link.block.Num();
    num in files && files[num] == (link.block.Id(), link.block)
  }

  /** The files agree with the chain. */
  ghost predicate Filed<S>(files: Files, links: seq<Link<S>>) {
    forall i {:trigger FiledAt(files, links[i])} | 0 <= i < |links| :: FiledAt(files, links[i])
  }

  /** Consecutive blocks, the first of which is the one after `low`. */
  ghost predicate Numbered<S>(links: seq<Link<S>>, low: nat) {
    forall i | 0 <= i < |links| :: links[i].block.Num() == low + i + 1
  }

  lemma {:induction false} ChainIsNumbered<S>(baseId: BlockId, links: seq<Link<S>>)
    requires Chained(baseId, links)
    ensures Numbered(links, NumFromId(baseId))
  {
    forall i | 0 <= i < |links|
      ensures links[i].block.Num() == NumFromId(baseId) + i + 1
    {
      TipNumber(baseId, links, i);
      assert Sits(baseId, links, i);
    }
  }

  /** Storing consecutive blocks changes their slots, and no others. */
  lemma {:induction false} StoredSlot<S>(files: Files, links: seq<Link<S>>, low: nat, k: nat)
    requires Numbered(links, low)
    ensures var stored := Stored(files, links);
            if low < k <= low + |links| then k in stored && FiledAt(stored, links[k - low - 1])
            else (k in stored <==> k in files) && (k in files ==> stored[k] == files[k])
    decreases |links|
  {
    if links != [] {
      var before := links[..|links| - 1];
      StoredSlot(files, before, low, k);
      assert low < k <= low + |before| ==> before[k - low - 1] == links[k - low - 1];
    }
  }

  /** `fetch_block_by_id`: whether the block of this id is in the fork index, or in its slot of the files. */
  predicate Findable(index: Index, files: Files, id: BlockId) {
    var num := NumFromId(id);
    id in index || (num in files && files[num].0 == id && files[num].1.Id() == id)
  }

  /** The links from `low` on can be found by their ids, which is what pops need. */
  ghost predicate AllFindable<S>(index: Index, files: Files, links: seq<Link<S>>, low: nat) {
    forall i | low <= i < |links| :: Findable(index, files, links[i].block.Id())
  }

  /** The blocks of the old branch are cached, so that their pops find them. */
  lemma {:induction false} BranchFindable<S>(baseId: BlockId, links: seq<Link<S>>, idx: Index, files: Files,
                                             hd: ForkItem, f: seq<ForkItem>, s: seq<ForkItem>, low: nat)
    requires WellKeyed(idx) && Chained(baseId, links)
    requires BranchesFrom(idx, hd.block.Id(), TipId(baseId, links)) == Some((f, s))
    requires |links| - |s| <= low
    ensures AllFindable(idx, files, links, low)
  {
    BranchShape(idx, hd.block.Id(), TipId(baseId, links));
    forall i | low <= i < |links|
      ensures Findable(idx, files, links[i].block.Id())
    {
      BranchIsChainTop(baseId, links, s, |links| - i);
      OldBranchIsIndexed(idx, hd.block.Id(), TipId(baseId, links), |links| - i - 1);
    }
  }

  /** What was tried was stored, so that its pops find it. */
  lemma {:induction false} TriedFindable<S>(baseId: BlockId, kept: seq<Link<S>>, tried: seq<Link<S>>, files: Files)
    requires Chained(baseId, kept + tried)
    ensures AllFindable(map[], Stored(files, tried), kept + tried, |kept|)
  {
    var all, low := kept + tried, NumFromId(baseId);
    ChainIsNumbered(baseId, all);
    forall i | 0 <= i < |tried|
      ensures tried[i].block.Num() == low + |kept| + i + 1
    {
      assert all[|kept| + i] == tried[i];
    }
    forall i | |kept| <= i < |all|
      ensures Findable(map[], Stored(files, tried), all[i].block.Id())
    {
      StoredSlot(files, tried, low + |kept|, low + i + 1);
      assert all[i] == tried[i - |kept|];
    }
  }

  /** The files after a try: the restored blocks are all stored under the id of the block that was pushed. */
  function TryFiles<S>(files: Files, tried: seq<Link<S>>, newId: BlockId, s: seq<ForkItem>, r: PushResult): Files
    requires s != []
  {
    if r == RolledBack then Store(Stored(files, tried), newId, s[0].block) else Stored(files, tried)
  }

  function SwitchFiles<S>(exec: Exec<S>, base: S, baseId: BlockId, links: seq<Link<S>>, c: Caches, hd: ForkItem,
                          f: seq<ForkItem>, s: seq<ForkItem>, newId: BlockId, r: PushResult, files: Files): Files
    requires WellKeyed(c.index) && c.undo.depth <= |links| && f != [] && s != []
  {
    if !Pops(c.index, Top(links, c.undo.depth, Some(hd)), |s|).0 then files
    else TryFiles(files, Tried(exec, base, baseId, links, f, s), newId, s, r)
  }

  function FollowFiles<S>(exec: Exec<S>, base: S, baseId: BlockId, links: seq<Link<S>>, c: Caches, hd: ForkItem,
                          newId: BlockId, r: PushResult, files: Files): Files
    requires WellKeyed(c.index) && c.undo.depth <= |links| && r == Follow(exec, base, baseId, links, c, hd).result
  {
    if r !in {Switched, RolledBack, Stranded} then files
    else
      var (f, s) := BranchesFrom(c.index, hd.block.Id(), TipId(baseId, links)).value;
      SwitchFiles(exec, base, baseId, links, c, hd, f, s, newId, r, files)
  }

  /** The files after a push with result `r`. */
  function PushFiles<S>(exec: Exec<S>, n: Node<S>, b: Block, r: PushResult, files: Files): Files
    requires WellKeyed(n.caches.index) && n.caches.undo.depth <= |n.links|
    requires r == Push(exec, n, b).result
  {
    if r == Extended then Store(files, b.Id(), b)
    else if r in {Switched, RolledBack, Stranded} then
      FollowFiles(exec, n.base, n.baseId, n.links, n.caches.(index := n.NewIndex(b)), n.NewHead(b), b.Id(), r, files)
    else files
  }

  /** The chain with its undo history, the fork database beside it, and what the block files hold. */
  class ChainDatabase<!S> {
    const exec: Exec<S>
    const forkDb: ForkDatabase
    var base: S
    var baseId: BlockId
    var links: seq<Link<S>>
    var undoDepth: nat
    var undoWindow: nat
    var files: Files

    /** The chain is the replay of its blocks, and no more states than blocks can be undone. */
    ghost predicate Sound()
      reads this, forkDb
    {
      Stepwise(exec, base, baseId, links) && undoDepth <= |links| && forkDb.Valid()
    }

    ghost function CachesNow(): Caches
      reads this, forkDb
    {
      Caches(Undo(undoDepth, undoWindow), forkDb.index, forkDb.maxSize)
    }

    ghost function Snapshot(): Node<S>
      reads this, forkDb
    {
      Node(base, baseId, links, CachesNow(), forkDb.head, forkDb.nextSerial)
    }

    ghost function EffectNow(r: PushResult): Effect<S>
      reads this, forkDb
    {
      Effect(r, links, CachesNow(), if r == Stranded then None else forkDb.head)
    }

    constructor (exec: Exec<S>, base: S, baseId: BlockId)
      ensures Sound() && fresh(forkDb) && this.exec == exec
      ensures Snapshot() == Node(base, baseId, [], Caches(Undo(0, MIN_UNDO_HISTORY), map[], 1024), None, 0)
              && files == map[]
    {
      this.exec := exec;
      this.base, this.baseId, this.links := base, baseId, [];
      undoDepth, undoWindow, files := 0, MIN_UNDO_HISTORY, map[];
      forkDb := new ForkDatabase();
    }

    function HeadId(): BlockId
      reads this
    {
      TipId(baseId, links)
    }

    /** `start_undo_session` inside `open` other sessions: the oldest states go first. */
    method OpenSession(open: nat)
      requires undoDepth <= |links|
      modifies this`undoDepth
      ensures undoDepth <= |links| && CachesNow() == Opened(old(CachesNow()), open)
    {
      while undoDepth > 0 && undoDepth + open > undoWindow
        invariant undoDepth <= old(undoDepth)
        invariant Trim(undoDepth, undoWindow, open) == Trim(old(undoDepth), undoWindow, open)
      {
        undoDepth := undoDepth - 1;
      }
    }

    /**
     `_push_transaction` between pushes: a session for all pending transactions unless there is one, a
     session for this transaction inside it, and sessions of proposals inside that. They are gone when
     a push starts, but what they have dropped stays dropped.
     */
    method PushTransaction(pending: bool, nested: nat)
      requires Sound()
      modifies this`undoDepth
      ensures Sound() && CachesNow() == Opened(old(CachesNow()), 1 + nested)
    {
      if !pending {
        OpenSession(0);
      }
      OpenSession(1);
      if nested > 0 {
        OpenSession(1 + nested);
      }
    }

    /** `set_max_size` of both databases. */
    method Resize(w: nat)
      requires forkDb.Valid()
      modifies this`undoWindow, forkDb`index, forkDb`maxSize
      ensures forkDb.Valid() && CachesNow() == Resized(old(CachesNow()), forkDb.head, w)
    {
      undoWindow := w;
      forkDb.SetMaxSize(w);
    }

    /** The sessions inside a block's own, and the windows that `update_global_dynamic_data` sets in between. */
    method Pass(m: Mark)
      requires forkDb.Valid() && undoDepth <= |links|
      modifies this`undoDepth, this`undoWindow, forkDb`index, forkDb`maxSize
      ensures forkDb.Valid() && undoDepth <= |links| && CachesNow() == Marked(old(CachesNow()), forkDb.head, m)
    {
      OpenSession(m.before);
      Resize(m.window);
      if m.after > 0 {
        OpenSession(m.after);
      }
    }

    /** `apply_block` inside an undo session: a failure leaves no trace on the chain. */
    method ApplyBlock(b: Block) returns (ok: bool)
      requires Sound()
      modifies this`links, this`undoDepth, this`undoWindow, forkDb`index, forkDb`maxSize
      ensures Sound()
      ensures var o := OutcomeAt(exec, base, baseId, old(links), b);
              && ok == o.Done?
              && links == (if ok then old(links) + [Link(b, o.state, o.mark)] else old(links))
              && CachesNow() == AfterOutcome(old(CachesNow()), forkDb.head, o)
    {
      OpenSession(0);
      if b.previous != HeadId() {
        return false;
      }
      match exec(TipState(base, links), b)
      case Failed(Before(k)) =>
        OpenSession(k);
        return false;
      case Failed(After(m)) =>
        Pass(m);
        return false;
      case Done(s', m) =>
        StepwisePush(exec, base, baseId, links, Link(b, s', m));
        Pass(m);
        links := links + [Link(b, s', m)];
        undoDepth := undoDepth + 1;
        return true;
    }

    /** A session in which a block is applied, and then stored under an id. */
    method ApplyAndStore(id: BlockId, b: Block) returns (ok: bool)
      requires Sound()
      modifies this`links, this`undoDepth, this`undoWindow, this`files, forkDb`index, forkDb`maxSize
      ensures Sound()
      ensures var o := OutcomeAt(exec, base, baseId, old(links), b);
              && ok == o.Done?
              && links == (if ok then old(links) + [Link(b, o.state, o.mark)] else old(links))
              && CachesNow() == AfterOutcome(old(CachesNow()), forkDb.head, o)
              && files == if ok then Store(old(files), id, b) else old(files)
    {
      ok := ApplyBlock(b);
      if ok {
        files := Store(files, id, b);
      }
    }

    ghost function TopNow(): Top<S>
      reads this, forkDb
    {
      Top(links, undoDepth, forkDb.head)
    }

    /** `database::pop_block`: the head block is looked up, the fork database steps, and one undo state is dropped. */
    method PopBlock(held: Index) returns (ok: bool)
      requires forkDb.Valid() && WellKeyed(held) && undoDepth <= |links|
      modifies this`links, this`undoDepth, forkDb`head
      ensures var r :=
              if Findable(forkDb.index, files, old(HeadId())) then Down(held + forkDb.index, old(TopNow())) else None;
              ok == r.Some? && if ok then TopNow() == r.value else links == old(links) && undoDepth == old(undoDepth)
    {
      var num := NumFromId(HeadId());
      if HeadId() !in forkDb.index && (num !in files || files[num].0 != HeadId() || files[num].1.Id() != HeadId()) {
        return false;
      }
      ok := forkDb.PopBlock(held);
      if !ok {
        return;
      }
      if undoDepth == 0 {
        return false;
      }
      undoDepth := undoDepth - 1;
      links := links[..|links| - 1];
    }

    /** The loop that pops until the head is `target`; the blocks down to it, or all of them, can be found. */
    method PopUntil(held: Index, target: BlockId, ghost low: nat) returns (ok: bool)
      requires forkDb.Valid() && WellKeyed(held) && undoDepth <= |links|
      requires low <= |links| && (low > 0 ==> IdAt(baseId, links, low) == target)
      requires AllFindable(forkDb.index, files, links, low)
      modifies this`links, this`undoDepth, forkDb`head
      ensures var r := DownTo(held + forkDb.index, baseId, target, old(TopNow()));
              ok == r.0 && links == r.1.links && undoDepth == r.1.depth && (ok ==> forkDb.head == r.1.head)
    {
      ghost var was, t := links, TopNow();
      ok := true;
      while ok && HeadId() != target
        invariant t.depth <= |t.links| && links == t.links && undoDepth == t.depth && (ok ==> forkDb.head == t.head)
        invariant low <= |links| <= |was| && links == was[..|links|]
        invariant DownTo(held + forkDb.index, baseId, target, old(TopNow()))
                  == if ok then DownTo(held + forkDb.index, baseId, target, t) else (false, t)
        decreases t.depth, ok
      {
        assert |links| > low ==> Findable(forkDb.index, files, was[|links| - 1].block.Id());
        ok := PopBlock(held);
        t := if ok then TopNow() else t;
      }
    }

    /** Drops the nodes of `gone` from the fork index, the last one first. */
    method Forget(gone: seq<ForkItem>)
      requires forkDb.Valid()
      modifies forkDb`index
      ensures forkDb.Valid() && forkDb.index == Without(old(forkDb.index), gone)
    {
      ghost var idx := forkDb.index;
      var i := |gone|;
      while i > 0
        invariant 0 <= i <= |gone| && forkDb.Valid()
        invariant forkDb.index == Without(idx, gone[i..])
      {
        i := i - 1;
        forkDb.Remove(gone[i].block.Id());
        assert gone[i..] == [gone[i]] + gone[i + 1..];
      }
      assert gone[0..] == gone;
    }

    /** Applies one block of the old branch again. */
    method RestoreOne(newId: BlockId, s: seq<ForkItem>, m: nat, ghost was: seq<Link<S>>, ghost i: nat, ghost c: Caches)
      requires Sound() && Stepwise(exec, base, baseId, was) && Linked(s) && m < |s| <= |was| && i + m + 1 == |was|
      requires s[0].block.Id() == TipId(baseId, was) && links == was[..i]
      requires CachesNow() == AfterLinks(c, forkDb.head, was[|was| - |s|..i])
      modifies this`links, this`undoDepth, this`undoWindow, this`files, forkDb`index, forkDb`maxSize
      ensures Sound() && links == was[..i + 1] && files == Store(old(files), newId, s[m].block)
      ensures CachesNow() == AfterLinks(c, forkDb.head, was[|was| - |s|..i + 1])
    {
      AfterOneMore(was, |was| - |s|, i, c, forkDb.head);
      AppliesAgain(exec, base, baseId, was, s, i);
      var again := ApplyAndStore(newId, s[m].block);
    }

    /**
     Applies the old branch again on top of the meeting block; it applied before, so it does. Its blocks
     are stored under the id of the block that was pushed.
     */
    method Restore(newId: BlockId, s: seq<ForkItem>, ghost was: seq<Link<S>>)
      requires Sound() && Stepwise(exec, base, baseId, was)
      requires s != [] && |s| <= |was| && Linked(s) && s[0].block.Id() == TipId(baseId, was)
      requires links == was[..|was| - |s|]
      modifies this`links, this`undoDepth, this`undoWindow, this`files, forkDb`index, forkDb`maxSize
      ensures Sound() && links == was && files == Store(old(files), newId, s[0].block)
      ensures CachesNow() == AfterLinks(old(CachesNow()), forkDb.head, was[|was| - |s|..])
    {
      ghost var c, bottom := CachesNow(), |was| - |s|;
      ghost var i := bottom;
      var m := |s|;
      while m > 0
        invariant 0 <= m <= |s| && i + m == |was| && links == was[..i] && Sound()
        invariant CachesNow() == AfterLinks(c, forkDb.head, was[bottom..i])
        invariant files == if m == |s| then old(files) else Store(old(files), newId, s[m].block)
      {
        m := m - 1;
        RestoreOne(newId, s, m, was, i, c);
        i := i + 1;
      }
      assert was[..|was|] == was && was[bottom..|was|] == was[bottom..];
    }

    /** Pops what was tried, from the fork database's head on the old tip. */
    method PopTried(held: Index, s: seq<ForkItem>, ghost was: seq<Link<S>>, ghost tried: seq<Link<S>>)
      returns (ok: bool)
      requires Sound() && WellKeyed(held) && Stepwise(exec, base, baseId, was)
      requires s != [] && |s| <= |was| && Linked(s) && s[0].block.Id() == TipId(baseId, was)
      requires links == was[..|was| - |s|] + tried && forkDb.head == Some(s[0])
      requires AllFindable(map[], files, links, |was| - |s|)
      modifies this`links, this`undoDepth, forkDb`head
      ensures Sound()
      ensures var r := Pops(held + forkDb.index, old(TopNow()), |tried|);
              ok == r.0 && links == r.1.links && undoDepth == r.1.depth
              && (ok ==> forkDb.head == r.1.head && links == was[..|was| - |s|])
    {
      ghost var all := links;
      StepwiseIsChained(exec, base, baseId, was);
      StepwiseIsChained(exec, base, baseId, links);
      BackIsPops(held, CachesNow(), baseId, was, tried, s);
      BranchIsChainTop(baseId, was, s, |s|);
      assert forall id | Findable(map[], files, id) :: Findable(forkDb.index, files, id);
      ok := PopUntil(held, s[|s| - 1].block.previous, |was| - |s|);
      StepwisePrefix(exec, base, baseId, all, |links|);
      assert links == all[..|links|];
    }

    /** Pops down to the meeting block again, and restores the old branch on it. */
    method PopAndRestore(newId: BlockId, held: Index, s: seq<ForkItem>, ghost was: seq<Link<S>>,
                         ghost tried: seq<Link<S>>) returns (ok: bool)
      requires Sound() && WellKeyed(held) && Stepwise(exec, base, baseId, was)
      requires s != [] && |s| <= |was| && Linked(s) && s[0].block.Id() == TipId(baseId, was)
      requires links == was[..|was| - |s|] + tried && forkDb.head == Some(s[0])
      requires AllFindable(map[], files, links, |was| - |s|)
      modifies this`links, this`undoDepth, this`undoWindow, this`files, forkDb`head, forkDb`index, forkDb`maxSize
      ensures Sound()
      ensures EffectNow(if ok then RolledBack else Stranded) == Back(held, old(CachesNow()), was, tried, s)
      ensures files == if ok then Store(old(files), newId, s[0].block) else old(files)
    {
      ghost var c := CachesNow();
      ok := PopTried(held, s, was, tried);
      assert CachesNow() == c.(undo := Undo(undoDepth, c.undo.window));
      if ok {
        Restore(newId, s, was);
      }
    }

    /** The new branch failed with `gone` left: forget those, and go back to the old branch. */
    method RollBack(newId: BlockId, held: Index, gone: seq<ForkItem>, s: seq<ForkItem>, ghost was: seq<Link<S>>,
                    ghost tried: seq<Link<S>>)
      returns (ok: bool)
      requires Sound() && WellKeyed(held) && Stepwise(exec, base, baseId, was)
      requires s != [] && |s| <= |was| && Linked(s) && s[0].block.Id() == TipId(baseId, was)
      requires links == was[..|was| - |s|] + tried
      requires AllFindable(map[], files, links, |was| - |s|)
      modifies this`links, this`undoDepth, this`undoWindow, this`files, forkDb`head, forkDb`index, forkDb`maxSize
      ensures Sound() && WellKeyed(Without(old(forkDb.index), gone))
      ensures EffectNow(if ok then RolledBack else Stranded)
              == Back(held, old(CachesNow()).(index := Without(old(forkDb.index), gone)), was, tried, s)
      ensures files == if ok then Store(old(files), newId, s[0].block) else old(files)
    {
      Forget(gone);
      forkDb.SetHead(s[0]);
      ok := PopAndRestore(newId, held, s, was, tried);
    }

    /** Applies a branch, oldest block first, and returns how many blocks are left. */
    method ApplyBranch(f: seq<ForkItem>) returns (k: nat)
      requires Sound()
      modifies this`links, this`undoDepth, this`undoWindow, this`files, forkDb`index, forkDb`maxSize
      ensures Sound() && k <= |f| && |links| >= |old(links)| && files == Stored(old(files), links[|old(links)|..])
      ensures (k, links, CachesNow())
              == RunBranch(exec, base, baseId, old(links), old(CachesNow()), forkDb.head, f, |f|)
    {
      ghost var was, c, done := links, CachesNow(), links[..0];
      k := |f|;
      while k > 0
        invariant k <= |f| && Sound() && links == was + done && files == Stored(old(files), done)
        invariant RunBranch(exec, base, baseId, was, c, forkDb.head, f, |f|)
                  == RunBranch(exec, base, baseId, links, CachesNow(), forkDb.head, f, k)
      {
        RunBranchStep(exec, base, baseId, links, CachesNow(), forkDb.head, f, k);
        var ok := ApplyAndStore(f[k - 1].block.Id(), f[k - 1].block);
        if !ok {
          return;
        }
        StoredNext(old(files), done, links[|links| - 1]);
        done := done + [links[|links| - 1]];
        k := k - 1;
      }
    }

    /** On the meeting block: apply the new branch, and roll back if one of its blocks fails. */
    method TryBranch(newId: BlockId, f: seq<ForkItem>, s: seq<ForkItem>, ghost was: seq<Link<S>>)
      returns (r: PushResult)
      requires Sound() && Stepwise(exec, base, baseId, was)
      requires s != [] && |s| <= |was| && Linked(s) && s[0].block.Id() == TipId(baseId, was)
      requires links == was[..|was| - |s|] && forkDb.head.Some?
      modifies this`links, this`undoDepth, this`undoWindow, this`files, forkDb`head, forkDb`index, forkDb`maxSize
      ensures Sound()
      ensures EffectNow(r) == Try(exec, base, baseId, was, old(CachesNow()), old(forkDb.head).value, f, s)
      ensures r in {Switched, RolledBack, Stranded}
      ensures files == TryFiles(old(files), Tried(exec, base, baseId, was, f, s), newId, s, r)
    {
      ghost var kept, tried := links, Tried(exec, base, baseId, was, f, s);
      ghost var c, hd := CachesNow(), forkDb.head.value;
      var held := Held(forkDb.index, s);
      var left := ApplyBranch(f);
      ghost var forgotten := TryFromRun(exec, base, baseId, was, c, hd, f, s, kept, tried, left, links, CachesNow());
      if left == 0 {
        return Switched;
      }
      StepwiseIsChained(exec, base, baseId, links);
      TriedFindable(baseId, kept, tried, old(files));
      var ok := RollBack(newId, held, f[..left], s, was, tried);
      return if ok then RolledBack else Stranded;
    }

    /** The switch itself: pop the old branch, then try the new one. */
    method SwitchFork(newId: BlockId, hd: ForkItem, f: seq<ForkItem>, s: seq<ForkItem>) returns (r: PushResult)
      requires Sound() && forkDb.head == Some(hd)
      requires BranchesFrom(forkDb.index, hd.block.Id(), TipId(baseId, links)) == Some((f, s))
      requires f != [] && s != [] && hd.block.Num() > NumFromId(TipId(baseId, links))
      modifies this`links, this`undoDepth, this`undoWindow, this`files, forkDb`head, forkDb`index, forkDb`maxSize
      ensures Sound()
      ensures EffectNow(r) == Switch(exec, base, baseId, old(links), old(CachesNow()), hd, f, s)
      ensures r in {Switched, RolledBack, Stranded}
      ensures files == SwitchFiles(exec, base, baseId, old(links), old(CachesNow()), hd, f, s, newId, r, old(files))
    {
      ghost var was, c := links, CachesNow();
      StepwiseIsChained(exec, base, baseId, links);
      SwitchFacts(baseId, links, forkDb.index, hd, f, s);
      assert map[] + forkDb.index == forkDb.index;
      PopsReach(map[] + forkDb.index, baseId, s[|s| - 1].block.previous, TopNow(), |s|);
      ghost var low := if |s| <= |links| then |links| - |s| else 0;
      BranchFindable(baseId, links, forkDb.index, files, hd, f, s, low);
      var reached := PopUntil(map[], s[|s| - 1].block.previous, low);
      StepwisePrefix(exec, base, baseId, was, |links|);
      assert links == was[..|links|];
      if !reached {
        return Stranded;
      }
      assert CachesNow() == c.(undo := Undo(undoDepth, c.undo.window));
      r := TryBranch(newId, f, s, was);
    }

    /** `_push_block`. */
    method PushBlock(b: Block) returns (r: PushResult)
      requires Sound()
      modifies this, forkDb
      ensures Sound() && base == old(base) && baseId == old(baseId) && forkDb.nextSerial == old(forkDb.nextSerial) + 1
      ensures EffectNow(r) == Push(exec, old(Snapshot()), b)
      ensures r in {Refused, Parked, NoBranch, ApplyFailed} ==> links == old(links)
      ensures r == ApplyFailed ==> b.Id() !in forkDb.index
      ensures r == Extended ==> b.previous == old(HeadId()) && HeadId() == b.Id()
      ensures files == PushFiles(exec, old(Snapshot()), b, r, old(files))
    {
      var linked := forkDb.PushBlock(b);
      if !linked {
        return Refused;
      }
      if forkDb.head.value.block.previous == HeadId() {
        r := PushOnTop(forkDb.head.value, b);
      } else {
        r := FollowHead(b.Id(), forkDb.head.value);
      }
    }

    /** The middle of `_push_block`: the fork database's head is on another branch, and followed if it is higher. */
    method FollowHead(newId: BlockId, hd: ForkItem) returns (r: PushResult)
      requires Sound() && forkDb.head == Some(hd)
      modifies this`links, this`undoDepth, this`undoWindow, this`files, forkDb`head, forkDb`index, forkDb`maxSize
      ensures Sound()
      ensures EffectNow(r) == Follow(exec, base, baseId, old(links), old(CachesNow()), hd)
      ensures r in {Parked, NoBranch, Switched, RolledBack, Stranded}
      ensures r in {Parked, NoBranch} ==> links == old(links)
      ensures files == FollowFiles(exec, base, baseId, old(links), old(CachesNow()), hd, newId, r, old(files))
    {
      if hd.block.Num() <= NumFromId(HeadId()) {
        return Parked;
      }
      var branches := forkDb.FetchBranchFrom(hd.block.Id(), HeadId());
      if branches.None? {
        return NoBranch;
      }
      r := SwitchFork(newId, hd, branches.value.0, branches.value.1);
    }

    /** The end of `_push_block`: the block is applied on top of the chain, or it is forgotten. */
    method PushOnTop(hd: ForkItem, b: Block) returns (r: PushResult)
      requires Sound() && forkDb.head == Some(hd)
      modifies this`links, this`undoDepth, this`undoWindow, this`files, forkDb`index, forkDb`maxSize
      ensures Sound()
      ensures EffectNow(r) == OnTop(exec, base, baseId, old(links), old(CachesNow()), hd, b)
      ensures r == if b.previous == old(HeadId()) && exec(old(TipState(base, links)), b).Done? then Extended
                   else ApplyFailed
      ensures r == Extended ==> |links| == |old(links)| + 1 && links[|old(links)|].block == b
      ensures r == ApplyFailed ==> links == old(links) && b.Id() !in forkDb.index
      ensures files == if r == Extended then Store(old(files), b.Id(), b) else old(files)
    {
      var ok := ApplyAndStore(b.Id(), b);
      if !ok {
        forkDb.Remove(b.Id());
        return ApplyFailed;
      }
      return Extended;
    }

    /** `get_block_ids_on_fork`: the branch of `headOfFork`, youngest first, then the meeting block. */
    method GetBlockIdsOnFork(headOfFork: BlockId) returns (r: Option<seq<BlockId>>)
      requires Sound()
      ensures var branches := BranchesFrom(forkDb.index, HeadId(), headOfFork);
              r == if branches.None? then None else Some(ForkIds(branches.value.1))
    {
      var branches := forkDb.FetchBranchFrom(HeadId(), headOfFork);
      if branches.None? {
        return None;
      }
      var (f, s) := branches.value;
      BranchShape(forkDb.index, HeadId(), headOfFork);
      var result: seq<BlockId> := [];
      for i := 0 to |s|
        invariant result == ForkIds(s)[..i]
      {
        result := result + [s[i].block.Id()];
      }
      return Some(result + [f[|f| - 1].block.previous]);
    }
  }

  function ForkIds(s: seq<ForkItem>): seq<BlockId>
    requires s != []
  {
    seq(|s|, i requires 0 <= i < |s| => s[i].block.Id()) + [s[|s| - 1].block.previous]
  }
}
