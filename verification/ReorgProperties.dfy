/** What pushes do to the applied chain, over one push and over whole runs. */
module ReorgProperties {
  import opened Arithmetic
  import opened Wrappers
  import opened Blocks
  import opened ForkTree
  import opened Reorg

  /** The push goes through the fork switch, from branch `s` to branch `f`. */
  predicate Switches<S>(n: Node<S>, b: Block, f: seq<ForkItem>, s: seq<ForkItem>)
    requires WellKeyed(n.caches.index)
  {
    && Acceptable(n.caches.index, n.head, n.caches.maxSize, b)
    && n.NewHead(b).block.previous != n.Tip()
    && n.NewHead(b).block.Num() > NumFromId(n.Tip())
    && n.Plan(b) == Some((f, s))
  }

  /** The two branches and the chain at the moment the switch starts. */
  ghost predicate Branching<S>(exec: Exec<S>, base: S, baseId: BlockId, links: seq<Link<S>>, idx: Index, hd: ForkItem,
                               f: seq<ForkItem>, s: seq<ForkItem>)
    requires WellKeyed(idx)
  {
    && Stepwise(exec, base, baseId, links)
    && |f| > |s| > 0 && Linked(f) && Linked(s)
    && f[0].block.Id() == hd.block.Id() && s[0].block.Id() == TipId(baseId, links)
    && f[|f| - 1].block.previous == s[|s| - 1].block.previous
    && (f[|f| - 1].block == s[|s| - 1].block ==> |s| == 1)
    && (|s| <= |links| ==> IdAt(baseId, links, |links| - |s|) == f[|f| - 1].block.previous)
    && hd.block.Num() + |s| == NumFromId(TipId(baseId, links)) + |f|
    && s <= Ancestry(idx, s[0])
    && (forall g | g in f :: g.block.Id() == s[0].block.Id() || !IsAncestor(g.block.Id(), s[0].block.Id()))
  }

  /** The effect of a push that goes through the fork switch. */
  function PushSwitch<S>(exec: Exec<S>, n: Node<S>, b: Block, f: seq<ForkItem>, s: seq<ForkItem>): Effect<S>
    requires WellKeyed(n.NewIndex(b)) && n.caches.undo.depth <= |n.links| && f != [] && s != []
  {
    Switch(exec, n.base, n.baseId, n.links, n.caches.(index := n.NewIndex(b)), n.NewHead(b), f, s)
  }

  lemma {:induction false} PushIsSwitch<S>(exec: Exec<S>, n: Node<S>, b: Block, f: seq<ForkItem>, s: seq<ForkItem>)
    requires WellKeyed(n.caches.index) && n.caches.undo.depth <= |n.links| && Switches(n, b, f, s)
    ensures WellKeyed(n.NewIndex(b)) && f != [] && s != [] && Push(exec, n, b) == PushSwitch(exec, n, b, f, s)
  {
  }

  lemma {:induction false} NewBranches<S>(n: Node<S>, b: Block, f: seq<ForkItem>, s: seq<ForkItem>, hd: ForkItem)
    requires WellKeyed(n.caches.index) && Switches(n, b, f, s) && hd == n.NewHead(b)
    ensures WellKeyed(n.NewIndex(b)) && hd.block.Num() > NumFromId(n.Tip())
    ensures BranchesFrom(n.NewIndex(b), hd.block.Id(), n.Tip()) == Some((f, s))
  {
  }

  lemma {:induction false} SwitchIsBranching<S>(exec: Exec<S>, n: Node<S>, b: Block, f: seq<ForkItem>, s: seq<ForkItem>)
    requires Inv(exec, n) && Switches(n, b, f, s)
    ensures WellKeyed(n.NewIndex(b))
    ensures Branching(exec, n.base, n.baseId, n.links, n.NewIndex(b), n.NewHead(b), f, s)
  {
    NewBranches(n, b, f, s, n.NewHead(b));
    BranchesBranch(exec, n.base, n.baseId, n.links, n.NewIndex(b), n.NewHead(b), f, s);
  }

  lemma {:induction false} BranchesBranch<S>(exec: Exec<S>, base: S, baseId: BlockId, links: seq<Link<S>>, idx: Index,
                                             hd: ForkItem, f: seq<ForkItem>, s: seq<ForkItem>)
    requires WellKeyed(idx) && Stepwise(exec, base, baseId, links) && hd.block.Num() > NumFromId(TipId(baseId, links))
    requires BranchesFrom(idx, hd.block.Id(), TipId(baseId, links)) == Some((f, s))
    ensures Branching(exec, base, baseId, links, idx, hd, f, s)
  {
    var tip := TipId(baseId, links);
    StepwiseIsChained(exec, base, baseId, links);
    SwitchFacts(baseId, links, idx, hd, f, s);
    BranchShape(idx, hd.block.Id(), tip);
    ClimbEndsAtSiblings(idx, idx[hd.block.Id()], idx[tip]);
    if |s| > 1 {
      BottomsDiffer(idx, hd.block.Id(), tip, f, s);
    }
    forall g | g in f
      ensures g.block.Id() == s[0].block.Id() || !IsAncestor(g.block.Id(), s[0].block.Id())
    {
      var i :| 0 <= i < |f| && f[i] == g;
      LongerBranchIsNotBelow(idx, hd.block.Id(), tip, f, s, i);
    }
  }

  ghost predicate Replayed<S>(exec: Exec<S>, base: S, baseId: BlockId, e: Effect<S>) {
    WellKeyed(e.caches.index) && e.caches.undo.depth <= |e.links| && Stepwise(exec, base, baseId, e.links)
  }

  lemma {:induction false} SwitchKeepsReplay<S>(exec: Exec<S>, base: S, baseId: BlockId, links: seq<Link<S>>, c: Caches,
                                                hd: ForkItem, f: seq<ForkItem>, s: seq<ForkItem>)
    requires WellKeyed(c.index) && c.undo.depth <= |links| && f != [] && s != [] && Stepwise(exec, base, baseId, links)
    ensures Replayed(exec, base, baseId, Switch(exec, base, baseId, links, c, hd, f, s))
  {
    var (ok, u) := Pops(c.index, Top(links, c.undo.depth, Some(hd)), |s|);
    StepwisePrefix(exec, base, baseId, links, |u.links|);
    if ok {
      TryKeepsReplay(exec, base, baseId, links, c.(undo := Undo(u.depth, c.undo.window)), u.head.value, f, s);
    }
  }

  lemma {:induction false} TryKeepsReplay<S>(exec: Exec<S>, base: S, baseId: BlockId, links: seq<Link<S>>, c: Caches,
                                             hd: ForkItem, f: seq<ForkItem>, s: seq<ForkItem>)
    requires WellKeyed(c.index) && s != [] && |s| <= |links| && c.undo.depth <= |links| - |s|
    requires Stepwise(exec, base, baseId, links)
    ensures Replayed(exec, base, baseId, Try(exec, base, baseId, links, c, hd, f, s))
  {
    var kept, tried := links[..|links| - |s|], Tried(exec, base, baseId, links, f, s);
    StepwisePrefix(exec, base, baseId, links, |kept|);
    ExtendContinues(exec, base, baseId, kept, Upward(f));
    TryIsRun(exec, base, baseId, links, c, hd, f, s, kept, tried);
    if |tried| < |f| {
      var left := Forgotten(exec, base, baseId, kept, tried, c, hd, f);
      BackKeepsReplay(exec, base, baseId, Held(c.index, s), left, links, tried, s);
    }
  }

  lemma {:induction false} BackKeepsReplay<S>(exec: Exec<S>, base: S, baseId: BlockId, held: Index, c: Caches,
                                              links: seq<Link<S>>, tried: seq<Link<S>>, s: seq<ForkItem>)
    requires WellKeyed(held) && WellKeyed(c.index) && s != [] && |s| <= |links|
    requires c.undo.depth <= |links| - |s| + |tried|
    requires Stepwise(exec, base, baseId, links) && Stepwise(exec, base, baseId, links[..|links| - |s|] + tried)
    ensures Replayed(exec, base, baseId, Back(held, c, links, tried, s))
  {
    var all := links[..|links| - |s|] + tried;
    var u := Pops(held + c.index, Top(all, c.undo.depth, Some(s[0])), |tried|).1;
    StepwisePrefix(exec, base, baseId, all, |u.links|);
  }

  lemma {:induction false} PushIsReplayed<S>(exec: Exec<S>, n: Node<S>, b: Block)
    requires Inv(exec, n)
    ensures Replayed(exec, n.base, n.baseId, Push(exec, n, b))
  {
    var e := Push(exec, n, b);
    if e.result == Extended {
      ExtendedIsReplayed(exec, n, b, e);
    } else if e.result in {Switched, RolledBack, Stranded} {
      var f, s := OutcomeOfSwitch(exec, n, b, e);
      PushIsSwitch(exec, n, b, f, s);
      SwitchKeepsReplay(exec, n.base, n.baseId, n.links, n.caches.(index := n.NewIndex(b)), n.NewHead(b), f, s);
    }
  }

  lemma {:induction false} ExtendedIsReplayed<S>(exec: Exec<S>, n: Node<S>, b: Block, e: Effect<S>)
    requires Inv(exec, n) && e == Push(exec, n, b) && e.result == Extended
    ensures Replayed(exec, n.base, n.baseId, e)
  {
    StepwisePush(exec, n.base, n.baseId, n.links, e.links[|n.links|]);
  }

  lemma {:induction false} OutcomeOfSwitch<S>(exec: Exec<S>, n: Node<S>, b: Block, e: Effect<S>)
    returns (f: seq<ForkItem>, s: seq<ForkItem>)
    requires WellKeyed(n.caches.index) && n.caches.undo.depth <= |n.links|
    requires e == Push(exec, n, b) && e.result in {Switched, RolledBack, Stranded}
    ensures Switches(n, b, f, s)
  {
    f, s := n.Plan(b).value.0, n.Plan(b).value.1;
  }

  /**
   The chain after every push is the replay of its own blocks, whatever happened during the
   push; the states on it are therefore those that the blocks give, never leftovers.
   */
  lemma {:induction false} PushKeepsReplay<S>(exec: Exec<S>, n: Node<S>, b: Block)
    requires Inv(exec, n)
    ensures Replayed(exec, n.base, n.baseId, Push(exec, n, b))
    ensures var links := Push(exec, n, b).links; links == Extend(exec, n.base, n.baseId, BlocksOf(links))
  {
    PushIsReplayed(exec, n, b);
    var links := Push(exec, n, b).links;
    ChainIsReplay(exec, n.base, n.baseId, links, 0);
    assert links[0..] == links;
  }

  /**
   A successful switch keeps the chain up to the meeting block and puts the new branch on it,
   oldest block first; the new tip is the fork database's head, strictly above the old tip.
   */
  lemma {:induction false} SwitchedChain<S>(exec: Exec<S>, n: Node<S>, b: Block, f: seq<ForkItem>, s: seq<ForkItem>)
    requires Inv(exec, n) && Switches(n, b, f, s) && Push(exec, n, b).result == Switched
    ensures var e := Push(exec, n, b);
            var m := |n.links| - |s|;
            && 0 <= m && |e.links| == m + |f|
            && e.links[..m] == n.links[..m]
            && IdAt(n.baseId, n.links, m) == f[|f| - 1].block.previous
            && BlocksOf(e.links[m..]) == Upward(f)
            && TipId(n.baseId, e.links) == n.NewHead(b).block.Id()
            && NumFromId(TipId(n.baseId, e.links)) > NumFromId(n.Tip())
  {
    PushIsSwitch(exec, n, b, f, s);
    SwitchIsBranching(exec, n, b, f, s);
    SwitchedLinks(exec, n.base, n.baseId, n.links, n.caches.(index := n.NewIndex(b)), n.NewHead(b), f, s);
    BranchOnTop(exec, n.base, n.baseId, n.links, n.NewIndex(b), n.NewHead(b), f, s);
  }

  lemma {:induction false} BranchOnTop<S>(exec: Exec<S>, base: S, baseId: BlockId, links: seq<Link<S>>, idx: Index,
                                          hd: ForkItem, f: seq<ForkItem>, s: seq<ForkItem>)
    requires WellKeyed(idx) && Branching(exec, base, baseId, links, idx, hd, f, s) && |s| <= |links|
    requires |Tried(exec, base, baseId, links, f, s)| == |f|
    ensures var m := |links| - |s|;
            var after := links[..m] + Tried(exec, base, baseId, links, f, s);
            && after[..m] == links[..m] && BlocksOf(after[m..]) == Upward(f)
            && TipId(baseId, after) == hd.block.Id()
  {
    var kept, tried := links[..|links| - |s|], Tried(exec, base, baseId, links, f, s);
    StepwisePrefix(exec, base, baseId, links, |kept|);
    ExtendContinues(exec, base, baseId, kept, Upward(f));
    assert (kept + tried)[|kept|..] == tried;
    assert tried[|f| - 1].block == f[0].block;
  }

  lemma {:induction false} SwitchedLinks<S>(exec: Exec<S>, base: S, baseId: BlockId, links: seq<Link<S>>, c: Caches,
                                            hd: ForkItem, f: seq<ForkItem>, s: seq<ForkItem>)
    requires WellKeyed(c.index) && c.undo.depth <= |links| && f != [] && s != []
    requires Switch(exec, base, baseId, links, c, hd, f, s).result == Switched
    ensures |s| <= |links| && |Tried(exec, base, baseId, links, f, s)| == |f|
    ensures Switch(exec, base, baseId, links, c, hd, f, s).links
            == links[..|links| - |s|] + Tried(exec, base, baseId, links, f, s)
  {
  }

  // what can still be undone

  function MarksOf<S>(links: seq<Link<S>>): seq<Mark> {
    seq(|links|, i requires 0 <= i < |links| => links[i].mark)
  }

  function WindowsOf(marks: seq<Mark>): seq<nat> {
    seq(|marks|, i requires 0 <= i < |marks| => marks[i].window)
  }

  /**
   The sessions of block j leave the records of the j blocks below it: those before the window is set
   under the window of the block below, and those after that under its own.
   */
  predicate Roomy(marks: seq<Mark>, j: nat)
    requires j < |marks|
  {
    j > 0 ==>
      && marks[j - 1].window >= j + marks[j].before
      && (marks[j].after > 0 ==> marks[j].window >= j + marks[j].after)
  }

  predicate Covers(marks: seq<Mark>) {
    forall j | 0 <= j < |marks| :: Roomy(marks, j)
  }

  lemma {:induction false} CoversMore(marks: seq<Mark>, m: Mark)
    ensures Covers(marks + [m]) <==> Covers(marks) && Roomy(marks + [m], |marks|)
  {
    var all := marks + [m];
    forall j | 0 <= j < |marks|
      ensures Roomy(all, j) <==> Roomy(marks, j)
    {
      assert all[j] == marks[j] && (j > 0 ==> all[j - 1] == marks[j - 1]);
    }
    if Covers(all) {
      assert forall j | 0 <= j < |marks| :: Roomy(all, j);
    }
  }

  /** All blocks just applied can be undone exactly if the sessions of each of them left room for those below it. */
  lemma {:induction false} UndoableIff<S>(c: Caches, head: Option<ForkItem>, links: seq<Link<S>>)
    ensures var after := AfterLinks(c, head, links);
            && (|links| <= after.undo.depth <==> Covers(MarksOf(links)))
            && (links != [] ==> after.undo.window == links[|links| - 1].mark.window)
  {
    if links != [] {
      var before, m := links[..|links| - 1], links[|links| - 1].mark;
      UndoableIff(c, head, before);
      assert MarksOf(links) == MarksOf(before) + [m];
      CoversMore(MarksOf(before), m);
      RoomFor(AfterLinks(c, head, before), head, MarksOf(before), m);
    }
  }

  /** Whether the sessions of one more block leave the records of those before it. */
  lemma {:induction false} RoomFor(c: Caches, head: Option<ForkItem>, marks: seq<Mark>, m: Mark)
    requires marks != [] ==> c.undo.window == marks[|marks| - 1].window
    ensures |marks| <= Marked(c, head, m).undo.depth <==> |marks| <= c.undo.depth && Roomy(marks + [m], |marks|)
  {
    var all := marks + [m];
    if marks != [] {
      assert all[|marks| - 1] == marks[|marks| - 1];
    }
  }

  /** What a failing block did, as far as it got. */
  function FailMark(r: Reached): Mark {
    match r
    case Before(k) => Mark(0, k, 0)
    case After(m) => m
  }

  function WithFailure(marks: seq<Mark>, r: Reached): seq<Mark> {
    marks + [FailMark(r)]
  }

  /** When a block has failed on top of some others, these can be undone exactly if its sessions too left them room. */
  lemma {:induction false} FailureUndoableIff<S>(c: Caches, head: Option<ForkItem>, links: seq<Link<S>>, o: Outcome<S>)
    requires o.Failed?
    ensures |links| <= AfterOutcome(AfterLinks(c, head, links), head, o).undo.depth
            <==> Covers(WithFailure(MarksOf(links), o.reached))
  {
    var marks, now := MarksOf(links), AfterLinks(c, head, links);
    UndoableIff(c, head, links);
    CoversMore(marks, FailMark(o.reached));
    match o.reached
    case After(m) => RoomFor(now, head, marks, m);
    case Before(k) =>
      var all := marks + [FailMark(o.reached)];
      if marks != [] {
        assert all[|marks| - 1] == marks[|marks| - 1];
      }
  }

  // what is still linked

  /** Two lines through a part of an index and through all of it: the first goes as far as its nodes are there. */
  lemma {:induction false} PartLine(idx: Index, part: Index, item: ForkItem, k: nat)
    requires WellKeyed(idx) && WellKeyed(part) && forall id | id in part :: id in idx && part[id] == idx[id]
    ensures var all, line := Ancestry(idx, item), Ancestry(part, item);
            && line <= all
            && (k < |line| <==> k < |all| && forall i | 1 <= i <= k :: all[i].block.Id() in part)
    decreases k, item.block.Num()
  {
    var all := Ancestry(idx, item);
    if Lock(part, item).Some? {
      var up := Lock(part, item).value;
      assert Lock(idx, item) == Some(up);
      PartLine(idx, part, up, if k > 0 then k - 1 else 0);
      if k > 0 {
        OneHigher(part, item, Ancestry(idx, up), all, k);
      }
    } else if k > 0 && |all| > 1 {
      assert Lock(idx, item) == Some(all[1]);
    }
  }

  lemma {:induction false} OneHigher(part: Index, item: ForkItem, rest: seq<ForkItem>, all: seq<ForkItem>, k: nat)
    requires all == [item] + rest && k > 0 && rest != [] && rest[0].block.Id() in part
    ensures k < |all| && (forall i | 1 <= i <= k :: all[i].block.Id() in part)
            <==> k - 1 < |rest| && forall i | 1 <= i <= k - 1 :: rest[i].block.Id() in part
  {
    forall i | 1 <= i < |all|
      ensures all[i] == rest[i - 1]
    {
    }
    assert forall i | 1 <= i < |rest| :: rest[i] == all[i + 1];
  }

  /** The highest floor that some windows set below a head. */
  function Sunk(num: nat, windows: seq<nat>): nat {
    if windows == [] then 0 else Max(Sunk(num, windows[..|windows| - 1]), Floor(num, windows[|windows| - 1]))
  }

  lemma {:induction false} SunkAbove(num: nat, windows: seq<nat>, x: nat)
    ensures Sunk(num, windows) <= x <==> forall j | 0 <= j < |windows| :: Floor(num, windows[j]) <= x
  {
    if windows != [] {
      SunkAbove(num, windows[..|windows| - 1], x);
      assert forall j | 0 <= j < |windows| - 1 :: windows[..|windows| - 1][j] == windows[j];
    }
  }

  lemma {:induction false} LinksSink<S>(c: Caches, head: ForkItem, links: seq<Link<S>>)
    ensures AfterLinks(c, Some(head), links).index == Pruned(c.index, Sunk(head.block.Num(), WindowsOf(MarksOf(links))))
  {
    if links != [] {
      var before := links[..|links| - 1];
      LinksSink(c, head, before);
      assert WindowsOf(MarksOf(before)) == WindowsOf(MarksOf(links))[..|links| - 1];
      assert WindowsOf(MarksOf(links))[|links| - 1] == links[|links| - 1].mark.window;
      MarkedSinks(AfterLinks(c, Some(head), before), head, links[|links| - 1].mark);
      PrunedTwice(c.index, Sunk(head.block.Num(), WindowsOf(MarksOf(before))),
                  Floor(head.block.Num(), links[|links| - 1].mark.window));
    } else {
      assert Pruned(c.index, 0) == c.index;
    }
  }

  /** How the block on top of the tried ones ends. */
  function NextOutcome<S>(exec: Exec<S>, base: S, baseId: BlockId, kept: seq<Link<S>>, tried: seq<Link<S>>,
                          f: seq<ForkItem>): Outcome<S>
    requires |tried| < |f|
  {
    OutcomeAt(exec, base, baseId, kept + tried, f[|f| - |tried| - 1].block)
  }

  /** How far it got before it failed. */
  function NextFailure<S>(exec: Exec<S>, base: S, baseId: BlockId, kept: seq<Link<S>>, tried: seq<Link<S>>,
                          f: seq<ForkItem>): Reached
    requires |tried| < |f|
  {
    var o := NextOutcome(exec, base, baseId, kept, tried, f);
    if o.Failed? then o.reached else Before(0)
  }

  /** The windows that the blocks of a branch set, that of the failing one included if it got that far. */
  function WindowsSet(marks: seq<Mark>, r: Reached): seq<nat> {
    WindowsOf(marks) + if r.After? then [r.mark.window] else []
  }

  lemma {:induction false} MarkedSinks(c: Caches, head: ForkItem, m: Mark)
    ensures Marked(c, Some(head), m).index == Pruned(c.index, Floor(head.block.Num(), m.window))
  {
  }

  /** What is left of the fork index and of the undo history when a block of the new branch has failed. */
  lemma {:induction false} ForgottenCaches<S>(exec: Exec<S>, base: S, baseId: BlockId, kept: seq<Link<S>>,
                                              tried: seq<Link<S>>, c: Caches, hd: ForkItem, f: seq<ForkItem>,
                                              r: Reached)
    requires |tried| < |f| && NextOutcome(exec, base, baseId, kept, tried, f).Failed?
    requires r == NextFailure(exec, base, baseId, kept, tried, f)
    ensures var left := Forgotten(exec, base, baseId, kept, tried, c, hd, f);
            && left.index
               == Without(Pruned(c.index, Sunk(hd.block.Num(), WindowsSet(MarksOf(tried), r))), f[..|f| - |tried|])
            && (|tried| <= left.undo.depth <==> Covers(WithFailure(MarksOf(tried), r)))
  {
    FailureCaches(c, hd, tried, NextOutcome(exec, base, baseId, kept, tried, f));
  }

  lemma {:induction false} FailureCaches<S>(c: Caches, hd: ForkItem, tried: seq<Link<S>>, o: Outcome<S>)
    requires o.Failed?
    ensures var after := AfterOutcome(AfterLinks(c, Some(hd), tried), Some(hd), o);
            && after.index == Pruned(c.index, Sunk(hd.block.Num(), WindowsSet(MarksOf(tried), o.reached)))
            && (|tried| <= after.undo.depth <==> Covers(WithFailure(MarksOf(tried), o.reached)))
  {
    var windows := WindowsOf(MarksOf(tried));
    LinksSink(c, hd, tried);
    FailureUndoableIff(c, Some(hd), tried, o);
    match o.reached
    case After(m) =>
      assert (windows + [m.window])[..|tried|] == windows;
      MarkedSinks(AfterLinks(c, Some(hd), tried), hd, m);
      PrunedTwice(c.index, Sunk(hd.block.Num(), windows), Floor(hd.block.Num(), m.window));
    case Before(_) =>
      assert windows + [] == windows;
  }

  lemma {:induction false} PrunedTwice(index: Index, a: nat, b: nat)
    ensures Pruned(Pruned(index, a), b) == Pruned(index, Max(a, b))
  {
  }

  /** While the branches are held, pruning and forgetting cut the old line only below the meeting block. */
  lemma {:induction false} HeldLine(idx: Index, floor: nat, gone: seq<ForkItem>, s: seq<ForkItem>, k: nat)
    requires WellKeyed(idx) && s != [] && s <= Ancestry(idx, s[0])
    requires forall g | g in gone :: g.block.Id() == s[0].block.Id() || !IsAncestor(g.block.Id(), s[0].block.Id())
    ensures WellKeyed(Held(idx, s) + Without(Pruned(idx, floor), gone))
    ensures var all := Ancestry(idx, s[0]);
            k < |Ancestry(Held(idx, s) + Without(Pruned(idx, floor), gone), s[0])|
            <==> k < |all| && (k < |s| || floor <= s[0].block.Num() - k)
  {
    var part := Held(idx, s) + Without(Pruned(idx, floor), gone);
    var all := Ancestry(idx, s[0]);
    PartLine(idx, part, s[0], k);
    forall i | 1 <= i <= k && i < |all|
      ensures all[i].block.Id() in part <==> i < |s| || floor <= s[0].block.Num() - i
    {
      LineNode(idx, floor, gone, s, i);
    }
    if k < |all| && k >= |s| {
      assert all[k].block.Id() in part <==> floor <= s[0].block.Num() - k;
    }
  }

  lemma {:induction false} LineNode(idx: Index, floor: nat, gone: seq<ForkItem>, s: seq<ForkItem>, i: nat)
    requires WellKeyed(idx) && s != [] && s <= Ancestry(idx, s[0])
    requires forall g | g in gone :: g.block.Id() == s[0].block.Id() || !IsAncestor(g.block.Id(), s[0].block.Id())
    requires 1 <= i < |Ancestry(idx, s[0])|
    ensures Ancestry(idx, s[0])[i].block.Id() in Held(idx, s) + Without(Pruned(idx, floor), gone)
            <==> i < |s| || floor <= s[0].block.Num() - i
  {
    var all := Ancestry(idx, s[0]);
    var id := all[i].block.Id();
    AncestryStep(idx, s[0], i);
    AncestryNode(idx, s[0], i);
    if i < |s| {
      assert s[i] == all[i] && idx[id] in s;
    } else if idx[id] in s {
      var j :| 0 <= j < |s| && s[j] == idx[id];
      AncestryStep(idx, s[0], j);
      assert false;
    }
    forall g | g in gone
      ensures g.block.Id() != id
    {
      AncestorIsLower(id, s[0].block.Id());
    }
  }

  lemma {:induction false} AncestryNode(idx: Index, item: ForkItem, i: nat)
    requires WellKeyed(idx) && 1 <= i < |Ancestry(idx, item)|
    ensures Ancestry(idx, item)[i].block.Id() in idx
    ensures idx[Ancestry(idx, item)[i].block.Id()] == Ancestry(idx, item)[i]
    decreases i
  {
    var parent := Lock(idx, item).value;
    if i > 1 {
      AncestryNode(idx, parent, i - 1);
      assert Ancestry(idx, item)[i] == Ancestry(idx, parent)[i - 1];
    }
  }

  // when a switch strands

  /** Blocks on the old branch, on the new one, and linked nodes below and including the old tip. */
  datatype Lengths = Lengths(popped: nat, added: nat, cached: nat)

  /**
   Whether the old branch can be gone back to when a block fails on top of some of the new one: all of
   those can be undone, and the fork database's head finds its way down that far.
   */
  predicate Returns(len: Lengths, marks: seq<Mark>, r: Reached) {
    && Covers(WithFailure(marks, r))
    && |marks| < len.cached
    && (|marks| >= len.popped ==> Reaches(len, WindowsSet(marks, r), |marks|))
  }

  /** The windows set leave the nodes below the meeting block that k pops from the old tip need. */
  predicate Reaches(len: Lengths, windows: seq<nat>, k: nat) {
    forall j | 0 <= j < |windows| :: windows[j] + 2 * len.popped >= len.added + k
  }

  lemma {:induction false} FloorBelow(h: nat, w: nat, x: nat)
    ensures Floor(h, w) <= x <==> w + x >= h
  {
  }

  lemma {:induction false} SunkReaches(len: Lengths, windows: seq<nat>, k: nat, tip: nat, top: nat)
    requires k <= tip && top + 2 * len.popped == tip + len.added
    ensures Reaches(len, windows, k) <==> Sunk(top, windows) <= tip - k
  {
    SunkAbove(top, windows, tip - k);
    forall j | 0 <= j < |windows|
      ensures Floor(top, windows[j]) <= tip - k <==> windows[j] + 2 * len.popped >= len.added + k
    {
      FloorBelow(top, windows[j], tip - k);
    }
  }

  lemma {:induction false} BackIf<S>(held: Index, c: Caches, links: seq<Link<S>>, tried: seq<Link<S>>, s: seq<ForkItem>,
                                     e: Effect<S>)
    requires WellKeyed(held) && WellKeyed(c.index) && s != []
    requires |s| <= |links| && c.undo.depth <= |links| - |s| + |tried| && e == Back(held, c, links, tried, s)
    ensures e.result
            == if |tried| <= c.undo.depth && |tried| < |Ancestry(held + c.index, s[0])| then RolledBack else Stranded
  {
  }

  lemma {:induction false} BackResult<S>(idx: Index, links: seq<Link<S>>, f: seq<ForkItem>, s: seq<ForkItem>,
                                         tried: seq<Link<S>>, left: Caches, top: nat, r: Reached, e: Effect<S>)
    requires WellKeyed(idx) && WellKeyed(left.index) && s != [] && s <= Ancestry(idx, s[0]) && |s| <= |links|
    requires |tried| < |f| && left.undo.depth <= |links| - |s| + |tried|
    requires forall g | g in f :: g.block.Id() == s[0].block.Id() || !IsAncestor(g.block.Id(), s[0].block.Id())
    requires top + 2 * |s| == s[0].block.Num() + |f|
    requires left.index == Without(Pruned(idx, Sunk(top, WindowsSet(MarksOf(tried), r))), f[..|f| - |tried|])
    requires |tried| <= left.undo.depth <==> Covers(WithFailure(MarksOf(tried), r))
    requires e == Back(Held(idx, s), left, links, tried, s)
    ensures e.result
            == if Returns(Lengths(|s|, |f|, |Ancestry(idx, s[0])|), MarksOf(tried), r) then RolledBack else Stranded
  {
    BackIf(Held(idx, s), left, links, tried, s, e);
    LineReturns(idx, left.index, f, s, |tried|, top, WindowsSet(MarksOf(tried), r));
  }

  lemma {:induction false} LineReturns(idx: Index, left: Index, f: seq<ForkItem>, s: seq<ForkItem>, k: nat, top: nat,
                                       windows: seq<nat>)
    requires WellKeyed(idx) && s != [] && s <= Ancestry(idx, s[0]) && k < |f|
    requires forall g | g in f :: g.block.Id() == s[0].block.Id() || !IsAncestor(g.block.Id(), s[0].block.Id())
    requires top + 2 * |s| == s[0].block.Num() + |f|
    requires left == Without(Pruned(idx, Sunk(top, windows)), f[..|f| - k])
    ensures WellKeyed(Held(idx, s) + left)
    ensures var len := Lengths(|s|, |f|, |Ancestry(idx, s[0])|);
            k < |Ancestry(Held(idx, s) + left, s[0])|
            <==> k < len.cached && (k >= len.popped ==> Reaches(len, windows, k))
  {
    HeldLine(idx, Sunk(top, windows), f[..|f| - k], s, k);
    if k < |Ancestry(idx, s[0])| {
      AncestryStep(idx, s[0], k);
      SunkReaches(Lengths(|s|, |f|, |Ancestry(idx, s[0])|), windows, k, s[0].block.Num(), top);
    }
  }

  /** How a try ends: by what the windows leave. */
  lemma {:induction false} TryEnds<S>(exec: Exec<S>, base: S, baseId: BlockId, links: seq<Link<S>>, c: Caches,
                                      top: ForkItem, hd: ForkItem, f: seq<ForkItem>, s: seq<ForkItem>,
                                      kept: seq<Link<S>>, tried: seq<Link<S>>, e: Effect<S>)
    requires WellKeyed(c.index) && Branching(exec, base, baseId, links, c.index, hd, f, s) && |s| <= |links|
    requires top.block.Num() + |s| == hd.block.Num() && c.undo.depth <= |links| - |s|
    requires kept == links[..|links| - |s|] && tried == Tried(exec, base, baseId, links, f, s)
    requires e == Try(exec, base, baseId, links, c, top, f, s)
    ensures |tried| <= |f|
    ensures |tried| == |f| ==> e.result == Switched
    ensures |tried| < |f| ==>
      var r := NextFailure(exec, base, baseId, kept, tried, f);
      e.result == if Returns(Lengths(|s|, |f|, |Ancestry(c.index, s[0])|), MarksOf(tried), r) then RolledBack
        else Stranded
  {
    TryIsRun(exec, base, baseId, links, c, top, f, s, kept, tried);
    if |tried| < |f| {
      var r := NextFailure(exec, base, baseId, kept, tried, f);
      var left := Forgotten(exec, base, baseId, kept, tried, c, top, f);
      ForgottenCaches(exec, base, baseId, kept, tried, c, top, f, r);
      BackResult(c.index, links, f, s, tried, left, top.block.Num(), r, e);
    }
  }

  /** How a switch ends: by the undo history, the cached line below the new head, and what the windows leave. */
  function Ending<S>(exec: Exec<S>, n: Node<S>, b: Block, f: seq<ForkItem>, s: seq<ForkItem>, kept: seq<Link<S>>,
                     tried: seq<Link<S>>): PushResult
    requires WellKeyed(n.NewIndex(b)) && s != [] && |tried| <= |f|
  {
    if |s| > n.caches.undo.depth || |s| >= |Ancestry(n.NewIndex(b), n.NewHead(b))| then Stranded
    else if |tried| == |f| then Switched
    else
      var r := NextFailure(exec, n.base, n.baseId, kept, tried, f);
      if Returns(Lengths(|s|, |f|, |Ancestry(n.NewIndex(b), s[0])|), MarksOf(tried), r) then RolledBack else Stranded
  }

  lemma {:induction false} SwitchTries<S>(exec: Exec<S>, base: S, baseId: BlockId, links: seq<Link<S>>, c: Caches,
                                          hd: ForkItem, f: seq<ForkItem>, s: seq<ForkItem>, e: Effect<S>)
    returns (c': Caches, top: ForkItem)
    requires WellKeyed(c.index) && c.undo.depth <= |links| && f != [] && s != []
    requires e == Switch(exec, base, baseId, links, c, hd, f, s)
    ensures |s| > c.undo.depth || |s| >= |Ancestry(c.index, hd)| ==>
              e.result == Stranded
              && var p := Poppable(c.undo.depth, |Ancestry(c.index, hd)|); p < |s| && e.links == links[..|links| - p]
    ensures |s| <= c.undo.depth && |s| < |Ancestry(c.index, hd)| ==>
              && c' == c.(undo := Undo(c.undo.depth - |s|, c.undo.window))
              && top == Ancestry(c.index, hd)[|s|] && top.block.Num() + |s| == hd.block.Num()
              && e == Try(exec, base, baseId, links, c', top, f, s)
  {
    var (ok, u) := Pops(c.index, Top(links, c.undo.depth, Some(hd)), |s|);
    c', top := c.(undo := Undo(u.depth, c.undo.window)), u.head.value;
    if ok {
      AncestryStep(c.index, hd, |s|);
    }
  }

  /** A switch strands exactly when the old branch cannot be popped, or a failed new one cannot be taken back. */
  lemma {:induction false} SwitchEnds<S>(exec: Exec<S>, n: Node<S>, b: Block, f: seq<ForkItem>, s: seq<ForkItem>,
                                         kept: seq<Link<S>>, tried: seq<Link<S>>)
    requires Inv(exec, n) && Switches(n, b, f, s)
    requires |s| <= |n.links|
             ==> kept == n.links[..|n.links| - |s|] && tried == Tried(exec, n.base, n.baseId, n.links, f, s)
    requires |s| > |n.links| ==> tried == []
    ensures WellKeyed(n.NewIndex(b)) && s != [] && |tried| <= |f|
    ensures Push(exec, n, b).result == Ending(exec, n, b, f, s, kept, tried)
  {
    PushIsSwitch(exec, n, b, f, s);
    SwitchIsBranching(exec, n, b, f, s);
    var c, hd, e := n.caches.(index := n.NewIndex(b)), n.NewHead(b), Push(exec, n, b);
    var c', top := SwitchTries(exec, n.base, n.baseId, n.links, c, hd, f, s, e);
    if |s| <= c.undo.depth && |s| < |Ancestry(c.index, hd)| {
      TryEnds(exec, n.base, n.baseId, n.links, c', top, hd, f, s, kept, tried, e);
    }
  }

  /** How many pops of the old branch go through before one throws. */
  function Popped<S>(n: Node<S>, b: Block): nat
    requires WellKeyed(n.NewIndex(b))
  {
    Poppable(n.caches.undo.depth, |Ancestry(n.NewIndex(b), n.NewHead(b))|)
  }

  /** How many of the tried blocks the way back takes off before a pop throws. */
  function TakenBack<S>(exec: Exec<S>, base: S, baseId: BlockId, kept: seq<Link<S>>, tried: seq<Link<S>>, c: Caches,
                        top: ForkItem, f: seq<ForkItem>, s: seq<ForkItem>): nat
    requires WellKeyed(c.index) && |tried| < |f| && s != []
  {
    var left := Forgotten(exec, base, baseId, kept, tried, c, top, f);
    Poppable(left.undo.depth, |Ancestry(Held(c.index, s) + left.index, s[0])|)
  }

  /** The undo history and the fork database's head once the old branch has been popped. */
  predicate IsPopped(c: Caches, hd: ForkItem, k: nat, c': Caches, top: ForkItem)
    requires WellKeyed(c.index)
  {
    k <= c.undo.depth && k < |Ancestry(c.index, hd)| ==>
      c' == c.(undo := Undo(c.undo.depth - k, c.undo.window)) && top == Ancestry(c.index, hd)[k]
  }

  /**
   A failed switch is atomic, chain and states being exactly as before the push, unless it strands.
   If it strands it is atomic only when not one pop went through, or when the old branch is a single
   block that the new one starts with, and the way back takes all off but that.
   */
  lemma {:induction false} FailedSwitchIsAtomicIff<S>(exec: Exec<S>, n: Node<S>, b: Block, f: seq<ForkItem>,
                                                      s: seq<ForkItem>, kept: seq<Link<S>>, tried: seq<Link<S>>,
                                                      c': Caches, top: ForkItem, back: nat)
    requires Inv(exec, n) && Switches(n, b, f, s) && WellKeyed(n.NewIndex(b)) && s != []
    requires |s| <= |n.links| ==>
               kept == n.links[..|n.links| - |s|] && tried == Tried(exec, n.base, n.baseId, n.links, f, s)
    requires |s| > |n.links| ==> tried == []
    requires IsPopped(n.caches.(index := n.NewIndex(b)), n.NewHead(b), |s|, c', top) && WellKeyed(c'.index)
    requires |tried| < |f| ==> back == TakenBack(exec, n.base, n.baseId, kept, tried, c', top, f, s)
    ensures f != [] && |tried| <= |f|
    ensures Ending(exec, n, b, f, s, kept, tried) != Switched ==>
              (Push(exec, n, b).links == n.links <==>
                || Ending(exec, n, b, f, s, kept, tried) == RolledBack
                || Popped(n, b) == 0
                || (f[|f| - 1].block == s[0].block && |s| <= Popped(n, b) && back + 1 == |tried|))
  {
    PushIsSwitch(exec, n, b, f, s);
    SwitchIsBranching(exec, n, b, f, s);
    SwitchEnds(exec, n, b, f, s, kept, tried);
    var c, hd := n.caches.(index := n.NewIndex(b)), n.NewHead(b);
    if Push(exec, n, b).result != Switched {
      SwitchLinks(exec, n.base, n.baseId, n.links, c, hd, f, s, kept, tried, Push(exec, n, b), c', top, back);
    }
  }

  lemma {:induction false} SwitchLinks<S>(exec: Exec<S>, base: S, baseId: BlockId, links: seq<Link<S>>, c: Caches,
                                          hd: ForkItem, f: seq<ForkItem>, s: seq<ForkItem>, kept: seq<Link<S>>,
                                          tried: seq<Link<S>>, e: Effect<S>, c': Caches, top: ForkItem, back: nat)
    requires WellKeyed(c.index) && c.undo.depth <= |links| && Branching(exec, base, baseId, links, c.index, hd, f, s)
    requires |s| <= |links| ==> kept == links[..|links| - |s|] && tried == Tried(exec, base, baseId, links, f, s)
    requires e == Switch(exec, base, baseId, links, c, hd, f, s) && e.result != Switched
    requires IsPopped(c, hd, |s|, c', top) && WellKeyed(c'.index)
    requires |tried| < |f| ==> back == TakenBack(exec, base, baseId, kept, tried, c', top, f, s)
    ensures var p := Poppable(c.undo.depth, |Ancestry(c.index, hd)|);
            if |s| > p then e.result == Stranded && (e.links == links <==> p == 0)
            else e.links == links <==> e.result == RolledBack || (f[|f| - 1].block == s[0].block && back + 1 == |tried|)
  {
    var c1, top1 := SwitchTries(exec, base, baseId, links, c, hd, f, s, e);
    if |s| <= c.undo.depth && |s| < |Ancestry(c.index, hd)| {
      TryLinks(exec, base, baseId, links, c', top, c.index, hd, f, s, kept, tried, e, back);
    }
  }

  lemma {:induction false} TryLinks<S>(exec: Exec<S>, base: S, baseId: BlockId, links: seq<Link<S>>, c: Caches,
                                       top: ForkItem, idx: Index, hd: ForkItem, f: seq<ForkItem>, s: seq<ForkItem>,
                                       kept: seq<Link<S>>, tried: seq<Link<S>>, e: Effect<S>, back: nat)
    requires WellKeyed(c.index) && WellKeyed(idx) && |s| <= |links| && s != [] && c.undo.depth <= |links| - |s|
    requires Branching(exec, base, baseId, links, idx, hd, f, s) && e == Try(exec, base, baseId, links, c, top, f, s)
    requires kept == links[..|links| - |s|] && tried == Tried(exec, base, baseId, links, f, s)
    requires |tried| < |f| ==> back == TakenBack(exec, base, baseId, kept, tried, c, top, f, s)
    ensures e.result == RolledBack ==> e.links == links
    ensures e.result != Switched ==> |tried| < |f|
    ensures e.result == Stranded ==>
              (e.links == links <==> f[|f| - 1].block == s[0].block && back + 1 == |tried|)
  {
    TryIsRun(exec, base, baseId, links, c, top, f, s, kept, tried);
    if |tried| < |f| {
      var left := Forgotten(exec, base, baseId, kept, tried, c, top, f);
      BackLinks(Held(c.index, s), left, links, tried, s, e);
      if e.result == Stranded {
        StuckRollback(exec, base, baseId, links, idx, hd, f, s, |e.links|);
        if f[|f| - 1].block == s[0].block {
          OnlyBlock(f, s);
        }
      }
    }
  }

  lemma {:induction false} BackLinks<S>(held: Index, c: Caches, links: seq<Link<S>>, tried: seq<Link<S>>,
                                        s: seq<ForkItem>, e: Effect<S>)
    requires WellKeyed(held) && WellKeyed(c.index) && s != []
    requires |s| <= |links| && c.undo.depth <= |links| - |s| + |tried| && e == Back(held, c, links, tried, s)
    ensures e.result in {RolledBack, Stranded} && (e.result == RolledBack ==> e.links == links)
    ensures e.result == Stranded ==>
              && |e.links| + Poppable(c.undo.depth, |Ancestry(held + c.index, s[0])|) == |links| - |s| + |tried|
              && e.links == (links[..|links| - |s|] + tried)[..|e.links|]
  {
  }

  /** A way back that stopped with x blocks on the chain shows the old chain only in one case. */
  lemma {:induction false} StuckRollback<S>(exec: Exec<S>, base: S, baseId: BlockId, links: seq<Link<S>>, idx: Index,
                                            hd: ForkItem, f: seq<ForkItem>, s: seq<ForkItem>, x: nat)
    requires WellKeyed(idx) && Branching(exec, base, baseId, links, idx, hd, f, s) && |s| <= |links|
    requires x <= |links| - |s| + |Tried(exec, base, baseId, links, f, s)|
    ensures var all := links[..|links| - |s|] + Tried(exec, base, baseId, links, f, s);
            all[..x] == links <==> f[|f| - 1].block == s[0].block && x == |links|
  {
    var m := |links| - |s|;
    var kept, tried := links[..m], Tried(exec, base, baseId, links, f, s);
    if x == |links| {
      StepwiseIsChained(exec, base, baseId, links);
      BranchIsChainTop(baseId, links, s, |s|);
      StepAt(exec, base, baseId, links, m);
      assert tried[0].block == f[|f| - 1].block && links[m].block == s[|s| - 1].block;
      assert (kept + tried)[..x][m] == tried[0];
      if f[|f| - 1].block == s[0].block {
        assert f[|f| - 1] in f && IsAncestor(f[|f| - 1].block.Id(), s[0].block.Id());
        OnlyBlock(f, s);
        assert tried[0] == links[m];
        assert (kept + tried)[..x] == links;
      }
    }
  }

  lemma {:induction false} OnlyBlock(f: seq<ForkItem>, s: seq<ForkItem>)
    requires f != [] && s != [] && Linked(s) && f[|f| - 1].block == s[0].block
    requires f[|f| - 1].block.previous == s[|s| - 1].block.previous
    ensures |s| == 1
  {
    LineMembersAreAncestors(s, |s| - 1);
  }

  /**
   After a rollback the failing block and every block of its branch above it are gone from the fork
   index. The blocks of the branch below it are still there, except where a window cut them off.
   */
  lemma {:induction false} RollbackForgetsTheFailingBlock<S>(exec: Exec<S>, n: Node<S>, b: Block, f: seq<ForkItem>,
                                                             s: seq<ForkItem>, i: nat, c: Caches, hd: ForkItem,
                                                             e: Effect<S>)
    returns (kept: seq<Link<S>>, tried: seq<Link<S>>, top: nat, low: nat)
    requires WellKeyed(n.caches.index) && n.caches.undo.depth <= |n.links| && Switches(n, b, f, s) && i < |f|
    requires c == n.caches.(index := n.NewIndex(b)) && hd == n.NewHead(b) && e == Push(exec, n, b)
             && e.result == RolledBack
    ensures |s| <= |n.links| && kept == n.links[..|n.links| - |s|]
            && tried == Tried(exec, n.base, n.baseId, n.links, f, s)
    ensures |tried| < |f| && top + |s| == hd.block.Num()
    ensures low == FloorAfter(WindowsSet(MarksOf(tried), NextFailure(exec, n.base, n.baseId, kept, tried, f)), top,
                              e.head, n.links[|n.links| - |s|..])
    ensures ForgottenFrom(f, |f| - 1 - |tried|, i, e.caches.index, low)
  {
    SwitchOf(exec, n, b, f, s, c, hd, e);
    kept, tried, top, low := SwitchForgets(exec, n.base, n.baseId, n.links, c, hd, f, s, i, n.Tip(), e);
  }

  lemma {:induction false} SwitchOf<S>(exec: Exec<S>, n: Node<S>, b: Block, f: seq<ForkItem>, s: seq<ForkItem>,
                                       c: Caches, hd: ForkItem, e: Effect<S>)
    requires WellKeyed(n.caches.index) && n.caches.undo.depth <= |n.links| && Switches(n, b, f, s)
    requires c == n.caches.(index := n.NewIndex(b)) && hd == n.NewHead(b) && e == Push(exec, n, b)
    ensures WellKeyed(c.index) && c.undo.depth <= |n.links| && f != [] && s != []
    ensures BranchesFrom(c.index, hd.block.Id(), n.Tip()) == Some((f, s))
    ensures e == Switch(exec, n.base, n.baseId, n.links, c, hd, f, s)
  {
    PushIsSwitch(exec, n, b, f, s);
  }

  lemma {:induction false} NewLine(idx: Index, first: BlockId, second: BlockId, f: seq<ForkItem>, s: seq<ForkItem>,
                                   i: nat)
    requires WellKeyed(idx) && BranchesFrom(idx, first, second) == Some((f, s)) && i < |f|
    ensures Linked(f) && f[i].block.Id() in idx
  {
    BranchShape(idx, first, second);
    BranchIsIndexed(idx, first, second, i);
  }

  function FloorAfter<S>(windows: seq<nat>, top: nat, head: Option<ForkItem>, was: seq<Link<S>>): nat {
    Max(Sunk(top, windows), if head.Some? then Sunk(head.value.block.Num(), WindowsOf(MarksOf(was))) else 0)
  }

  /** The failing block and those above it are gone, and those below it as far as they lie below a floor. */
  predicate ForgottenFrom(f: seq<ForkItem>, failing: nat, i: nat, index: Index, low: nat)
    requires failing < |f| && i < |f|
  {
    && (i <= failing ==> IsAncestor(f[failing].block.Id(), f[i].block.Id()) && f[i].block.Id() !in index)
    && (i > failing ==> (f[i].block.Id() in index <==> f[i].block.Num() >= low))
  }

  /** Before a rollback the old branch was popped, and then a block of the new one failed. */
  lemma {:induction false} RolledBackTries<S>(exec: Exec<S>, base: S, baseId: BlockId, links: seq<Link<S>>, c: Caches,
                                              hd: ForkItem, f: seq<ForkItem>, s: seq<ForkItem>, e: Effect<S>)
    returns (c': Caches, top: ForkItem, kept: seq<Link<S>>, tried: seq<Link<S>>)
    requires WellKeyed(c.index) && c.undo.depth <= |links| && f != [] && s != []
    requires e == Switch(exec, base, baseId, links, c, hd, f, s) && e.result == RolledBack
    ensures |s| <= |links| && kept == links[..|links| - |s|] && tried == Tried(exec, base, baseId, links, f, s)
    ensures |tried| < |f| && top.block.Num() + |s| == hd.block.Num()
    ensures c' == c.(undo := Undo(c.undo.depth - |s|, c.undo.window)) && c'.undo.depth <= |links| - |s|
    ensures e == Try(exec, base, baseId, links, c', top, f, s)
  {
    c', top := SwitchTries(exec, base, baseId, links, c, hd, f, s, e);
    kept, tried := links[..|links| - |s|], Tried(exec, base, baseId, links, f, s);
    TryIsRun(exec, base, baseId, links, c', top, f, s, kept, tried);
  }

  lemma {:induction false} SwitchForgets<S>(exec: Exec<S>, base: S, baseId: BlockId, links: seq<Link<S>>, c: Caches,
                                            hd: ForkItem, f: seq<ForkItem>, s: seq<ForkItem>, i: nat, tip: BlockId,
                                            e: Effect<S>)
    returns (kept: seq<Link<S>>, tried: seq<Link<S>>, top: nat, low: nat)
    requires WellKeyed(c.index) && c.undo.depth <= |links| && f != [] && s != []
    requires e == Switch(exec, base, baseId, links, c, hd, f, s) && e.result == RolledBack
    requires BranchesFrom(c.index, hd.block.Id(), tip) == Some((f, s)) && i < |f|
    ensures |s| <= |links| && kept == links[..|links| - |s|] && tried == Tried(exec, base, baseId, links, f, s)
    ensures |tried| < |f| && top + |s| == hd.block.Num()
    ensures low == FloorAfter(WindowsSet(MarksOf(tried), NextFailure(exec, base, baseId, kept, tried, f)), top, e.head,
                              links[|links| - |s|..])
    ensures ForgottenFrom(f, |f| - 1 - |tried|, i, e.caches.index, low)
  {
    var c', head;
    NewLine(c.index, hd.block.Id(), tip, f, s, i);
    c', head, kept, tried := RolledBackTries(exec, base, baseId, links, c, hd, f, s, e);
    top := head.block.Num();
    low := TryForgets(exec, base, baseId, links, c', head, f, s, i, e, kept, tried,
                      WindowsSet(MarksOf(tried), NextFailure(exec, base, baseId, kept, tried, f)));
  }

  lemma {:induction false} TryForgets<S>(exec: Exec<S>, base: S, baseId: BlockId, links: seq<Link<S>>, c: Caches,
                                         top: ForkItem, f: seq<ForkItem>, s: seq<ForkItem>, i: nat, e: Effect<S>,
                                         kept: seq<Link<S>>, tried: seq<Link<S>>, windows: seq<nat>)
    returns (low: nat)
    requires WellKeyed(c.index) && s != [] && |s| <= |links| && c.undo.depth <= |links| - |s|
    requires e == Try(exec, base, baseId, links, c, top, f, s) && e.result == RolledBack
    requires kept == links[..|links| - |s|] && tried == Tried(exec, base, baseId, links, f, s)
    requires Linked(f) && i < |f| && f[i].block.Id() in c.index
    requires |tried| < |f| && windows == WindowsSet(MarksOf(tried), NextFailure(exec, base, baseId, kept, tried, f))
    ensures low == FloorAfter(windows, top.block.Num(), e.head, links[|links| - |s|..])
    ensures ForgottenFrom(f, |f| - 1 - |tried|, i, e.caches.index, low)
  {
    TryIsRun(exec, base, baseId, links, c, top, f, s, kept, tried);
    var left := Forgotten(exec, base, baseId, kept, tried, c, top, f);
    ForgottenCaches(exec, base, baseId, kept, tried, c, top, f, NextFailure(exec, base, baseId, kept, tried, f));
    low := BackForgets(Held(c.index, s), left, links, tried, s, e,
                       c.index, Sunk(top.block.Num(), windows), links[|links| - |s|..], f, i);
  }

  lemma {:induction false} BackForgets<S>(held: Index, c: Caches, links: seq<Link<S>>, tried: seq<Link<S>>,
                                          s: seq<ForkItem>, e: Effect<S>, idx: Index, floor: nat, was: seq<Link<S>>,
                                          f: seq<ForkItem>, i: nat)
    returns (low: nat)
    requires WellKeyed(held) && WellKeyed(c.index) && WellKeyed(idx) && s != []
    requires |s| <= |links| && c.undo.depth <= |links| - |s| + |tried| && was == links[|links| - |s|..]
    requires e == Back(held, c, links, tried, s) && e.result == RolledBack
    requires |tried| < |f| && Linked(f) && i < |f| && f[i].block.Id() in idx
    requires c.index == Without(Pruned(idx, floor), f[..|f| - |tried|])
    ensures e.head.Some? && low == Max(floor, Sunk(e.head.value.block.Num(), WindowsOf(MarksOf(was))))
    ensures ForgottenFrom(f, |f| - 1 - |tried|, i, e.caches.index, low)
  {
    BackIndex(held, c, links, tried, s, e);
    var lower := Sunk(e.head.value.block.Num(), WindowsOf(MarksOf(was)));
    low := Max(floor, lower);
    CutLine(idx, f, |f| - 1 - |tried|, i, floor, lower, e.caches.index);
  }

  lemma {:induction false} BackIndex<S>(held: Index, c: Caches, links: seq<Link<S>>, tried: seq<Link<S>>,
                                        s: seq<ForkItem>, e: Effect<S>)
    requires WellKeyed(held) && WellKeyed(c.index) && s != []
    requires |s| <= |links| && c.undo.depth <= |links| - |s| + |tried|
    requires e == Back(held, c, links, tried, s) && e.result == RolledBack
    ensures e.head.Some?
            && e.caches.index
               == Pruned(c.index, Sunk(e.head.value.block.Num(), WindowsOf(MarksOf(links[|links| - |s|..]))))
  {
    var v := Pops(held + c.index, Top(links[..|links| - |s|] + tried, c.undo.depth, Some(s[0])), |tried|).1;
    LinksSink(c.(undo := Undo(v.depth, c.undo.window)), v.head.value, links[|links| - |s|..]);
  }

  lemma {:induction false} CutLine(idx: Index, f: seq<ForkItem>, failing: nat, i: nat, low: nat, lower: nat, cut: Index)
    requires WellKeyed(idx) && Linked(f) && i < |f| && failing < |f| && f[i].block.Id() in idx
    requires cut == Pruned(Without(Pruned(idx, low), f[..failing + 1]), lower)
    ensures ForgottenFrom(f, failing, i, cut, Max(low, lower))
  {
    if i <= failing {
      assert f[i] == f[..failing + 1][i];
      assert Linked(f[i..]) && f[i..][failing - i] == f[failing];
      LineMembersAreAncestors(f[i..], failing - i);
    }
    forall g | g in f[..failing + 1] && g.block.Id() == f[i].block.Id()
      ensures i <= failing
    {
      var j :| 0 <= j <= failing && f[j] == g;
      LineMembersAreAncestors(f, j);
      LineMembersAreAncestors(f, i);
    }
  }

  // which switches cannot strand, whatever the blocks do

  /** The same window, and sessions nested no deeper. */
  predicate Within(m: Mark, bound: Mark) {
    m.window == bound.window && m.before <= bound.before && m.after <= bound.after
  }

  predicate ReachedWithin(r: Reached, bound: Mark) {
    match r
    case Before(k) => k <= bound.before
    case After(m) => Within(m, bound)
  }

  /** What a block can do to the windows is known, though not whether it applies. */
  ghost predicate Windowed<S(!new)>(exec: Exec<S>, w: Block -> Mark) {
    forall x: S, b: Block {:trigger exec(x, b)} ::
      match exec(x, b)
      case Done(_, m) => Within(m, w(b))
      case Failed(r) => ReachedWithin(r, w(b))
  }

  /** Whatever the one allows a block, the other allows it too. */
  ghost predicate Milder(v: Block -> Mark, w: Block -> Mark) {
    forall b: Block {:trigger v(b)} :: Within(v(b), w(b))
  }

  /** What the k oldest blocks of a branch can do to the windows. */
  function BranchMarks(w: Block -> Mark, f: seq<ForkItem>, k: nat): (r: seq<Mark>)
    requires k <= |f|
    ensures |r| == k && forall i | 0 <= i < k :: r[i] == w(f[|f| - 1 - i].block)
  {
    if k == 0 then [] else BranchMarks(w, f, k - 1) + [w(f[|f| - k].block)]
  }

  /** Whether the old branch can be gone back to when the block on top of the k lowest fails as late as it can. */
  predicate ReturnsFrom(len: Lengths, w: Block -> Mark, f: seq<ForkItem>, k: nat) {
    k < |f| ==> Returns(len, BranchMarks(w, f, k), After(w(f[|f| - 1 - k].block)))
  }

  ghost predicate ReturnsFromAnywhere(len: Lengths, w: Block -> Mark, f: seq<ForkItem>) {
    forall k: nat {:trigger ReturnsFrom(len, w, f, k)} :: ReturnsFrom(len, w, f, k)
  }

  /** The switch can be undone wherever it fails, by lengths, windows and sessions alone. */
  ghost predicate NeverStuck<S>(n: Node<S>, b: Block, f: seq<ForkItem>, s: seq<ForkItem>, w: Block -> Mark)
    requires WellKeyed(n.NewIndex(b)) && s != []
  {
    && |s| <= n.caches.undo.depth && |s| < |Ancestry(n.NewIndex(b), n.NewHead(b))|
    && ReturnsFromAnywhere(Lengths(|s|, |f|, |Ancestry(n.NewIndex(b), s[0])|), w, f)
  }

  ghost predicate AllWithin(marks: seq<Mark>, bounds: seq<Mark>) {
    |marks| == |bounds| && forall i | 0 <= i < |marks| :: Within(marks[i], bounds[i])
  }

  /** Shallower sessions, or a failure that comes sooner, are no harder to return from. */
  lemma {:induction false} ReturnsSooner(len: Lengths, marks: seq<Mark>, bounds: seq<Mark>, r: Reached, bound: Mark)
    requires AllWithin(marks, bounds) && ReachedWithin(r, bound) && Returns(len, bounds, After(bound))
    ensures Returns(len, marks, r)
  {
    var more, most := WithFailure(marks, r), WithFailure(bounds, After(bound));
    forall j | 0 <= j < |more|
      ensures Roomy(more, j)
    {
      assert Roomy(most, j);
      if j > 0 {
        assert Within(marks[j - 1], bounds[j - 1]) && more[j - 1] == marks[j - 1] && most[j - 1] == bounds[j - 1];
      }
      if j < |marks| {
        assert Within(marks[j], bounds[j]) && more[j] == marks[j] && most[j] == bounds[j];
      }
    }
    var windows, all := WindowsSet(marks, r), WindowsSet(bounds, After(bound));
    forall j | 0 <= j < |windows|
      ensures windows[j] == all[j]
    {
      if j < |marks| {
        assert Within(marks[j], bounds[j]);
      }
    }
  }

  lemma {:induction false} MarksAreKnown<S(!new)>(exec: Exec<S>, base: S, baseId: BlockId, links: seq<Link<S>>,
                                                  f: seq<ForkItem>, s: seq<ForkItem>, w: Block -> Mark,
                                                  tried: seq<Link<S>>)
    requires Windowed(exec, w) && |s| <= |links| && Stepwise(exec, base, baseId, links)
    requires tried == Tried(exec, base, baseId, links, f, s)
    ensures |tried| <= |f| && AllWithin(MarksOf(tried), BranchMarks(w, f, |tried|))
  {
    var kept := links[..|links| - |s|];
    StepwisePrefix(exec, base, baseId, links, |kept|);
    ExtendContinues(exec, base, baseId, kept, Upward(f));
    forall i | 0 <= i < |tried|
      ensures Within(tried[i].mark, w(f[|f| - 1 - i].block))
    {
      assert (kept + tried)[|kept| + i] == tried[i];
      assert Step(exec, base, baseId, kept + tried, |kept| + i);
      assert exec(StateAt(base, kept + tried, |kept| + i), tried[i].block).Done?;
    }
  }

  lemma {:induction false} FailureIsKnown<S(!new)>(exec: Exec<S>, base: S, baseId: BlockId, kept: seq<Link<S>>,
                                                   tried: seq<Link<S>>, f: seq<ForkItem>, w: Block -> Mark)
    requires Windowed(exec, w) && |tried| < |f|
    ensures ReachedWithin(NextFailure(exec, base, baseId, kept, tried, f), w(f[|f| - 1 - |tried|].block))
  {
  }

  /** If lengths and windows allow it, no block can make the switch strand. */
  lemma {:induction false} NeverStuckSuffices<S(!new)>(exec: Exec<S>, n: Node<S>, b: Block, f: seq<ForkItem>,
                                                       s: seq<ForkItem>, w: Block -> Mark)
    requires Inv(exec, n) && Switches(n, b, f, s) && Windowed(exec, w)
    requires WellKeyed(n.NewIndex(b)) && s != [] && NeverStuck(n, b, f, s, w)
    ensures Push(exec, n, b).result != Stranded
  {
    var kept, tried := n.links[..|n.links| - |s|], Tried(exec, n.base, n.baseId, n.links, f, s);
    SwitchEnds(exec, n, b, f, s, kept, tried);
    EndsWell(exec, n, b, f, s, w, kept, tried);
  }

  lemma {:induction false} EndsWell<S(!new)>(exec: Exec<S>, n: Node<S>, b: Block, f: seq<ForkItem>, s: seq<ForkItem>,
                                             w: Block -> Mark, kept: seq<Link<S>>, tried: seq<Link<S>>)
    requires Stepwise(exec, n.base, n.baseId, n.links) && Windowed(exec, w) && |s| <= |n.links|
    requires kept == n.links[..|n.links| - |s|] && tried == Tried(exec, n.base, n.baseId, n.links, f, s)
             && |tried| <= |f|
    requires WellKeyed(n.NewIndex(b)) && s != [] && NeverStuck(n, b, f, s, w)
    ensures Ending(exec, n, b, f, s, kept, tried) != Stranded
  {
    MarksAreKnown(exec, n.base, n.baseId, n.links, f, s, w, tried);
    if |tried| < |f| {
      var k, len := |tried|, Lengths(|s|, |f|, |Ancestry(n.NewIndex(b), s[0])|);
      FailureIsKnown(exec, n.base, n.baseId, kept, tried, f, w);
      assert ReturnsFrom(len, w, f, k);
      ReturnsSooner(len, MarksOf(tried), BranchMarks(w, f, k), NextFailure(exec, n.base, n.baseId, kept, tried, f),
                    w(f[|f| - 1 - k].block));
    }
  }

  lemma {:induction false} TriedFails<S>(exec: Exec<S>, base: S, baseId: BlockId, kept: seq<Link<S>>, f: seq<ForkItem>,
                                         tried: seq<Link<S>>)
    requires tried == Extend(exec, TipState(base, kept), TipId(baseId, kept), Upward(f)) && |tried| < |f|
    ensures NextOutcome(exec, base, baseId, kept, tried, f).Failed?
  {
    RunBranchFromStart(exec, base, baseId, kept, Caches(Undo(0, 0), map[], 0), None, f, tried);
  }

  /** Rules like the given ones, but under which some blocks in a row apply and the next one fails. */
  function Breaking<S>(exec: Exec<S>, x: S, w: Block -> Mark, up: seq<Block>, from: nat, k: nat, r: Reached): Exec<S>
    requires k < |up|
  {
    (y: S, b: Block) =>
      if b == up[k] then Failed(r)
      else if from <= k && b in up[from..k] then Done(x, w(b))
      else exec(y, b)
  }

  lemma {:induction false} ExtendRuns<S(!new)>(exec: Exec<S>, x: S, id: BlockId, blocks: seq<Block>, k: nat)
    requires k < |blocks| && blocks[0].previous == id
    requires forall j | 1 <= j < |blocks| :: blocks[j].previous == blocks[j - 1].Id()
    requires k > 0 ==> exec(x, blocks[0]).Done?
    requires forall j, y: S | 1 <= j < k :: exec(y, blocks[j]).Done?
    requires forall y: S :: exec(y, blocks[k]).Failed?
    ensures |Extend(exec, x, id, blocks)| == k
    decreases k
  {
    if k > 0 {
      var next := exec(x, blocks[0]).state;
      assert forall j | 0 <= j < |blocks[1..]| :: blocks[1..][j] == blocks[j + 1];
      ExtendRuns(exec, next, blocks[0].Id(), blocks[1..], k - 1);
    }
  }

  /** Where the new branch has a block of the chain it is the branch's lowest, and the tip of the chain. */
  lemma {:induction false} SharedWithChain<S>(exec: Exec<S>, n: Node<S>, b: Block, f: seq<ForkItem>, s: seq<ForkItem>,
                                              i: nat, j: nat)
    requires Inv(exec, n) && Switches(n, b, f, s) && i < |n.links| && j < |f| && |s| <= |n.links|
    requires n.links[i].block == Upward(f)[j]
    ensures j == 0 && s != [] && f[|f| - 1].block == s[0].block
  {
    SwitchIsBranching(exec, n, b, f, s);
    StepwiseIsChained(exec, n.base, n.baseId, n.links);
    SamePosition(n.baseId, n.links, f, s, i, j);
    SharedBlockIsWholeBranch(n.NewIndex(b), n.NewHead(b).block.Id(), n.Tip(), f, s, |f| - 1 - j, |s| - 1 - j);
  }

  lemma {:induction false} SamePosition<S>(baseId: BlockId, links: seq<Link<S>>, f: seq<ForkItem>, s: seq<ForkItem>,
                                           i: nat, j: nat)
    requires Chained(baseId, links) && Linked(f) && Linked(s) && s != [] && |s| <= |links| && i < |links| && j < |f|
    requires s[0].block.Id() == TipId(baseId, links) && IdAt(baseId, links, |links| - |s|) == f[|f| - 1].block.previous
    requires links[i].block == f[|f| - 1 - j].block
    ensures j < |s| && f[|f| - 1 - j].block == s[|s| - 1 - j].block
  {
    TipNumber(baseId, links, i + 1);
    TipNumber(baseId, links, |links| - |s|);
    LineMembersAreAncestors(f, |f| - 1 - j);
    LineMembersAreAncestors(f, |f| - 1);
    assert i == |links| - |s| + j;
    BranchIsChainTop(baseId, links, s, |s| - j);
  }

  /** The position of the first block of the new branch that is not on the chain. */
  function FirstNew(f: seq<ForkItem>, s: seq<ForkItem>): nat
    requires f != [] && s != []
  {
    if f[|f| - 1].block == s[0].block then 1 else 0
  }

  lemma {:induction false} BreakingKeepsChain<S(!new)>(exec: Exec<S>, n: Node<S>, b: Block, f: seq<ForkItem>,
                                                       s: seq<ForkItem>, w: Block -> Mark, v: Block -> Mark, k: nat,
                                                       r: Reached)
    requires Inv(exec, n) && Switches(n, b, f, s) && Windowed(exec, w) && Milder(v, w)
    requires f != [] && s != [] && |s| <= |n.links| && FirstNew(f, s) <= k < |f| && ReachedWithin(r, w(Upward(f)[k]))
    ensures var broken := Breaking(exec, n.base, v, Upward(f), FirstNew(f, s), k, r);
            && Inv(broken, n) && Windowed(broken, w)
            && |Tried(broken, n.base, n.baseId, n.links, f, s)| == k
  {
    var from := FirstNew(f, s);
    var broken := Breaking(exec, n.base, v, Upward(f), from, k, r);
    forall i: nat | i < |n.links|
      ensures Step(broken, n.base, n.baseId, n.links, i)
    {
      assert Step(exec, n.base, n.baseId, n.links, i);
      var up := Upward(f);
      forall j: nat | from <= j <= k
        ensures n.links[i].block != up[j]
      {
        if n.links[i].block == up[j] {
          SharedWithChain(exec, n, b, f, s, i, j);
          assert false;
        }
      }
    }
    SwitchIsBranching(exec, n, b, f, s);
    BreakingRuns(exec, n.base, n.baseId, n.links, f, s, v, k, from, r);
  }

  lemma {:induction false} BreakingRuns<S(!new)>(exec: Exec<S>, base: S, baseId: BlockId, links: seq<Link<S>>,
                                                 f: seq<ForkItem>, s: seq<ForkItem>, w: Block -> Mark, k: nat,
                                                 from: nat, r: Reached)
    requires Stepwise(exec, base, baseId, links) && Linked(f) && Linked(s) && 0 < |s| <= |links| && k < |f| && f != []
    requires s[0].block.Id() == TipId(baseId, links) && from == FirstNew(f, s) <= k
    requires IdAt(baseId, links, |links| - |s|) == f[|f| - 1].block.previous == s[|s| - 1].block.previous
    ensures |Tried(Breaking(exec, base, w, Upward(f), from, k, r), base, baseId, links, f, s)| == k
  {
    var kept := links[..|links| - |s|];
    DistinctBlocks(f);
    if from == 1 {
      OldTipApplies(exec, base, baseId, links, f, s);
    }
    BreakingExtends(exec, base, w, Upward(f), from, k, TipState(base, kept), r);
  }

  /** A branch that starts with the tip of the chain starts with a block that applies. */
  lemma {:induction false} OldTipApplies<S>(exec: Exec<S>, base: S, baseId: BlockId, links: seq<Link<S>>,
                                            f: seq<ForkItem>, s: seq<ForkItem>)
    requires Stepwise(exec, base, baseId, links) && f != [] && Linked(s) && 0 < |s| <= |links|
    requires s[0].block.Id() == TipId(baseId, links) && f[|f| - 1].block == s[0].block
    requires IdAt(baseId, links, |links| - |s|) == f[|f| - 1].block.previous == s[|s| - 1].block.previous
    ensures exec(TipState(base, links[..|links| - |s|]), f[|f| - 1].block).Done?
  {
    OnlyBlock(f, s);
    StepwiseIsChained(exec, base, baseId, links);
    BranchIsChainTop(baseId, links, s, 1);
    StepAt(exec, base, baseId, links, |links| - 1);
  }

  lemma {:induction false} BreakingExtends<S(!new)>(exec: Exec<S>, z: S, w: Block -> Mark, up: seq<Block>, from: nat,
                                                    k: nat, x: S, r: Reached)
    requires from <= k < |up| && from <= 1 && (from == 1 ==> exec(x, up[0]).Done?)
    requires forall j | 1 <= j < |up| :: up[j].previous == up[j - 1].Id()
    requires forall j, l | 0 <= j < l < |up| :: up[j] != up[l]
    ensures |Extend(Breaking(exec, z, w, up, from, k, r), x, up[0].previous, up)| == k
  {
    var broken := Breaking(exec, z, w, up, from, k, r);
    if k > 0 {
      assert from == 0 ==> up[from..k][0] == up[0];
      assert from == 1 ==> up[0] !in up[from..k];
    }
    forall j, y: S | 1 <= j < k
      ensures broken(y, up[j]).Done?
    {
      assert up[from..k][j - from] == up[j];
    }
    ExtendRuns(broken, x, up[0].previous, up, k);
  }

  /** Marks that differ at most in the sessions of the first block, which has none below it. */
  ghost predicate Alike(marks: seq<Mark>, others: seq<Mark>) {
    && |marks| == |others|
    && forall i | 0 <= i < |marks| :: marks[i].window == others[i].window && (i > 0 ==> marks[i] == others[i])
  }

  lemma {:induction false} ReturnsAlike(len: Lengths, marks: seq<Mark>, others: seq<Mark>, r: Reached)
    requires Alike(marks, others) && Returns(len, marks, r)
    ensures Returns(len, others, r)
  {
    var x, y := WithFailure(marks, r), WithFailure(others, r);
    forall j | 0 <= j < |y|
      ensures Roomy(y, j)
    {
      assert Roomy(x, j);
    }
    assert WindowsOf(marks) == WindowsOf(others);
  }

  lemma {:induction false} BrokenMarkAt<S(!new)>(exec: Exec<S>, broken: Exec<S>, base: S, baseId: BlockId,
                                                 kept: seq<Link<S>>, tried: seq<Link<S>>, up: seq<Block>,
                                                 v: Block -> Mark, from: nat, r: Reached, i: nat)
    requires |tried| < |up| && broken == Breaking(exec, base, v, up, from, |tried|, r) && from <= 1
    requires Stepwise(broken, base, baseId, kept + tried) && 0 < i < |tried| && tried[i].block == up[i] != up[|tried|]
    ensures tried[i].mark == v(up[i])
  {
    assert (kept + tried)[|kept| + i] == tried[i];
    assert Step(broken, base, baseId, kept + tried, |kept| + i);
    assert up[from..|tried|][i - from] == up[i];
  }

  lemma {:induction false} AlikeFrom(marks: seq<Mark>, f: seq<ForkItem>, w: Block -> Mark, v: Block -> Mark)
    requires |marks| <= |f| && AllWithin(marks, BranchMarks(w, f, |marks|)) && Milder(v, w)
    requires forall i | 0 < i < |marks| :: marks[i] == v(Upward(f)[i])
    ensures Alike(marks, BranchMarks(v, f, |marks|))
  {
    var most, other := BranchMarks(w, f, |marks|), BranchMarks(v, f, |marks|);
    forall i | 0 <= i < |marks|
      ensures marks[i].window == other[i].window
      ensures i > 0 ==> marks[i] == other[i]
    {
      assert Within(marks[i], most[i]);
      assert Upward(f)[i] == f[|f| - 1 - i].block;
    }
  }

  /** Broken rules do to the windows what they were made to do. */
  lemma {:induction false} BrokenMarks<S(!new)>(exec: Exec<S>, broken: Exec<S>, base: S, baseId: BlockId,
                                                links: seq<Link<S>>, f: seq<ForkItem>, s: seq<ForkItem>,
                                                w: Block -> Mark, v: Block -> Mark, from: nat, r: Reached,
                                                kept: seq<Link<S>>, tried: seq<Link<S>>)
    requires |tried| < |f| && broken == Breaking(exec, base, v, Upward(f), from, |tried|, r)
    requires Windowed(broken, w) && Milder(v, w)
    requires Stepwise(broken, base, baseId, links) && Linked(f) && |s| <= |links| && from <= 1
    requires kept == links[..|links| - |s|] && tried == Tried(broken, base, baseId, links, f, s)
    ensures Alike(MarksOf(tried), BranchMarks(v, f, |tried|))
  {
    var up := Upward(f);
    MarksAreKnown(broken, base, baseId, links, f, s, w, tried);
    StepwisePrefix(broken, base, baseId, links, |kept|);
    ExtendContinues(broken, base, baseId, kept, up);
    DistinctBlocks(f);
    forall i | 0 < i < |tried|
      ensures MarksOf(tried)[i] == v(up[i])
    {
      BrokenMarkAt(exec, broken, base, baseId, kept, tried, up, v, from, r, i);
    }
    AlikeFrom(MarksOf(tried), f, w, v);
  }

  lemma {:induction false} BrokenFailure<S(!new)>(exec: Exec<S>, broken: Exec<S>, base: S, baseId: BlockId,
                                                  links: seq<Link<S>>, f: seq<ForkItem>, s: seq<ForkItem>,
                                                  w: Block -> Mark, from: nat, r: Reached, kept: seq<Link<S>>,
                                                  tried: seq<Link<S>>)
    requires |tried| < |f| && broken == Breaking(exec, base, w, Upward(f), from, |tried|, r)
    requires Stepwise(broken, base, baseId, links) && Linked(f) && |s| <= |links|
    requires kept == links[..|links| - |s|] && tried == Tried(broken, base, baseId, links, f, s)
    requires TipId(baseId, kept) == f[|f| - 1].block.previous
    ensures NextFailure(broken, base, baseId, kept, tried, f) == r
  {
    StepwisePrefix(broken, base, baseId, links, |kept|);
    ExtendContinues(broken, base, baseId, kept, Upward(f));
    NextSits(baseId, kept, tried, f);
    assert f[|f| - 1 - |tried|].block == Upward(f)[|tried|];
  }

  /** How a switch ends whose new branch fails at one block, having got as far as it is told to. */
  function BrokenResult<S>(n: Node<S>, b: Block, f: seq<ForkItem>, s: seq<ForkItem>, v: Block -> Mark, k: nat,
                           r: Reached): PushResult
    requires WellKeyed(n.NewIndex(b)) && s != [] && k <= |f|
  {
    var len := Lengths(|s|, |f|, |Ancestry(n.NewIndex(b), s[0])|);
    if Returns(len, BranchMarks(v, f, k), r) then RolledBack else Stranded
  }

  lemma {:induction false} BreakingEnds<S(!new)>(exec: Exec<S>, n: Node<S>, b: Block, f: seq<ForkItem>,
                                                 s: seq<ForkItem>, w: Block -> Mark, v: Block -> Mark, k: nat,
                                                 r: Reached, result: PushResult)
    returns (broken: Exec<S>)
    requires Inv(exec, n) && Switches(n, b, f, s) && Windowed(exec, w) && Milder(v, w) && WellKeyed(n.NewIndex(b))
    requires f != [] && s != [] && |s| <= n.caches.undo.depth && |s| < |Ancestry(n.NewIndex(b), n.NewHead(b))|
    requires FirstNew(f, s) <= k < |f| && ReachedWithin(r, w(Upward(f)[k]))
             && result == BrokenResult(n, b, f, s, v, k, r)
    ensures Inv(broken, n) && Windowed(broken, w) && |Tried(broken, n.base, n.baseId, n.links, f, s)| == k
    ensures Push(broken, n, b).result == result
  {
    broken := Breaking(exec, n.base, v, Upward(f), FirstNew(f, s), k, r);
    BreakingKeepsChain(exec, n, b, f, s, w, v, k, r);
    var kept, tried := n.links[..|n.links| - |s|], Tried(broken, n.base, n.baseId, n.links, f, s);
    SwitchEnds(broken, n, b, f, s, kept, tried);
    BrokenEnding(exec, broken, n, b, f, s, w, v, r, kept, tried, result);
  }

  lemma {:induction false} BrokenEnding<S(!new)>(exec: Exec<S>, broken: Exec<S>, n: Node<S>, b: Block, f: seq<ForkItem>,
                                                 s: seq<ForkItem>, w: Block -> Mark, v: Block -> Mark, r: Reached,
                                                 kept: seq<Link<S>>, tried: seq<Link<S>>, result: PushResult)
    requires Inv(broken, n) && Switches(n, b, f, s) && Windowed(broken, w) && Milder(v, w)
    requires WellKeyed(n.NewIndex(b)) && f != [] && s != [] && |tried| < |f| && |s| <= |n.links|
    requires broken == Breaking(exec, n.base, v, Upward(f), FirstNew(f, s), |tried|, r)
    requires kept == n.links[..|n.links| - |s|] && tried == Tried(broken, n.base, n.baseId, n.links, f, s)
    requires |s| <= n.caches.undo.depth && |s| < |Ancestry(n.NewIndex(b), n.NewHead(b))|
    requires result == BrokenResult(n, b, f, s, v, |tried|, r)
    ensures Ending(broken, n, b, f, s, kept, tried) == result
  {
    var len := Lengths(|s|, |f|, |Ancestry(n.NewIndex(b), s[0])|);
    SwitchIsBranching(broken, n, b, f, s);
    BrokenReturns(exec, broken, n.base, n.baseId, n.links, f, s, w, v, FirstNew(f, s), r, kept, tried, len);
  }

  lemma {:induction false} BrokenReturns<S(!new)>(exec: Exec<S>, broken: Exec<S>, base: S, baseId: BlockId,
                                                  links: seq<Link<S>>, f: seq<ForkItem>, s: seq<ForkItem>,
                                                  w: Block -> Mark, v: Block -> Mark, from: nat, r: Reached,
                                                  kept: seq<Link<S>>, tried: seq<Link<S>>, len: Lengths)
    requires |tried| < |f| && broken == Breaking(exec, base, v, Upward(f), from, |tried|, r)
    requires Windowed(broken, w) && Milder(v, w)
    requires Stepwise(broken, base, baseId, links) && Linked(f) && |s| <= |links| && from <= 1
    requires kept == links[..|links| - |s|] && tried == Tried(broken, base, baseId, links, f, s)
    requires TipId(baseId, kept) == f[|f| - 1].block.previous
    ensures NextFailure(broken, base, baseId, kept, tried, f) == r
    ensures Returns(len, MarksOf(tried), r) <==> Returns(len, BranchMarks(v, f, |tried|), r)
  {
    BrokenMarks(exec, broken, base, baseId, links, f, s, w, v, from, r, kept, tried);
    BrokenFailure(exec, broken, base, baseId, links, f, s, v, from, r, kept, tried);
    var marks, other := MarksOf(tried), BranchMarks(v, f, |tried|);
    if Returns(len, marks, r) {
      ReturnsAlike(len, marks, other, r);
    }
    if Returns(len, other, r) {
      ReturnsAlike(len, other, marks, r);
    }
  }

  /** A branch's blocks sit on each other and differ. */
  lemma {:induction false} DistinctBlocks(f: seq<ForkItem>)
    requires Linked(f)
    ensures var up := Upward(f);
            && (forall j | 1 <= j < |up| :: up[j].previous == up[j - 1].Id())
            && (forall j, l | 0 <= j < l < |up| :: up[j] != up[l])
  {
    var up := Upward(f);
    forall j | 1 <= j < |up|
      ensures up[j].previous == up[j - 1].Id()
    {
      assert f[|f| - 1 - j].block.previous == f[|f| - 1 - j + 1].block.Id();
    }
    forall j, l | 0 <= j < l < |up|
      ensures up[j] != up[l]
    {
      LineMembersAreAncestors(f, |f| - 1 - j);
      LineMembersAreAncestors(f, |f| - 1 - l);
    }
  }

  /** If lengths and windows do not allow it, some rules, under which the chain is the same, make the switch strand. */
  lemma {:induction false} StuckSomewhere<S(!new)>(exec: Exec<S>, n: Node<S>, b: Block, f: seq<ForkItem>,
                                                   s: seq<ForkItem>, w: Block -> Mark)
    requires Inv(exec, n) && Switches(n, b, f, s) && Windowed(exec, w)
    requires WellKeyed(n.NewIndex(b)) && s != [] && !NeverStuck(n, b, f, s, w)
    ensures exists broken: Exec<S> :: Inv(broken, n) && Windowed(broken, w) && Push(broken, n, b).result == Stranded
  {
    SwitchIsBranching(exec, n, b, f, s);
    if |s| > n.caches.undo.depth || |s| >= |Ancestry(n.NewIndex(b), n.NewHead(b))| {
      CannotPop(exec, n, b, f, s);
    } else {
      var k: nat :| !ReturnsFrom(Lengths(|s|, |f|, |Ancestry(n.NewIndex(b), s[0])|), w, f, k);
      var broken := StuckAt(exec, n, b, f, s, w, k);
    }
  }

  lemma {:induction false} StuckAt<S(!new)>(exec: Exec<S>, n: Node<S>, b: Block, f: seq<ForkItem>, s: seq<ForkItem>,
                                            w: Block -> Mark, k: nat)
    returns (broken: Exec<S>)
    requires Inv(exec, n) && Switches(n, b, f, s) && Windowed(exec, w)
    requires WellKeyed(n.NewIndex(b)) && f != [] && s != []
    requires |s| <= n.caches.undo.depth && |s| < |Ancestry(n.NewIndex(b), n.NewHead(b))|
    requires !ReturnsFrom(Lengths(|s|, |f|, |Ancestry(n.NewIndex(b), s[0])|), w, f, k)
    ensures Inv(broken, n) && Windowed(broken, w) && Push(broken, n, b).result == Stranded
  {
    AtLeastItself(n.NewIndex(b), s[0]);
    assert k > 0;
    broken := BreakingEnds(exec, n, b, f, s, w, w, k, After(w(f[|f| - 1 - k].block)), Stranded);
  }

  lemma {:induction false} AtLeastItself(idx: Index, item: ForkItem)
    requires WellKeyed(idx)
    ensures |Ancestry(idx, item)| > 0
  {
  }

  lemma {:induction false} CannotPop<S>(exec: Exec<S>, n: Node<S>, b: Block, f: seq<ForkItem>, s: seq<ForkItem>)
    requires Inv(exec, n) && Switches(n, b, f, s) && WellKeyed(n.NewIndex(b))
    requires |s| > n.caches.undo.depth || |s| >= |Ancestry(n.NewIndex(b), n.NewHead(b))|
    ensures Push(exec, n, b).result == Stranded
  {
    if |s| <= |n.links| {
      SwitchEnds(exec, n, b, f, s, n.links[..|n.links| - |s|], Tried(exec, n.base, n.baseId, n.links, f, s));
    } else {
      SwitchEnds(exec, n, b, f, s, [], []);
    }
  }

  /**
   Whether a switch can strand is decided before the push, by lengths and windows alone: it cannot,
   whatever its blocks do, exactly if every point of failure can be returned from.
   */
  lemma {:induction false} NeverStuckIff<S(!new)>(exec: Exec<S>, n: Node<S>, b: Block, f: seq<ForkItem>,
                                                  s: seq<ForkItem>, w: Block -> Mark)
    requires Inv(exec, n) && Switches(n, b, f, s) && Windowed(exec, w)
    ensures WellKeyed(n.NewIndex(b)) && s != []
    ensures NeverStuck(n, b, f, s, w) <==>
            forall any: Exec<S> | Inv(any, n) && Windowed(any, w) :: Push(any, n, b).result != Stranded
  {
    SwitchIsBranching(exec, n, b, f, s);
    if NeverStuck(n, b, f, s, w) {
      forall any: Exec<S> | Inv(any, n) && Windowed(any, w)
        ensures Push(any, n, b).result != Stranded
      {
        NeverStuckSuffices(any, n, b, f, s, w);
      }
    } else {
      StuckSomewhere(exec, n, b, f, s, w);
    }
  }

  /** The ordinary fork: the block is new and the first to outgrow the chain, and the meeting block is cached. */
  predicate Ordinary<S>(n: Node<S>, b: Block, s: seq<ForkItem>)
    requires WellKeyed(n.NewIndex(b)) && s != []
  {
    && b.Id() !in n.caches.index && n.NewHead(b).block == b
    && (n.head.Some? ==> b.Num() > n.head.value.block.Num())
    && b.Num() == NumFromId(n.Tip()) + 1
    && Lock(n.NewIndex(b), s[|s| - 1]).Some?
    && |s| <= n.caches.undo.depth
  }

  lemma {:induction false} OrdinaryLengths<S>(exec: Exec<S>, n: Node<S>, b: Block, f: seq<ForkItem>, s: seq<ForkItem>)
    requires Inv(exec, n) && Switches(n, b, f, s) && WellKeyed(n.NewIndex(b)) && s != [] && Ordinary(n, b, s)
    ensures |f| == |s| + 1
    ensures |s| < |Ancestry(n.NewIndex(b), s[0])| && |s| < |Ancestry(n.NewIndex(b), n.NewHead(b))|
  {
    SwitchIsBranching(exec, n, b, f, s);
    var idx, hd := n.NewIndex(b), n.NewHead(b);
    BranchShape(idx, hd.block.Id(), n.Tip());
    ClimbEndsAtSiblings(idx, idx[hd.block.Id()], idx[n.Tip()]);
    var line := Ancestry(idx, s[0]);
    AncestryStep(idx, s[0], |s| - 1);
    assert line[|s| - 1] == s[|s| - 1];
    assert hd == n.Item(b) && idx[b.Id()] == hd;
  }

  /**
   An ordinary fork cannot strand, whatever its blocks do, exactly if each block's window covers the new
   branch up to it, together with the sessions of the next block, and its own sessions fit as well.
   */
  lemma {:induction false} OrdinaryForkIsSafeIff<S(!new)>(exec: Exec<S>, n: Node<S>, b: Block, f: seq<ForkItem>,
                                                          s: seq<ForkItem>, w: Block -> Mark)
    requires Inv(exec, n) && Switches(n, b, f, s) && Windowed(exec, w)
    requires WellKeyed(n.NewIndex(b)) && s != [] && Ordinary(n, b, s) && w(b).window > 0
    ensures |f| == |s| + 1
    ensures Reversible(w, Upward(f)) <==>
            forall any: Exec<S> | Inv(any, n) && Windowed(any, w) :: Push(any, n, b).result != Stranded
  {
    OrdinaryLengths(exec, n, b, f, s);
    NeverStuckIff(exec, n, b, f, s, w);
    NewestFirst(exec, n, b, f, s);
    OrdinaryReturns(f, s, w, |Ancestry(n.NewIndex(b), s[0])|);
  }

  lemma {:induction false} NewestFirst<S>(exec: Exec<S>, n: Node<S>, b: Block, f: seq<ForkItem>, s: seq<ForkItem>)
    requires Inv(exec, n) && Switches(n, b, f, s) && n.NewHead(b).block == b
    ensures s != [] && f != [] && f[0].block == b
  {
    SwitchIsBranching(exec, n, b, f, s);
  }

  /** Block j of a branch, from the oldest on, leaves room in the windows for those below it. */
  predicate Fits(w: Block -> Mark, up: seq<Block>, j: nat) {
    0 < j < |up| ==>
      && w(up[j - 1]).window >= j + w(up[j]).before
      && (w(up[j]).after > 0 ==> w(up[j]).window >= j + w(up[j]).after)
  }

  ghost predicate Reversible(w: Block -> Mark, up: seq<Block>) {
    forall j: nat {:trigger Fits(w, up, j)} :: Fits(w, up, j)
  }

  /** What the k lowest blocks of a branch, and the one above them, can do to the windows. */
  lemma {:induction false} BranchRoom(w: Block -> Mark, f: seq<ForkItem>, k: nat, marks: seq<Mark>)
    requires k < |f| && marks == WithFailure(BranchMarks(w, f, k), After(w(f[|f| - 1 - k].block)))
    ensures forall j | 0 <= j <= k :: Roomy(marks, j) <==> Fits(w, Upward(f), j)
  {
    var up := Upward(f);
    forall j | 0 <= j <= k
      ensures marks[j] == w(up[j])
    {
      assert up[j] == f[|f| - 1 - j].block;
    }
  }

  lemma {:induction false} OrdinaryReturns(f: seq<ForkItem>, s: seq<ForkItem>, w: Block -> Mark, cached: nat)
    requires |f| == |s| + 1 && 0 < |s| < cached && w(f[0].block).window > 0
    ensures Reversible(w, Upward(f)) <==> ReturnsFromAnywhere(Lengths(|s|, |f|, cached), w, f)
  {
    var len, up := Lengths(|s|, |f|, cached), Upward(f);
    if Reversible(w, up) {
      forall k: nat
        ensures ReturnsFrom(len, w, f, k)
      {
        if k < |f| {
          var marks := WithFailure(BranchMarks(w, f, k), After(w(f[|f| - 1 - k].block)));
          BranchRoom(w, f, k, marks);
          assert forall j: nat :: Fits(w, up, j);
          if k == |s| {
            WholeBranchReaches(len, w, f);
          }
        }
      }
    }
    if ReturnsFromAnywhere(len, w, f) {
      assert ReturnsFrom(len, w, f, |s|);
      var marks := WithFailure(BranchMarks(w, f, |s|), After(w(f[0].block)));
      BranchRoom(w, f, |s|, marks);
      forall j: nat
        ensures Fits(w, up, j)
      {
        if j < |f| {
          assert Roomy(marks, j);
        }
      }
    }
  }

  lemma {:induction false} WholeBranchReaches(len: Lengths, w: Block -> Mark, f: seq<ForkItem>)
    requires len.added == |f| == len.popped + 1
    requires Reversible(w, Upward(f)) && w(f[0].block).window > 0
    ensures Reaches(len, WindowsSet(BranchMarks(w, f, len.popped), After(w(f[0].block))), len.popped)
  {
    var windows, up := WindowsSet(BranchMarks(w, f, len.popped), After(w(f[0].block))), Upward(f);
    forall j | 0 <= j < |windows|
      ensures windows[j] >= 1
    {
      if j < len.popped {
        assert Fits(w, up, j + 1);
        assert up[j] == f[|f| - 1 - j].block;
      }
    }
  }

  /** The window of a block as `update_global_dynamic_data` sets it, from the state it is applied on. */
  ghost predicate Finalising<S(!new)>(exec: Exec<S>, irreversible: S -> nat) {
    forall x: S, b: Block {:trigger exec(x, b)} ::
      match exec(x, b)
      case Done(_, m) => SetsWindow(irreversible(x), b, m)
      case Failed(Before(_)) => true
      case Failed(After(m)) => SetsWindow(irreversible(x), b, m)
  }

  predicate SetsWindow(irreversible: nat, b: Block, m: Mark) {
    irreversible <= b.Num() && m.window == b.Num() - irreversible + 1
  }

  /**
   The states that block j and the one below it were applied on have so little irreversible that the
   sessions of block j leave room. `first` is the number of the new branch's first block.
   */
  predicate StillReversible<S>(irreversible: S -> nat, base: S, kept: seq<Link<S>>, tried: seq<Link<S>>,
                               marks: seq<Mark>, j: nat, first: nat)
  {
    0 < j <= |tried| && j < |marks| ==>
      && irreversible(StateAt(base, kept + tried, |kept| + j - 1)) + marks[j].before <= first
      && (marks[j].after > 0 ==> irreversible(StateAt(base, kept + tried, |kept| + j)) + marks[j].after <= first + 1)
  }

  /**
   With the windows that the code sets, what was tried can be undone exactly if at each block nothing
   above the new branch's first block had become irreversible too early: on the state below it, not even
   counting the block's sessions, and on its own, counting those that came late.
   */
  lemma {:induction false} UndoableUnlessIrreversible<S(!new)>(exec: Exec<S>, irreversible: S -> nat, base: S,
                                                               baseId: BlockId, links: seq<Link<S>>, f: seq<ForkItem>,
                                                               s: seq<ForkItem>, kept: seq<Link<S>>,
                                                               tried: seq<Link<S>>, marks: seq<Mark>, first: nat)
    requires Finalising(exec, irreversible) && Stepwise(exec, base, baseId, links) && |s| <= |links| && |tried| < |f|
    requires kept == links[..|links| - |s|] && tried == Tried(exec, base, baseId, links, f, s)
    requires first == NumFromId(TipId(baseId, kept)) + 1
    requires Linked(f) && f[|f| - 1].block.previous == TipId(baseId, kept)
    requires marks == WithFailure(MarksOf(tried), NextFailure(exec, base, baseId, kept, tried, f))
    ensures Covers(marks) <==>
            forall j: nat {:trigger StillReversible(irreversible, base, kept, tried, marks, j, first)} ::
              StillReversible(irreversible, base, kept, tried, marks, j, first)
  {
    StepwisePrefix(exec, base, baseId, links, |kept|);
    ExtendContinues(exec, base, baseId, kept, Upward(f));
    NextSits(baseId, kept, tried, f);
    forall j: nat
      ensures j < |marks| ==> (Roomy(marks, j) <==> StillReversible(irreversible, base, kept, tried, marks, j, first))
    {
      if 0 < j < |marks| {
        RoomAt(exec, irreversible, base, baseId, kept, tried, f, marks, j, first);
      }
    }
    if forall j: nat :: StillReversible(irreversible, base, kept, tried, marks, j, first) {
      forall j | 0 <= j < |marks|
        ensures Roomy(marks, j)
      {
        assert StillReversible(irreversible, base, kept, tried, marks, j, first);
      }
    }
  }

  /** The next block to try sits on those tried before. */
  lemma {:induction false} NextSits<S>(baseId: BlockId, kept: seq<Link<S>>, tried: seq<Link<S>>, f: seq<ForkItem>)
    requires Linked(f) && |tried| < |f| && f[|f| - 1].block.previous == TipId(baseId, kept)
    requires forall i | 0 <= i < |tried| :: tried[i].block == Upward(f)[i]
    ensures f[|f| - 1 - |tried|].block.previous == TipId(baseId, kept + tried)
  {
    if tried == [] {
      assert kept + tried == kept;
    } else {
      assert (kept + tried)[|kept + tried| - 1] == tried[|tried| - 1];
    }
  }

  /** A tried block's window, from the state it was applied on. */
  lemma {:induction false} WindowAt<S(!new)>(exec: Exec<S>, irreversible: S -> nat, base: S, baseId: BlockId,
                                             kept: seq<Link<S>>, tried: seq<Link<S>>, j: nat, first: nat)
    requires Finalising(exec, irreversible) && Stepwise(exec, base, baseId, kept + tried) && j < |tried|
    requires first == NumFromId(TipId(baseId, kept)) + 1
    ensures tried[j].mark.window + irreversible(StateAt(base, kept + tried, |kept| + j)) == first + j + 1
  {
    var all := kept + tried;
    StepwiseIsChained(exec, base, baseId, all);
    TipNumber(baseId, all, |kept|);
    assert IdAt(baseId, all, |kept|) == TipId(baseId, kept);
    assert all[|kept| + j] == tried[j];
    assert Step(exec, base, baseId, all, |kept| + j);
    TipNumber(baseId, all, |kept| + j);
  }

  lemma {:induction false} RoomAt<S(!new)>(exec: Exec<S>, irreversible: S -> nat, base: S, baseId: BlockId,
                                           kept: seq<Link<S>>, tried: seq<Link<S>>, f: seq<ForkItem>, marks: seq<Mark>,
                                           j: nat, first: nat)
    requires Finalising(exec, irreversible) && Stepwise(exec, base, baseId, kept + tried)
    requires first == NumFromId(TipId(baseId, kept)) + 1 && 0 < j <= |tried| < |f|
    requires f[|f| - 1 - |tried|].block.previous == TipId(baseId, kept + tried)
    requires marks == WithFailure(MarksOf(tried), NextFailure(exec, base, baseId, kept, tried, f))
    ensures Roomy(marks, j) <==> StillReversible(irreversible, base, kept, tried, marks, j, first)
  {
    WindowAt(exec, irreversible, base, baseId, kept, tried, j - 1, first);
    assert marks[j - 1] == tried[j - 1].mark;
    if j < |tried| {
      WindowAt(exec, irreversible, base, baseId, kept, tried, j, first);
      assert marks[j] == tried[j].mark;
    } else {
      FailedWindow(exec, irreversible, base, baseId, kept, tried, f, first);
    }
  }

  /** The failing block's window, if it got that far. */
  lemma {:induction false} FailedWindow<S(!new)>(exec: Exec<S>, irreversible: S -> nat, base: S, baseId: BlockId,
                                                 kept: seq<Link<S>>, tried: seq<Link<S>>, f: seq<ForkItem>, first: nat)
    requires Finalising(exec, irreversible) && Stepwise(exec, base, baseId, kept + tried)
    requires first == NumFromId(TipId(baseId, kept)) + 1 && |tried| < |f|
    requires f[|f| - 1 - |tried|].block.previous == TipId(baseId, kept + tried)
    ensures var r := NextFailure(exec, base, baseId, kept, tried, f);
            r.After? ==> r.mark.window + irreversible(TipState(base, kept + tried)) == first + |tried| + 1
  {
    var all := kept + tried;
    StepwiseIsChained(exec, base, baseId, all);
    TipNumber(baseId, all, |kept|);
    assert IdAt(baseId, all, |kept|) == TipId(baseId, kept);
    TipNumber(baseId, all, |all|);
  }

  /** If what was tried cannot be undone, a failing switch strands. */
  lemma {:induction false} UncoveredStrands<S>(exec: Exec<S>, n: Node<S>, b: Block, f: seq<ForkItem>, s: seq<ForkItem>,
                                               kept: seq<Link<S>>, tried: seq<Link<S>>)
    requires Inv(exec, n) && Switches(n, b, f, s) && |s| <= |n.links| && kept == n.links[..|n.links| - |s|]
    requires tried == Tried(exec, n.base, n.baseId, n.links, f, s)
    requires |tried| < |f| ==> !Covers(WithFailure(MarksOf(tried), NextFailure(exec, n.base, n.baseId, kept, tried, f)))
    ensures Push(exec, n, b).result in {Switched, Stranded} && (|tried| < |f| ==> Push(exec, n, b).result == Stranded)
  {
    SwitchEnds(exec, n, b, f, s, kept, tried);
  }

  /**
   A branch cannot be taken back if it makes a block above its first one irreversible, or its first one
   when the next block has a session: if it then fails, the push strands.
   */
  lemma {:induction false} FinalisedBranchStrands<S(!new)>(exec: Exec<S>, irreversible: S -> nat, n: Node<S>, b: Block,
                                                           f: seq<ForkItem>, s: seq<ForkItem>, j: nat,
                                                           kept: seq<Link<S>>, tried: seq<Link<S>>)
    requires Inv(exec, n) && Switches(n, b, f, s) && Finalising(exec, irreversible) && |s| <= |n.links|
    requires kept == n.links[..|n.links| - |s|] && tried == Tried(exec, n.base, n.baseId, n.links, f, s) && j < |tried|
    requires var sessions := if j + 1 < |tried| then tried[j + 1].mark.before else 0;
             irreversible(StateAt(n.base, kept + tried, |kept| + j)) + sessions > NumFromId(TipId(n.baseId, kept)) + 1
    ensures Push(exec, n, b).result in {Switched, Stranded}
  {
    if |tried| < |f| {
      var first := NumFromId(TipId(n.baseId, kept)) + 1;
      var marks := WithFailure(MarksOf(tried), NextFailure(exec, n.base, n.baseId, kept, tried, f));
      StepwisePrefix(exec, n.base, n.baseId, n.links, |kept|);
      ExtendContinues(exec, n.base, n.baseId, kept, Upward(f));
      WindowAt(exec, irreversible, n.base, n.baseId, kept, tried, j, first);
      assert marks[j] == tried[j].mark && (j + 1 < |tried| ==> marks[j + 1] == tried[j + 1].mark);
      assert !Roomy(marks, j + 1);
    }
    UncoveredStrands(exec, n, b, f, s, kept, tried);
  }

  // runs

  /**
   `n'` is what a push that did not strand leaves behind; the sessions of pending transactions may have
   dropped some undo states since.
   */
  ghost predicate Follows<S>(exec: Exec<S>, n: Node<S>, b: Block, n': Node<S>)
    requires WellKeyed(n.caches.index) && n.caches.undo.depth <= |n.links|
  {
    var e := Push(exec, n, b);
    && e.result != Stranded
    && n'.caches.undo.depth <= e.caches.undo.depth
    && n'.caches == e.caches.(undo := Undo(n'.caches.undo.depth, e.caches.undo.window))
    && n' == n.(links := e.links, caches := n'.caches, head := e.head, nextSerial := n.nextSerial + 1)
  }

  lemma {:induction false} RolledBackKeeps<S>(exec: Exec<S>, base: S, baseId: BlockId, links: seq<Link<S>>, c: Caches,
                                              hd: ForkItem, f: seq<ForkItem>, s: seq<ForkItem>, e: Effect<S>)
    requires WellKeyed(c.index) && c.undo.depth <= |links| && f != [] && s != []
    requires e == Switch(exec, base, baseId, links, c, hd, f, s) && e.result == RolledBack
    ensures e.links == links
  {
  }

  /** After a push that did not strand, the chain is the same or its tip is strictly higher. */
  lemma {:induction false} PushNeverLowersHead<S>(exec: Exec<S>, n: Node<S>, b: Block)
    requires Inv(exec, n) && Push(exec, n, b).result != Stranded
    ensures var links := Push(exec, n, b).links;
            links == n.links || NumFromId(TipId(n.baseId, links)) > NumFromId(n.Tip())
  {
    var e := Push(exec, n, b);
    if e.result == Switched {
      var (f, s) := n.Plan(b).value;
      SwitchedChain(exec, n, b, f, s);
    } else if e.result == RolledBack {
      var f, s := OutcomeOfSwitch(exec, n, b, e);
      PushIsSwitch(exec, n, b, f, s);
      RolledBackKeeps(exec, n.base, n.baseId, n.links, n.caches.(index := n.NewIndex(b)), n.NewHead(b), f, s, e);
    }
  }

  ghost predicate IsRun<S>(exec: Exec<S>, nodes: seq<Node<S>>, blocks: seq<Block>) {
    && |nodes| == |blocks| + 1
    && (forall i | 0 <= i < |nodes| ::
          WellKeyed(nodes[i].caches.index) && nodes[i].caches.undo.depth <= |nodes[i].links|)
    && (forall i | 0 <= i < |blocks| :: Follows(exec, nodes[i], blocks[i], nodes[i + 1]))
  }

  /**
   Over any run of pushes in which no push strands, the head number never drops, the tip changes
   only to a strictly higher block, and every chain on the way is the replay of its own blocks.
   */
  lemma {:induction false} HeadNeverDrops<S>(exec: Exec<S>, nodes: seq<Node<S>>, blocks: seq<Block>, k: nat)
    requires IsRun(exec, nodes, blocks) && Inv(exec, nodes[0]) && k < |nodes|
    ensures Inv(exec, nodes[k])
    ensures nodes[k].base == nodes[0].base && nodes[k].baseId == nodes[0].baseId
    ensures nodes[k].links == Extend(exec, nodes[0].base, nodes[0].baseId, BlocksOf(nodes[k].links))
    ensures nodes[k].links == nodes[0].links || NumFromId(nodes[k].Tip()) > NumFromId(nodes[0].Tip())
    decreases k
  {
    ChainIsReplay(exec, nodes[0].base, nodes[0].baseId, nodes[0].links, 0);
    assert nodes[0].links[0..] == nodes[0].links;
    if k > 0 {
      HeadNeverDrops(exec, nodes, blocks, k - 1);
      assert Follows(exec, nodes[k - 1], blocks[k - 1], nodes[k]);
      PushKeepsReplay(exec, nodes[k - 1], blocks[k - 1]);
      PushNeverLowersHead(exec, nodes[k - 1], blocks[k - 1]);
    }
  }

  /** If the old tip has no linked parent, nothing that was tried can be taken back. */
  lemma {:induction false} NothingTakenBack<S>(exec: Exec<S>, n: Node<S>, b: Block, f: seq<ForkItem>, s: seq<ForkItem>)
    requires Inv(exec, n) && Switches(n, b, f, s) && |s| <= n.caches.undo.depth && Push(exec, n, b).result == Stranded
    requires WellKeyed(n.NewIndex(b)) && s != []
    requires |s| < |Ancestry(n.NewIndex(b), n.NewHead(b))| && |Ancestry(n.NewIndex(b), s[0])| == 1
    ensures Push(exec, n, b).links == n.links[..|n.links| - |s|] + Tried(exec, n.base, n.baseId, n.links, f, s)
  {
    PushIsSwitch(exec, n, b, f, s);
    SwitchIsBranching(exec, n, b, f, s);
    var c, hd := n.caches.(index := n.NewIndex(b)), n.NewHead(b);
    var (ok, u) := Pops(c.index, Top(n.links, c.undo.depth, Some(hd)), |s|);
    NothingBack(exec, n.base, n.baseId, n.links, c.(undo := Undo(u.depth, c.undo.window)), u.head.value, f, s);
  }

  lemma {:induction false} NothingBack<S>(exec: Exec<S>, base: S, baseId: BlockId, links: seq<Link<S>>, c: Caches,
                                          top: ForkItem, f: seq<ForkItem>, s: seq<ForkItem>)
    requires WellKeyed(c.index) && s != [] && |s| <= |links| && c.undo.depth <= |links| - |s|
    requires |Ancestry(c.index, s[0])| == 1 && Try(exec, base, baseId, links, c, top, f, s).result == Stranded
    ensures Try(exec, base, baseId, links, c, top, f, s).links
            == links[..|links| - |s|] + Tried(exec, base, baseId, links, f, s)
  {
    var kept, tried := links[..|links| - |s|], Tried(exec, base, baseId, links, f, s);
    TryIsRun(exec, base, baseId, links, c, top, f, s, kept, tried);
    var left := Forgotten(exec, base, baseId, kept, tried, c, top, f);
    ForgottenCaches(exec, base, baseId, kept, tried, c, top, f, NextFailure(exec, base, baseId, kept, tried, f));
    PartLine(c.index, Held(c.index, s) + left.index, s[0], 0);
    assert (kept + tried)[..|kept + tried|] == kept + tried;
  }

  /**
   The ids that `get_block_ids_on_fork` gives run down from the block asked for to the meeting
   block by one number at a time, so the synopsis may compute one number from the other.
   */
  lemma {:induction false} ForkIdsAreConsecutive(idx: Index, tip: BlockId, headOfFork: BlockId, i: nat)
    requires WellKeyed(idx) && BranchesFrom(idx, tip, headOfFork).Some?
    requires i < |ForkIds(BranchesFrom(idx, tip, headOfFork).value.1)|
    ensures var ids := ForkIds(BranchesFrom(idx, tip, headOfFork).value.1);
            && |ids| >= 2 && ids[0] == headOfFork
            && NumFromId(ids[i]) + i == NumFromId(headOfFork)
            && NumFromId(ids[|ids| - 1]) + (|ids| - 1) == NumFromId(headOfFork)
            && IsAncestor(ids[i], headOfFork) && IsAncestor(ids[|ids| - 1], tip)
  {
    BranchShape(idx, tip, headOfFork);
    var (f, s) := BranchesFrom(idx, tip, headOfFork).value;
    LineBottom(f, 0);
    LineBottom(s, 0);
    if i < |s| {
      LineMembersAreAncestors(s, i);
    }
  }
}
