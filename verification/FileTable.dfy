/** What pushes leave in the block files, where other parts look up the chain by number. */
module FileTable {
  import opened Arithmetic
  import opened Wrappers
  import opened Blocks
  import opened ForkTree
  import opened Reorg
  import opened ReorgProperties
  import Sync

  /** Blocks that are applied and stored on top of a chain that is filed. */
  lemma {:induction false} StoredOnTop<S>(files: Files, kept: seq<Link<S>>, tried: seq<Link<S>>, low: nat)
    requires Numbered(kept + tried, low) && Filed(files, kept)
    ensures Filed(Stored(files, tried), kept + tried)
  {
    var all := kept + tried;
    forall i | 0 <= i < |tried|
      ensures tried[i].block.Num() == low + |kept| + i + 1
    {
      assert tried[i] == all[|kept| + i];
    }
    forall i | 0 <= i < |all|
      ensures FiledAt(Stored(files, tried), all[i])
    {
      StoredSlot(files, tried, low + |kept|, low + i + 1);
      if i < |kept| {
        assert all[i] == kept[i] && FiledAt(files, kept[i]);
      } else {
        assert all[i] == tried[i - |kept|];
      }
    }
  }

  /** The slot of each block of the old chain, once a branch was stored on block m and taken back again. */
  lemma {:induction false} SlotAfterBack<S>(files: Files, links: seq<Link<S>>, low: nat, m: nat, tried: seq<Link<S>>,
                                            b: Block, i: nat)
    requires Numbered(links, low) && Filed(files, links) && i < |links| && m <= |links| && Numbered(tried, low + m)
    ensures FiledAt(Store(Stored(files, tried), b.Id(), links[|links| - 1].block), links[i])
            <==> if links[i].block.Num() == b.Num() then b == links[i].block && i == |links| - 1
                 else m <= i < m + |tried| ==> tried[i - m].block == links[i].block
  {
    assert FiledAt(files, links[i]);
    StoredSlot(files, tried, low + m, low + i + 1);
  }

  /** A rolled-back switch: whether the files still agree with the old chain, of which block m was the first popped. */
  lemma {:induction false} BackFiledIff<S>(files: Files, links: seq<Link<S>>, low: nat, m: nat, tried: seq<Link<S>>,
                                           b: Block, shared: bool)
    requires Numbered(links, low) && Filed(files, links) && m < |links| && Numbered(tried, low + m)
    requires forall i | m <= i < Min(|links|, m + |tried|) :: tried[i - m].block == links[i].block <==> shared
    requires shared ==> m == |links| - 1
    ensures var top := links[|links| - 1].block;
            Filed(Store(Stored(files, tried), b.Id(), top), links)
            <==> (tried == [] || shared || (m == |links| - 1 && b == top))
                 && (low < b.Num() <= low + |links| ==> b == top)
  {
    var top := links[|links| - 1].block;
    var after := Store(Stored(files, tried), b.Id(), top);
    SlotAfterBack(files, links, low, m, tried, b, m);
    if low < b.Num() <= low + |links| {
      SlotAfterBack(files, links, low, m, tried, b, b.Num() - low - 1);
    }
    if (tried == [] || shared || (m == |links| - 1 && b == top)) && (low < b.Num() <= low + |links| ==> b == top) {
      forall i | 0 <= i < |links|
        ensures FiledAt(after, links[i])
      {
        SlotAfterBack(files, links, low, m, tried, b, i);
      }
    }
  }

  /** What was tried is the new branch, oldest block first, from the meeting block on. */
  lemma {:induction false} TriedBlocks<S>(exec: Exec<S>, base: S, baseId: BlockId, links: seq<Link<S>>,
                                          f: seq<ForkItem>, s: seq<ForkItem>, kept: seq<Link<S>>, tried: seq<Link<S>>)
    requires Stepwise(exec, base, baseId, links) && |s| <= |links|
    requires kept == links[..|links| - |s|] && tried == Tried(exec, base, baseId, links, f, s)
    ensures |tried| <= |f| && (forall i | 0 <= i < |tried| :: tried[i].block == Upward(f)[i])
    ensures Numbered(kept + tried, NumFromId(baseId)) && Numbered(tried, NumFromId(baseId) + |kept|)
  {
    StepwisePrefix(exec, base, baseId, links, |kept|);
    ExtendContinues(exec, base, baseId, kept, Upward(f));
    StepwiseIsChained(exec, base, baseId, kept + tried);
    ChainIsNumbered(baseId, kept + tried);
    assert forall i | 0 <= i < |tried| :: tried[i] == (kept + tried)[|kept| + i];
  }

  /** The new branch has a block in the old chain's place exactly if it starts with the old tip. */
  lemma {:induction false} TriedIsOld<S>(exec: Exec<S>, n: Node<S>, b: Block, f: seq<ForkItem>, s: seq<ForkItem>,
                                         tried: seq<Link<S>>, i: nat)
    requires Inv(exec, n) && Switches(n, b, f, s) && f != [] && s != [] && |s| <= |n.links|
    requires tried == Tried(exec, n.base, n.baseId, n.links, f, s)
             && |n.links| - |s| <= i < Min(|n.links|, |n.links| - |s| + |tried|)
    ensures tried[i - (|n.links| - |s|)].block == n.links[i].block <==> f[|f| - 1].block == s[0].block
    ensures f[|f| - 1].block == s[0].block ==> |s| == 1
  {
    var m := |n.links| - |s|;
    TriedBlocks(exec, n.base, n.baseId, n.links, f, s, n.links[..m], tried);
    if tried[i - m].block == n.links[i].block {
      SharedWithChain(exec, n, b, f, s, i, i - m);
    }
    if f[|f| - 1].block == s[0].block {
      SwitchIsBranching(exec, n, b, f, s);
      OnlyBlock(f, s);
      StepwiseIsChained(exec, n.base, n.baseId, n.links);
      BranchIsChainTop(n.baseId, n.links, s, 1);
    }
  }

  /** The files after a switch, in each of its outcomes. */
  lemma {:induction false} SwitchOutcome<S>(exec: Exec<S>, base: S, baseId: BlockId, links: seq<Link<S>>, c: Caches,
                                            hd: ForkItem, f: seq<ForkItem>, s: seq<ForkItem>, newId: BlockId,
                                            files: Files, e: Effect<S>)
    requires WellKeyed(c.index) && c.undo.depth <= |links| && f != [] && s != []
    requires e == Switch(exec, base, baseId, links, c, hd, f, s)
    ensures e.result in {Switched, RolledBack, Stranded}
    ensures var after := SwitchFiles(exec, base, baseId, links, c, hd, f, s, newId, e.result, files);
            || (e.result == Stranded && after == files && |e.links| <= |links| && e.links == links[..|e.links|])
            || (|s| <= |links|
                && var kept, tried := links[..|links| - |s|], Tried(exec, base, baseId, links, f, s);
                after == TryFiles(files, tried, newId, s, e.result)
                && (if e.result == RolledBack then e.links == links
                    else |e.links| <= |kept + tried| && e.links == (kept + tried)[..|e.links|]))
  {
    var c', top := SwitchTries(exec, base, baseId, links, c, hd, f, s, e);
    if Pops(c.index, Top(links, c.undo.depth, Some(hd)), |s|).0 {
      TryOutcome(exec, base, baseId, links, c', top, f, s, e);
    }
  }

  lemma {:induction false} TryOutcome<S>(exec: Exec<S>, base: S, baseId: BlockId, links: seq<Link<S>>, c: Caches,
                                         top: ForkItem, f: seq<ForkItem>, s: seq<ForkItem>, e: Effect<S>)
    requires WellKeyed(c.index) && s != [] && |s| <= |links| && c.undo.depth <= |links| - |s|
    requires e == Try(exec, base, baseId, links, c, top, f, s)
    ensures e.result in {Switched, RolledBack, Stranded}
    ensures var kept, tried := links[..|links| - |s|], Tried(exec, base, baseId, links, f, s);
            if e.result == RolledBack then e.links == links
            else |e.links| <= |kept + tried| && e.links == (kept + tried)[..|e.links|]
  {
    var kept, tried := links[..|links| - |s|], Tried(exec, base, baseId, links, f, s);
    TryIsRun(exec, base, baseId, links, c, top, f, s, kept, tried);
    if |tried| < |f| {
      BackLinks(Held(c.index, s), Forgotten(exec, base, baseId, kept, tried, c, top, f), links, tried, s, e);
    } else {
      assert (kept + tried)[..|kept + tried|] == kept + tried;
    }
  }

  lemma {:induction false} FilesAreSwitched<S>(exec: Exec<S>, n: Node<S>, b: Block, f: seq<ForkItem>, s: seq<ForkItem>,
                                               files: Files, e: Effect<S>)
    requires WellKeyed(n.caches.index) && n.caches.undo.depth <= |n.links| && Switches(n, b, f, s)
             && e == Push(exec, n, b)
    ensures WellKeyed(n.NewIndex(b)) && f != [] && s != [] && e == PushSwitch(exec, n, b, f, s)
    ensures e.result in {Switched, RolledBack, Stranded} ==>
              PushFiles(exec, n, b, e.result, files)
              == SwitchFiles(exec, n.base, n.baseId, n.links, n.caches.(index := n.NewIndex(b)), n.NewHead(b), f, s,
                             b.Id(), e.result, files)
  {
    PushIsSwitch(exec, n, b, f, s);
  }

  lemma {:induction false} FiledPrefix<S>(files: Files, links: seq<Link<S>>, k: nat)
    requires Filed(files, links) && k <= |links|
    ensures Filed(files, links[..k])
  {
    forall i | 0 <= i < k
      ensures FiledAt(files, links[..k][i])
    {
      assert FiledAt(files, links[i]);
    }
  }

  /**
   The files keep agreeing with the chain through every push that ends otherwise than in a rollback,
   even through one that strands.
   */
  lemma {:induction false} FiledUnlessRolledBack<S>(exec: Exec<S>, n: Node<S>, b: Block, files: Files, e: Effect<S>)
    requires Inv(exec, n) && e == Push(exec, n, b) && e.result != RolledBack && Filed(files, n.links)
    ensures Filed(PushFiles(exec, n, b, e.result, files), e.links)
  {
    if e.result in {Switched, Stranded} {
      var f, s := OutcomeOfSwitch(exec, n, b, e);
      FilesAreSwitched(exec, n, b, f, s, files, e);
      SwitchedFiled(exec, n.base, n.baseId, n.links, n.caches.(index := n.NewIndex(b)), n.NewHead(b), f, s, b.Id(),
                    files, e);
    } else if e.result == Extended {
      ExtendedFiled(exec, n, b, files, e);
    }
  }

  lemma {:induction false} ExtendedFiled<S>(exec: Exec<S>, n: Node<S>, b: Block, files: Files, e: Effect<S>)
    requires Inv(exec, n) && e == Push(exec, n, b) && e.result == Extended && Filed(files, n.links)
    ensures |e.links| == |n.links| + 1 && e.links[..|n.links|] == n.links && e.links[|n.links|].block == b
    ensures Filed(Store(files, b.Id(), b), e.links)
  {
    var link := e.links[|n.links|];
    assert e.links == n.links + [link];
    PushIsReplayed(exec, n, b);
    StepwiseIsChained(exec, n.base, n.baseId, e.links);
    ChainIsNumbered(n.baseId, e.links);
    StoredOnTop(files, n.links, [link], NumFromId(n.baseId));
    StoredNext(files, [], link);
    assert [] + [link] == [link];
  }

  lemma {:induction false} SwitchedFiled<S>(exec: Exec<S>, base: S, baseId: BlockId, links: seq<Link<S>>, c: Caches,
                                            hd: ForkItem, f: seq<ForkItem>, s: seq<ForkItem>, newId: BlockId,
                                            files: Files, e: Effect<S>)
    requires WellKeyed(c.index) && c.undo.depth <= |links| && f != [] && s != [] && Stepwise(exec, base, baseId, links)
    requires e == Switch(exec, base, baseId, links, c, hd, f, s) && e.result != RolledBack && Filed(files, links)
    ensures Filed(SwitchFiles(exec, base, baseId, links, c, hd, f, s, newId, e.result, files), e.links)
  {
    SwitchOutcome(exec, base, baseId, links, c, hd, f, s, newId, files, e);
    if |e.links| <= |links| && e.links == links[..|e.links|] {
      FiledPrefix(files, links, |e.links|);
    }
    if |s| <= |links| {
      var kept, tried := links[..|links| - |s|], Tried(exec, base, baseId, links, f, s);
      FiledPrefix(files, links, |kept|);
      TriedBlocks(exec, base, baseId, links, f, s, kept, tried);
      StoredOnTop(files, kept, tried, NumFromId(baseId));
      if |e.links| <= |kept + tried| {
        FiledPrefix(Stored(files, tried), kept + tried, |e.links|);
      }
    }
  }

  /**
   When a rollback does no harm to the files: nothing of the new branch was stored over the old one, or
   the slot that it spoiled is the pushed block's own, and the pushed block's slot is not on the chain.
   */
  predicate Harmless<S>(n: Node<S>, b: Block, f: seq<ForkItem>, s: seq<ForkItem>, tried: nat)
    requires f != [] && s != []
  {
    && (tried == 0 || f[|f| - 1].block == s[0].block || (|s| == 1 && b == s[0].block))
    && (NumFromId(n.baseId) < b.Num() <= NumFromId(n.Tip()) ==> b == s[0].block)
  }

  /**
   After a rollback the files agree with the restored chain exactly if that was harmless: the failed
   branch's blocks stay filed, for the restored ones go under the id of the block that was pushed.
   */
  lemma {:induction false} FiledAfterRollbackIff<S>(exec: Exec<S>, n: Node<S>, b: Block, f: seq<ForkItem>,
                                                    s: seq<ForkItem>, files: Files, e: Effect<S>)
    requires Inv(exec, n) && Switches(n, b, f, s) && e == Push(exec, n, b) && e.result == RolledBack
             && Filed(files, n.links)
    ensures f != [] && s != [] && |s| <= |n.links|
    ensures Filed(PushFiles(exec, n, b, e.result, files), e.links)
            <==> Harmless(n, b, f, s, |Tried(exec, n.base, n.baseId, n.links, f, s)|)
  {
    FilesAreSwitched(exec, n, b, f, s, files, e);
    SwitchIsBranching(exec, n, b, f, s);
    SwitchOutcome(exec, n.base, n.baseId, n.links, n.caches.(index := n.NewIndex(b)), n.NewHead(b), f, s, b.Id(), files,
                  e);
    RestoredFiledIff(exec, n, b, f, s, files, Tried(exec, n.base, n.baseId, n.links, f, s));
  }

  lemma {:induction false} RestoredFiledIff<S>(exec: Exec<S>, n: Node<S>, b: Block, f: seq<ForkItem>, s: seq<ForkItem>,
                                               files: Files, tried: seq<Link<S>>)
    requires Inv(exec, n) && Switches(n, b, f, s) && f != [] && s != [] && |s| <= |n.links| && Filed(files, n.links)
    requires tried == Tried(exec, n.base, n.baseId, n.links, f, s)
    ensures Filed(TryFiles(files, tried, b.Id(), s, RolledBack), n.links) <==> Harmless(n, b, f, s, |tried|)
  {
    var m, shared := |n.links| - |s|, f[|f| - 1].block == s[0].block;
    TriedBlocks(exec, n.base, n.baseId, n.links, f, s, n.links[..m], tried);
    OldBranchTop(exec, n, b, f, s);
    TriedAreOld(exec, n, b, f, s, tried, m, shared);
    BackFiledIff(files, n.links, NumFromId(n.baseId), m, tried, b, shared);
  }

  lemma {:induction false} TriedAreOld<S>(exec: Exec<S>, n: Node<S>, b: Block, f: seq<ForkItem>, s: seq<ForkItem>,
                                          tried: seq<Link<S>>, m: nat, shared: bool)
    requires Inv(exec, n) && Switches(n, b, f, s) && f != [] && s != [] && |s| <= |n.links|
    requires tried == Tried(exec, n.base, n.baseId, n.links, f, s) && m == |n.links| - |s|
    requires shared <==> f[|f| - 1].block == s[0].block
    ensures forall i | m <= i < Min(|n.links|, m + |tried|) :: tried[i - m].block == n.links[i].block <==> shared
  {
    forall i | m <= i < Min(|n.links|, m + |tried|)
      ensures tried[i - m].block == n.links[i].block <==> shared
    {
      TriedIsOld(exec, n, b, f, s, tried, i);
    }
  }

  lemma {:induction false} OldBranchTop<S>(exec: Exec<S>, n: Node<S>, b: Block, f: seq<ForkItem>, s: seq<ForkItem>)
    requires Inv(exec, n) && Switches(n, b, f, s) && f != [] && s != [] && |s| <= |n.links|
    ensures Numbered(n.links, NumFromId(n.baseId)) && NumFromId(n.Tip()) == NumFromId(n.baseId) + |n.links|
    ensures n.links[|n.links| - 1].block == s[0].block
    ensures f[|f| - 1].block == s[0].block ==> |s| == 1
  {
    SwitchIsBranching(exec, n, b, f, s);
    StepwiseIsChained(exec, n.base, n.baseId, n.links);
    ChainIsNumbered(n.baseId, n.links);
    TipNumber(n.baseId, n.links, |n.links|);
    BranchIsChainTop(n.baseId, n.links, s, 1);
    if f[|f| - 1].block == s[0].block {
      OnlyBlock(f, s);
    }
  }

  // whether the files can come to harm, whatever the blocks do

  /** The same windows, without sessions inside the blocks. */
  function Quiet(w: Block -> Mark): Block -> Mark {
    (b: Block) => Mark(w(b).window, 0, 0)
  }

  /** A failure on top of the k lowest blocks that can be rolled back at all does no harm. */
  predicate HarmlessAt<S>(n: Node<S>, b: Block, f: seq<ForkItem>, s: seq<ForkItem>, w: Block -> Mark, k: nat)
    requires WellKeyed(n.NewIndex(b)) && f != [] && s != []
  {
    FirstNew(f, s) <= k < |f| && BrokenResult(n, b, f, s, Quiet(w), k, Before(0)) == RolledBack ==>
      Harmless(n, b, f, s, k)
  }

  /** No failure can make the files disagree with the chain, by lengths, windows and numbers alone. */
  ghost predicate FilesSafe<S>(n: Node<S>, b: Block, f: seq<ForkItem>, s: seq<ForkItem>, w: Block -> Mark)
    requires WellKeyed(n.NewIndex(b)) && f != [] && s != []
  {
    |s| <= n.caches.undo.depth && |s| < |Ancestry(n.NewIndex(b), n.NewHead(b))| ==>
      forall k: nat {:trigger HarmlessAt(n, b, f, s, w, k)} :: HarmlessAt(n, b, f, s, w, k)
  }

  lemma {:induction false} ReturnsQuietly(len: Lengths, marks: seq<Mark>, quiet: seq<Mark>, r: Reached)
    requires |quiet| == |marks| && forall i | 0 <= i < |marks| :: quiet[i] == Mark(marks[i].window, 0, 0)
    requires Returns(len, marks, r)
    ensures Returns(len, quiet, Before(0))
  {
    var x, y := WithFailure(marks, r), WithFailure(quiet, Before(0));
    forall j | 0 <= j < |y|
      ensures Roomy(y, j)
    {
      assert Roomy(x, j);
      assert j > 0 ==> y[j - 1] == quiet[j - 1] && x[j - 1] == marks[j - 1];
    }
    forall j | 0 <= j < |quiet|
      ensures WindowsSet(quiet, Before(0))[j] == WindowsSet(marks, r)[j]
    {
    }
  }

  /** A rollback shows that the branch could have been returned from without any sessions as well. */
  lemma {:induction false} RolledBackQuietly<S(!new)>(exec: Exec<S>, n: Node<S>, b: Block, f: seq<ForkItem>,
                                                      s: seq<ForkItem>, w: Block -> Mark, kept: seq<Link<S>>,
                                                      tried: seq<Link<S>>)
    requires Inv(exec, n) && Switches(n, b, f, s) && Windowed(exec, w) && |s| <= |n.links|
    requires WellKeyed(n.NewIndex(b)) && f != [] && s != [] && |tried| <= |f|
    requires kept == n.links[..|n.links| - |s|] && tried == Tried(exec, n.base, n.baseId, n.links, f, s)
    requires Ending(exec, n, b, f, s, kept, tried) == RolledBack
    ensures |tried| < |f| && BrokenResult(n, b, f, s, Quiet(w), |tried|, Before(0)) == RolledBack
  {
    var len, marks := Lengths(|s|, |f|, |Ancestry(n.NewIndex(b), s[0])|), MarksOf(tried);
    var quiet, most := BranchMarks(Quiet(w), f, |tried|), BranchMarks(w, f, |tried|);
    MarksAreKnown(exec, n.base, n.baseId, n.links, f, s, w, tried);
    forall i | 0 <= i < |marks|
      ensures quiet[i] == Mark(marks[i].window, 0, 0)
    {
      assert Within(marks[i], most[i]);
    }
    ReturnsQuietly(len, marks, quiet, NextFailure(exec, n.base, n.baseId, kept, tried, f));
  }

  /** The old tip, if the new branch starts with it, applies again. */
  lemma {:induction false} TriesOldTip<S>(exec: Exec<S>, n: Node<S>, b: Block, f: seq<ForkItem>, s: seq<ForkItem>)
    requires Inv(exec, n) && Switches(n, b, f, s) && |s| <= |n.links| && f != [] && s != []
    ensures FirstNew(f, s) <= |Tried(exec, n.base, n.baseId, n.links, f, s)|
  {
    if f[|f| - 1].block == s[0].block {
      SwitchIsBranching(exec, n, b, f, s);
      StepwiseIsChained(exec, n.base, n.baseId, n.links);
      BranchIsChainTop(n.baseId, n.links, s, |s|);
      OldTipApplies(exec, n.base, n.baseId, n.links, f, s);
      assert Upward(f)[0] == f[|f| - 1].block;
    }
  }

  /**
   Whether a push can make the files disagree with the chain is decided before it: it cannot, whatever the
   blocks do, exactly if no point of failure that may be rolled back does harm.
   */
  lemma {:induction false} FilesSafeIff<S(!new)>(exec: Exec<S>, n: Node<S>, b: Block, f: seq<ForkItem>,
                                                 s: seq<ForkItem>, w: Block -> Mark, files: Files)
    requires Inv(exec, n) && Switches(n, b, f, s) && Windowed(exec, w) && Filed(files, n.links)
    ensures WellKeyed(n.NewIndex(b)) && f != [] && s != []
    ensures FilesSafe(n, b, f, s, w) <==>
            forall any: Exec<S> | Inv(any, n) && Windowed(any, w) :: StaysFiled(any, n, b, files)
  {
    SwitchIsBranching(exec, n, b, f, s);
    if FilesSafe(n, b, f, s, w) {
      forall any: Exec<S> | Inv(any, n) && Windowed(any, w)
        ensures StaysFiled(any, n, b, files)
      {
        SafeStaysFiled(any, n, b, f, s, w, files);
      }
    } else {
      var k: nat :| !HarmlessAt(n, b, f, s, w, k);
      var broken := HarmDone(exec, n, b, f, s, w, files, k);
    }
  }

  ghost predicate StaysFiled<S>(exec: Exec<S>, n: Node<S>, b: Block, files: Files)
    requires WellKeyed(n.caches.index) && n.caches.undo.depth <= |n.links|
  {
    var e := Push(exec, n, b);
    Filed(PushFiles(exec, n, b, e.result, files), e.links)
  }

  lemma {:induction false} SafeStaysFiled<S(!new)>(exec: Exec<S>, n: Node<S>, b: Block, f: seq<ForkItem>,
                                                   s: seq<ForkItem>, w: Block -> Mark, files: Files)
    requires Inv(exec, n) && Switches(n, b, f, s) && Windowed(exec, w) && Filed(files, n.links)
    requires WellKeyed(n.NewIndex(b)) && f != [] && s != [] && FilesSafe(n, b, f, s, w)
    ensures StaysFiled(exec, n, b, files)
  {
    var e := Push(exec, n, b);
    if e.result == RolledBack {
      FiledAfterRollbackIff(exec, n, b, f, s, files, e);
      var kept, tried := n.links[..|n.links| - |s|], Tried(exec, n.base, n.baseId, n.links, f, s);
      SwitchEnds(exec, n, b, f, s, kept, tried);
      RolledBackQuietly(exec, n, b, f, s, w, kept, tried);
      TriesOldTip(exec, n, b, f, s);
      assert HarmlessAt(n, b, f, s, w, |tried|);
    } else {
      FiledUnlessRolledBack(exec, n, b, files, e);
    }
  }

  lemma {:induction false} HarmfulRollback<S>(exec: Exec<S>, n: Node<S>, b: Block, f: seq<ForkItem>, s: seq<ForkItem>,
                                              files: Files)
    requires Inv(exec, n) && Switches(n, b, f, s) && Push(exec, n, b).result == RolledBack && Filed(files, n.links)
    requires f != [] && s != []
    requires |s| <= |n.links| ==> !Harmless(n, b, f, s, |Tried(exec, n.base, n.baseId, n.links, f, s)|)
    ensures !StaysFiled(exec, n, b, files)
  {
    FiledAfterRollbackIff(exec, n, b, f, s, files, Push(exec, n, b));
  }

  lemma {:induction false} HarmDone<S(!new)>(exec: Exec<S>, n: Node<S>, b: Block, f: seq<ForkItem>, s: seq<ForkItem>,
                                             w: Block -> Mark, files: Files, k: nat)
    returns (broken: Exec<S>)
    requires Inv(exec, n) && Switches(n, b, f, s) && Windowed(exec, w) && Filed(files, n.links)
    requires WellKeyed(n.NewIndex(b)) && f != [] && s != [] && !HarmlessAt(n, b, f, s, w, k)
    requires |s| <= n.caches.undo.depth && |s| < |Ancestry(n.NewIndex(b), n.NewHead(b))|
    ensures Inv(broken, n) && Windowed(broken, w) && !StaysFiled(broken, n, b, files)
  {
    broken := BreakingEnds(exec, n, b, f, s, w, Quiet(w), k, Before(0), RolledBack);
    HarmfulRollback(broken, n, b, f, s, files);
  }

  // what the sync code asks of the files

  /** The files agree with the chain, and hold nothing else. */
  ghost predicate Exact<S>(files: Files, baseId: BlockId, links: seq<Link<S>>) {
    var low := NumFromId(baseId);
    Filed(files, links) && forall k: nat :: k in files <==> low < k <= low + |links|
  }

  /** A push that neither rolls back nor strands leaves nothing but the chain in the files. */
  lemma {:induction false} ExactUnlessFailed<S>(exec: Exec<S>, n: Node<S>, b: Block, files: Files, e: Effect<S>)
    requires Inv(exec, n) && e == Push(exec, n, b) && e.result !in {RolledBack, Stranded}
             && Exact(files, n.baseId, n.links)
    ensures Exact(PushFiles(exec, n, b, e.result, files), n.baseId, e.links)
  {
    FiledUnlessRolledBack(exec, n, b, files, e);
    if e.result == Switched {
      SwitchIsExact(exec, n, b, files, e);
    } else if e.result == Extended {
      ExtendedNumber(exec, n, b, e);
    }
  }

  lemma {:induction false} SwitchIsExact<S>(exec: Exec<S>, n: Node<S>, b: Block, files: Files, e: Effect<S>)
    requires Inv(exec, n) && e == Push(exec, n, b) && e.result == Switched
    requires forall k: nat :: k in files <==> NumFromId(n.baseId) < k <= NumFromId(n.baseId) + |n.links|
    ensures forall k: nat :: k in PushFiles(exec, n, b, e.result, files)
                             <==> NumFromId(n.baseId) < k <= NumFromId(n.baseId) + |e.links|
  {
    var f, s := OutcomeOfSwitch(exec, n, b, e);
    FilesAreSwitched(exec, n, b, f, s, files, e);
    SwitchIsBranching(exec, n, b, f, s);
    SwitchedFiles(exec, n.base, n.baseId, n.links, n.caches.(index := n.NewIndex(b)), n.NewHead(b), f, s, b.Id(), files,
                  e);
  }

  lemma {:induction false} ExtendedNumber<S>(exec: Exec<S>, n: Node<S>, b: Block, e: Effect<S>)
    requires Inv(exec, n) && e == Push(exec, n, b) && e.result == Extended
    ensures |e.links| == |n.links| + 1 && b.Num() == NumFromId(n.baseId) + |e.links|
  {
    PushIsReplayed(exec, n, b);
    StepwiseIsChained(exec, n.base, n.baseId, e.links);
    ChainIsNumbered(n.baseId, e.links);
    assert e.links[|n.links|].block == b;
  }

  lemma {:induction false} SwitchedFiles<S>(exec: Exec<S>, base: S, baseId: BlockId, links: seq<Link<S>>, c: Caches,
                                            hd: ForkItem, f: seq<ForkItem>, s: seq<ForkItem>, newId: BlockId,
                                            files: Files, e: Effect<S>)
    requires WellKeyed(c.index) && c.undo.depth <= |links| && |f| > |s| > 0 && Stepwise(exec, base, baseId, links)
    requires e == Switch(exec, base, baseId, links, c, hd, f, s) && e.result == Switched
    requires forall k: nat :: k in files <==> NumFromId(baseId) < k <= NumFromId(baseId) + |links|
    ensures forall k: nat :: k in SwitchFiles(exec, base, baseId, links, c, hd, f, s, newId, e.result, files)
                             <==> NumFromId(baseId) < k <= NumFromId(baseId) + |e.links|
  {
    SwitchedLinks(exec, base, baseId, links, c, hd, f, s);
    SwitchOutcome(exec, base, baseId, links, c, hd, f, s, newId, files, e);
    var kept, tried := links[..|links| - |s|], Tried(exec, base, baseId, links, f, s);
    TriedBlocks(exec, base, baseId, links, f, s, kept, tried);
    forall k: nat
      ensures k in Stored(files, tried) <==> NumFromId(baseId) < k <= NumFromId(baseId) + |e.links|
    {
      StoredSlot(files, tried, NumFromId(baseId) + |kept|, k);
    }
  }

  /** After a rollback the files hold something above the chain, if the pushed block is above it. */
  lemma {:induction false} RollbackFilesTooMuch<S>(exec: Exec<S>, n: Node<S>, b: Block, files: Files, e: Effect<S>)
    requires Inv(exec, n) && e == Push(exec, n, b) && e.result == RolledBack && b.Num() > NumFromId(n.Tip())
    ensures e.links == n.links && !Exact(PushFiles(exec, n, b, e.result, files), n.baseId, e.links)
  {
    var f, s := OutcomeOfSwitch(exec, n, b, e);
    FilesAreSwitched(exec, n, b, f, s, files, e);
    SwitchOutcome(exec, n.base, n.baseId, n.links, n.caches.(index := n.NewIndex(b)), n.NewHead(b), f, s, b.Id(), files,
                  e);
    StepwiseIsChained(exec, n.base, n.baseId, n.links);
    TipNumber(n.baseId, n.links, |n.links|);
    assert b.Num() in PushFiles(exec, n, b, e.result, files);
  }

  /** Each push leaves its files to the next, and none of them rolls back. */
  ghost predicate FilesFollow<S>(exec: Exec<S>, nodes: seq<Node<S>>, blocks: seq<Block>, files: seq<Files>) {
    && IsRun(exec, nodes, blocks) && |files| == |nodes|
    && forall i | 0 <= i < |blocks| :: FilesStep(exec, nodes[i], blocks[i], files[i], files[i + 1])
  }

  ghost predicate FilesStep<S>(exec: Exec<S>, n: Node<S>, b: Block, files: Files, files': Files)
    requires WellKeyed(n.caches.index) && n.caches.undo.depth <= |n.links|
  {
    Push(exec, n, b).result != RolledBack && files' == PushFiles(exec, n, b, Push(exec, n, b).result, files)
  }

  /** Over any run without a failed switch the files hold exactly the chain. */
  lemma {:induction false} FilesAreTheChain<S>(exec: Exec<S>, nodes: seq<Node<S>>, blocks: seq<Block>,
                                               files: seq<Files>, k: nat)
    requires FilesFollow(exec, nodes, blocks, files) && Inv(exec, nodes[0]) && k < |nodes|
    requires Exact(files[0], nodes[0].baseId, nodes[0].links)
    ensures Inv(exec, nodes[k]) && nodes[k].baseId == nodes[0].baseId
    ensures Exact(files[k], nodes[0].baseId, nodes[k].links)
    decreases k
  {
    if k > 0 {
      FilesAreTheChain(exec, nodes, blocks, files, k - 1);
      HeadNeverDrops(exec, nodes, blocks, k);
      assert Follows(exec, nodes[k - 1], blocks[k - 1], nodes[k]);
      assert FilesStep(exec, nodes[k - 1], blocks[k - 1], files[k - 1], files[k]);
      ExactUnlessFailed(exec, nodes[k - 1], blocks[k - 1], files[k - 1], Push(exec, nodes[k - 1], blocks[k - 1]));
    }
  }

  /** What the sync code sees of a node. */
  function PeerOf<S>(files: Files, links: seq<Link<S>>, undoSize: nat, known: set<BlockId>): Sync.Peer {
    Sync.Peer(|links|, undoSize, map k | k in files :: files[k].0, known)
  }

  /** If the files hold exactly a chain from genesis, the handshake may rely on them. */
  lemma {:induction false} ExactIsConsistent<S>(files: Files, links: seq<Link<S>>, undoSize: nat, known: set<BlockId>)
    requires Exact(files, Zero, links) && Chained(Zero, links) && |links| < Sync.WORD && undoSize < Sync.WORD
    requires forall i | 0 <= i < |links| :: links[i].block.Id() in known
    ensures PeerOf(files, links, undoSize, known).Consistent()
  {
    ChainIsNumbered(Zero, links);
    var byNum := PeerOf(files, links, undoSize, known).byNum;
    forall k | k in byNum
      ensures NumFromId(byNum[k]) == k && byNum[k] in known
    {
      assert FiledAt(files, links[k - 1]);
    }
  }
}
