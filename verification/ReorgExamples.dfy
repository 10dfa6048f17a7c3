/** Forks at which a failed switch loses the old chain, or the files that describe it. */
module ReorgExamples {
  import opened Arithmetic
  import opened Wrappers
  import opened Blocks
  import opened ForkTree
  import opened Reorg
  import opened ReorgProperties
  import FileTable
  import Irreversibility
  import OrderStatistics

  const MAX_UNDO_HISTORY := 10000

  /**
   The last irreversible number after a block, with eleven witnesses. Blocks of branch 2 are signed by
   eight of them in turn, so that from its eighth block on every block makes the one seven below it
   irreversible; the other three, who sign branch 1, make nothing irreversible.
   */
  function Finalised(x: nat, b: Block): nat {
    if b.body == 2 && b.Num() >= 9 then Max(x, b.Num() - 7) else x
  }

  /**
   Rules under which all blocks but one apply. The state is the last irreversible number, and windows
   are set from it as `update_global_dynamic_data` does, which also limits how far behind it may be.
   */
  function AllBut(bad: Block, sessions: nat): Exec<nat> {
    (x: nat, b: Block) =>
      if b == bad then Failed(Before(sessions))
      else if x > b.Num() || b.Num() - x >= MAX_UNDO_HISTORY then Failed(Before(0))
      else Done(Finalised(x, b), Mark(b.Num() - x + 1, 0, 0))
  }

  lemma {:induction false} AllButFinalises(bad: Block, sessions: nat)
    ensures Finalising(AllBut(bad, sessions), (x: nat) => x)
  {
  }

  /**
   A failed switch need not be atomic. Two first blocks A1 and B1 compete, A1 is applied, and B2
   arrives on B1 but does not apply. By then B1 is applied; to pop it again the fork database's
   head would have to step below A1, which has no link. The push fails with B1 as the new head.
   */
  lemma {:induction false} FailedSwitchAtGenesisIsNotAtomic(n: Node<nat>, a1: Block, b1: Block, b2: Block)
    requires a1 == Block(Zero, 1) && b1 == Block(Zero, 2) && b2 == Block(b1.Id(), 3)
    requires n == Node(0, Zero, [Link(a1, 0, Mark(2, 0, 0))],
                       Caches(Undo(1, 2), map[a1.Id() := ForkItem(0, a1, None), b1.Id() := ForkItem(1, b1, None)], 2),
                       Some(ForkItem(0, a1, None)), 2)
    ensures Inv(AllBut(b2, 0), n) && Finalising(AllBut(b2, 0), (x: nat) => x)
    ensures Push(AllBut(b2, 0), n, b2).result == Stranded
    ensures n.Tip() == a1.Id() && TipId(n.baseId, Push(AllBut(b2, 0), n, b2).links) == b1.Id()
  {
    var exec := AllBut(b2, 0);
    var ia, ib, ic := ForkItem(0, a1, None), ForkItem(1, b1, None), ForkItem(2, b2, Some(1));
    AllButFinalises(b2, 0);
    GenesisStands(n, a1, b2);
    GenesisFork(n, a1, b1, b2, ia, ib, ic);
    GenesisTries(n, a1, b1, b2, ia, ib, ic);
    TwoStrand(exec, n, b2, ic, ib, ia);
  }

  lemma {:induction false} GenesisStands(n: Node<nat>, a1: Block, b2: Block)
    requires a1 == Block(Zero, 1) && b2.previous != Zero && n.base == 0 && n.baseId == Zero
    requires n.links == [Link(a1, 0, Mark(2, 0, 0))] && n.caches.undo.depth == 1 && WellKeyed(n.caches.index)
    ensures Inv(AllBut(b2, 0), n)
  {
    assert Step(AllBut(b2, 0), 0, Zero, n.links, 0);
  }

  /** One block that was tried cannot be taken back if the old tip has no linked parent. */
  lemma {:induction false} TwoStrand<S>(exec: Exec<S>, n: Node<S>, b: Block, ic: ForkItem, ib: ForkItem, ia: ForkItem)
    requires Inv(exec, n) && Switches(n, b, [ic, ib], [ia]) && |n.links| == 1 && n.caches.undo.depth == 1
    requires |Tried(exec, n.base, n.baseId, n.links, [ic, ib], [ia])| == 1
    requires WellKeyed(n.NewIndex(b)) && |Ancestry(n.NewIndex(b), ia)| == 1
    requires |Ancestry(n.NewIndex(b), n.NewHead(b))| == 2
    ensures Push(exec, n, b).result == Stranded
    ensures Push(exec, n, b).links == Tried(exec, n.base, n.baseId, n.links, [ic, ib], [ia])
  {
    var kept, tried := n.links[..0], Tried(exec, n.base, n.baseId, n.links, [ic, ib], [ia]);
    SwitchEnds(exec, n, b, [ic, ib], [ia], kept, tried);
    NothingTakenBack(exec, n, b, [ic, ib], [ia]);
    assert kept + tried == tried;
  }

  lemma {:induction false} GenesisTries(n: Node<nat>, a1: Block, b1: Block, b2: Block, ia: ForkItem, ib: ForkItem,
                                        ic: ForkItem)
    requires a1 == Block(Zero, 1) && b1 == Block(Zero, 2) && b2 == Block(b1.Id(), 3)
    requires ia.block == a1 && ib.block == b1 && ic.block == b2
    requires n.base == 0 && n.baseId == Zero && n.links == [Link(a1, 0, Mark(2, 0, 0))]
    ensures Tried(AllBut(b2, 0), n.base, n.baseId, n.links, [ic, ib], [ia]) == [Link(b1, 0, Mark(2, 0, 0))]
  {
    var exec, up := AllBut(b2, 0), Upward([ic, ib]);
    assert up == [b1, b2] && up[1..] == [b2];
    assert b1 != b2 && b1.Num() == 1;
    assert exec(0, b1) == Done(0, Mark(2, 0, 0)) && exec(0, b2) == Failed(Before(0));
    assert Extend(exec, 0, b1.Id(), up[1..]) == [];
    assert n.links[..0] == [];
  }

  lemma {:induction false} GenesisFork(n: Node<nat>, a1: Block, b1: Block, b2: Block, ia: ForkItem, ib: ForkItem,
                                       ic: ForkItem)
    requires a1 == Block(Zero, 1) && b1 == Block(Zero, 2) && b2 == Block(b1.Id(), 3)
    requires ia == ForkItem(0, a1, None) && ib == ForkItem(1, b1, None) && ic == ForkItem(2, b2, Some(1))
    requires n == Node(0, Zero, [Link(a1, 0, Mark(2, 0, 0))],
                       Caches(Undo(1, 2), map[a1.Id() := ia, b1.Id() := ib], 2), Some(ia), 2)
    ensures WellKeyed(n.caches.index) && Switches(n, b2, [ic, ib], [ia])
    ensures var idx := n.NewIndex(b2);
            n.NewHead(b2) == ic && WellKeyed(idx) && Ancestry(idx, ia) == [ia] && |Ancestry(idx, ic)| == 2
  {
    var idx := n.NewIndex(b2);
    assert n.Item(b2) == ic && n.NewHead(b2) == ic;
    assert Floor(2, 2) == 0;
    assert a1.Id() != b1.Id() && a1.Id() != b2.Id() && b1.Id() != b2.Id();
    assert idx == map[a1.Id() := ia, b1.Id() := ib, b2.Id() := ic];
    assert Lock(idx, ic) == Some(ib) && Lock(idx, ib) == None && Lock(idx, ia) == None;
    assert Ancestry(idx, ib) == [ib];
    assert Climb(idx, ic, ia) == Below([ic], [], Climb(idx, ib, ia));
    assert [ic] + [ib] == [ic, ib] && [] + [ia] == [ia];
    assert n.Tip() == a1.Id();
    assert n.Plan(b2) == Some(([ic, ib], [ia]));
  }

  /** Block h of a branch on a meeting block, which is block 0 of every branch. */
  function BranchBlock(branch: nat, h: nat): Block {
    if h == 0 then Block(Zero, 0) else Block(BranchBlock(branch, h - 1).Id(), branch)
  }

  lemma {:induction false} BranchBlockIs(branch: nat, h: nat)
    ensures BranchBlock(branch, h).Num() == h + 1
    ensures BranchBlock(branch, h).body == if h == 0 then 0 else branch
    ensures BranchBlock(branch, 0) == Block(Zero, 0)
  {
    if h > 0 {
      BranchBlockIs(branch, h - 1);
    }
  }

  /** Its node in the fork database, for branches 1 and 2. */
  function BranchItem(branch: nat, h: nat): ForkItem {
    if h == 0 then ForkItem(0, BranchBlock(branch, 0), None)
    else ForkItem(2 * h - 2 + branch, BranchBlock(branch, h), Some(if h == 1 then 0 else 2 * h - 4 + branch))
  }

  /** The nodes of a branch, youngest first, down to its first block. */
  function BranchLine(branch: nat, h: nat): (r: seq<ForkItem>)
    ensures |r| == h
  {
    if h == 0 then [] else [BranchItem(branch, h)] + BranchLine(branch, h - 1)
  }

  function NodeOf(id: BlockId): ForkItem {
    if id == Zero then BranchItem(0, 0) else BranchItem(id.body, NumFromId(id) - 1)
  }

  function BranchIds(branch: nat, h: nat): set<BlockId> {
    if h == 0 then {BranchBlock(branch, 0).Id()} else BranchIds(branch, h - 1) + {BranchBlock(branch, h).Id()}
  }

  /** The meeting block, h1 blocks of branch 1 and h2 of branch 2. */
  function ForkNodes(h1: nat, h2: nat): Index {
    map id | id in BranchIds(1, h1) + BranchIds(2, h2) :: NodeOf(id)
  }

  lemma {:induction false} InBranch(branch: nat, h: nat, id: BlockId)
    ensures id in BranchIds(branch, h)
            <==> exists k: nat {:trigger BranchBlock(branch, k)} :: k <= h && BranchBlock(branch, k).Id() == id
  {
    if h > 0 {
      InBranch(branch, h - 1, id);
      assert BranchBlock(branch, h).Id() in BranchIds(branch, h);
    } else {
      assert id in BranchIds(branch, 0) <==> BranchBlock(branch, 0).Id() == id;
      assert id in BranchIds(branch, 0) ==> 0 <= h && BranchBlock(branch, 0).Id() == id;
    }
  }

  lemma {:induction false} NodeOfBlock(branch: nat, h: nat)
    requires 1 <= branch
    ensures NodeOf(BranchBlock(branch, h).Id()) == BranchItem(branch, h)
            && BranchItem(branch, h).block == BranchBlock(branch, h)
  {
    BranchBlockIs(branch, h);
  }

  lemma {:induction false} ForkNodesKeyed(h1: nat, h2: nat)
    ensures WellKeyed(ForkNodes(h1, h2))
  {
    forall id | id in ForkNodes(h1, h2)
      ensures ForkNodes(h1, h2)[id].block.Id() == id
    {
      InBranch(1, h1, id);
      InBranch(2, h2, id);
      if id in BranchIds(1, h1) {
        var k: nat :| k <= h1 && BranchBlock(1, k).Id() == id;
        NodeOfBlock(1, k);
      } else {
        var k: nat :| k <= h2 && BranchBlock(2, k).Id() == id;
        NodeOfBlock(2, k);
      }
    }
  }

  lemma {:induction false} BranchLinks(h1: nat, h2: nat, branch: nat, h: nat)
    requires 1 <= branch <= 2 && h <= if branch == 1 then h1 else h2
    ensures WellKeyed(ForkNodes(h1, h2))
    ensures BranchBlock(branch, h).Id() in ForkNodes(h1, h2)
            && ForkNodes(h1, h2)[BranchBlock(branch, h).Id()] == BranchItem(branch, h)
    ensures Lock(ForkNodes(h1, h2), BranchItem(branch, h)) == if h == 0 then None else Some(BranchItem(branch, h - 1))
  {
    ForkNodesKeyed(h1, h2);
    InBranch(branch, if branch == 1 then h1 else h2, BranchBlock(branch, h).Id());
    NodeOfBlock(branch, h);
    if h > 0 {
      InBranch(branch, if branch == 1 then h1 else h2, BranchBlock(branch, h - 1).Id());
      NodeOfBlock(branch, h - 1);
    }
  }

  lemma {:induction false} BranchAncestry(h1: nat, h2: nat, branch: nat, h: nat)
    requires 1 <= branch <= 2 && h <= if branch == 1 then h1 else h2
    ensures WellKeyed(ForkNodes(h1, h2)) && |Ancestry(ForkNodes(h1, h2), BranchItem(branch, h))| == h + 1
    decreases h
  {
    BranchLinks(h1, h2, branch, h);
    if h > 0 {
      BranchAncestry(h1, h2, branch, h - 1);
    }
  }

  /** The blocks of a branch are linked down to the meeting block. */
  ghost predicate HoldsBranch(idx: Index, branch: nat, h: nat)
    requires WellKeyed(idx)
  {
    forall k: nat {:trigger HoldsLink(idx, branch, k)} | 1 <= k <= h :: HoldsLink(idx, branch, k)
  }

  predicate HoldsLink(idx: Index, branch: nat, k: nat)
    requires WellKeyed(idx) && k > 0
  {
    Lock(idx, BranchItem(branch, k)) == Some(BranchItem(branch, k - 1))
  }

  lemma {:induction false} ClimbFirst(idx: Index, a: ForkItem, b: ForkItem, up: ForkItem, r: Branches)
    requires WellKeyed(idx) && a.block.Num() > b.block.Num() && Lock(idx, a) == Some(up) && Climb(idx, up, b) == Some(r)
    ensures Climb(idx, a, b) == Some(([a] + r.0, r.1))
  {
    assert [] + r.1 == r.1;
  }

  lemma {:induction false} ClimbBoth(idx: Index, a: ForkItem, b: ForkItem, pa: ForkItem, pb: ForkItem, r: Branches)
    requires WellKeyed(idx) && a.block.Num() == b.block.Num() && a.block.previous != b.block.previous
    requires Lock(idx, a) == Some(pa) && Lock(idx, b) == Some(pb) && Climb(idx, pa, pb) == Some(r)
    ensures Climb(idx, a, b) == Some(([a] + r.0, [b] + r.1))
  {
  }

  lemma {:induction false} BranchItemIs(branch: nat, h: nat)
    requires h > 0
    ensures BranchItem(branch, h).block.Num() == h + 1
    ensures BranchItem(branch, h).block.previous == BranchBlock(branch, h - 1).Id()
    ensures BranchLine(branch, h) == [BranchItem(branch, h)] + BranchLine(branch, h - 1)
    ensures BranchBlock(branch, h - 1).body == if h == 1 then 0 else branch
  {
    BranchBlockIs(branch, h);
    BranchBlockIs(branch, h - 1);
  }

  /** The two branches part at the meeting block. */
  lemma {:induction false} BranchesClimb(idx: Index, x: nat, y: nat)
    requires WellKeyed(idx) && 1 <= x <= y && HoldsBranch(idx, 1, x) && HoldsBranch(idx, 2, y)
    ensures Climb(idx, BranchItem(2, y), BranchItem(1, x)) == Some((BranchLine(2, y), BranchLine(1, x)))
    decreases y
  {
    BranchItemIs(1, x);
    BranchItemIs(2, y);
    assert HoldsLink(idx, 1, x) && HoldsLink(idx, 2, y);
    if x < y {
      BranchesClimb(idx, x, y - 1);
      ClimbFirst(idx, BranchItem(2, y), BranchItem(1, x), BranchItem(2, y - 1),
                 (BranchLine(2, y - 1), BranchLine(1, x)));
    } else if x > 1 {
      BranchesClimb(idx, x - 1, y - 1);
      ClimbBoth(idx, BranchItem(2, y), BranchItem(1, x), BranchItem(2, y - 1), BranchItem(1, x - 1),
                (BranchLine(2, y - 1), BranchLine(1, x - 1)));
    } else {
      BranchBlockIs(1, 0);
      BranchBlockIs(2, 0);
      Siblings(idx, BranchItem(2, y), BranchItem(1, x));
      assert BranchLine(1, x) == [BranchItem(1, x)] && BranchLine(2, y) == [BranchItem(2, y)];
    }
  }

  lemma {:induction false} Siblings(idx: Index, a: ForkItem, b: ForkItem)
    requires WellKeyed(idx) && a.block.previous == b.block.previous
    ensures Climb(idx, a, b) == Some(([a], [b]))
  {
  }

  /** A block that is higher than its branch in the index is not there, nor is it on the other branch. */
  lemma {:induction false} NewBlock(branch: nat, h: nat, h1: nat, h2: nat)
    requires 1 <= branch <= 2 && h > if branch == 1 then h1 else h2
    ensures BranchBlock(branch, h).Id() !in ForkNodes(h1, h2)
  {
    var id := BranchBlock(branch, h).Id();
    InBranch(1, h1, id);
    InBranch(2, h2, id);
    BranchBlockIs(branch, h);
    forall k: nat, other: nat | other in {1, 2} && k <= if other == 1 then h1 else h2
      ensures BranchBlock(other, k).Id() != id
    {
      BranchBlockIs(other, k);
    }
  }

  /** The index when the next block of a branch has come in. */
  lemma {:induction false} GrownNodes(branch: nat, h: nat, h1: nat, h2: nat)
    requires 1 <= branch <= 2 && h == 1 + if branch == 1 then h1 else h2
    ensures ForkNodes(h1, h2)[BranchBlock(branch, h).Id() := BranchItem(branch, h)]
            == if branch == 1 then ForkNodes(h, h2) else ForkNodes(h1, h)
  {
    NodeOfBlock(branch, h);
  }

  lemma {:induction false} NothingPruned(index: Index, num: nat, w: nat)
    requires num <= w
    ensures Floor(num, w) == 0 && Pruned(index, Floor(num, w)) == index
  {
  }

  function NoSessions(window: nat): Mark {
    Mark(window, 0, 0)
  }

  /** The meeting block and the h blocks of branch 1 above it, of which nothing is irreversible yet. */
  function OldLinks(h: nat): seq<Link<nat>> {
    seq(h + 1, i requires 0 <= i <= h => Link(BranchBlock(1, i), 0, NoSessions(i + 2)))
  }

  /** A node on branch 1, h blocks above the meeting block, that knows k blocks of branch 2. */
  function Forked(h: nat, k: nat): Node<nat> {
    Node(0, Zero, OldLinks(h), Caches(Undo(h + 1, h + 2), ForkNodes(h, k), h + 2), Some(BranchItem(1, h)), h + k + 1)
  }

  /** The same with as many blocks of branch 2, after one more block that was known already. */
  function LongFork(h: nat): Node<nat> {
    Forked(h, h).(nextSerial := 2 * h + 2)
  }

  lemma {:induction false} OldLinksStep(h: nat, i: nat, bad: Block, sessions: nat)
    requires i <= h && h + 2 < MAX_UNDO_HISTORY && bad.body == 2
    ensures Step(AllBut(bad, sessions), 0, Zero, OldLinks(h), i)
  {
    var links := OldLinks(h);
    BranchBlockIs(1, i);
    assert StateAt(0, links, i) == 0;
    if i > 0 {
      BranchItemIs(1, i);
      assert IdAt(Zero, links, i) == BranchBlock(1, i - 1).Id();
    }
  }

  lemma {:induction false} ForkedIsReplay(h: nat, k: nat, bad: Block, sessions: nat)
    requires h + 2 < MAX_UNDO_HISTORY && bad.body == 2
    ensures Inv(AllBut(bad, sessions), Forked(h, k))
  {
    ForkNodesKeyed(h, k);
    forall i: nat | i < |OldLinks(h)|
      ensures Step(AllBut(bad, sessions), 0, Zero, OldLinks(h), i)
    {
      OldLinksStep(h, i, bad, sessions);
    }
  }

  // the irreversible numbers are those that eleven witnesses give

  /** Three witnesses sign branch 1, and eight branch 2. */
  function Few(): seq<nat> {
    seq(3, i requires 0 <= i => i)
  }

  function Many(): seq<nat> {
    seq(8, i requires 0 <= i => i + 3)
  }

  /** What has been confirmed on branch 2 after its block j, which each of the eight signs when it is its turn. */
  function TurnsTaken(j: nat): Irreversibility.Confirmed {
    if j == 0 then map[] else TurnsTaken(j - 1)[3 + j % 8 := BranchBlock(2, j).Num()]
  }

  lemma {:induction false} LastTurns(j: nat, k: nat)
    requires k < j && k < 8
    ensures Irreversibility.ConfirmedBy(TurnsTaken(j), 3 + (j - k) % 8) == j + 1 - k
    decreases j
  {
    BranchBlockIs(2, j);
    if k > 0 {
      LastTurns(j - 1, k - 1);
      SameRemainder(j - k, j, 8);
    }
  }

  /** Each of the eight has had a turn among the last eight blocks. */
  lemma {:induction false} TurnOf(j: nat, r: nat) returns (k: nat)
    requires j >= 8 && r < 8
    ensures k < 8 && (j - k) % 8 == r
  {
    var q := j % 8;
    k := if q >= r then q - r else q + 8 - r;
    DivUnique(j - k, if q >= r then j / 8 else j / 8 - 1, 8);
  }

  lemma {:induction false} OnlyTheEight(j: nat, w: nat)
    requires w < 3
    ensures Irreversibility.ConfirmedBy(TurnsTaken(j), w) == 0
  {
    if j > 0 {
      OnlyTheEight(j - 1, w);
    }
  }

  /** Block j of branch 2 makes the block seven below it irreversible, and no more. */
  lemma {:induction false} EightOfEleven(j: nat)
    requires j >= 8
    ensures Irreversibility.IsCandidate(TurnsTaken(j), Few() + Many(), IrreversibleAt(j))
    ensures IrreversibleAt(j) == BranchBlock(2, j - 7).Num()
  {
    BranchBlockIs(2, j - 7);
    var m, i := TurnsTaken(j), (j - 7) % 8;
    LastTurns(j, 7);
    assert Many()[i] == i + 3;
    forall w | w in Many()
      ensures Irreversibility.ConfirmedBy(m, w) >= j - 6
    {
      var k := TurnOf(j, w - 3);
      if k < j {
        LastTurns(j, k);
      }
    }
    forall w | w in Few()
      ensures Irreversibility.ConfirmedBy(m, w) < j - 6
    {
      OnlyTheEight(j, w);
    }
    MajorityDecides(m, j - 6, i);
  }

  lemma {:induction false} MajorityDecides(m: Irreversibility.Confirmed, n: nat, i: nat)
    requires i < 8 && Irreversibility.ConfirmedBy(m, Many()[i]) == n
    requires forall w | w in Many() :: Irreversibility.ConfirmedBy(m, w) >= n
    requires forall w | w in Few() :: Irreversibility.ConfirmedBy(m, w) < n
    ensures Irreversibility.IsCandidate(m, Few() + Many(), n)
  {
    var active, lowest := Few() + Many(), Many()[i];
    assert active[3 + i] == lowest;
    SupportSplits(m, n);
    OrderStatistics.CountAll(Many(), w => Irreversibility.ConfirmedBy(m, w) >= n);
    forall n': nat | n' > n
      ensures Irreversibility.Support(m, active, n') < 8
    {
      SupportSplits(m, n');
      OrderStatistics.CountNone(Few(), w => Irreversibility.ConfirmedBy(m, w) >= n');
      assert Many() == Many()[..i] + [lowest] + Many()[i + 1..];
      OrderStatistics.CountMiddle(Many()[..i], lowest, Many()[i + 1..], w => Irreversibility.ConfirmedBy(m, w) >= n');
    }
  }

  lemma {:induction false} SupportSplits(m: Irreversibility.Confirmed, n: nat)
    ensures Irreversibility.Support(m, Few() + Many(), n)
            == OrderStatistics.Count(Few(), w => Irreversibility.ConfirmedBy(m, w) >= n)
               + OrderStatistics.Count(Many(), w => Irreversibility.ConfirmedBy(m, w) >= n)
  {
    OrderStatistics.CountAppend(Few(), Many(), w => Irreversibility.ConfirmedBy(m, w) >= n);
  }

  /** As long as only the three have signed, nothing is irreversible. */
  lemma {:induction false} ThreeOfElevenDecideNothing(m: Irreversibility.Confirmed)
    requires forall w | w in Many() :: Irreversibility.ConfirmedBy(m, w) == 0
    ensures Irreversibility.IsCandidate(m, Few() + Many(), 0)
  {
    var active := Few() + Many();
    assert active[3] == 3 && 3 in Many() by {
      assert Many()[0] == 3;
    }
    OrderStatistics.CountAll(active, w => Irreversibility.ConfirmedBy(m, w) >= 0);
    forall n': nat | n' > 0
      ensures Irreversibility.Support(m, active, n') < 8
    {
      SupportSplits(m, n');
      OrderStatistics.CountNone(Many(), w => Irreversibility.ConfirmedBy(m, w) >= n');
    }
  }

  // the node comes about by pushes alone

  /** Before the first push. */
  function Genesis(): Node<nat> {
    Node(0, Zero, [], Caches(Undo(0, MIN_UNDO_HISTORY), map[], 1024), None, 0)
  }

  /** Blocks of the two branches arrive in turn, those of branch 2 each a little later. */
  function ArrivingNodes(h: nat): (r: seq<Node<nat>>)
    ensures |r| == 2 * h + 2
  {
    if h == 0 then [Genesis(), Forked(0, 0)] else ArrivingNodes(h - 1) + [Forked(h, h - 1), Forked(h, h)]
  }

  function ArrivingBlocks(h: nat): (r: seq<Block>)
    ensures |r| == 2 * h + 1
  {
    if h == 0 then [BranchBlock(1, 0)] else ArrivingBlocks(h - 1) + [BranchBlock(1, h), BranchBlock(2, h)]
  }

  lemma {:induction false} MeetingBlockArrives(bad: Block, sessions: nat)
    requires bad.body == 2
    ensures Follows(AllBut(bad, sessions), Genesis(), BranchBlock(1, 0), Forked(0, 0))
  {
    var n, b := Genesis(), BranchBlock(1, 0);
    BranchBlockIs(1, 0);
    var item := ForkItem(0, b, None);
    assert n.NewHead(b) == item;
    NodeOfBlock(1, 0);
    assert BranchIds(1, 0) + BranchIds(2, 0) == {b.Id()};
    assert n.NewIndex(b) == map[b.Id() := item] == ForkNodes(0, 0);
    NothingPruned(ForkNodes(0, 0), 1, 2);
    assert [] + OldLinks(0) == OldLinks(0) == [Link(b, 0, NoSessions(2))];
  }

  /** What the fork database does with the next block of branch 1. */
  lemma {:induction false} NextOfBranch1(h: nat)
    requires h > 0
    ensures var n, b := Forked(h - 1, h - 1), BranchBlock(1, h);
            && n.NewHead(b) == BranchItem(1, h) && n.NewIndex(b) == ForkNodes(h, h - 1)
            && Acceptable(n.caches.index, n.head, n.caches.maxSize, b) && b.previous == n.Tip()
  {
    var n, b := Forked(h - 1, h - 1), BranchBlock(1, h);
    BranchBlockIs(1, h - 1);
    TipOfOld(h - 1);
    NextItem(1, h, h - 1, h - 1);
    assert n.Item(b) == BranchItem(1, h);
    NothingPruned(ForkNodes(h, h - 1), h + 1, h + 1);
  }

  lemma {:induction false} TipOfOld(h: nat)
    ensures TipId(Zero, OldLinks(h)) == BranchBlock(1, h).Id() && TipState(0, OldLinks(h)) == 0
  {
  }

  /** The next block of a branch makes the next node. */
  lemma {:induction false} NextItem(branch: nat, h: nat, h1: nat, h2: nat)
    requires 1 <= branch <= 2 && h == 1 + if branch == 1 then h1 else h2
    ensures var b, nodes := BranchBlock(branch, h), ForkNodes(h1, h2);
            && b.previous != Zero && b.previous in nodes && b.Id() !in nodes && b.Num() == h + 1
            && ForkItem(2 * h - 2 + branch, b, Some(nodes[b.previous].serial)) == BranchItem(branch, h)
            && nodes[b.Id() := BranchItem(branch, h)] == if branch == 1 then ForkNodes(h, h2) else ForkNodes(h1, h)
  {
    BranchItemIs(branch, h);
    BranchLinks(h1, h2, branch, h - 1);
    NewBlock(branch, h, h1, h2);
    GrownNodes(branch, h, h1, h2);
  }

  lemma {:induction false} Branch1Arrives(h: nat, bad: Block, sessions: nat)
    requires 0 < h && h + 2 < MAX_UNDO_HISTORY && bad.body == 2
    ensures WellKeyed(ForkNodes(h - 1, h - 1))
    ensures Follows(AllBut(bad, sessions), Forked(h - 1, h - 1), BranchBlock(1, h), Forked(h, h - 1))
  {
    var n, b, exec := Forked(h - 1, h - 1), BranchBlock(1, h), AllBut(bad, sessions);
    ForkNodesKeyed(h - 1, h - 1);
    NextOfBranch1(h);
    BranchBlockIs(1, h);
    TipOfOld(h - 1);
    assert exec(0, b) == Done(0, NoSessions(h + 2));
    assert OldLinks(h) == OldLinks(h - 1) + [Link(b, 0, NoSessions(h + 2))];
    NothingPruned(ForkNodes(h, h - 1), h + 1, h + 2);
  }

  /** What the fork database does with the next block of branch 2, which is no higher than its head. */
  lemma {:induction false} NextOfBranch2(h: nat)
    requires h > 0
    ensures var n, b := Forked(h, h - 1), BranchBlock(2, h);
            && n.NewHead(b) == BranchItem(1, h) && n.NewIndex(b) == ForkNodes(h, h)
            && Acceptable(n.caches.index, n.head, n.caches.maxSize, b)
  {
    var n, b := Forked(h, h - 1), BranchBlock(2, h);
    BranchItemIs(1, h);
    NextItem(2, h, h, h - 1);
    assert n.Item(b) == BranchItem(2, h);
  }

  /** The head of branch 1 stays the head, and is the tip of the chain. */
  lemma {:induction false} HeadStays(exec: Exec<nat>, h: nat, k: nat, k': nat, b: Block, serial: nat)
    requires h > 0 && WellKeyed(ForkNodes(h, k)) && WellKeyed(ForkNodes(h, k'))
    requires var n := Forked(h, k).(nextSerial := serial);
             && n.NewHead(b) == BranchItem(1, h) && n.NewIndex(b) == ForkNodes(h, k')
             && Acceptable(n.caches.index, n.head, n.caches.maxSize, b)
    ensures Follows(exec, Forked(h, k).(nextSerial := serial), b, Forked(h, k').(nextSerial := serial + 1))
  {
    BranchItemIs(1, h);
    BranchBlockIs(1, h);
    BranchBlockIs(1, h - 1);
    TipOfOld(h);
    assert NumFromId(BranchBlock(1, h).Id()) == h + 1;
  }

  lemma {:induction false} Branch2Arrives(h: nat, bad: Block, sessions: nat)
    requires 0 < h && h + 2 < MAX_UNDO_HISTORY
    ensures WellKeyed(ForkNodes(h, h - 1))
    ensures Follows(AllBut(bad, sessions), Forked(h, h - 1), BranchBlock(2, h), Forked(h, h))
  {
    ForkNodesKeyed(h, h - 1);
    ForkNodesKeyed(h, h);
    NextOfBranch2(h);
    HeadStays(AllBut(bad, sessions), h, h - 1, h, BranchBlock(2, h), 2 * h);
  }

  /** The tip of the chain comes in once more. */
  lemma {:induction false} TipArrivesAgain(h: nat, bad: Block, sessions: nat)
    requires h > 0
    ensures WellKeyed(ForkNodes(h, h))
    ensures Follows(AllBut(bad, sessions), Forked(h, h), BranchBlock(1, h), LongFork(h))
  {
    ForkNodesKeyed(h, h);
    BranchItemIs(1, h);
    BranchLinks(h, h, 1, h);
    BranchLinks(h, h, 1, h - 1);
    HeadStays(AllBut(bad, sessions), h, h, h, BranchBlock(1, h), 2 * h + 1);
  }

  /** Every node on the way to the fork is what the push before it leaves. */
  lemma {:induction false} ForkArrives(h: nat, bad: Block, sessions: nat)
    requires h + 2 < MAX_UNDO_HISTORY && bad.body == 2
    ensures IsRun(AllBut(bad, sessions), ArrivingNodes(h), ArrivingBlocks(h))
    ensures ArrivingNodes(h)[0] == Genesis() && ArrivingNodes(h)[2 * h + 1] == Forked(h, h)
  {
    if h == 0 {
      ForkNodesKeyed(0, 0);
      MeetingBlockArrives(bad, sessions);
    } else {
      ForkArrives(h - 1, bad, sessions);
      NextTwoArrive(h, bad, sessions, ArrivingNodes(h - 1), ArrivingBlocks(h - 1));
    }
  }

  lemma {:induction false} NextTwoArrive(h: nat, bad: Block, sessions: nat, nodes: seq<Node<nat>>, blocks: seq<Block>)
    requires 0 < h && h + 2 < MAX_UNDO_HISTORY && bad.body == 2
    requires IsRun(AllBut(bad, sessions), nodes, blocks) && nodes[|blocks|] == Forked(h - 1, h - 1)
    ensures IsRun(AllBut(bad, sessions), nodes + [Forked(h, h - 1), Forked(h, h)],
                  blocks + [BranchBlock(1, h), BranchBlock(2, h)])
  {
    ForkNodesKeyed(h, h - 1);
    ForkNodesKeyed(h, h);
    Branch1Arrives(h, bad, sessions);
    Branch2Arrives(h, bad, sessions);
    TwoMoreOfRun(AllBut(bad, sessions), nodes, blocks, Forked(h, h - 1), BranchBlock(1, h), Forked(h, h),
                 BranchBlock(2, h));
  }

  /** The node is reached by a run of pushes from genesis. */
  lemma {:induction false} LongForkIsReached(h: nat, bad: Block, sessions: nat)
    returns (nodes: seq<Node<nat>>, blocks: seq<Block>)
    requires 0 < h && h + 2 < MAX_UNDO_HISTORY && bad.body == 2
    ensures IsRun(AllBut(bad, sessions), nodes, blocks) && nodes[0] == Genesis() && nodes[|blocks|] == LongFork(h)
  {
    ForkArrives(h, bad, sessions);
    TipArrivesAgain(h, bad, sessions);
    nodes, blocks := ArrivingNodes(h) + [LongFork(h)], ArrivingBlocks(h) + [BranchBlock(1, h)];
    MoreOfRun(AllBut(bad, sessions), ArrivingNodes(h), ArrivingBlocks(h), LongFork(h), BranchBlock(1, h));
  }

  lemma {:induction false} MoreOfRun<S>(exec: Exec<S>, nodes: seq<Node<S>>, blocks: seq<Block>, n: Node<S>, b: Block)
    requires IsRun(exec, nodes, blocks) && WellKeyed(n.caches.index) && n.caches.undo.depth <= |n.links|
    requires Follows(exec, nodes[|blocks|], b, n)
    ensures IsRun(exec, nodes + [n], blocks + [b])
  {
    var more, all := nodes + [n], blocks + [b];
    forall i | 0 <= i < |all|
      ensures Follows(exec, more[i], all[i], more[i + 1])
    {
      if i < |blocks| {
        assert more[i] == nodes[i] && more[i + 1] == nodes[i + 1] && all[i] == blocks[i];
      }
    }
  }

  lemma {:induction false} TwoMoreOfRun<S>(exec: Exec<S>, nodes: seq<Node<S>>, blocks: seq<Block>, x: Node<S>, a: Block,
                                           y: Node<S>, b: Block)
    requires IsRun(exec, nodes, blocks)
    requires WellKeyed(x.caches.index) && x.caches.undo.depth <= |x.links|
    requires WellKeyed(y.caches.index) && y.caches.undo.depth <= |y.links|
    requires Follows(exec, nodes[|blocks|], a, x) && Follows(exec, x, b, y)
    ensures IsRun(exec, nodes + [x, y], blocks + [a, b])
  {
    MoreOfRun(exec, nodes, blocks, x, a);
    MoreOfRun(exec, nodes + [x], blocks + [a], y, b);
    assert nodes + [x] + [y] == nodes + [x, y] && blocks + [a] + [b] == blocks + [a, b];
  }

  /** So is the node of the fork at genesis. */
  lemma {:induction false} GenesisForkIsReached(n: Node<nat>, mid: Node<nat>, a1: Block, b1: Block, bad: Block)
    requires a1 == Block(Zero, 1) && b1 == Block(Zero, 2) && bad.previous != Zero
    requires mid == Node(0, Zero, [Link(a1, 0, Mark(2, 0, 0))],
                         Caches(Undo(1, 2), map[a1.Id() := ForkItem(0, a1, None)], 2), Some(ForkItem(0, a1, None)), 1)
    requires n == Node(0, Zero, [Link(a1, 0, Mark(2, 0, 0))],
                       Caches(Undo(1, 2), map[a1.Id() := ForkItem(0, a1, None), b1.Id() := ForkItem(1, b1, None)], 2),
                       Some(ForkItem(0, a1, None)), 2)
    ensures IsRun(AllBut(bad, 0), [Genesis(), mid, n], [a1, b1])
  {
    FirstOfTwo(mid, a1, bad);
    SecondOfTwo(n, mid, a1, b1, bad);
    var nodes, blocks := [Genesis(), mid, n], [a1, b1];
    assert WellKeyed(n.caches.index);
    forall i | 0 <= i < |blocks|
      ensures Follows(AllBut(bad, 0), nodes[i], blocks[i], nodes[i + 1])
    {
    }
  }

  lemma {:induction false} FirstOfTwo(mid: Node<nat>, a1: Block, bad: Block)
    requires a1 == Block(Zero, 1) && bad.previous != Zero
    requires mid == Node(0, Zero, [Link(a1, 0, Mark(2, 0, 0))],
                         Caches(Undo(1, 2), map[a1.Id() := ForkItem(0, a1, None)], 2), Some(ForkItem(0, a1, None)), 1)
    ensures Follows(AllBut(bad, 0), Genesis(), a1, mid) && WellKeyed(mid.caches.index)
  {
    var n, item := Genesis(), ForkItem(0, a1, None);
    assert a1.Num() == 1;
    assert n.NewHead(a1) == item && n.NewIndex(a1) == map[a1.Id() := item];
    NothingPruned(n.NewIndex(a1), 1, 2);
    assert [] + mid.links == mid.links;
  }

  lemma {:induction false} SecondOfTwo(n: Node<nat>, mid: Node<nat>, a1: Block, b1: Block, bad: Block)
    requires a1 == Block(Zero, 1) && b1 == Block(Zero, 2)
    requires mid == Node(0, Zero, [Link(a1, 0, Mark(2, 0, 0))],
                         Caches(Undo(1, 2), map[a1.Id() := ForkItem(0, a1, None)], 2), Some(ForkItem(0, a1, None)), 1)
    requires n == mid.(caches := n.caches, nextSerial := 2)
    requires n.caches == mid.caches.(index := mid.caches.index[b1.Id() := ForkItem(1, b1, None)])
    ensures WellKeyed(mid.caches.index) && Follows(AllBut(bad, 0), mid, b1, n)
  {
    assert a1.Id() != b1.Id() && a1.Num() == b1.Num() == 1;
    assert mid.Item(b1) == ForkItem(1, b1, None) && mid.NewHead(b1) == ForkItem(0, a1, None);
    assert mid.NewIndex(b1) == n.caches.index;
    assert mid.Tip() == a1.Id();
  }

  // the push of the block that outgrows the chain

  lemma {:induction false} LongForkPushed(h: nat)
    requires h > 0
    ensures var n, b := LongFork(h), BranchBlock(2, h + 1);
            && n.NewHead(b) == BranchItem(2, h + 1) && n.NewIndex(b) == ForkNodes(h, h + 1)
            && Acceptable(n.caches.index, n.head, n.caches.maxSize, b) && b.Id() !in n.caches.index
            && n.Tip() == BranchBlock(1, h).Id()
  {
    var n, b := LongFork(h), BranchBlock(2, h + 1);
    BranchItemIs(1, h);
    TipOfOld(h);
    NextItem(2, h + 1, h, h);
    assert n.Item(b) == BranchItem(2, h + 1);
    NothingPruned(ForkNodes(h, h + 1), h + 2, h + 2);
  }

  lemma {:induction false} LongForkSwitches(h: nat)
    requires h > 0
    ensures var n, b := LongFork(h), BranchBlock(2, h + 1);
            WellKeyed(n.caches.index) && Switches(n, b, BranchLine(2, h + 1), BranchLine(1, h))
  {
    var n, b, idx := LongFork(h), BranchBlock(2, h + 1), ForkNodes(h, h + 1);
    ForkNodesKeyed(h, h);
    LongForkPushed(h);
    BranchBlockIs(1, h);
    BranchItemIs(2, h + 1);
    BranchBlockIs(2, h);
    BranchLinks(h, h + 1, 1, h);
    BranchLinks(h, h + 1, 2, h + 1);
    BranchesHeld(h);
    BranchesClimb(idx, h, h + 1);
    assert NumFromId(BranchBlock(1, h).Id()) == h + 1;
  }

  lemma {:induction false} BranchesHeld(h: nat)
    ensures WellKeyed(ForkNodes(h, h + 1))
    ensures HoldsBranch(ForkNodes(h, h + 1), 1, h) && HoldsBranch(ForkNodes(h, h + 1), 2, h + 1)
  {
    ForkNodesKeyed(h, h + 1);
    var idx := ForkNodes(h, h + 1);
    forall k: nat | 1 <= k <= h
      ensures HoldsLink(idx, 1, k)
    {
      BranchLinks(h, h + 1, 1, k);
    }
    forall k: nat | 1 <= k <= h + 1
      ensures HoldsLink(idx, 2, k)
    {
      BranchLinks(h, h + 1, 2, k);
    }
  }

  lemma {:induction false} LineBlock(branch: nat, h: nat, i: nat)
    requires i < h
    ensures BranchLine(branch, h)[i].block == BranchBlock(branch, h - i)
    decreases h
  {
    if h > 1 {
      LineBlock(branch, h - 1, if i > 0 then i - 1 else 0);
    } else {
      assert BranchLine(branch, 0) == [];
    }
  }

  lemma {:induction false} LongForkOrdinary(h: nat)
    requires h > 0
    ensures var n, b := LongFork(h), BranchBlock(2, h + 1);
            WellKeyed(n.NewIndex(b)) && Ordinary(n, b, BranchLine(1, h))
  {
    LongForkPushed(h);
    ForkNodesKeyed(h, h + 1);
    LineBlock(1, h, h - 1);
    LineBlock(1, h, 0);
    LastItem(1, h);
    BranchLinks(h, h + 1, 1, 1);
    BranchBlockIs(1, h);
    BranchBlockIs(2, h + 1);
  }

  /** The last irreversible number after block j of branch 2. */
  function IrreversibleAt(j: nat): nat {
    if j >= 8 then j - 6 else 0
  }

  /** The window that block j of branch 2 sets. */
  function WindowOf(j: nat): nat {
    if j <= 8 then j + 2 else 9
  }

  /** Blocks j + 1 to h of branch 2, applied. */
  function NewLinks(j: nat, h: nat): seq<Link<nat>>
    requires j <= h
  {
    seq(h - j, i requires 0 <= i < h - j =>
      Link(BranchBlock(2, j + 1 + i), IrreversibleAt(j + 1 + i), NoSessions(WindowOf(j + 1 + i))))
  }

  /** Block i + 1 of branch 2 applies on top of block i. */
  predicate AppliesNext(exec: Exec<nat>, i: nat) {
    exec(IrreversibleAt(i), BranchBlock(2, i + 1)) == Done(IrreversibleAt(i + 1), NoSessions(WindowOf(i + 1)))
  }

  lemma {:induction false} NewBlockApplies(j: nat, h: nat, sessions: nat)
    requires j < h && h + 3 < MAX_UNDO_HISTORY
    ensures AppliesNext(AllBut(BranchBlock(2, h + 1), sessions), j)
  {
    BranchBlockIs(2, j + 1);
    BranchBlockIs(2, h + 1);
  }

  /** Blocks j + 1 to h + 1 of branch 2. */
  function NewBlocks(j: nat, h: nat): seq<Block>
    requires j <= h
  {
    seq(h + 1 - j, i requires 0 <= i < h + 1 - j => BranchBlock(2, j + 1 + i))
  }

  lemma {:induction false} NewBlocksStep(j: nat, h: nat)
    requires j <= h
    ensures NewBlocks(j, h)[0] == BranchBlock(2, j + 1)
    ensures j < h ==> NewBlocks(j, h)[1..] == NewBlocks(j + 1, h)
  {
  }

  lemma {:induction false} NewBranchApplies(exec: Exec<nat>, j: nat, h: nat, up: seq<Block>)
    requires j <= h && up == NewBlocks(j, h)
    requires forall i: nat {:trigger AppliesNext(exec, i)} | i < h :: AppliesNext(exec, i)
    requires exec(IrreversibleAt(h), BranchBlock(2, h + 1)).Failed?
    ensures Extend(exec, IrreversibleAt(j), BranchBlock(2, j).Id(), up) == NewLinks(j, h)
    decreases h - j
  {
    BranchItemIs(2, j + 1);
    NewBlocksStep(j, h);
    if j < h {
      assert AppliesNext(exec, j);
      NewBranchApplies(exec, j + 1, h, up[1..]);
      NewLinksStep(j, h);
    }
  }

  lemma {:induction false} NewLinksStep(j: nat, h: nat)
    requires j < h
    ensures NewLinks(j, h)
            == [Link(BranchBlock(2, j + 1), IrreversibleAt(j + 1), NoSessions(WindowOf(j + 1)))] + NewLinks(j + 1, h)
  {
  }

  /** All of branch 2 but its last block applies. */
  lemma {:induction false} LongForkTries(h: nat, sessions: nat)
    requires 0 < h && h + 3 < MAX_UNDO_HISTORY
    ensures var n := LongFork(h);
            && n.links[..1] == OldLinks(0)
            && Tried(AllBut(BranchBlock(2, h + 1), sessions), n.base, n.baseId, n.links, BranchLine(2, h + 1),
                     BranchLine(1, h)) == NewLinks(0, h)
  {
    var n, f := LongFork(h), BranchLine(2, h + 1);
    var up := Upward(f);
    forall i | 0 <= i < |up|
      ensures up[i] == BranchBlock(2, 1 + i)
    {
      LineBlock(2, h + 1, h - i);
    }
    assert n.links[..1] == OldLinks(0);
    BranchBlockIs(1, 0);
    BranchBlockIs(2, 0);
    var exec := AllBut(BranchBlock(2, h + 1), sessions);
    forall i: nat | i < h
      ensures AppliesNext(exec, i)
    {
      NewBlockApplies(i, h, sessions);
    }
    assert up == NewBlocks(0, h);
    NewBranchApplies(exec, 0, h, up);
  }

  /** What the failing block finds, and how it fails. */
  lemma {:induction false} LongForkFails(h: nat, sessions: nat)
    requires 0 < h
    ensures NextFailure(AllBut(BranchBlock(2, h + 1), sessions), 0, Zero, OldLinks(0), NewLinks(0, h),
                        BranchLine(2, h + 1))
            == Before(sessions)
  {
    LineBlock(2, h + 1, 0);
    BranchItemIs(2, h + 1);
    var all := OldLinks(0) + NewLinks(0, h);
    assert all[|all| - 1] == NewLinks(0, h)[h - 1];
  }

  /** Every window reaches down to the meeting block, and the sessions of the failing block fit, up to a length. */
  lemma {:induction false} LongForkRoom(h: nat, sessions: nat)
    requires 0 < h
    ensures var marks := MarksOf(NewLinks(0, h));
            && (Covers(WithFailure(marks, Before(sessions)))
                <==> (h <= 8 && sessions <= 2) || (h == 9 && sessions == 0))
            && Reaches(Lengths(h, h + 1, h + 1), WindowsSet(marks, Before(sessions)), h)
  {
    var marks := MarksOf(NewLinks(0, h));
    var all := WithFailure(marks, Before(sessions));
    forall j | 0 <= j < h
      ensures all[j] == NoSessions(WindowOf(j + 1))
    {
    }
    assert all[h] == Mark(0, sessions, 0);
    if Covers(all) {
      var j := if h > 10 then 10 else h;
      assert Roomy(all, j);
    } else {
      var j :| 0 <= j < |all| && !Roomy(all, j);
      assert j > 0 && all[j - 1].window == WindowOf(j);
    }
  }

  /**
   How the fork ends when its last block fails: the old chain is restored as long as the branches are not
   too long for the windows, and no proposal of the failing block takes up the last of the room.
   */
  lemma {:induction false} LongForkEnds(h: nat, sessions: nat)
    requires 0 < h && h + 3 < MAX_UNDO_HISTORY
    ensures var n, b := LongFork(h), BranchBlock(2, h + 1);
            var exec, s := AllBut(b, sessions), BranchLine(1, h);
            && Inv(exec, n) && Finalising(exec, (x: nat) => x)
            && Switches(n, b, BranchLine(2, h + 1), s) && WellKeyed(n.NewIndex(b)) && Ordinary(n, b, s)
            && Push(exec, n, b).result
               == if (h <= 8 && sessions <= 2) || (h == 9 && sessions == 0) then RolledBack else Stranded
  {
    var n, b := LongFork(h), BranchBlock(2, h + 1);
    var exec, f, s := AllBut(b, sessions), BranchLine(2, h + 1), BranchLine(1, h);
    BranchBlockIs(2, h + 1);
    ForkedIsReplay(h, h, b, sessions);
    assert Inv(exec, n);
    AllButFinalises(b, sessions);
    LongForkSwitches(h);
    LongForkOrdinary(h);
    LongForkTries(h, sessions);
    SwitchEnds(exec, n, b, f, s, OldLinks(0), NewLinks(0, h));
    LongForkEnding(h, sessions);
  }

  lemma {:induction false} LongForkEnding(h: nat, sessions: nat)
    requires 0 < h && h + 3 < MAX_UNDO_HISTORY
    ensures var n, b := LongFork(h), BranchBlock(2, h + 1);
            && WellKeyed(n.NewIndex(b))
            && Ending(AllBut(b, sessions), n, b, BranchLine(2, h + 1), BranchLine(1, h), OldLinks(0), NewLinks(0, h))
               == if (h <= 8 && sessions <= 2) || (h == 9 && sessions == 0) then RolledBack else Stranded
  {
    LongForkPushed(h);
    LineBlock(1, h, 0);
    BranchAncestry(h, h + 1, 1, h);
    BranchAncestry(h, h + 1, 2, h + 1);
    LongForkFails(h, sessions);
    LongForkRoom(h, sessions);
    assert BranchLine(1, h)[0] == BranchItem(1, h);
  }

  /**
   An ordinary fork is not safe. The chain is ten or more blocks above the meeting block, which is cached,
   and everything can be undone; the rival branch is the first to outgrow it, and its last block fails. By
   then its eighth and ninth blocks have made its first two irreversible, the undo history no longer
   reaches down to the meeting block, and the way back throws. All of it comes about by pushes.
   */
  lemma {:induction false} FinalisedForkStrands(h: nat) returns (nodes: seq<Node<nat>>, blocks: seq<Block>)
    requires 10 <= h && h + 3 < MAX_UNDO_HISTORY
    ensures var n, b := LongFork(h), BranchBlock(2, h + 1);
            var exec, s := AllBut(b, 0), BranchLine(1, h);
            && IsRun(exec, nodes, blocks) && nodes[0] == Genesis() && nodes[|blocks|] == n
            && Inv(exec, n) && Finalising(exec, (x: nat) => x)
            && WellKeyed(n.NewIndex(b)) && s != [] && Ordinary(n, b, s)
            && Push(exec, n, b).result == Stranded
  {
    BranchBlockIs(2, h + 1);
    nodes, blocks := LongForkIsReached(h, BranchBlock(2, h + 1), 0);
    LongForkEnds(h, 0);
  }

  /** A session of the failing block can make the difference. */
  lemma {:induction false} ProposalStrands()
    ensures var n, b := LongFork(9), BranchBlock(2, 10);
            && Inv(AllBut(b, 0), n) && Inv(AllBut(b, 1), n)
            && Push(AllBut(b, 0), n, b).result == RolledBack && Push(AllBut(b, 1), n, b).result == Stranded
  {
    LongForkEnds(9, 0);
    LongForkEnds(9, 1);
  }

  /** A shorter fork is rolled back, and leaves the files naming the failed branch. */
  lemma {:induction false} RollbackSpoilsFiles(h: nat)
    requires 0 < h <= 9
    ensures var n, b, files := LongFork(h), BranchBlock(2, h + 1), Stored(map[], OldLinks(h));
            var exec := AllBut(b, 0);
            && Inv(exec, n) && Finalising(exec, (x: nat) => x) && FileTable.Exact(files, n.baseId, n.links)
            && Push(exec, n, b).result == RolledBack && !FileTable.StaysFiled(exec, n, b, files)
  {
    var n, b, files := LongFork(h), BranchBlock(2, h + 1), Stored(map[], OldLinks(h));
    var exec, f, s := AllBut(b, 0), BranchLine(2, h + 1), BranchLine(1, h);
    LongForkEnds(h, 0);
    OldLinksFiled(h);
    LongForkTries(h, 0);
    LongForkHarmful(h);
    FileTable.HarmfulRollback(exec, n, b, f, s, files);
  }

  /** The new branch does not start with the old tip, nor is the pushed block the old tip. */
  lemma {:induction false} LongForkHarmful(h: nat)
    requires h > 0
    ensures BranchLine(2, h + 1) != [] && BranchLine(1, h) != []
    ensures !FileTable.Harmless(LongFork(h), BranchBlock(2, h + 1), BranchLine(2, h + 1), BranchLine(1, h), h)
  {
    LineBlock(2, h + 1, h);
    LineBlock(1, h, 0);
    BranchBlockIs(2, 1);
    BranchBlockIs(1, h);
    BranchBlockIs(2, h + 1);
  }

  lemma {:induction false} OldLinksFiled(h: nat)
    requires h + 2 < MAX_UNDO_HISTORY
    ensures FileTable.Exact(Stored(map[], OldLinks(h)), Zero, OldLinks(h))
  {
    var links, none := OldLinks(h), OldLinks(h)[..0];
    ForkedIsReplay(h, h, BranchBlock(2, h + 1), 0);
    StepwiseIsChained(AllBut(BranchBlock(2, h + 1), 0), 0, Zero, links);
    ChainIsNumbered(Zero, links);
    assert none + links == links;
    FileTable.StoredOnTop(map[], none, links, 0);
    forall k: nat
      ensures k in Stored(map[], links) <==> 0 < k <= |links|
    {
      StoredSlot(map[], links, 0, k);
    }
  }

  lemma {:induction false} LastItem(branch: nat, h: nat)
    requires h > 0
    ensures BranchLine(branch, h)[h - 1] == BranchItem(branch, 1)
  {
    if h > 1 {
      LastItem(branch, h - 1);
    } else {
      assert BranchLine(branch, 0) == [];
    }
  }
}
