/** The two sides of the sync handshake (libraries/app/application.cpp). */
module Sync {
  import opened Arithmetic
  import opened Wrappers
  import opened Blocks

  const WORD := 0x1_0000_0000

  /**
   What the sync code asks of the chain: the head number, the size of the undo stack, the id
   filed under each block number, and the ids known to the fork database or the block store.
   */
  datatype Peer = Peer(head: nat, undoSize: nat, byNum: map<nat, BlockId>, known: set<BlockId>) {
    /** The ids of blocks 1 to head, and no others, are filed under their numbers, and are known. */
    ghost predicate Consistent() {
      && head < WORD && undoSize < WORD
      && (forall n: nat :: n in byNum <==> 1 <= n <= head)
      && (forall n: nat | n in byNum :: NumFromId(byNum[n]) == n && byNum[n] in known)
    }

    /** `last_non_undoable_block_num`: a 32-bit difference, which wraps around. */
    function LastNonUndoable(): nat {
      (head - undoSize) % WORD
    }

    /** `is_included_block`: `None` when nothing is filed under the number. */
    function IsIncluded(id: BlockId): Option<bool> {
      var n := NumFromId(id);
      if n in byNum then Some(byNum[n] == id) else None
    }
  }

  function Next(low: nat, trueHigh: nat): (r: nat)
    requires low <= trueHigh
    ensures low < r <= trueHigh + 1
    ensures trueHigh - r + 1 == (trueHigh - low + 1) / 2
  {
    low + (trueHigh - low + 2) / 2
  }

  /** The block numbers a synopsis names: each step halves what is left, rounding down. */
  function Points(low: nat, high: nat, trueHigh: nat): (r: seq<nat>)
    requires low <= high <= trueHigh
    ensures r != [] && r[0] == low
    decreases high - low
  {
    var next := Next(low, trueHigh);
    [low] + if next <= high then Points(next, high, trueHigh) else []
  }

  lemma {:induction false} PointsHalve(low: nat, high: nat, trueHigh: nat, i: nat)
    requires low <= high <= trueHigh && i < |Points(low, high, trueHigh)|
    ensures var p := Points(low, high, trueHigh);
            && low <= p[i] <= high
            && (i + 1 < |p| ==> trueHigh - p[i + 1] + 1 == (trueHigh - p[i] + 1) / 2)
            && (i + 1 == |p| ==> Next(p[i], trueHigh) > high)
    decreases i
  {
    if i > 0 {
      var next := Next(low, trueHigh);
      PointsHalve(next, high, trueHigh, i - 1);
    }
  }

  lemma {:induction false} PointsIncrease(low: nat, high: nat, trueHigh: nat, i: nat, j: nat)
    requires low <= high <= trueHigh && i < j < |Points(low, high, trueHigh)|
    ensures Points(low, high, trueHigh)[i] < Points(low, high, trueHigh)[j]
    decreases j
  {
    PointsHalve(low, high, trueHigh, j - 1);
    PointsHalve(low, high, trueHigh, j);
    if i < j - 1 {
      PointsIncrease(low, high, trueHigh, i, j - 1);
    }
  }

  /** floor(log2(n)). */
  function Log2(n: nat): nat
    requires n > 0
  {
    if n == 1 then 0 else 1 + Log2(n / 2)
  }

  lemma {:induction false} Log2Monotone(a: nat, b: nat)
    requires 0 < a <= b
    ensures Log2(a) <= Log2(b)
  {
    if a > 1 {
      Log2Monotone(a / 2, b / 2);
    }
  }

  /** At most floor(log2(size of the range)) + 1 entries, and exactly that many when nothing follows. */
  lemma {:induction false} PointsAreFew(low: nat, high: nat, trueHigh: nat)
    requires low <= high <= trueHigh
    ensures |Points(low, high, trueHigh)| <= Log2(trueHigh - low + 1) + 1
    ensures high == trueHigh ==> |Points(low, high, trueHigh)| == Log2(trueHigh - low + 1) + 1
    decreases high - low
  {
    var next := Next(low, trueHigh);
    if next <= high {
      PointsAreFew(next, high, trueHigh);
      assert trueHigh - next + 1 == (trueHigh - low + 1) / 2;
    }
  }

  /** When nothing follows the reference point, the last entry is the high block itself. */
  lemma {:induction false} PointsEndAtHigh(low: nat, high: nat)
    requires low <= high
    ensures var p := Points(low, high, high); p[|p| - 1] == high
  {
    var p := Points(low, high, high);
    PointsHalve(low, high, high, |p| - 1);
  }

  datatype Synopsis =
    | Synopsis(ids: seq<BlockId>)
    | LookupFailed   // no id is filed under a block number
    | ForkUnknown    // the fork database cannot link the reference block
    | TooOld         // the fork began below the undo history
    | OutOfRange     // the fork history is indexed beyond its end

  /** What `get_block_ids_on_fork` promises; see ReorgProperties.ForkIdsAreConsecutive. */
  ghost predicate ForkShape(p: Peer, reference: BlockId, ids: seq<BlockId>) {
    && |ids| >= 2 && ids[0] == reference
    && (forall i | 0 <= i < |ids| :: NumFromId(ids[i]) + i == NumFromId(reference))
    && NumFromId(ids[|ids| - 1]) <= p.head
  }

  /** The id at number n of the chain that the synopsis is about. */
  function IdAt(p: Peer, history: seq<BlockId>, nonFork: nat, n: nat): Option<BlockId> {
    if n <= nonFork then (if n in p.byNum then Some(p.byNum[n]) else None)
    else if n - nonFork - 1 < |history| then Some(history[n - nonFork - 1]) else None
  }

  /** The ends of the range that a synopsis covers, and the fork history above the main chain. */
  datatype Range = Range(low: nat, high: nat, nonFork: nat, history: seq<BlockId>)

  function Reversed(s: seq<BlockId>): seq<BlockId> {
    seq(|s|, i requires 0 <= i < |s| => s[|s| - 1 - i])
  }

  /** The range for the reference point, if it is fit to be summarised. */
  function RangeOf(p: Peer, reference: BlockId, fork: Option<seq<BlockId>>): Range
    requires reference == Zero || p.IsIncluded(reference) == Some(true) || (fork.Some? && |fork.value| >= 2)
  {
    if reference == Zero then
      Range(Max(p.LastNonUndoable(), 1), p.head, p.head, [])
    else if p.IsIncluded(reference) == Some(true) then
      var n := NumFromId(reference);
      Range(Max(Min(p.LastNonUndoable(), n), 1), n, n, [])
    else
      var ids := fork.value;
      var nonFork := NumFromId(ids[|ids| - 1]);
      Range(Max(p.LastNonUndoable(), 1), nonFork + |ids| - 1, nonFork, Reversed(ids[..|ids| - 1]))
  }

  /** The wrapped difference lies above the head exactly if the undo history is longer than the chain. */
  lemma {:induction false} WrappedDifference(p: Peer)
    requires p.Consistent()
    ensures p.LastNonUndoable() == if p.undoSize <= p.head then p.head - p.undoSize else p.head - p.undoSize + WORD
  {
  }

  /** The ids are the entries of a range that is followed by some more blocks. */
  ghost predicate Lists(p: Peer, g: Range, after: nat, ids: seq<BlockId>) {
    g.low <= g.high && AllSome(ids) == Entries(p, g, g.low, g.high + after)
  }

  /**
   The block n of the chain up to a fork's block `high`: the fork's, above the block where it leaves the main
   chain.
   */
  predicate IsIdAt(p: Peer, fork: seq<BlockId>, high: nat, n: nat, id: BlockId) {
    if fork != [] && n > NumFromId(fork[|fork| - 1]) then 0 <= high - n < |fork| && id == fork[high - n]
    else n in p.byNum && id == p.byNum[n]
  }

  /** The ids lie at the points from `low` to `high`, from which on `after` more blocks follow. */
  ghost predicate Summary(p: Peer, fork: seq<BlockId>, low: nat, high: nat, after: nat, ids: seq<BlockId>) {
    && low <= high
    && var points := Points(low, high, high + after);
      && |ids| == |points|
      && forall i | 0 <= i < |points| :: IsIdAt(p, fork, high, points[i], ids[i])
  }

  /** The blocks of a range are those of the main chain and of the fork. */
  ghost predicate Covers(p: Peer, fork: seq<BlockId>, g: Range) {
    forall n: nat, id | g.low <= n <= g.high && IdAt(p, g.history, g.nonFork, n) == Some(id) ::
      IsIdAt(p, fork, g.high, n, id)
  }

  lemma {:induction false} ListedAt(p: Peer, g: Range, after: nat, ids: seq<BlockId>, points: seq<nat>)
    requires Lists(p, g, after, ids) && points == Points(g.low, g.high, g.high + after)
    ensures |ids| == |points|
    ensures forall i | 0 <= i < |points| :: IdAt(p, g.history, g.nonFork, points[i]) == Some(ids[i])
  {
    EntryAt(p, g, g.high + after, ids, points, 0);
    forall i | 0 <= i < |points|
      ensures IdAt(p, g.history, g.nonFork, points[i]) == Some(ids[i])
    {
      EntryAt(p, g, g.high + after, ids, points, i);
    }
  }

  /** The ids are at their points, if these are blocks of the range. */
  lemma {:induction false} AtTheirPoints(p: Peer, fork: seq<BlockId>, g: Range, points: seq<nat>, ids: seq<BlockId>)
    requires Covers(p, fork, g) && |ids| == |points|
    requires forall i | 0 <= i < |points| :: IdAt(p, g.history, g.nonFork, points[i]) == Some(ids[i])
    requires forall i | 0 <= i < |points| :: g.low <= points[i] <= g.high
    ensures forall i | 0 <= i < |points| :: IsIdAt(p, fork, g.high, points[i], ids[i])
  {
  }

  lemma {:induction false} PointsBetween(low: nat, high: nat, trueHigh: nat, points: seq<nat>)
    requires low <= high <= trueHigh && points == Points(low, high, trueHigh)
    ensures forall i | 0 <= i < |points| :: low <= points[i] <= high
  {
    forall i | 0 <= i < |points|
      ensures low <= points[i] <= high
    {
      PointsHalve(low, high, trueHigh, i);
    }
  }

  lemma {:induction false} ListsSummary(p: Peer, fork: seq<BlockId>, g: Range, after: nat, ids: seq<BlockId>,
                                        points: seq<nat>)
    requires Covers(p, fork, g) && g.low <= g.high && points == Points(g.low, g.high, g.high + after)
    requires |ids| == |points|
    requires forall i | 0 <= i < |points| :: IdAt(p, g.history, g.nonFork, points[i]) == Some(ids[i])
    ensures Summary(p, fork, g.low, g.high, after, ids)
  {
    PointsBetween(g.low, g.high, g.high + after, points);
    AtTheirPoints(p, fork, g, points, ids);
  }

  lemma {:induction false} ForkCovers(p: Peer, reference: BlockId, line: seq<BlockId>)
    requires p.Consistent() && ForkShape(p, reference, line)
    requires reference != Zero && p.IsIncluded(reference) != Some(true)
    ensures var g := RangeOf(p, reference, Some(line)); g.high == NumFromId(reference) && Covers(p, line, g)
  {
    assert NumFromId(line[|line| - 1]) + (|line| - 1) == NumFromId(reference);
  }

  /**
   What a synopsis holds. Of the whole chain, or for a reference block on it, it holds the main chain's
   ids from the last block that cannot be undone, or from the reference block if that is lower; for a
   reference block on a fork it goes up the main chain to the meeting block and then up the fork.
   */
  lemma {:induction false} SynopsisOf(p: Peer, reference: BlockId, fork: Option<seq<BlockId>>, after: nat,
                                      ids: seq<BlockId>)
    requires p.Consistent() && (fork.Some? ==> ForkShape(p, reference, fork.value))
    requires reference == Zero || p.IsIncluded(reference) == Some(true) || fork.Some?
    requires Lists(p, RangeOf(p, reference, fork), after, ids)
    ensures reference == Zero && p.undoSize <= p.head ==>
              Summary(p, [], Max(p.head - p.undoSize, 1), p.head, after, ids)
    ensures reference != Zero && p.IsIncluded(reference) == Some(true) ==>
              var n := NumFromId(reference);
              Summary(p, [], if p.undoSize > p.head then n else Max(Min(p.head - p.undoSize, n), 1), n, after, ids)
    ensures reference != Zero && p.IsIncluded(reference) != Some(true) && p.undoSize <= p.head ==>
              Summary(p, fork.value, Max(p.head - p.undoSize, 1), NumFromId(reference), after, ids)
  {
    var g := RangeOf(p, reference, fork);
    var points := Points(g.low, g.high, g.high + after);
    WrappedDifference(p);
    ListedAt(p, g, after, ids, points);
    if reference == Zero || p.IsIncluded(reference) == Some(true) {
      assert Covers(p, [], g);
      ListsSummary(p, [], g, after, ids, points);
    } else {
      ForkCovers(p, reference, fork.value);
      ListsSummary(p, fork.value, g, after, ids, points);
    }
  }

  /** A synopsis starts at its low end, and ends with the reference block when nothing follows that. */
  lemma {:induction false} SynopsisEnds(p: Peer, fork: seq<BlockId>, low: nat, high: nat, after: nat,
                                        ids: seq<BlockId>)
    requires Summary(p, fork, low, high, after, ids)
    ensures ids != [] && IsIdAt(p, fork, high, low, ids[0])
    ensures after == 0 ==> IsIdAt(p, fork, high, high, ids[|ids| - 1])
    ensures fork == [] ==> low in p.byNum && ids[0] == p.byNum[low]
    ensures fork == [] && after == 0 ==> high in p.byNum && ids[|ids| - 1] == p.byNum[high]
    ensures fork != [] && low <= NumFromId(fork[|fork| - 1]) ==> low in p.byNum && ids[0] == p.byNum[low]
    ensures fork != [] && after == 0 && high > NumFromId(fork[|fork| - 1]) ==> ids[|ids| - 1] == fork[0]
  {
    if after == 0 {
      PointsEndAtHigh(low, high);
    }
  }

  /** The first half of `get_blockchain_synopsis`: which blocks the synopsis is about. */
  method FindRange(p: Peer, reference: BlockId, fork: Option<seq<BlockId>>) returns (g: Range, failed: Option<Synopsis>)
    requires p.Consistent() && (fork.Some? ==> ForkShape(p, reference, fork.value))
    requires reference != Zero || p.head > 0
    ensures failed == Some(LookupFailed) <==> reference != Zero && p.IsIncluded(reference) == None
    ensures failed == Some(ForkUnknown) <==> reference != Zero && p.IsIncluded(reference) == Some(false) && fork == None
    ensures failed == Some(TooOld) <==> reference != Zero && p.IsIncluded(reference) == Some(false) && fork.Some?
                                        && (p.undoSize > p.head
                                            || NumFromId(fork.value[|fork.value| - 1]) < p.head - p.undoSize)
    ensures failed in {None, Some(LookupFailed), Some(ForkUnknown), Some(TooOld)}
    ensures failed == None ==>
              && (reference == Zero || p.IsIncluded(reference) == Some(true) || (fork.Some? && |fork.value| >= 2))
              && g == RangeOf(p, reference, fork)
              && g.low >= 1 && g.nonFork <= p.head && g.high == g.nonFork + |g.history|
              && (g.low > g.high <==> reference == Zero && p.undoSize > p.head)
  {
    var high, nonFork: nat;
    WrappedDifference(p);
    var low := p.LastNonUndoable();
    var history: seq<BlockId> := [];
    if reference != Zero {
      var included := p.IsIncluded(reference);
      if included == None {
        return Range(0, 0, 0, []), Some(LookupFailed);
      }
      if included == Some(true) {
        high := NumFromId(reference);
        nonFork := high;
        if NumFromId(reference) < low {
          low := NumFromId(reference);
        }
      } else {
        if fork == None {
          return Range(0, 0, 0, []), Some(ForkUnknown);
        }
        var ids := fork.value;
        nonFork := NumFromId(ids[|ids| - 1]);
        history := Reversed(ids[..|ids| - 1]);
        high := nonFork + |history|;
        if nonFork < low {
          return Range(0, 0, 0, []), Some(TooOld);
        }
      }
    } else {
      high := p.head;
      nonFork := high;
    }
    if low == 0 {
      low := 1;
    }
    assert RangeOf(p, reference, fork) == Range(low, high, nonFork, history);
    return Range(low, high, nonFork, history), None;
  }

  /**
   `get_blockchain_synopsis`. `fork` is what `get_block_ids_on_fork(reference)` gives, `None` being
   its exception. The empty synopsis answers for an empty chain.
   */
  method GetBlockchainSynopsis(p: Peer, reference: BlockId, fork: Option<seq<BlockId>>, after: nat)
    returns (r: Synopsis)
    requires p.Consistent() && (fork.Some? ==> ForkShape(p, reference, fork.value))
    ensures r == OutOfRange <==> reference == Zero && p.head > 0 && p.undoSize > p.head
    ensures r == LookupFailed <==> reference != Zero && p.IsIncluded(reference) == None
    ensures r == ForkUnknown <==> reference != Zero && p.IsIncluded(reference) == Some(false) && fork == None
    ensures r == TooOld <==> reference != Zero && p.IsIncluded(reference) == Some(false) && fork.Some?
                             && (p.undoSize > p.head
                                 || NumFromId(fork.value[|fork.value| - 1]) < p.head - p.undoSize)
    ensures r.Synopsis? ==>
      if reference == Zero && p.head == 0 then r.ids == []
      else
        && (reference == Zero || p.IsIncluded(reference) == Some(true) || (fork.Some? && |fork.value| >= 2))
        && Lists(p, RangeOf(p, reference, fork), after, r.ids)
    ensures r.Synopsis? && reference == Zero && p.head > 0 ==>
              Summary(p, [], Max(p.head - p.undoSize, 1), p.head, after, r.ids)
    ensures r.Synopsis? && reference != Zero && p.IsIncluded(reference) == Some(true) ==>
              var n := NumFromId(reference);
              Summary(p, [], if p.undoSize > p.head then n else Max(Min(p.head - p.undoSize, n), 1), n, after, r.ids)
    ensures r.Synopsis? && reference != Zero && p.IsIncluded(reference) == Some(false) ==>
              && fork.Some? && p.head <= p.undoSize + NumFromId(fork.value[|fork.value| - 1])
              && Summary(p, fork.value, Max(p.head - p.undoSize, 1), NumFromId(reference), after, r.ids)
  {
    if reference == Zero && p.head == 0 {
      return Synopsis([]);
    }
    var g, failed := FindRange(p, reference, fork);
    if failed.Some? {
      return failed.value;
    }
    r := Summarise(p, g, g.high + after);
    if r.Synopsis? {
      SynopsisOf(p, reference, fork, after, r.ids);
    }
  }

  /**
   One block and two undo states, the second of them that of the pending transactions: the last block
   that cannot be undone comes out as the largest 32-bit number, and the synopsis starts beyond its end.
   */
  method PendingSessionBreaksSynopsis() returns (p: Peer, r: Synopsis)
    ensures p.Consistent() && p.head == 1 && p.undoSize == 2
    ensures p.LastNonUndoable() == WORD - 1 && r == OutOfRange
  {
    p := Peer(1, 2, map[1 := Hash(Zero, 0)], {Hash(Zero, 0)});
    assert NumFromId(Hash(Zero, 0)) == 1;
    r := GetBlockchainSynopsis(p, Zero, None, 0);
  }

  /** The ids at the points from `low` on. */
  function Entries(p: Peer, g: Range, low: nat, trueHigh: nat): seq<Option<BlockId>>
    requires low <= g.high <= trueHigh
    decreases g.high - low
  {
    var next := Next(low, trueHigh);
    [IdAt(p, g.history, g.nonFork, low)] + if next <= g.high then Entries(p, g, next, trueHigh) else []
  }

  lemma {:induction false} EntriesArePoints(p: Peer, g: Range, low: nat, trueHigh: nat, i: nat)
    requires low <= g.high <= trueHigh
    ensures |Entries(p, g, low, trueHigh)| == |Points(low, g.high, trueHigh)|
    ensures var points := Points(low, g.high, trueHigh);
            i < |points| ==> Entries(p, g, low, trueHigh)[i] == IdAt(p, g.history, g.nonFork, points[i])
    decreases g.high - low
  {
    var next := Next(low, trueHigh);
    if next <= g.high {
      EntriesArePoints(p, g, next, trueHigh, if i > 0 then i - 1 else 0);
    }
  }

  function AllSome(ids: seq<BlockId>): seq<Option<BlockId>> {
    seq(|ids|, i requires 0 <= i < |ids| => Some(ids[i]))
  }

  lemma {:induction false} AppendSome(ids: seq<BlockId>, id: BlockId, rest: seq<Option<BlockId>>)
    ensures AllSome(ids + [id]) + rest == AllSome(ids) + ([Some(id)] + rest)
  {
  }

  /** The loop of the synopsis: at least one entry, and out of range only when `low` is too high. */
  method Summarise(p: Peer, g: Range, trueHigh: nat) returns (r: Synopsis)
    requires p.Consistent() && g.low >= 1 && g.nonFork <= p.head
    requires g.high == g.nonFork + |g.history| <= trueHigh
    ensures r == OutOfRange <==> g.low > g.high
    ensures g.low <= g.high ==> r.Synopsis? && Lists(p, g, trueHigh - g.high, r.ids)
  {
    var low := g.low;
    var ids: seq<BlockId> := [];
    var more := true;
    while more
      invariant g.low <= low && (more && g.low <= g.high ==> low <= g.high)
      invariant more && g.low > g.high ==> low == g.low
      invariant !more ==> g.low <= g.high
      invariant g.low <= g.high ==>
                  Entries(p, g, g.low, trueHigh) == AllSome(ids) + if more then Entries(p, g, low, trueHigh) else []
      decreases more, g.high - low
    {
      var id;
      if low <= g.nonFork {
        id := p.byNum[low];
      } else {
        if low - g.nonFork - 1 >= |g.history| {
          return OutOfRange;
        }
        id := g.history[low - g.nonFork - 1];
      }
      ghost var next := Next(low, trueHigh);
      AppendSome(ids, id, if next <= g.high then Entries(p, g, next, trueHigh) else []);
      ids := ids + [id];
      low := Next(low, trueHigh);
      more := low <= g.high;
    }
    return Synopsis(ids);
  }

  datatype Reply =
    | Ids(ids: seq<BlockId>, remaining: nat)
    | Unreachable    // nothing in the synopsis is on the chain
    | NotFiled       // a known id has a number under which nothing is filed

  datatype Search = Found(id: BlockId) | Nothing | Failed

  /** The last id of the synopsis that is zero or on the chain, searching from the end. */
  function LastKnown(p: Peer, synopsis: seq<BlockId>): Search {
    if synopsis == [] then Nothing else
      var id := synopsis[|synopsis| - 1];
      if id == Zero then Found(id)
      else if id !in p.known then LastKnown(p, synopsis[..|synopsis| - 1])
      else match p.IsIncluded(id)
        case None => Failed
        case Some(true) => Found(id)
        case Some(false) => LastKnown(p, synopsis[..|synopsis| - 1])
  }

  /** Not zero, and unknown or on a fork. */
  predicate Passed(p: Peer, id: BlockId) {
    id != Zero && (id !in p.known || (NumFromId(id) in p.byNum && p.byNum[NumFromId(id)] != id))
  }

  /** The search stops at entry i: it passes those behind, but not this one. */
  predicate StopsAt(p: Peer, synopsis: seq<BlockId>, i: nat) {
    i < |synopsis| && !Passed(p, synopsis[i]) && forall j | i < j < |synopsis| :: Passed(p, synopsis[j])
  }

  /** The search stops at the last id that it does not pass, and throws if nothing is filed under that one's number. */
  lemma {:induction false} SearchStops(p: Peer, synopsis: seq<BlockId>)
    ensures match LastKnown(p, synopsis)
            case Found(id) =>
              exists i: nat :: StopsAt(p, synopsis, i) && synopsis[i] == id
                          && (id == Zero || (id in p.known && NumFromId(id) in p.byNum && p.byNum[NumFromId(id)] == id))
            case Failed =>
              exists i: nat :: StopsAt(p, synopsis, i)
                          && synopsis[i] in p.known && NumFromId(synopsis[i]) !in p.byNum
            case Nothing => forall i | 0 <= i < |synopsis| :: Passed(p, synopsis[i])
    decreases |synopsis|
  {
    if synopsis != [] {
      var n := |synopsis| - 1;
      var before := synopsis[..n];
      if Passed(p, synopsis[n]) {
        SearchStops(p, before);
        forall i: nat | StopsAt(p, before, i)
          ensures StopsAt(p, synopsis, i) && synopsis[i] == before[i]
        {
        }
      } else {
        assert StopsAt(p, synopsis, n);
      }
    }
  }

  predicate PeerHasNothing(synopsis: seq<BlockId>) {
    synopsis == [] || synopsis == [Zero]
  }

  /** The ids of blocks `from` to `to` of the chain. */
  function Slice(p: Peer, from: nat, to: nat): seq<BlockId>
    requires forall n: nat | from <= n <= to :: n in p.byNum
  {
    if from > to then [] else seq(to - from + 1, i requires 0 <= i <= to - from => p.byNum[from + i])
  }

  /** The reply holds consecutive ids from `start` on, as far as the limit allows, and says how many follow. */
  ghost predicate AnswersFrom(p: Peer, start: nat, limit: nat, r: Reply) {
    && r.Ids? && 1 <= start <= p.head && |r.ids| == Min(limit, p.head - start + 1)
    && (forall i | 0 <= i < |r.ids| :: start + i in p.byNum && r.ids[i] == p.byNum[start + i])
    && (r.ids != [] ==> start + |r.ids| - 1 + r.remaining == p.head)
  }

  lemma {:induction false} SliceAnswers(p: Peer, start: nat, limit: nat, to: nat, r: Reply)
    requires p.Consistent() && 1 <= start <= p.head && to == Min(start + limit - 1, p.head)
    requires r.Ids? && r.ids == Slice(p, start, to) && (start <= to ==> r.remaining == p.head - to)
    ensures AnswersFrom(p, start, limit, r)
  {
  }

  /** The second loop of `get_block_ids`: the ids of the main chain from a number on. */
  method CollectIds(p: Peer, from: nat, limit: nat) returns (r: Reply)
    requires p.Consistent() && from <= p.head && p.head > 0
    ensures var start := Max(from, 1);
            var end: int := Min(start + limit - 1, p.head);
            && start <= p.head
            && r == Ids(Slice(p, start, end), if start <= end then p.head - end else 0)
            && AnswersFrom(p, start, limit, r)
  {
    var ids: seq<BlockId> := [];
    ghost var start := Max(from, 1);
    var num := from;
    while num <= p.head && |ids| < limit
      invariant from <= num <= p.head + 1 && |ids| <= limit
      invariant num >= start ==> ids == Slice(p, start, num - 1) && num == start + |ids|
      invariant num < start ==> ids == [] && num == 0
      decreases p.head + 1 - num
    {
      if num > 0 {
        ids := ids + [p.byNum[num]];
      }
      num := num + 1;
    }
    var remaining := 0;
    if ids != [] && NumFromId(ids[|ids| - 1]) < p.head {
      remaining := p.head - NumFromId(ids[|ids| - 1]);
    }
    r := Ids(ids, remaining);
    SliceAnswers(p, start, limit, Min(start + limit - 1, p.head), r);
  }

  /** `get_block_ids`. */
  method GetBlockIds(p: Peer, synopsis: seq<BlockId>, limit: nat) returns (r: Reply)
    requires p.Consistent()
    ensures p.head == 0 ==> r == Ids([], 0)
    ensures p.head > 0 ==>
      var search := if PeerHasNothing(synopsis) then Found(Zero) else LastKnown(p, synopsis);
      match search
      case Nothing => r == Unreachable
      case Failed => r == NotFiled
      case Found(id) =>
        var start := Max(NumFromId(id), 1);
        var end: int := Min(start + limit - 1, p.head);
        && start <= p.head
        && r == Ids(Slice(p, start, end), if start <= end then p.head - end else 0)
        && AnswersFrom(p, start, limit, r)
  {
    if p.head == 0 {
      return Ids([], 0);
    }
    var lastKnown := Zero;
    if !PeerHasNothing(synopsis) {
      var i := |synopsis|;
      var found := false;
      assert synopsis[..i] == synopsis;
      while i > 0 && !found
        invariant 0 <= i <= |synopsis|
        invariant LastKnown(p, synopsis) == if found then Found(lastKnown) else LastKnown(p, synopsis[..i])
        invariant found ==> lastKnown == Zero || NumFromId(lastKnown) in p.byNum
        decreases i, !found
      {
        var id := synopsis[i - 1];
        assert synopsis[..i][..i - 1] == synopsis[..i - 1];
        if id == Zero {
          lastKnown, found := id, true;
        } else if id in p.known {
          var included := p.IsIncluded(id);
          if included == None {
            return NotFiled;
          }
          if included == Some(true) {
            lastKnown, found := id, true;
          }
        }
        i := if found then i else i - 1;
      }
      if !found {
        return Unreachable;
      }
    }
    r := CollectIds(p, NumFromId(lastKnown), limit);
  }

  /** The id found at a number carries that number, on the fork as on the main chain. */
  lemma {:induction false} IdAtNumber(p: Peer, reference: BlockId, ids: seq<BlockId>, n: nat, id: BlockId)
    requires p.Consistent() && ForkShape(p, reference, ids)
    requires IdAt(p, Reversed(ids[..|ids| - 1]), NumFromId(ids[|ids| - 1]), n) == Some(id)
    ensures NumFromId(id) == n
  {
    var nonFork := NumFromId(ids[|ids| - 1]);
    if n > nonFork {
      assert id == ids[|ids| - 1 - (n - nonFork)];
    }
  }

  lemma {:induction false} RangeNumber(p: Peer, reference: BlockId, fork: Option<seq<BlockId>>, n: nat, id: BlockId)
    requires p.Consistent() && (fork.Some? ==> ForkShape(p, reference, fork.value))
    requires reference == Zero || p.IsIncluded(reference) == Some(true) || fork.Some?
    requires var g := RangeOf(p, reference, fork); IdAt(p, g.history, g.nonFork, n) == Some(id)
    ensures NumFromId(id) == n
  {
    if reference != Zero && p.IsIncluded(reference) != Some(true) {
      IdAtNumber(p, reference, fork.value, n, id);
    }
  }

  lemma {:induction false} EntryAt(p: Peer, g: Range, trueHigh: nat, ids: seq<BlockId>, points: seq<nat>, i: nat)
    requires g.low <= g.high <= trueHigh && points == Points(g.low, g.high, trueHigh)
    requires AllSome(ids) == Entries(p, g, g.low, trueHigh)
    ensures |ids| == |points| && (i < |ids| ==> IdAt(p, g.history, g.nonFork, points[i]) == Some(ids[i]))
  {
    var entries := Entries(p, g, g.low, trueHigh);
    assert |entries| == |points| && (i < |points| ==> entries[i] == IdAt(p, g.history, g.nonFork, points[i])) by {
      EntriesArePoints(p, g, g.low, trueHigh, i);
    }
    SomeAt(ids, entries, i);
  }

  lemma {:induction false} SomeAt(ids: seq<BlockId>, entries: seq<Option<BlockId>>, i: nat)
    requires AllSome(ids) == entries
    ensures |ids| == |entries| && (i < |ids| ==> entries[i] == Some(ids[i]))
  {
  }

  /** Every id of a synopsis carries the number of its point, on the main chain and on the fork. */
  lemma {:induction false} SynopsisNumbers(p: Peer, reference: BlockId, fork: Option<seq<BlockId>>, after: nat,
                                           ids: seq<BlockId>, i: nat)
    requires p.Consistent() && (fork.Some? ==> ForkShape(p, reference, fork.value))
    requires reference == Zero || p.IsIncluded(reference) == Some(true) || fork.Some?
    requires var g := RangeOf(p, reference, fork);
             g.low <= g.high && AllSome(ids) == Entries(p, g, g.low, g.high + after)
    requires i < |ids|
    ensures var g := RangeOf(p, reference, fork);
            |ids| == |Points(g.low, g.high, g.high + after)|
              && NumFromId(ids[i]) == Points(g.low, g.high, g.high + after)[i]
  {
    var g := RangeOf(p, reference, fork);
    var points := Points(g.low, g.high, g.high + after);
    EntryAt(p, g, g.high + after, ids, points, i);
    RangeNumber(p, reference, fork, points[i], ids[i]);
  }

  /** The two chains agree on blocks 1 to f and on no block above. */
  ghost predicate ShareUpTo(a: Peer, b: Peer, f: nat)
    requires a.Consistent() && b.Consistent()
  {
    && f <= a.head && f <= b.head
    && forall n: nat | 1 <= n <= a.head && n <= b.head :: a.byNum[n] == b.byNum[n] <==> n <= f
  }

  /** How many leading points lie at or below f. */
  function CountUpTo(points: seq<nat>, f: nat): (r: nat)
    ensures r <= |points|
  {
    if points == [] || points[0] > f then 0 else 1 + CountUpTo(points[1..], f)
  }

  lemma {:induction false} CountSplits(points: seq<nat>, f: nat, i: nat)
    requires i < |points| && forall j, k | 0 <= j < k < |points| :: points[j] < points[k]
    ensures points[i] <= f <==> i < CountUpTo(points, f)
  {
    if i > 0 {
      assert forall j, k | 0 <= j < k < |points[1..]| :: points[1..][j] == points[j + 1] < points[1..][k]
             == points[k + 1];
      if points[0] <= f {
        CountSplits(points[1..], f, i - 1);
      }
    }
  }

  /** Some id is known to the responder, on a fork, but has a number above its head. */
  ghost predicate BeyondHead(b: Peer, ids: seq<BlockId>) {
    exists i :: 0 <= i < |ids| && ids[i] in b.known && NumFromId(ids[i]) > b.head
  }

  /** What the search gives: an exception if it meets an id beyond the head, and else the c-th id from the start. */
  function SearchResult(beyond: bool, ids: seq<BlockId>, c: nat): Search
    requires c <= |ids|
  {
    if beyond then Failed else if c == 0 then Nothing else Found(ids[c - 1])
  }

  /**
   The responder's search stops at the highest synopsis id at or below the meeting block, unless it
   knows an id above its own head: that one comes first, and nothing is filed under its number.
   */
  lemma {:induction false} SearchFindsHighestShared(a: Peer, b: Peer, f: nat, points: seq<nat>, ids: seq<BlockId>,
                                                    c: nat)
    requires a.Consistent() && b.Consistent() && ShareUpTo(a, b, f)
    requires |ids| == |points| && c <= |points|
    requires forall i | 0 <= i < |points| :: 1 <= points[i] <= a.head && ids[i] == a.byNum[points[i]]
    requires forall i | 0 <= i < |points| :: points[i] <= f <==> i < c
    ensures LastKnown(b, ids) == SearchResult(BeyondHead(b, ids), ids, c)
    decreases |ids|
  {
    if ids != [] {
      var n := |ids| - 1;
      assert ids[n] == a.byNum[points[n]] && NumFromId(ids[n]) == points[n];
      if n >= c {
        SearchFindsHighestShared(a, b, f, points[..n], ids[..n], c);
        BeyondHeadSplits(b, ids);
      } else {
        assert points[n] <= f && ids[n] == b.byNum[points[n]] && ids[n] in b.known;
        forall i | 0 <= i < |ids|
          ensures NumFromId(ids[i]) <= b.head
        {
          assert NumFromId(ids[i]) == points[i] <= f;
        }
      }
    }
  }

  lemma {:induction false} BeyondHeadSplits(b: Peer, ids: seq<BlockId>)
    requires ids != []
    ensures var n := |ids| - 1;
            BeyondHead(b, ids) <==> (ids[n] in b.known && NumFromId(ids[n]) > b.head) || BeyondHead(b, ids[..n])
  {
    var n := |ids| - 1;
    if BeyondHead(b, ids[..n]) {
      var i :| 0 <= i < n && ids[..n][i] in b.known && NumFromId(ids[..n][i]) > b.head;
      assert ids[i] in b.known && NumFromId(ids[i]) > b.head;
    }
    if BeyondHead(b, ids) {
      var i :| 0 <= i < |ids| && ids[i] in b.known && NumFromId(ids[i]) > b.head;
      assert i < n ==> ids[..n][i] == ids[i];
    }
  }

  /**
   The handshake: a asks with the synopsis of its whole chain, which shares exactly blocks 1 to f
   with b's. If a's undoable range begins at or below f, b answers with a contiguous slice of its
   own chain from the highest synopsis block at or below f, as long as the limit allows, and with
   the right remaining count; else it finds nothing to start from. At most as many blocks that
   a has already are sent again as a has blocks above f. The one exception is an id that b knows on
   a fork above its own head: then b throws.
   */
  lemma {:induction false} Handshake(a: Peer, b: Peer, f: nat, ids: seq<BlockId>)
    requires a.Consistent() && b.Consistent() && ShareUpTo(a, b, f)
    requires a.head > 0 && a.undoSize <= a.head
    requires AllSome(ids) == Entries(a, RangeOf(a, Zero, None), Max(a.head - a.undoSize, 1), a.head)
    ensures var low := Max(a.head - a.undoSize, 1);
            var points := Points(low, a.head, a.head);
            var c := CountUpTo(points, f);
            && !PeerHasNothing(ids)
            && (low <= f <==> c > 0)
            && (BeyondHead(b, ids) <==> LastKnown(b, ids) == Failed)
            && (c == 0 && !BeyondHead(b, ids) ==> LastKnown(b, ids) == Nothing)
            && (c > 0 ==>
                  var start := points[c - 1];
                  && low <= start <= f
                  && (!BeyondHead(b, ids) ==> LastKnown(b, ids) == Found(b.byNum[start]))
                  && (forall i | 0 <= i < |points| && points[i] <= f :: points[i] <= start)
                  && f - start <= a.head - f)
  {
    var low := Max(a.head - a.undoSize, 1);
    var points := Points(low, a.head, a.head);
    var c := CountUpTo(points, f);
    WholeChainSynopsis(a, low, ids);
    SynopsisAnswered(a, b, f, points, ids);
    FewRepeats(low, a.head, f, points, c);
  }

  /** Between two points lies at most half of what is left. */
  lemma {:induction false} FewRepeats(low: nat, head: nat, f: nat, points: seq<nat>, c: nat)
    requires low <= head && f <= head && points == Points(low, head, head) && c <= |points|
    requires c < |points| ==> points[c] > f
    ensures c > 0 ==> f - points[c - 1] <= head - f
  {
    if c > 0 {
      PointsHalve(low, head, head, c - 1);
    }
  }

  /** Ids at increasing points of a's chain, answered by b: the highest shared point is found. */
  lemma {:induction false} SynopsisAnswered(a: Peer, b: Peer, f: nat, points: seq<nat>, ids: seq<BlockId>)
    requires a.Consistent() && b.Consistent() && ShareUpTo(a, b, f) && points != [] && |ids| == |points|
    requires forall i | 0 <= i < |points| :: 1 <= points[i] <= a.head && ids[i] == a.byNum[points[i]]
    requires forall j, k | 0 <= j < k < |points| :: points[j] < points[k]
    ensures var c := CountUpTo(points, f);
            && !PeerHasNothing(ids)
            && (points[0] <= f <==> c > 0)
            && (BeyondHead(b, ids) <==> LastKnown(b, ids) == Failed)
            && (c == 0 && !BeyondHead(b, ids) ==> LastKnown(b, ids) == Nothing)
            && (c > 0 ==>
                  var start := points[c - 1];
                  && points[0] <= start <= f
                  && (!BeyondHead(b, ids) ==> LastKnown(b, ids) == Found(b.byNum[start]))
                  && (forall i | 0 <= i < |points| && points[i] <= f :: points[i] <= start)
                  && (c < |points| ==> points[c] > f))
  {
    var c := CountUpTo(points, f);
    assert ids[0] == a.byNum[points[0]] && NumFromId(ids[0]) == points[0];
    forall i | 0 <= i < |points|
      ensures points[i] <= f <==> i < c
    {
      CountSplits(points, f, i);
    }
    SearchFindsHighestShared(a, b, f, points, ids, c);
    assert c > 0 ==> points[c - 1] <= f;
  }

  /** The synopsis of a whole chain holds the ids at its points, from the lowest up. */
  lemma {:induction false} WholeChainSynopsis(a: Peer, low: nat, ids: seq<BlockId>)
    requires a.Consistent() && a.head > 0 && a.undoSize <= a.head && low == Max(a.head - a.undoSize, 1)
    requires AllSome(ids) == Entries(a, RangeOf(a, Zero, None), low, a.head)
    ensures var points := Points(low, a.head, a.head);
            && |ids| == |points|
            && (forall i | 0 <= i < |points| :: 1 <= points[i] <= a.head && ids[i] == a.byNum[points[i]])
            && (forall j, k | 0 <= j < k < |points| :: points[j] < points[k])
  {
    var g := RangeOf(a, Zero, None);
    assert g == Range(low, a.head, a.head, []);
    var points := Points(low, a.head, a.head);
    EntryAt(a, g, a.head, ids, points, 0);
    forall i | 0 <= i < |points|
      ensures 1 <= points[i] <= a.head && ids[i] == a.byNum[points[i]]
    {
      EntryAt(a, g, a.head, ids, points, i);
      PointsHalve(low, a.head, a.head, i);
    }
    forall j, k | 0 <= j < k < |points|
      ensures points[j] < points[k]
    {
      PointsIncrease(low, a.head, a.head, j, k);
    }
  }
}
