/** Slots and the witness schedule (libraries/chain/db_witness_schedule.cpp, db_update.cpp). */
module Slots {
  import opened Arithmetic

  /** The chain parameters that slots depend on. */
  datatype Params = Params(interval: nat, maintenanceSkip: nat)

  /** The dynamic properties that slots depend on; times count seconds. */
  datatype Clock = Clock(headNum: nat, time: nat, maintenance: bool, aslot: nat)

  ghost predicate ValidParams(p: Params) {
    p.interval > 0
  }

  function Skip(p: Params, c: Clock): nat {
    if c.maintenance then p.maintenanceSkip else 0
  }

  /** `get_slot_time`. */
  function SlotTime(p: Params, c: Clock, slot: nat): nat
    requires ValidParams(p)
  {
    if slot == 0 then 0
    else if c.headNum == 0 then c.time + slot * p.interval
    else c.time / p.interval * p.interval + (slot + Skip(p, c)) * p.interval
  }

  /** `get_slot_at_time`. */
  function SlotAt(p: Params, c: Clock, when: nat): nat
    requires ValidParams(p)
  {
    var first := SlotTime(p, c, 1);
    if when < first then 0 else (when - first) / p.interval + 1
  }

  lemma {:induction false} SlotTimeSteps(p: Params, c: Clock, slot: nat)
    requires ValidParams(p) && slot > 0
    ensures SlotTime(p, c, slot) == SlotTime(p, c, 1) + (slot - 1) * p.interval
  {
    Distribute(slot, 1, p.interval);
    Distribute(slot, Skip(p, c), p.interval);
    Distribute(1, Skip(p, c), p.interval);
  }

  /** `get_slot_at_time` inverts `get_slot_time`. */
  lemma {:induction false} SlotAtInvertsSlotTime(p: Params, c: Clock, slot: nat)
    requires ValidParams(p) && slot > 0
    ensures SlotAt(p, c, SlotTime(p, c, slot)) == slot
  {
    SlotTimeSteps(p, c, slot);
    DivUnique((slot - 1) * p.interval, slot - 1, p.interval);
  }

  /** Every time from the first slot on lies in exactly the slot that `get_slot_at_time` names. */
  lemma {:induction false} SlotAtBrackets(p: Params, c: Clock, when: nat, slot: nat)
    requires ValidParams(p) && slot > 0
    ensures SlotAt(p, c, when) == slot <==> SlotTime(p, c, slot) <= when < SlotTime(p, c, slot + 1)
    ensures SlotAt(p, c, when) == 0 <==> when < SlotTime(p, c, 1)
  {
    var first, d := SlotTime(p, c, 1), p.interval;
    SlotTimeSteps(p, c, slot);
    SlotTimeSteps(p, c, slot + 1);
    Distribute(slot, 1, d);
    if when >= first {
      DivBounds(when - first, d);
      if SlotTime(p, c, slot) <= when < SlotTime(p, c, slot + 1) {
        DivUnique(when - first, slot - 1, d);
      }
    } else {
      MulLe(0, slot - 1, d);
    }
  }

  /** The clock after a block: `update_global_dynamic_data`, then `update_maintenance_flag`. */
  function Tick(p: Params, c: Clock, when: nat, maintenance: bool): Clock
    requires ValidParams(p)
  {
    Clock(c.headNum + 1, when, maintenance, c.aslot + SlotAt(p, c, when))
  }

  /** On a chain with a head, the slot of a block counts aligned intervals since the head. */
  lemma {:induction false} SlotCountsIntervals(p: Params, c: Clock, when: nat)
    requires ValidParams(p) && c.headNum > 0 && SlotAt(p, c, when) > 0
    ensures SlotAt(p, c, when) == when / p.interval - c.time / p.interval - Skip(p, c)
  {
    var d := p.interval;
    var base, q := c.time / d + 1 + Skip(p, c), when / d;
    Distribute(c.time / d, 1 + Skip(p, c), d);
    assert SlotTime(p, c, 1) == base * d;
    DivBounds(when, d);
    Distribute(q, base, d);
    DivUnique(when - base * d, q - base, d);
  }

  /** The first block counts from genesis, one interval less if it falls early in its interval. */
  lemma {:induction false} FirstSlotCountsIntervals(p: Params, c: Clock, when: nat)
    requires ValidParams(p) && c.headNum == 0 && SlotAt(p, c, when) > 0
    ensures SlotAt(p, c, when) == when / p.interval - c.time / p.interval - Early(p, c.time, when)
  {
    IntervalsBetween(when, c.time, p.interval, Early(p, c.time, when));
  }

  lemma {:induction false} IntervalsBetween(when: nat, g: nat, d: nat, early: nat)
    requires d > 0 && early == if when % d < g % d then 1 else 0
    ensures (when - g - d) / d == when / d - g / d - early - 1
  {
    var x, y := when / d, g / d;
    assert when == x * d + when % d && g == y * d + g % d;
    Distribute(x - y, early + 1, d);
    Distribute(x, y, d);
    Distribute(early, 1, d);
    assert early * d == if early == 1 then d else 0;
    DivUnique(when - g - d, x - y - early - 1, d);
  }

  function Early(p: Params, genesis: nat, first: nat): nat
    requires ValidParams(p)
  {
    if first % p.interval < genesis % p.interval then 1 else 0
  }

  datatype BlockTime = BlockTime(when: nat, maintenance: bool)

  /** The clock after a run of blocks from genesis. */
  function After(p: Params, genesis: nat, blocks: seq<BlockTime>): Clock
    requires ValidParams(p)
  {
    if blocks == [] then Clock(0, genesis, false, 0)
    else
      var b := blocks[|blocks| - 1];
      Tick(p, After(p, genesis, blocks[..|blocks| - 1]), b.when, b.maintenance)
  }

  /** Every block of the run is accepted: it comes after its predecessor, in a slot. */
  predicate Accepted(p: Params, genesis: nat, blocks: seq<BlockTime>)
    requires ValidParams(p)
  {
    blocks == [] ||
      var before := blocks[..|blocks| - 1];
      && Accepted(p, genesis, before)
      && After(p, genesis, before).time < blocks[|blocks| - 1].when
      && SlotAt(p, After(p, genesis, before), blocks[|blocks| - 1].when) > 0
  }

  /** How many blocks of the run are built on a maintenance block. */
  function OnMaintenance(blocks: seq<BlockTime>): nat {
    if |blocks| < 2 then 0
    else OnMaintenance(blocks[..|blocks| - 1]) + if blocks[|blocks| - 2].maintenance then 1 else 0
  }

  /**
   Slot accounting: after any run the absolute slot is the number of intervals between genesis
   and the head, less the slots skipped after each maintenance block that was built on.
   */
  lemma {:induction false} SlotAccounting(p: Params, genesis: nat, blocks: seq<BlockTime>)
    requires ValidParams(p) && blocks != [] && Accepted(p, genesis, blocks)
    ensures var c := After(p, genesis, blocks);
            c.aslot == c.time / p.interval - genesis / p.interval
                       - OnMaintenance(blocks) * p.maintenanceSkip - Early(p, genesis, blocks[0].when)
    decreases |blocks|
  {
    var n := |blocks| - 1;
    var before := blocks[..n];
    var c := After(p, genesis, before);
    if n == 0 {
      FirstSlotCountsIntervals(p, c, blocks[0].when);
    } else {
      SlotAccounting(p, genesis, before);
      assert c.maintenance == blocks[n - 1].maintenance && c.headNum > 0;
      SlotCountsIntervals(p, c, blocks[n].when);
      assert before[n - 1] == blocks[n - 1] && before[0] == blocks[0];
      Distribute(OnMaintenance(before), OnMaintenance(blocks) - OnMaintenance(before), p.maintenanceSkip);
    }
  }

  /** From an aligned genesis the count is exact. */
  lemma {:induction false} AlignedSlotAccounting(p: Params, genesis: nat, blocks: seq<BlockTime>)
    requires ValidParams(p) && blocks != [] && Accepted(p, genesis, blocks) && genesis % p.interval == 0
    ensures var c := After(p, genesis, blocks);
            c.aslot == (c.time / p.interval * p.interval - genesis) / p.interval
              - OnMaintenance(blocks) * p.maintenanceSkip
  {
    SlotAccounting(p, genesis, blocks);
    AlignedDifference(After(p, genesis, blocks).time / p.interval, genesis, p.interval);
  }

  lemma {:induction false} AlignedDifference(x: nat, genesis: nat, d: nat)
    requires d > 0 && genesis % d == 0
    ensures (x * d - genesis) / d == x - genesis / d
  {
    var y := genesis / d;
    assert genesis == y * d;
    Distribute(x, y, d);
    DivUnique(x * d - genesis, x - y, d);
  }

  /** No two blocks of a run share a slot: the absolute slot grows with every block. */
  lemma {:induction false} SlotsNeverRepeat(p: Params, genesis: nat, blocks: seq<BlockTime>, i: nat)
    requires ValidParams(p) && Accepted(p, genesis, blocks) && i < |blocks|
    ensures After(p, genesis, blocks[..i]).aslot < After(p, genesis, blocks).aslot
    decreases |blocks|
  {
    var n := |blocks| - 1;
    if i < n {
      SlotsNeverRepeat(p, genesis, blocks[..n], i);
      assert blocks[..n][..i] == blocks[..i];
    }
  }

  /**
   Right after a block its own time is in no slot, so `update_signing_witness`, which adds the
   slot of the block's time once more, records the absolute slot of the block itself.
   */
  lemma {:induction false} OwnTimeIsBeforeFirstSlot(p: Params, c: Clock)
    requires ValidParams(p) && c.headNum > 0
    ensures SlotAt(p, c, c.time) == 0
  {
    DivBounds(c.time, p.interval);
    MulLe(0, Skip(p, c), p.interval);
    Distribute(1, Skip(p, c), p.interval);
  }
}

/** The shuffled schedule and what it is worth to each witness. */
module Schedule {
  import opened Arithmetic
  import opened XorShift

  /** The draw for a position: the generator is seeded by the head time and the position. */
  function Draw(time: nat, i: nat): nat {
    Step(Seed(time, i))
  }

  function Seed(time: nat, i: nat): (k: nat)
    ensures k < WORD64
  {
    (time * HALF_WORD + i * MULTIPLIER) % WORD64
  }

  lemma {:induction false} SeedsDiffer(time: nat, i: nat, time': nat, j: nat)
    requires time < HALF_WORD && time' < HALF_WORD && i < HALF_WORD && j < HALF_WORD
    requires Seed(time, i) == Seed(time', j) && (time == time' || i == j)
    ensures time == time' && i == j
  {
    if time == time' {
      SameSeed(time * HALF_WORD, i, j);
    } else {
      SameTime(time, time', i * MULTIPLIER);
    }
  }

  /** No two positions of a round draw the same number, nor does a position in rounds of different times. */
  lemma {:induction false} DrawsDiffer(time: nat, i: nat, time': nat, j: nat)
    requires time < HALF_WORD && time' < HALF_WORD && i < HALF_WORD && j < HALF_WORD
    requires if time == time' then i != j else i == j
    ensures Draw(time, i) != Draw(time', j)
  {
    if Draw(time, i) == Draw(time', j) {
      StepIsInjective(Seed(time, i), Seed(time', j));
      SeedsDiffer(time, i, time', j);
    }
  }

  /** Where position i is swapped to, in a schedule of n. */
  function Target(time: nat, i: nat, n: nat): (j: nat)
    requires i < n
    ensures i <= j < n
  {
    i + Draw(time, i) % (n - i)
  }

  /** Where the generator sends the positions of a schedule of n, drawing anew for each. */
  function Targets(time: nat, n: nat): (r: seq<nat>)
    ensures |r| == n && CanShuffle(r)
  {
    seq(n, i requires 0 <= i < n => Target(time, i, n))
  }

  /** No position is swapped with one before it, nor with one beyond the end. */
  predicate CanShuffle(targets: seq<nat>) {
    forall i | 0 <= i < |targets| :: i <= targets[i] < |targets|
  }

  function Swapped<T>(s: seq<T>, i: nat, j: nat): (r: seq<T>)
    requires i < |s| && j < |s|
    ensures |r| == |s|
  {
    s[i := s[j]][j := s[i]]
  }

  /** The swaps from position i on. */
  function ShuffleFrom<T>(s: seq<T>, targets: seq<nat>, i: nat): (r: seq<T>)
    requires |targets| == |s| && CanShuffle(targets) && i <= |s|
    ensures |r| == |s|
    decreases |s| - i
  {
    if i == |s| then s else ShuffleFrom(Swapped(s, i, targets[i]), targets, i + 1)
  }

  lemma {:induction false} SwapKeeps<T>(s: seq<T>, i: nat, j: nat)
    requires i <= j < |s|
    ensures multiset(Swapped(s, i, j)) == multiset(s) && Swapped(s, i, j)[..i] == s[..i] && Swapped(s, i, j)[i] == s[j]
  {
  }

  /** What a position has got is settled: later swaps leave it alone, and nobody is lost. */
  lemma {:induction false} ShuffleSettles<T>(s: seq<T>, targets: seq<nat>, i: nat)
    requires |targets| == |s| && CanShuffle(targets) && i <= |s|
    ensures var t := ShuffleFrom(s, targets, i);
            && t[..i] == s[..i] && multiset(t) == multiset(s)
            && (i < |s| ==> t[i] == s[targets[i]])
    decreases |s| - i
  {
    if i < |s| {
      var next := Swapped(s, i, targets[i]);
      SwapKeeps(s, i, targets[i]);
      ShuffleSettles(next, targets, i + 1);
      assert next[..i + 1][..i] == next[..i] && next[..i + 1][i] == next[i];
      assert ShuffleFrom(s, targets, i)[..i + 1][..i] == ShuffleFrom(s, targets, i)[..i];
      assert ShuffleFrom(s, targets, i)[..i + 1][i] == ShuffleFrom(s, targets, i)[i];
    }
  }

  /** Every order of the witnesses is the result of some targets. */
  lemma {:induction false} EveryOrderIsReached<T>(s: seq<T>, t: seq<T>, i: nat, targets: seq<nat>)
    returns (r: seq<nat>)
    requires multiset(s) == multiset(t) && |t| == |s| && i <= |s| && s[..i] == t[..i]
    requires |targets| == |s| && CanShuffle(targets)
    ensures |r| == |s| && CanShuffle(r) && r[..i] == targets[..i] && ShuffleFrom(s, r, i) == t
    decreases |s| - i
  {
    r := targets;
    if i < |s| {
      var j := FindFrom(s, t, i);
      SwapKeeps(s, i, j);
      var next := Swapped(s, i, j);
      assert next[..i + 1] == next[..i] + [next[i]] && t[..i + 1] == t[..i] + [t[i]];
      r := EveryOrderIsReached(next, t, i + 1, targets[i := j]);
      assert r[i] == r[..i + 1][i] == targets[i := j][..i + 1][i] == j;
      assert r[..i] == r[..i + 1][..i] && targets[..i] == targets[i := j][..i + 1][..i];
    } else {
      assert s[..i] == s && t[..i] == t;
    }
  }

  lemma {:induction false} FindFrom<T>(s: seq<T>, t: seq<T>, i: nat) returns (j: nat)
    requires multiset(s) == multiset(t) && |t| == |s| && i < |s| && s[..i] == t[..i]
    ensures i <= j < |s| && s[j] == t[i]
  {
    assert s == s[..i] + s[i..] && t == t[..i] + t[i..];
    assert multiset(s) == multiset(s[..i]) + multiset(s[i..]);
    assert multiset(t) == multiset(t[..i]) + multiset(t[i..]);
    assert multiset(s[i..]) == multiset(s) - multiset(s[..i]);
    assert multiset(t[i..]) == multiset(t) - multiset(t[..i]);
    assert t[i..][0] == t[i] && t[i] in multiset(t[i..]);
    assert t[i] in multiset(s[i..]);
    var m :| 0 <= m < |s[i..]| && s[i..][m] == t[i];
    j := i + m;
  }

  /** And of no others: different targets give different orders, so that even draws are fair. */
  lemma {:induction false} TargetsAreUnique<T>(s: seq<T>, a: seq<nat>, b: seq<nat>, i: nat)
    requires Distinct(s) && |a| == |b| == |s| && CanShuffle(a) && CanShuffle(b) && i <= |s|
    requires ShuffleFrom(s, a, i) == ShuffleFrom(s, b, i)
    ensures forall k | i <= k < |s| :: a[k] == b[k]
    decreases |s| - i
  {
    if i < |s| {
      ShuffleSettles(s, a, i);
      ShuffleSettles(s, b, i);
      assert s[a[i]] == s[b[i]];
      assert a[i] == b[i];
      TargetsAreUnique(Swapped(s, i, a[i]), a, b, i + 1);
    }
  }

  ghost predicate Distinct<T>(s: seq<T>) {
    forall i, j | 0 <= i < j < |s| :: s[i] != s[j]
  }

  class WitnessSchedule {
    var shuffled: array<nat>

    constructor ()
      ensures fresh(shuffled) && shuffled.Length == 0
    {
      shuffled := new nat[0];
    }

    /**
     `update_witness_schedule`: once per round the active witnesses are copied and shuffled in
     place. Whatever the generator draws, the schedule is a permutation of the active set.
     */
    method Update(active: seq<nat>, headNum: nat, time: nat)
      requires 0 < |active|
      modifies this, shuffled
      ensures headNum % |active| != 0 ==> shuffled == old(shuffled) && shuffled[..] == old(shuffled[..])
      ensures headNum % |active| == 0 ==> fresh(shuffled) && multiset(shuffled[..]) == multiset(active)
      ensures headNum % |active| == 0 ==> shuffled[..] == ShuffleFrom(active, Targets(time, |active|), 0)
    {
      if headNum % |active| == 0 {
        var n := |active|;
        shuffled := new nat[n](k requires 0 <= k < n => active[k]);
        assert shuffled[..] == active;
        ghost var targets := Targets(time, n);
        ShuffleSettles(active, targets, 0);
        for i := 0 to n
          invariant fresh(shuffled) && shuffled.Length == n
          invariant ShuffleFrom(shuffled[..], targets, i) == ShuffleFrom(active, targets, 0)
        {
          var j := Target(time, i, n);
          assert Swapped(shuffled[..], i, j) == shuffled[..][i := shuffled[j]][j := shuffled[i]];
          shuffled[i], shuffled[j] := shuffled[j], shuffled[i];
        }
      }
    }

    /** `get_scheduled_witness`. */
    function Scheduled(aslot: nat, slot: nat): nat
      requires shuffled.Length > 0
      reads this, shuffled
    {
      shuffled[(aslot + slot) % shuffled.Length]
    }

    /** The schedule moves on with the absolute slot: the slot after the next is the next once a slot has passed. */
    lemma {:induction false} ScheduleMovesOn(aslot: nat, slot: nat, passed: nat)
      requires shuffled.Length > 0
      ensures Scheduled(aslot, slot + passed) == Scheduled(aslot + passed, slot)
      ensures slot < shuffled.Length ==> Scheduled(0, slot) == shuffled[slot]
    {
    }

    /** Under one schedule, any n consecutive slots schedule each of the n witnesses exactly once. */
    lemma {:induction false} EveryWindowIsFair(aslot: nat, from: nat, w: nat) returns (slot: nat)
      requires Distinct(shuffled[..]) && w in shuffled[..]
      ensures InWindow(slot, from, shuffled.Length) && Scheduled(aslot, slot) == w
      ensures forall other: nat | InWindow(other, from, shuffled.Length)
              && other != slot :: Scheduled(aslot, other) != w
    {
      var i :| 0 <= i < shuffled.Length && shuffled[i] == w;
      slot := EachOnce(shuffled[..], aslot, from, i);
    }
  }

  lemma {:induction false} MultisetKeepsDistinct(s: seq<nat>, t: seq<nat>)
    requires Distinct(s) && multiset(s) == multiset(t)
    ensures Distinct(t)
  {
    forall i, j | 0 <= i < j < |t|
      ensures t[i] != t[j]
    {
      if t[i] == t[j] {
        TwiceInMultiset(t, i, j);
        OnceInMultiset(s, t[i]);
      }
    }
  }

  lemma {:induction false} TwiceInMultiset(t: seq<nat>, i: nat, j: nat)
    requires i < j < |t| && t[i] == t[j]
    ensures multiset(t)[t[i]] >= 2
  {
    assert t == t[..j] + [t[j]] + t[j + 1..];
    assert t[i] in t[..j];
  }

  lemma {:induction false} OnceInMultiset(s: seq<nat>, x: nat)
    requires Distinct(s)
    ensures multiset(s)[x] <= 1
  {
    if s != [] {
      var n := |s| - 1;
      assert s == s[..n] + [s[n]];
      OnceInMultiset(s[..n], x);
      if s[n] == x {
        assert x !in s[..n];
      }
    }
  }

  predicate InWindow(k: nat, from: nat, n: nat) {
    from <= k < from + n
  }

  lemma {:induction false} EachOnce(shuffled: seq<nat>, aslot: nat, from: nat, i: nat) returns (slot: nat)
    requires Distinct(shuffled) && i < |shuffled|
    ensures from <= slot < from + |shuffled|
    ensures shuffled[(aslot + slot) % |shuffled|] == shuffled[i]
    ensures forall other: nat | InWindow(other, from, |shuffled|) && other != slot ::
              shuffled[(aslot + other) % |shuffled|] != shuffled[i]
  {
    var n, start := |shuffled|, aslot + from;
    var q, at := start / n, start % n;
    assert start == q * n + at;
    var step := if i >= at then i - at else i + n - at;
    slot := from + step;
    Distribute(q, 1, n);
    DivUnique(start + step, if i >= at then q else q + 1, n);
    forall other: nat | InWindow(other, from, n) && other != slot
      ensures shuffled[(aslot + other) % n] != shuffled[i]
    {
      if other < slot {
        SameRemainder(aslot + other, aslot + slot, n);
      } else {
        SameRemainder(aslot + slot, aslot + other, n);
      }
    }
  }
}
