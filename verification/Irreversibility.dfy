/** The last irreversible block (libraries/chain/db_update.cpp). */
module Irreversibility {
  import opened OrderStatistics

  const PERCENT_100 := 10000
  const THRESHOLD := 7000

  /** How many of n witnesses may lag behind. */
  function Offset(n: nat): (r: nat)
    requires n > 0
    ensures r < n
  {
    (PERCENT_100 - THRESHOLD) * n / PERCENT_100
  }

  /** Those that may not lag are the fewest that make seven tenths of all. */
  lemma {:induction false} SevenTenthsConfirm(n: nat)
    requires n > 0
    ensures var needed := n - Offset(n); 10 * (needed - 1) < 7 * n <= 10 * needed
  {
  }

  /** The last block number each witness has signed; a witness that signed none counts as 0. */
  type Confirmed = map<nat, nat>

  function ConfirmedBy(m: Confirmed, w: nat): nat {
    if w in m then m[w] else 0
  }

  function Lags(m: Confirmed): (nat, nat) -> bool {
    (x: nat, y: nat) => ConfirmedBy(m, x) < ConfirmedBy(m, y)
  }

  /** How many of the active witnesses have confirmed block n, or a block beyond it. */
  function Support(m: Confirmed, active: seq<nat>, n: nat): nat {
    Count(active, w => ConfirmedBy(m, w) >= n)
  }

  /**
   The candidate is the largest number that all but the allowed fraction of the active witnesses
   have confirmed at or beyond.
   */
  ghost predicate IsCandidate(m: Confirmed, active: seq<nat>, n: nat)
    requires active != []
  {
    var needed := |active| - Offset(|active|);
    && Support(m, active, n) >= needed
    && (forall n': nat | n' > n :: Support(m, active, n') < needed)
    && (exists w | w in active :: ConfirmedBy(m, w) == n)
  }

  lemma {:induction false} NthIsCandidate(m: Confirmed, active: seq<nat>, w: nat)
    requires active != [] && IsNth(active, Lags(m), Offset(|active|), w)
    ensures IsCandidate(m, active, ConfirmedBy(m, w))
  {
    var n := ConfirmedBy(m, w);
    CountComplement(active, x => Lags(m)(x, w), x => ConfirmedBy(m, x) >= n);
    forall n': nat | n' > n
      ensures Support(m, active, n') < |active| - Offset(|active|)
    {
      CountComplement(active, x => !Lags(m)(w, x), x => ConfirmedBy(m, x) > n);
      CountWeaker(active, x => ConfirmedBy(m, x) >= n', x => ConfirmedBy(m, x) > n);
    }
  }

  /** The candidate is determined by who has confirmed what. */
  lemma {:induction false} CandidateIsUnique(m: Confirmed, active: seq<nat>, a: nat, b: nat)
    requires active != [] && IsCandidate(m, active, a) && IsCandidate(m, active, b)
    ensures a == b
  {
  }

  /** The values that decide what is irreversible. */
  datatype Confirmation = Confirmation(confirmed: Confirmed, active: seq<nat>, head: nat, last: nat)

  /** A block by a witness, or a maintenance that elects the active ones. */
  datatype Event = Signed(signer: nat) | Elected(active: seq<nat>)

  function Blocks(events: seq<Event>): nat {
    if events == [] then 0 else Blocks(events[..|events| - 1]) + if events[|events| - 1].Signed? then 1 else 0
  }

  class Confirmations {
    var confirmed: Confirmed
    var active: seq<nat>
    var headNum: nat
    var lastIrreversible: nat

    /** Nobody has confirmed a block that does not exist yet. */
    ghost predicate Valid()
      reads this
    {
      && active != [] && lastIrreversible <= headNum
      && forall w | w in confirmed :: confirmed[w] <= headNum
    }

    constructor (active: seq<nat>)
      requires active != []
      ensures Valid() && this.active == active && headNum == 0 && lastIrreversible == 0 && confirmed == map[]
    {
      this.active, headNum, lastIrreversible, confirmed := active, 0, 0, map[];
    }

    /** `update_last_irreversible_block`: selection in place over the active witnesses. */
    method UpdateLastIrreversible()
      requires Valid()
      modifies this`lastIrreversible
      ensures Valid() && lastIrreversible >= old(lastIrreversible)
      ensures exists n: nat :: IsCandidate(confirmed, active, n)
                               && lastIrreversible == if n > old(lastIrreversible) then n else old(lastIrreversible)
    {
      var ids := active;
      var witnesses := new nat[|ids|](i requires 0 <= i < |ids| => ids[i]);
      assert witnesses[..] == ids;
      var offset := Offset(|active|);
      NthElement(witnesses, offset, Lags(confirmed));
      var w := witnesses[offset];
      PartitionedNth(witnesses[..], Lags(confirmed), offset);
      NthPermutation(witnesses[..], active, Lags(confirmed), offset, w);
      NthIsCandidate(confirmed, active, w);
      var n := ConfirmedBy(confirmed, w);
      if n > lastIrreversible {
        lastIrreversible := n;
      }
      assert IsCandidate(confirmed, active, n);
    }

    /** A block: the head moves up, its signer has confirmed it, and the last irreversible block follows. */
    method ApplyBlock(signer: nat)
      requires Valid()
      modifies this
      ensures Valid() && active == old(active)
      ensures headNum == old(headNum) + 1 && confirmed == old(confirmed)[signer := headNum]
      ensures old(lastIrreversible) <= lastIrreversible <= headNum
      ensures lastIrreversible > old(lastIrreversible) ==> IsCandidate(confirmed, active, lastIrreversible)
      ensures forall n: nat | IsCandidate(confirmed, active, n) :: n <= lastIrreversible
    {
      headNum := headNum + 1;
      confirmed := confirmed[signer := headNum];
      UpdateLastIrreversible();
      ghost var n: nat :| IsCandidate(confirmed, active, n)
                          && lastIrreversible == if n > old(lastIrreversible) then n else old(lastIrreversible);
      forall n': nat | IsCandidate(confirmed, active, n')
        ensures n' <= lastIrreversible
      {
        CandidateIsUnique(confirmed, active, n, n');
      }
    }

    /** A maintenance block replaces the active witnesses; what was irreversible stays so. */
    method SetActive(elected: seq<nat>)
      requires Valid() && elected != []
      modifies this`active
      ensures Valid() && active == elected
    {
      active := elected;
    }

    /**
     Over any run of blocks and elections the last irreversible block never goes back, whoever is
     elected, and never passes the head; and it only moves to a number that the witnesses active at
     that moment have confirmed.
     */
    method Run(events: seq<Event>) returns (ghost trace: seq<Confirmation>)
      requires Valid() && forall i | 0 <= i < |events| && events[i].Elected? :: events[i].active != []
      modifies this
      ensures Valid() && headNum == old(headNum) + Blocks(events) && |trace| == |events| + 1
      ensures trace[0] == old(View()) && trace[|events|] == View()
      ensures forall i | 0 <= i <= |events| :: trace[i].active != []
      ensures forall i, j | 0 <= i <= j <= |events| :: trace[i].last <= trace[j].last <= trace[j].head
      ensures forall i | 0 <= i < |events| && trace[i + 1].last != trace[i].last ::
                IsCandidate(trace[i + 1].confirmed, trace[i + 1].active, trace[i + 1].last)
    {
      trace := [View()];
      for i := 0 to |events|
        invariant Valid() && headNum == old(headNum) + Blocks(events[..i]) && |trace| == i + 1
        invariant trace[0] == old(View()) && trace[i] == View()
        invariant forall j | 0 <= j <= i :: trace[j].active != []
        invariant forall j, k | 0 <= j <= k <= i :: trace[j].last <= trace[k].last <= trace[k].head
        invariant forall j | 0 <= j < i && trace[j + 1].last != trace[j].last ::
                    IsCandidate(trace[j + 1].confirmed, trace[j + 1].active, trace[j + 1].last)
      {
        assert events[..i + 1][..i] == events[..i];
        match events[i] {
          case Signed(signer) => ApplyBlock(signer);
          case Elected(elected) => SetActive(elected);
        }
        trace := trace + [View()];
      }
      assert events[..|events|] == events;
    }

    ghost function View(): Confirmation
      reads this
    {
      Confirmation(confirmed, active, headNum, lastIrreversible)
    }
  }
}
