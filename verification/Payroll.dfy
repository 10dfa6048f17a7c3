/**
 Who is paid by a payroll, and how much (libraries/chain/db_maint.cpp, worker_object.hpp).
 */
module Payroll {
  import opened Arithmetic
  import opened OrderStatistics

  const DAY := 24 * 60 * 60 * 1000000

  datatype WorkerKind = Refund | Vest(balance: nat) | Burn | Exchange(account: nat)

  datatype Worker = Worker(id: nat, kind: WorkerKind, dailyPay: nat, active: bool, stake: int) {
    /** `get_budget`, for a distance in microseconds. */
    function Budget(distance: nat): nat {
      if distance != DAY then dailyPay * distance / DAY else dailyPay
    }
  }

  /** The daily pay scaled to a distance, rounded down; a whole day is paid in full. */
  lemma {:induction false} BudgetRoundsDown(w: Worker, distance: nat)
    ensures w.Budget(distance) * DAY <= w.dailyPay * distance < (w.Budget(distance) + 1) * DAY
    ensures w.Budget(DAY) == w.dailyPay
  {
    if distance != DAY {
      DivBounds(w.dailyPay * distance, DAY);
    }
  }

  /** What a payroll of these requests asks for in all. */
  function Requested(workers: seq<Worker>, distance: nat): nat {
    if workers == [] then 0
    else Requested(workers[..|workers| - 1], distance) + workers[|workers| - 1].Budget(distance)
  }

  lemma {:induction false} RequestedAppend(a: seq<Worker>, b: seq<Worker>, distance: nat)
    ensures Requested(a + b, distance) == Requested(a, distance) + Requested(b, distance)
    decreases |b|
  {
    if b == [] {
      assert a + b == a;
    } else {
      assert (a + b)[..|a + b| - 1] == a + b[..|b| - 1];
      RequestedAppend(a, b[..|b| - 1], distance);
    }
  }

  lemma {:induction false} RequestedMiddle(u: seq<Worker>, x: Worker, v: seq<Worker>, distance: nat)
    ensures Requested(u + [x] + v, distance) == Requested(u + v, distance) + x.Budget(distance)
  {
    assert (u + [x])[..|u|] == u;
    RequestedAppend(u + [x], v, distance);
    RequestedAppend(u, v, distance);
  }

  /** Sorting the payroll does not change what it asks for. */
  lemma {:induction false} RequestedPermutation(a: seq<Worker>, b: seq<Worker>, distance: nat)
    requires multiset(a) == multiset(b)
    ensures Requested(a, distance) == Requested(b, distance)
    decreases |a|
  {
    assert |multiset(a)| == |a| && |multiset(b)| == |b|;
    if a != [] {
      var x, rest := a[|a| - 1], a[..|a| - 1];
      assert a == rest + [x];
      assert x in multiset(b);
      var i :| 0 <= i < |b| && b[i] == x;
      var u, v := b[..i], b[i + 1..];
      assert b == u + [x] + v;
      MultisetMiddle(rest, x, []);
      assert rest + [x] + [] == a && rest + [] == rest;
      MultisetMiddle(u, x, v);
      CancelOne(multiset(rest), multiset(u + v), x);
      RequestedPermutation(rest, u + v, distance);
      RequestedMiddle(u, x, v, distance);
    }
  }

  /** The workers that are voted in and within their dates. */
  function Active(workers: seq<Worker>): seq<Worker> {
    if workers == [] then []
    else Active(workers[..|workers| - 1]) + if workers[|workers| - 1].active then [workers[|workers| - 1]] else []
  }

  /** Every active worker, as often as it is listed, and no other. */
  lemma {:induction false} ActiveExactly(workers: seq<Worker>, w: Worker)
    ensures multiset(Active(workers))[w] == if w.active then multiset(workers)[w] else 0
  {
    if workers != [] {
      var before := workers[..|workers| - 1];
      assert workers == before + [workers[|workers| - 1]];
      ActiveExactly(before, w);
    }
  }

  /** More stake goes first, and among equals the older worker. */
  predicate Before(a: Worker, b: Worker) {
    a.stake > b.stake || (a.stake == b.stake && a.id < b.id)
  }

  function Insert(w: Worker, ranked: seq<Worker>): seq<Worker> {
    if ranked == [] || !Before(ranked[0], w) then [w] + ranked
    else [ranked[0]] + Insert(w, ranked[1..])
  }

  function Ranked(workers: seq<Worker>): seq<Worker> {
    if workers == [] then [] else Insert(workers[0], Ranked(workers[1..]))
  }

  ghost predicate InOrder(ranked: seq<Worker>) {
    forall i, j :: 0 <= i < j < |ranked| ==> !Before(ranked[j], ranked[i])
  }

  lemma {:induction false} InsertKeepsOrder(w: Worker, ranked: seq<Worker>)
    requires InOrder(ranked)
    ensures InOrder(Insert(w, ranked)) && multiset(Insert(w, ranked)) == multiset(ranked) + multiset{w}
  {
    if ranked != [] && Before(ranked[0], w) {
      var rest := Insert(w, ranked[1..]);
      assert ranked == [ranked[0]] + ranked[1..];
      InsertKeepsOrder(w, ranked[1..]);
      forall x | x in rest
        ensures !Before(x, ranked[0])
      {
        assert x in multiset(rest);
      }
    }
  }

  /** Ranking loses and doubles nobody. */
  lemma {:induction false} RankedIsOrdered(workers: seq<Worker>)
    ensures InOrder(Ranked(workers)) && multiset(Ranked(workers)) == multiset(workers)
  {
    if workers != [] {
      RankedIsOrdered(workers[1..]);
      InsertKeepsOrder(workers[0], Ranked(workers[1..]));
      assert workers == [workers[0]] + workers[1..];
    }
  }

  lemma {:induction false} RankedAsksTheSame(workers: seq<Worker>, distance: nat)
    ensures Requested(Ranked(workers), distance) == Requested(workers, distance)
  {
    RankedIsOrdered(workers);
    RequestedPermutation(Ranked(workers), workers, distance);
  }

  /** What the i-th in rank gets: its request, or what those before it have left of the budget. */
  function Payout(ranked: seq<Worker>, budget: nat, distance: nat, i: nat): nat
    requires i < |ranked|
  {
    var before := Requested(ranked[..i], distance);
    if before >= budget then 0 else Min(budget - before, ranked[i].Budget(distance))
  }

  /** What the first n in rank get through workers of one kind. */
  function Share(ranked: seq<Worker>, budget: nat, distance: nat, kind: WorkerKind, n: nat): nat
    requires n <= |ranked|
  {
    if n == 0 then 0
    else Share(ranked, budget, distance, kind, n - 1)
         + if ranked[n - 1].kind == kind then Payout(ranked, budget, distance, n - 1) else 0
  }

  function PaidOut(ranked: seq<Worker>, budget: nat, distance: nat, n: nat): nat
    requires n <= |ranked|
  {
    if n == 0 then 0 else PaidOut(ranked, budget, distance, n - 1) + Payout(ranked, budget, distance, n - 1)
  }

  /** The first n in rank get all they ask for, as far as the budget goes. */
  lemma {:induction false} PayrollSpendsItsBudget(ranked: seq<Worker>, budget: nat, distance: nat, n: nat)
    requires n <= |ranked|
    ensures PaidOut(ranked, budget, distance, n) == Min(budget, Requested(ranked[..n], distance))
  {
    if n > 0 {
      PayrollSpendsItsBudget(ranked, budget, distance, n - 1);
      assert ranked[..n][..n - 1] == ranked[..n - 1];
    }
  }

  lemma {:induction false} RequestedGrows(ranked: seq<Worker>, distance: nat, i: nat, n: nat)
    requires i <= n <= |ranked|
    ensures Requested(ranked[..i], distance) <= Requested(ranked[..n], distance)
    decreases n
  {
    if i < n {
      RequestedGrows(ranked, distance, i, n - 1);
      assert ranked[..n][..n - 1] == ranked[..n - 1];
    }
  }

  /** Nobody is paid while someone ranked higher goes short. */
  lemma {:induction false} HigherRankIsPaidFirst(ranked: seq<Worker>, budget: nat, distance: nat, i: nat, j: nat)
    requires i < j < |ranked| && Payout(ranked, budget, distance, j) > 0
    ensures Payout(ranked, budget, distance, i) == ranked[i].Budget(distance)
  {
    RequestedGrows(ranked, distance, i + 1, j);
    assert ranked[..i + 1][..i] == ranked[..i];
  }

  /** What everyone in rank gets. */
  function Payouts(ranked: seq<Worker>, budget: nat, distance: nat): seq<nat> {
    seq(|ranked|, i requires 0 <= i < |ranked| => Payout(ranked, budget, distance, i))
  }

  /** The sum of some pays, and of those through workers of one kind. */
  function SumOf(pays: seq<nat>): nat {
    if pays == [] then 0 else SumOf(pays[..|pays| - 1]) + pays[|pays| - 1]
  }

  function KindSum(ranked: seq<Worker>, pays: seq<nat>, kind: WorkerKind): nat
    requires |ranked| == |pays|
  {
    if pays == [] then 0
    else KindSum(ranked[..|ranked| - 1], pays[..|pays| - 1], kind)
         + if ranked[|ranked| - 1].kind == kind then pays[|pays| - 1] else 0
  }

  /**
   Exactly the active workers are paid, none of them more than it asks for; and if a worker gets anything,
   those with more stake, and of those with the same stake the older ones, get all that they ask for.
   */
  ghost predicate PaidInOrder(workers: seq<Worker>, ranked: seq<Worker>, pays: seq<nat>, distance: nat) {
    && (forall w {:trigger multiset(ranked)[w]} ::
          multiset(ranked)[w] == if w.active then multiset(workers)[w] else 0)
    && |pays| == |ranked|
    && (forall i | 0 <= i < |ranked| :: pays[i] <= ranked[i].Budget(distance))
    && (forall i, j | 0 <= i < |ranked| && 0 <= j < |ranked| && pays[j] > 0 ::
          ranked[i].stake > ranked[j].stake || (ranked[i].stake == ranked[j].stake && ranked[i].id < ranked[j].id) ==>
            pays[i] == ranked[i].Budget(distance))
  }

  /** More stake goes first, and of equal stakes the lower id: all that it asks for, before the other gets anything. */
  lemma {:induction false} MoreStakeGoesFirst(ranked: seq<Worker>, budget: nat, distance: nat, i: nat, j: nat)
    requires InOrder(ranked) && i < |ranked| && j < |ranked| && Payout(ranked, budget, distance, j) > 0
    requires ranked[i].stake > ranked[j].stake || (ranked[i].stake == ranked[j].stake && ranked[i].id < ranked[j].id)
    ensures i < j && Payout(ranked, budget, distance, i) == ranked[i].Budget(distance)
  {
    if j <= i {
      assert Before(ranked[i], ranked[j]);
    } else {
      HigherRankIsPaidFirst(ranked, budget, distance, i, j);
    }
  }

  /** Paying first come, first served by rank is paying in the order of stakes and ids. */
  lemma {:induction false} PayoutsInOrder(workers: seq<Worker>, ranked: seq<Worker>, pays: seq<nat>, budget: nat,
                                          distance: nat)
    requires ranked == Ranked(Active(workers)) && pays == Payouts(ranked, budget, distance)
    ensures PaidInOrder(workers, ranked, pays, distance)
  {
    RankedIsOrdered(Active(workers));
    forall w
      ensures multiset(ranked)[w] == if w.active then multiset(workers)[w] else 0
    {
      ActiveExactly(workers, w);
    }
    forall i, j | 0 <= i < |ranked| && 0 <= j < |ranked| && pays[j] > 0
                  && (ranked[i].stake > ranked[j].stake
                      || (ranked[i].stake == ranked[j].stake && ranked[i].id < ranked[j].id))
      ensures pays[i] == ranked[i].Budget(distance)
    {
      MoreStakeGoesFirst(ranked, budget, distance, i, j);
    }
  }

  lemma {:induction false} PaysUpTo(ranked: seq<Worker>, pays: seq<nat>, budget: nat, distance: nat, kind: WorkerKind,
                                    n: nat)
    requires pays == Payouts(ranked, budget, distance) && n <= |ranked|
    ensures SumOf(pays[..n]) == PaidOut(ranked, budget, distance, n)
    ensures KindSum(ranked[..n], pays[..n], kind) == Share(ranked, budget, distance, kind, n)
    decreases n
  {
    if n > 0 {
      PaysUpTo(ranked, pays, budget, distance, kind, n - 1);
      assert pays[..n][..n - 1] == pays[..n - 1] && ranked[..n][..n - 1] == ranked[..n - 1];
    }
  }

  /** All of the budget is handed out, as far as it is asked for. */
  lemma {:induction false} PayoutsAddUp(ranked: seq<Worker>, pays: seq<nat>, budget: nat, distance: nat)
    requires pays == Payouts(ranked, budget, distance)
    ensures SumOf(pays) == Min(budget, Requested(ranked, distance))
    ensures forall kind: WorkerKind ::
              KindSum(ranked, pays, kind) == Share(ranked, budget, distance, kind, |ranked|)
  {
    assert pays[..|ranked|] == pays && ranked[..|ranked|] == ranked;
    PayrollSpendsItsBudget(ranked, budget, distance, |ranked|);
    forall kind: WorkerKind
      ensures SumOf(pays) == PaidOut(ranked, budget, distance, |ranked|)
      ensures KindSum(ranked, pays, kind) == Share(ranked, budget, distance, kind, |ranked|)
    {
      PaysUpTo(ranked, pays, budget, distance, kind, |ranked|);
    }
    PaysUpTo(ranked, pays, budget, distance, Refund, |ranked|);
  }
}
