/** Voting weights and thresholds of the elected accounts (libraries/chain/db_maint.cpp). */
module Quorum {
  import opened Arithmetic

  datatype Member = Member(account: nat, votes: nat)

  /** Who may sign with which weight, and the weight it takes. */
  datatype Authority = Authority(weights: map<nat, nat>, threshold: nat)

  /** Index of the most significant bit; `find_msb` is not defined for zero, where 0 serves. */
  function Msb(n: nat): nat {
    if n < 2 then 0 else 1 + Msb(n / 2)
  }

  /** How many low bits to drop so that sixteen remain. */
  function BitsToDrop(n: nat): nat {
    if Msb(n) > 15 then Msb(n) - 15 else 0
  }

  function Scaled(votes: nat, bits: nat): nat {
    if ShiftRight(votes, bits) > 1 then ShiftRight(votes, bits) else 1
  }

  lemma {:induction false} ShiftMonotone(a: nat, b: nat, bits: nat)
    requires a <= b
    ensures ShiftRight(a, bits) <= ShiftRight(b, bits)
  {
    if bits > 0 {
      ShiftMonotone(a / 2, b / 2, bits - 1);
    }
  }

  lemma {:induction false} MsbBounds(n: nat)
    requires n > 0
    ensures Pow2(Msb(n)) <= n < Pow2(Msb(n) + 1)
  {
    if n >= 2 {
      MsbBounds(n / 2);
    }
  }

  lemma {:induction false} ShiftBelow(n: nat, bits: nat, rest: nat)
    requires n < Pow2(bits + rest)
    ensures ShiftRight(n, bits) < Pow2(rest)
  {
    if bits > 0 {
      ShiftBelow(n / 2, bits - 1, rest);
    }
  }

  /** Dropping bits divides by a power of two and rounds down. */
  lemma {:induction false} ShiftDivides(n: nat, bits: nat)
    ensures ShiftRight(n, bits) * Pow2(bits) <= n < (ShiftRight(n, bits) + 1) * Pow2(bits)
  {
    if bits > 0 {
      ShiftDivides(n / 2, bits - 1);
      TwiceAsMany(n, ShiftRight(n / 2, bits - 1), Pow2(bits - 1));
    }
  }

  lemma {:induction false} TwiceAsMany(n: nat, q: nat, d: nat)
    requires q * d <= n / 2 < (q + 1) * d
    ensures q * (2 * d) <= n < (q + 1) * (2 * d)
  {
    var x, y := q * d, (q + 1) * d;
    assert q * (2 * d) == 2 * x && (q + 1) * (2 * d) == 2 * y;
  }

  lemma {:induction false} ShiftAtLeast(n: nat, bits: nat, rest: nat)
    requires n >= Pow2(bits + rest)
    ensures ShiftRight(n, bits) >= Pow2(rest)
  {
    if bits > 0 {
      ShiftAtLeast(n / 2, bits - 1, rest);
    }
  }

  lemma {:induction false} SixteenBits()
    ensures Pow2(15) == 32768 && Pow2(16) == 65536
  {
    assert Pow2(8) == 256;
    assert Pow2(12) == 4096;
  }

  /**
   A total of up to sixteen bits loses none; of a larger one exactly the top sixteen stay. So a weight is
   never coarser than it takes for sixteen bits.
   */
  lemma {:induction false} SixteenBitsStay(total: nat)
    ensures total < 65536 ==> BitsToDrop(total) == 0 && ShiftRight(total, BitsToDrop(total)) == total
    ensures total >= 65536 ==> BitsToDrop(total) > 0 && 32768 <= ShiftRight(total, BitsToDrop(total)) <= 65535
  {
    SixteenBits();
    if total > 0 {
      MsbBounds(total);
      if Msb(total) > 15 {
        Pow2Monotone(16, Msb(total));
        ShiftAtLeast(total, Msb(total) - 15, 15);
        ShiftBelow(total, Msb(total) - 15, 16);
      } else {
        Pow2Monotone(Msb(total) + 1, 16);
      }
    }
  }

  /** A weight is the votes divided by one power of two for all, rounded down; but nobody's is zero. */
  lemma {:induction false} WeightIsProportional(votes: nat, bits: nat)
    ensures var weight, unit := Scaled(votes, bits), Pow2(bits);
            if votes < unit then weight == 1 else weight * unit <= votes < (weight + 1) * unit
  {
    ShiftDivides(votes, bits);
    var q, d := ShiftRight(votes, bits), Pow2(bits);
    if q > 0 {
      MulLe(1, q, d);
    }
  }

  /** Scaled weights fit sixteen bits, are never zero, and keep the order of the votes. */
  lemma {:induction false} ScaledFits(votes: nat, top: nat)
    requires votes <= top
    ensures 1 <= Scaled(votes, BitsToDrop(top)) <= 65535
  {
    var bits := BitsToDrop(top);
    ShiftMonotone(votes, top, bits);
    SixteenBits();
    if top > 0 {
      MsbBounds(top);
      if Msb(top) > 15 {
        ShiftBelow(top, bits, 16);
      } else {
        Pow2Monotone(Msb(top) + 1, 16);
      }
    }
  }

  lemma {:induction false} Pow2Monotone(a: nat, b: nat)
    requires a <= b
    ensures Pow2(a) <= Pow2(b)
  {
    if a < b {
      Pow2Monotone(a, b - 1);
    }
  }

  lemma {:induction false} ScaledMonotone(a: nat, b: nat, bits: nat)
    requires a <= b
    ensures Scaled(a, bits) <= Scaled(b, bits)
  {
    ShiftMonotone(a, b, bits);
  }

  /** The combined weight of a set of accounts. */
  ghost function Weight(weights: map<nat, nat>, who: set<nat>): nat
    requires who <= weights.Keys
  {
    if who == {} then 0
    else var x :| x in who; weights[x] + Weight(weights, who - {x})
  }

  lemma {:induction false} WeightWithout(weights: map<nat, nat>, who: set<nat>, x: nat)
    requires who <= weights.Keys && x in who
    ensures Weight(weights, who) == weights[x] + Weight(weights, who - {x})
    decreases who
  {
    var y :| y in who && Weight(weights, who) == weights[y] + Weight(weights, who - {y});
    if y != x {
      WeightWithout(weights, who - {y}, x);
      WeightWithout(weights, who - {x}, y);
      assert who - {y} - {x} == who - {x} - {y};
    }
  }

  lemma {:induction false} WeightUnion(weights: map<nat, nat>, a: set<nat>, b: set<nat>)
    requires a <= weights.Keys && b <= weights.Keys && a !! b
    ensures Weight(weights, a + b) == Weight(weights, a) + Weight(weights, b)
    decreases a
  {
    if a == {} {
      assert a + b == b;
    } else {
      var x :| x in a;
      WeightWithout(weights, a, x);
      WeightWithout(weights, a + b, x);
      assert a + b - {x} == a - {x} + b;
      WeightUnion(weights, a - {x}, b);
    }
  }

  lemma {:induction false} WeightIsPositive(weights: map<nat, nat>, who: set<nat>, x: nat)
    requires who <= weights.Keys && x in who && weights[x] > 0
    ensures Weight(weights, who) > 0
  {
    WeightWithout(weights, who, x);
  }

  /** The threshold is more than half of all weight there is, and no more than all of it. */
  ghost predicate MajorityThreshold(a: Authority) {
    a.threshold == Weight(a.weights, a.weights.Keys) / 2 + 1
  }

  /** Any two sets of approvers that each reach the threshold share a member. */
  lemma {:induction false} QuorumsIntersect(a: Authority, x: set<nat>, y: set<nat>)
    requires MajorityThreshold(a) && x <= a.weights.Keys && y <= a.weights.Keys
    requires Weight(a.weights, x) >= a.threshold && Weight(a.weights, y) >= a.threshold
    ensures x * y != {}
  {
    if x * y == {} {
      forall e | e in x
        ensures e !in y
      {
        assert e in y ==> e in x * y;
      }
      var rest := a.weights.Keys - (x + y);
      assert x + y + rest == a.weights.Keys;
      WeightUnion(a.weights, x, y);
      WeightUnion(a.weights, x + y, rest);
    }
  }

  /** All approvers together reach the threshold, if there is one with a weight. */
  lemma {:induction false} ThresholdIsReachable(a: Authority, x: nat)
    requires MajorityThreshold(a) && x in a.weights && a.weights[x] > 0
    ensures Weight(a.weights, a.weights.Keys) >= a.threshold
  {
    WeightIsPositive(a.weights, a.weights.Keys, x);
  }

  function TotalVotes(members: seq<Member>): nat {
    if members == [] then 0 else TotalVotes(members[..|members| - 1]) + members[|members| - 1].votes
  }

  /** The votes of an account are those of its first entry: `emplace` keeps what is there. */
  function FirstVotes(members: seq<Member>): (r: map<nat, nat>)
    ensures forall w | w in r :: exists i :: 0 <= i < |members| && members[i] == Member(w, r[w])
    ensures forall i | 0 <= i < |members| :: members[i].account in r
  {
    if members == [] then map[]
    else
      var before := FirstVotes(members[..|members| - 1]);
      var last := members[|members| - 1];
      if last.account in before then
        assert forall w | w in before ::
          exists i :: 0 <= i < |members| - 1 && members[..|members| - 1][i] == members[i] == Member(w, before[w]);
        before
      else
        assert forall w | w in before ::
          exists i :: 0 <= i < |members| - 1 && members[..|members| - 1][i] == members[i] == Member(w, before[w]);
        assert members[|members| - 1] == Member(last.account, last.votes);
        before[last.account := last.votes]
  }

  /** An account that is listed again keeps the votes of its first entry. */
  lemma {:induction false} FirstEntryCounts(members: seq<Member>, i: nat)
    requires i < |members| && forall j | 0 <= j < i :: members[j].account != members[i].account
    ensures members[i].account in FirstVotes(members) && FirstVotes(members)[members[i].account] == members[i].votes
  {
    var n := |members| - 1;
    if i < n {
      assert members[..n][i] == members[i];
      FirstEntryCounts(members[..n], i);
    } else if members[n].account in FirstVotes(members[..n]) {
      var votes := FirstVotes(members[..n])[members[n].account];
      var j :| 0 <= j < n && members[..n][j] == Member(members[n].account, votes);
      assert members[j].account == members[n].account;
    }
  }

  /** The total is the sum over all entries, repeated accounts included. */
  lemma {:induction false} TotalAdds(a: seq<Member>, m: Member, b: seq<Member>)
    ensures TotalVotes(a + [m] + b) == TotalVotes(a) + m.votes + TotalVotes(b)
    decreases |b|
  {
    if b == [] {
      assert a + [m] + b == a + [m] && (a + [m])[..|a|] == a;
    } else {
      var n := |b| - 1;
      var all := a + [m] + b;
      assert all[..|all| - 1] == a + [m] + b[..n] && all[|all| - 1] == b[n];
      TotalAdds(a, m, b[..n]);
    }
  }

  lemma {:induction false} VotesBelowTotal(members: seq<Member>, i: nat)
    requires i < |members|
    ensures members[i].votes <= TotalVotes(members)
  {
    var n := |members| - 1;
    if i < n {
      VotesBelowTotal(members[..n], i);
    }
  }

  /** The authority that the votes give: scaled weights, and the majority threshold. */
  ghost predicate Elected(a: Authority, votes: map<nat, nat>, bits: nat) {
    && a.weights.Keys == votes.Keys
    && (forall w | w in votes :: a.weights[w] == Scaled(votes[w], bits))
    && MajorityThreshold(a)
  }

  /** The loop over the elected members. */
  method Tally(members: seq<Member>) returns (votes: map<nat, nat>, total: nat)
    ensures votes == FirstVotes(members) && total == TotalVotes(members)
  {
    votes, total := map[], 0;
    for i := 0 to |members|
      invariant total == TotalVotes(members[..i]) && votes == FirstVotes(members[..i])
    {
      assert members[..i + 1][..i] == members[..i];
      if members[i].account !in votes {
        votes := votes[members[i].account := members[i].votes];
      }
      total := total + members[i].votes;
    }
    assert members[..|members|] == members;
  }

  /** The loop over the tallied votes, which adds up the threshold. */
  method Weigh(votes: map<nat, nat>, bits: nat) returns (a: Authority)
    ensures Elected(a, votes, bits)
  {
    var weights: map<nat, nat> := map[];
    var threshold := 0;
    var todo := votes.Keys;
    ghost var goal := map w | w in votes :: Scaled(votes[w], bits);
    while todo != {}
      invariant todo <= votes.Keys && weights == map w | w in votes.Keys - todo :: goal[w]
      invariant threshold == Weight(goal, goal.Keys - todo)
      decreases todo
    {
      var w :| w in todo;
      var scaled := Scaled(votes[w], bits);
      weights := weights[w := scaled];
      threshold := threshold + scaled;
      WeightWithout(goal, goal.Keys - (todo - {w}), w);
      assert goal.Keys - (todo - {w}) - {w} == goal.Keys - todo;
      todo := todo - {w};
    }
    assert weights == goal && goal.Keys - {} == goal.Keys;
    return Authority(weights, threshold / 2 + 1);
  }

  /**
   The authority of the elected members before the fork of 2020-12-30, as the witness, committee
   and budget updates compute it.
   */
  method UpdateAuthority(members: seq<Member>) returns (a: Authority)
    requires TotalVotes(members) < WORD64
    ensures Elected(a, FirstVotes(members), BitsToDrop(TotalVotes(members)))
    ensures forall w | w in a.weights :: 1 <= a.weights[w] <= 65535
  {
    var votes, total := Tally(members);
    a := Weigh(votes, BitsToDrop(total));
    forall w | w in a.weights
      ensures 1 <= a.weights[w] <= 65535
    {
      var i :| 0 <= i < |members| && members[i] == Member(w, votes[w]);
      VotesBelowTotal(members, i);
      ScaledFits(votes[w], total);
    }
  }

  /** More votes never weigh less. */
  lemma {:induction false} WeightsKeepOrder(a: Authority, votes: map<nat, nat>, bits: nat, x: nat, y: nat)
    requires Elected(a, votes, bits) && x in votes && y in votes && votes[x] <= votes[y]
    ensures a.weights[x] <= a.weights[y]
  {
    ScaledMonotone(votes[x], votes[y], bits);
  }

  /** `vote_counter`, which takes over at the fork. */
  class VoteCounter {
    var lastVotes: int
    var totalVotes: nat
    var bitshift: int
    var weights: map<nat, nat>
    ghost var votes: map<nat, nat>

    ghost predicate Valid()
      reads this
    {
      && (weights == map[] <==> bitshift == -1) && bitshift >= -1
      && weights.Keys == votes.Keys
      && totalVotes == Weight(weights, weights.Keys)
      && (forall w | w in votes :: votes[w] > 0 && weights[w] == Scaled(votes[w], bitshift) && 1 <= weights[w] <= 65535)
      && (bitshift >= 0 ==> exists top: nat :: lastVotes <= top && bitshift == BitsToDrop(top))
    }

    constructor ()
      ensures Valid() && weights == map[] && lastVotes == WORD64 - 1
    {
      lastVotes, totalVotes, bitshift, weights, votes := WORD64 - 1, 0, -1, map[], map[];
    }

    /** `add`: the code asserts that votes come in falling order; accounts come once each. */
    method Add(who: nat, v: nat)
      requires Valid() && v <= lastVotes && who !in weights
      modifies this
      ensures Valid()
      ensures votes == if v == 0 then old(votes) else old(votes)[who := v]
      ensures lastVotes == if v == 0 then old(lastVotes) else v
      ensures bitshift == if v > 0 && old(bitshift) == -1 then BitsToDrop(v) else old(bitshift)
    {
      if v == 0 {
        return;
      }
      lastVotes := v;
      if bitshift == -1 {
        bitshift := BitsToDrop(v);
      }
      var top: nat :| v <= top && bitshift == BitsToDrop(top);
      ScaledFits(v, top);
      var scaled := Scaled(v, bitshift);
      ghost var before := weights;
      weights := weights[who := scaled];
      WeightWithout(weights, weights.Keys, who);
      assert weights.Keys - {who} == before.Keys;
      SameWeight(before, weights, before.Keys);
      totalVotes := totalVotes + scaled;
      votes := votes[who := v];
    }

    /** `finish`: an empty count leaves the old authority in place. */
    method Finish(was: Authority) returns (a: Authority)
      requires Valid()
      ensures votes == map[] ==> a == was
      ensures votes != map[] ==> bitshift >= 0 && Elected(a, votes, bitshift)
      ensures votes != map[] ==> forall w | w in a.weights :: 1 <= a.weights[w] <= 65535
    {
      if totalVotes == 0 {
        if w :| w in votes {
          WeightIsPositive(weights, weights.Keys, w);
        }
        assert votes.Keys == {};
        return was;
      }
      assert weights != map[];
      return Authority(weights, totalVotes / 2 + 1);
    }
  }

  lemma {:induction false} SameWeight(a: map<nat, nat>, b: map<nat, nat>, who: set<nat>)
    requires who <= a.Keys && who <= b.Keys && forall w | w in who :: a[w] == b[w]
    ensures Weight(a, who) == Weight(b, who)
    decreases who
  {
    if who != {} {
      var x :| x in who;
      WeightWithout(a, who, x);
      WeightWithout(b, who, x);
      SameWeight(a, b, who - {x});
    }
  }
}
