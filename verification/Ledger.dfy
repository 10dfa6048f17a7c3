/**
 The core asset's books: fees, cashback, witness pay, budgets and payroll
 (libraries/chain/account_object.cpp, db_balance.cpp, db_maint.cpp, evaluator.cpp).
 */
module Totals {

  /** An entry that is missing counts as zero. */
  function Get(m: map<nat, int>, k: nat): int {
    if k in m then m[k] else 0
  }

  ghost function Sum(m: map<nat, int>): int {
    if m == map[] then 0
    else var k :| k in m; m[k] + Sum(m - {k})
  }

  lemma {:induction false} SumWithout(m: map<nat, int>, k: nat)
    requires k in m
    ensures Sum(m) == m[k] + Sum(m - {k})
    decreases m
  {
    var j :| j in m && Sum(m) == m[j] + Sum(m - {j});
    if j != k {
      SumWithout(m - {j}, k);
      SumWithout(m - {k}, j);
      assert m - {j} - {k} == m - {k} - {j};
    }
  }

  ghost predicate IsSum(f: map<nat, int> -> int) {
    forall m {:trigger Sum(m)} :: f(m) == Sum(m)
  }

  /** The sum of all entries, sealed: the books reason about it through `TotalUpdate` alone. */
  ghost function Total(m: map<nat, int>): int {
    assert IsSum(m => Sum(m));
    var f: map<nat, int> -> int :| IsSum(f);
    f(m)
  }

  lemma {:induction false} TotalIsSum(m: map<nat, int>)
    ensures Total(m) == Sum(m)
  {
  }

  lemma {:induction false} TotalUpdate(m: map<nat, int>, k: nat, v: int)
    ensures Total(m[k := v]) == Total(m) - Get(m, k) + v
  {
    TotalIsSum(m);
    TotalIsSum(m[k := v]);
    SumWithout(m[k := v], k);
    assert m[k := v] - {k} == m - {k};
    if k in m {
      SumWithout(m, k);
    } else {
      assert m - {k} == m;
    }
  }
}

module Ledger {
  import opened Wrappers
  import opened Totals
  import opened Arithmetic
  import opened Payroll

  const PERCENT_100 := 10000
  const MAX_SHARE_SUPPLY := 7000000000 * 100000
  const MAX_SHARE_BUDGET := 2800000000 * 100000
  const MAX_SHARE_MINER := 700000000 * 100000
  const COMMITTEE_ACCOUNT := 0
  const NULL_ACCOUNT := 3
  const PLATFORM_ACCOUNT := 6
  const CHAIN_ACCOUNTS := {0, 1, 2, 3, 4}

  /** `cut_fee`: a share in hundredths of a percent, rounded down. */
  function CutFee(a: int, p: nat): int {
    if a == 0 || p == 0 then 0
    else if p == PERCENT_100 then a
    else a * p / PERCENT_100
  }

  lemma {:induction false} CutFeeBounds(a: nat, p: nat, q: nat)
    requires p + q <= PERCENT_100
    ensures 0 <= CutFee(a, p) && 0 <= CutFee(a, q) && CutFee(a, p) + CutFee(a, q) <= a
  {
    Arithmetic.Distribute(p, q, a);
    MulLe(p + q, PERCENT_100, a);
  }

  /** A cut is the exact share in ten-thousandths, less than one unit short. */
  lemma {:induction false} CutFeeRoundsDown(a: nat, p: nat)
    ensures CutFee(a, p) * 10000 <= a * p < (CutFee(a, p) + 1) * 10000
  {
    if a > 0 && p > 0 && p != PERCENT_100 {
      DivBounds(a * p, 10000);
    }
  }

  /** What an account keeps of a cashback: the chain's own accounts keep nothing. */
  function Cashback(account: nat, amount: int): int {
    if account in CHAIN_ACCOUNTS then 0 else amount
  }

  /** Who shares in the fees an account pays, and how. */
  datatype Account = Account(
    cashbackVb: Option<nat>, lifetimeReferrer: nat, referrer: nat, registrar: nat,
    networkPercent: nat, lifetimePercent: nat, referrerPercent: nat)
  {
    /** Percentages as account creation checks them. */
    predicate Valid() {
      networkPercent + lifetimePercent <= PERCENT_100 && referrerPercent <= PERCENT_100
    }

    function NetworkCut(total: nat): int {
      CutFee(total, networkPercent)
    }

    /** What is left for referrer and registrar. */
    function Referral(total: nat): int {
      total - CutFee(total, networkPercent) - CutFee(total, lifetimePercent)
    }

    lemma {:induction false} SharesFit(total: nat)
      requires Valid()
      ensures 0 <= CutFee(total, lifetimePercent) && 0 <= CutFee(total, networkPercent)
      ensures 0 <= CutFee(Referral(total), referrerPercent) <= Referral(total)
    {
      CutFeeBounds(total, networkPercent, lifetimePercent);
      CutFeeBounds(Referral(total), referrerPercent, 0);
    }

    /** What one owner gets of a fee, in up to three roles. */
    function ShareOf(total: nat, owner: nat): int {
      var referrerCut := CutFee(Referral(total), referrerPercent);
      (if owner == lifetimeReferrer then Cashback(owner, CutFee(total, lifetimePercent)) else 0)
      + (if owner == referrer then Cashback(owner, referrerCut) else 0)
      + (if owner == registrar then Cashback(owner, Referral(total) - referrerCut) else 0)
    }
  }

  /**
   Three different owners outside the chain's own accounts get the lifetime cut, the referrer's part of
   what is left, and the rest; with the network's cut that is the whole fee. No one else gets anything,
   and the chain's own accounts never do.
   */
  lemma {:induction false} SharesByRole(a: Account, total: nat)
    requires a.Valid()
    ensures var left := total - CutFee(total, a.networkPercent) - CutFee(total, a.lifetimePercent);
            && 0 <= CutFee(left, a.referrerPercent) <= left
            && (a.lifetimeReferrer != a.referrer && a.lifetimeReferrer != a.registrar && a.referrer != a.registrar
                && a.lifetimeReferrer > 4 && a.referrer > 4 && a.registrar > 4 ==>
                  && a.ShareOf(total, a.lifetimeReferrer) == CutFee(total, a.lifetimePercent)
                  && a.ShareOf(total, a.referrer) == CutFee(left, a.referrerPercent)
                  && a.ShareOf(total, a.registrar) == left - CutFee(left, a.referrerPercent)
                  && a.NetworkCut(total) + a.ShareOf(total, a.lifetimeReferrer) + a.ShareOf(total, a.referrer)
                     + a.ShareOf(total, a.registrar) == total)
    ensures a.lifetimeReferrer == a.referrer == a.registrar > 4 ==>
              a.NetworkCut(total) + a.ShareOf(total, a.registrar) == total
    ensures forall o: nat | o <= 4 || o !in {a.lifetimeReferrer, a.referrer, a.registrar} :: a.ShareOf(total, o) == 0
  {
    a.SharesFit(total);
  }

  /** A vesting balance apart from its amount; only a coin-days balance takes deposits. */
  datatype Vesting = Vesting(owner: nat, core: bool, coinDays: bool, seconds: nat)

  ghost predicate InCredit(m: map<nat, int>, k: nat) {
    Get(m, k) >= 0
  }

  ghost predicate NonNegative(m: map<nat, int>) {
    forall k: nat {:trigger InCredit(m, k)} :: InCredit(m, k)
  }

  type Accounts = map<nat, Account>
  type Vestings = map<nat, Vesting>

  /** An account's percentages are sound, and what it refers to exists. */
  ghost predicate AccountOk(accounts: Accounts, vestings: Vestings, a: nat) {
    a in accounts ==>
      && accounts[a].Valid()
      && accounts[a].lifetimeReferrer in accounts && accounts[a].referrer in accounts
         && accounts[a].registrar in accounts
      && (accounts[a].cashbackVb.Some? ==> accounts[a].cashbackVb.value in vestings)
  }

  ghost predicate AccountsOk(accounts: Accounts, vestings: Vestings) {
    forall a: nat {:trigger AccountOk(accounts, vestings, a)} :: AccountOk(accounts, vestings, a)
  }

  /** Amounts are kept for the vesting balances in core, and for no others. */
  ghost predicate VestingOk(vestings: Vestings, vested: map<nat, int>, next: nat, v: nat) {
    (v in vestings ==> v < next) && (v in vested <==> v in vestings && vestings[v].core)
  }

  ghost predicate VestingsOk(vestings: Vestings, vested: map<nat, int>, next: nat) {
    forall v: nat {:trigger VestingOk(vestings, vested, next, v)} :: VestingOk(vestings, vested, next, v)
  }

  ghost predicate PayOk(payVb: map<nat, nat>, vestings: Vestings, w: nat) {
    w in payVb ==> payVb[w] in vestings
  }

  ghost predicate PaysOk(payVb: map<nat, nat>, vestings: Vestings) {
    forall w: nat {:trigger PayOk(payVb, vestings, w)} :: PayOk(payVb, vestings, w)
  }

  /** The cross references survive as long as vesting balances are only added. */
  lemma {:induction false} ReferencesSurvive(accounts: Accounts, payVb: map<nat, nat>, vestings: Vestings,
                                             vestings': Vestings)
    requires AccountsOk(accounts, vestings) && PaysOk(payVb, vestings) && vestings.Keys <= vestings'.Keys
    ensures AccountsOk(accounts, vestings') && PaysOk(payVb, vestings')
  {
    forall a: nat
      ensures AccountOk(accounts, vestings', a)
    {
      assert AccountOk(accounts, vestings, a);
    }
    forall w: nat
      ensures PayOk(payVb, vestings', w)
    {
      assert PayOk(payVb, vestings, w);
    }
  }

  lemma {:induction false} VestingsGrow(vestings: Vestings, vested: map<nat, int>, next: nat, v: nat, d: Vesting,
                                        amount: int)
    requires VestingsOk(vestings, vested, next) && d.core
    requires v == next || (v in vestings && vestings[v] == d)
    ensures VestingsOk(vestings[v := d], vested[v := amount], if v == next then next + 1 else next)
    ensures v == next ==> v !in vested && v !in vestings
  {
    var next' := if v == next then next + 1 else next;
    var vestings', vested' := vestings[v := d], vested[v := amount];
    assert VestingOk(vestings, vested, next, v);
    forall w: nat
      ensures VestingOk(vestings', vested', next', w)
    {
      assert VestingOk(vestings, vested, next, w);
    }
  }

  /** What vests for one owner. */
  ghost function Owned(vestings: Vestings, vested: map<nat, int>, owner: nat): map<nat, int> {
    map v | v in vested && v in vestings && vestings[v].owner == owner :: vested[v]
  }

  ghost function OwnedTotal(vestings: Vestings, vested: map<nat, int>, owner: nat): int {
    Total(Owned(vestings, vested, owner))
  }

  lemma {:induction false} OwnedUpdate(vestings: Vestings, vested: map<nat, int>, v: nat, d: Vesting, amount: int,
                                       owner: nat)
    requires (v in vestings <==> v in vested) && (v in vestings ==> vestings[v].owner == d.owner)
    ensures OwnedTotal(vestings[v := d], vested[v := amount], owner)
            == OwnedTotal(vestings, vested, owner) + if d.owner == owner then amount - Get(vested, v) else 0
  {
    var was, now := Owned(vestings, vested, owner), Owned(vestings[v := d], vested[v := amount], owner);
    if d.owner == owner {
      assert now == was[v := amount];
      TotalUpdate(was, v, amount);
    } else {
      assert now == was;
    }
  }

  /** One owner has an amount more, all others have what they had. */
  ghost predicate Deposited(vestings: Vestings, vested: map<nat, int>, vestings': Vestings, vested': map<nat, int>,
                            owner: nat, amount: int) {
    forall o: nat {:trigger OwnedTotal(vestings', vested', o)} ::
      OwnedTotal(vestings', vested', o) == OwnedTotal(vestings, vested, o) + if o == owner then amount else 0
  }

  lemma {:induction false} DepositedUpdate(vestings: Vestings, vested: map<nat, int>, v: nat, d: Vesting, amount: int)
    requires (v in vestings <==> v in vested) && (v in vestings ==> vestings[v].owner == d.owner)
    ensures Deposited(vestings, vested, vestings[v := d], vested[v := amount], d.owner, amount - Get(vested, v))
  {
    var vestings', vested' := vestings[v := d], vested[v := amount];
    forall o: nat
      ensures OwnedTotal(vestings', vested', o)
              == OwnedTotal(vestings, vested, o) + if o == d.owner then amount - Get(vested, v) else 0
    {
      OwnedUpdate(vestings, vested, v, d, amount, o);
    }
  }

  /** Every owner has its share of a fee more. */
  ghost predicate Spread(vestings: Vestings, vested: map<nat, int>, vestings': Vestings, vested': map<nat, int>,
                         a: Account, total: nat) {
    forall o: nat {:trigger OwnedTotal(vestings', vested', o)} ::
      OwnedTotal(vestings', vested', o) == OwnedTotal(vestings, vested, o) + a.ShareOf(total, o)
  }

  lemma {:induction false} DepositedThrice(vestings: Vestings, vested: map<nat, int>, vestings1: Vestings,
                                           vested1: map<nat, int>, vestings2: Vestings, vested2: map<nat, int>,
                                           vestings3: Vestings, vested3: map<nat, int>, a: Account, total: nat)
    requires Deposited(vestings, vested, vestings1, vested1, a.lifetimeReferrer,
                       Cashback(a.lifetimeReferrer, CutFee(total, a.lifetimePercent)))
    requires Deposited(vestings1, vested1, vestings2, vested2, a.referrer,
                       Cashback(a.referrer, CutFee(a.Referral(total), a.referrerPercent)))
    requires Deposited(vestings2, vested2, vestings3, vested3, a.registrar,
                       Cashback(a.registrar, a.Referral(total) - CutFee(a.Referral(total), a.referrerPercent)))
    ensures Spread(vestings, vested, vestings3, vested3, a, total)
  {
    forall o: nat
      ensures OwnedTotal(vestings3, vested3, o) == OwnedTotal(vestings, vested, o) + a.ShareOf(total, o)
    {
      assert OwnedTotal(vestings2, vested2, o) - OwnedTotal(vestings1, vested1, o)
             == if o == a.referrer then Cashback(o, CutFee(a.Referral(total), a.referrerPercent)) else 0;
    }
  }

  /** Who shares in an account's fees stays the same. */
  ghost predicate SameShares(accounts: Accounts, accounts': Accounts) {
    accounts'.Keys == accounts.Keys
    && forall a: nat {:trigger accounts'[a]} ::
         a in accounts ==> accounts'[a] == accounts[a].(cashbackVb := accounts'[a].cashbackVb)
  }

  ghost predicate SpreadBoth(vestings: Vestings, vested: map<nat, int>, vestings': Vestings, vested': map<nat, int>,
                             a: Account, p: nat, v: nat) {
    forall o: nat {:trigger OwnedTotal(vestings', vested', o)} ::
      OwnedTotal(vestings', vested', o) == OwnedTotal(vestings, vested, o) + a.ShareOf(p, o) + a.ShareOf(v, o)
  }

  lemma {:induction false} SpreadTwice(vestings: Vestings, vested: map<nat, int>, vestings1: Vestings,
                                       vested1: map<nat, int>, vestings2: Vestings, vested2: map<nat, int>, a: Account,
                                       b: Account, p: nat, v: nat)
    requires Spread(vestings, vested, vestings1, vested1, a, p) && Spread(vestings1, vested1, vestings2, vested2, b, v)
    requires b == a.(cashbackVb := b.cashbackVb)
    ensures SpreadBoth(vestings, vested, vestings2, vested2, a, p, v)
  {
    forall o: nat
      ensures OwnedTotal(vestings2, vested2, o) == OwnedTotal(vestings, vested, o) + a.ShareOf(p, o) + a.ShareOf(v, o)
    {
      assert OwnedTotal(vestings1, vested1, o) == OwnedTotal(vestings, vested, o) + a.ShareOf(p, o);
      assert b.ShareOf(v, o) == a.ShareOf(v, o);
    }
  }

  lemma {:induction false} NoShares(a: Account)
    ensures a.NetworkCut(0) == 0 && forall o: nat :: a.ShareOf(0, o) == 0
  {
  }

  lemma {:induction false} CashbackSet(accounts: Accounts, vestings: Vestings, account: nat, vb: nat)
    requires AccountsOk(accounts, vestings) && account in accounts && vb in vestings
    ensures AccountsOk(accounts[account := accounts[account].(cashbackVb := Some(vb))], vestings)
  {
    var accounts' := accounts[account := accounts[account].(cashbackVb := Some(vb))];
    forall a: nat
      ensures AccountOk(accounts', vestings, a)
    {
      assert AccountOk(accounts, vestings, a);
    }
  }

  lemma {:induction false} PayVbSet(payVb: map<nat, nat>, vestings: Vestings, w: nat, vb: nat)
    requires PaysOk(payVb, vestings) && vb in vestings
    ensures PaysOk(payVb[w := vb], vestings)
  {
    var payVb' := payVb[w := vb];
    forall x: nat
      ensures PayOk(payVb', vestings, x)
    {
      assert PayOk(payVb, vestings, x);
    }
  }

  lemma {:induction false} NonNegativeUpdate(m: map<nat, int>, k: nat, v: int)
    requires NonNegative(m) && v >= 0
    ensures NonNegative(m[k := v])
  {
    var m' := m[k := v];
    forall j: nat
      ensures InCredit(m', j)
    {
      assert InCredit(m, j);
    }
  }

  lemma {:induction false} NothingOwing()
    ensures NonNegative(map[]) && PaysOk(map[], map[]) && VestingsOk(map[], map[], 0)
  {
    forall k: nat
      ensures InCredit(map[], k) && PayOk(map[], map[], k) && VestingOk(map[], map[], 0, k)
    {
    }
  }

  class Ledger {
    // holdings
    var balances: map<nat, int>
    var vested: map<nat, int>
    var pending: map<nat, int>
    var pendingVested: map<nat, int>
    var exchangeFees: map<nat, int>
    var accumulatedFees: int
    var witnessBudget: int
    // supply
    var currentSupply: int
    var maxSupply: int
    var minerSupply: int
    var budgetSupply: int
    // the objects the holdings belong to
    var accounts: map<nat, Account>
    var vestings: map<nat, Vesting>
    var nextVesting: nat
    var payVb: map<nat, nat>
    var coupons: map<nat, int>
    var gatewayIssued: map<nat, int>
    var lastBudgetTime: nat
    // parameters
    var vestingThreshold: int
    var cashbackSeconds: nat
    var paySeconds: nat

    /**
     `init_genesis`: what the genesis state gives away waits outside these books to be claimed; without
     any of that the committee account has the whole supply.
     */
    constructor (accounts: Accounts, coupons: map<nat, int>, claims: nat, maxSupply: int, vestingThreshold: int,
                 cashbackSeconds: nat, paySeconds: nat)
      requires AccountsOk(accounts, map[]) && (if claims > 0 then claims else MAX_SHARE_SUPPLY) <= maxSupply
      ensures Valid() && Gap() == claims && lastBudgetTime == 0 && this.accounts == accounts
      ensures currentSupply == (if claims > 0 then claims else MAX_SHARE_SUPPLY) && minerSupply == 0
              && budgetSupply == 0
      ensures forall a: nat :: Get(balances, a) == if a == COMMITTEE_ACCOUNT && claims == 0 then MAX_SHARE_SUPPLY else 0
    {
      var whole := if claims > 0 then 0 else MAX_SHARE_SUPPLY;
      this.balances := map[COMMITTEE_ACCOUNT := whole];
      this.vested, this.pending, this.pendingVested, this.exchangeFees := map[], map[], map[], map[];
      this.accumulatedFees, this.witnessBudget := 0, 0;
      this.currentSupply, this.maxSupply := if claims > 0 then claims else MAX_SHARE_SUPPLY, maxSupply;
      this.minerSupply, this.budgetSupply := 0, 0;
      this.accounts, this.coupons, this.vestings, this.nextVesting := accounts, coupons, map[], 0;
      this.payVb, this.gatewayIssued, this.lastBudgetTime := map[], map[], 0;
      this.vestingThreshold, this.cashbackSeconds, this.paySeconds := vestingThreshold, cashbackSeconds, paySeconds;
      TotalIsSum(map[]);
      TotalUpdate(map[], COMMITTEE_ACCOUNT, whole);
      NothingOwing();
      NonNegativeUpdate(map[], COMMITTEE_ACCOUNT, whole);
    }

    /** Everything that exists of the core asset, as far as these books know. */
    ghost function Held(): int
      reads this
    {
      Total(balances) + Total(vested) + Total(pending) + Total(pendingVested) + Total(exchangeFees) + accumulatedFees
        + witnessBudget
    }

    /** Supply that is not held anywhere in these books; conservation means that it never changes. */
    ghost function Gap(): int
      reads this
    {
      currentSupply - Held()
    }

    /**
     What budgets draw on: nothing is negative, no supply is past its cap, no witness budget before the first
     maintenance.
     */
    ghost predicate Sound()
      reads this
    {
      && NonNegative(balances) && accumulatedFees >= 0 && witnessBudget >= 0
      && minerSupply <= MAX_SHARE_MINER && budgetSupply <= MAX_SHARE_BUDGET && currentSupply <= maxSupply
      && (lastBudgetTime == 0 ==> witnessBudget == 0)
    }

    /** Sound, and the vesting balances are in order. */
    ghost predicate Payable()
      reads this
    {
      Sound() && VestingsOk(vestings, vested, nextVesting)
    }

    ghost predicate Valid()
      reads this
    {
      && Payable() && NonNegative(pending) && NonNegative(pendingVested)
      && AccountsOk(accounts, vestings) && PaysOk(payVb, vestings)
    }

    /** `adjust_balance`; false stands for the insufficient-balance exception. */
    method AdjustBalance(account: nat, delta: int) returns (ok: bool)
      requires NonNegative(balances)
      modifies this`balances
      ensures NonNegative(balances)
      ensures ok <==> Get(old(balances), account) + delta >= 0
      ensures !ok ==> balances == old(balances)
      ensures ok ==> Total(balances) == old(Total(balances)) + delta
      ensures forall a: nat :: Get(balances, a) == Get(old(balances), a) + if ok && a == account then delta else 0
    {
      assert InCredit(balances, account);
      if delta == 0 {
        return true;
      }
      if account !in balances {
        if delta <= 0 {
          return false;
        }
        TotalUpdate(balances, account, delta);
        NonNegativeUpdate(balances, account, delta);
        balances := balances[account := delta];
      } else {
        if delta < 0 && balances[account] < -delta {
          return false;
        }
        TotalUpdate(balances, account, balances[account] + delta);
        NonNegativeUpdate(balances, account, balances[account] + delta);
        balances := balances[account := balances[account] + delta];
      }
      return true;
    }

    /** Whether a deposit can go into this vesting balance. */
    predicate Fits(vb: Option<nat>, seconds: nat, owner: nat)
      requires vb.Some? ==> vb.value in vestings
      reads this
    {
      vb.Some? && vestings[vb.value].owner == owner && vestings[vb.value].core && vestings[vb.value].coinDays
      && vestings[vb.value].seconds == seconds
    }

    /** `deposit_lazy_vesting`: into the given balance if it still fits, else into a new one. */
    method DepositLazyVesting(vb: Option<nat>, amount: nat, seconds: nat, owner: nat) returns (r: Option<nat>)
      requires VestingsOk(vestings, vested, nextVesting) && (vb.Some? ==> vb.value in vestings)
      modifies this`vested, this`vestings, this`nextVesting
      ensures VestingsOk(vestings, vested, nextVesting)
      ensures r == if amount == 0 || old(Fits(vb, seconds, owner)) then None else Some(old(nextVesting))
      ensures amount > 0 ==>
                (r.None? <==> vb.Some? && old(vestings)[vb.value] == Vesting(owner, true, true, seconds))
      ensures r.Some?
              ==> r.value !in old(vestings) && vestings == old(vestings)[r.value := Vesting(owner, true, true, seconds)]
      ensures r.None? ==> vestings == old(vestings)
      ensures vested == if amount == 0 then old(vested)
                        else if r.Some? then old(vested)[r.value := amount]
                        else old(vested)[vb.value := Get(old(vested), vb.value) + amount]
      ensures Total(vested) == old(Total(vested)) + amount
      ensures Deposited(old(vestings), old(vested), vestings, vested, owner, amount)
    {
      if amount == 0 {
        return None;
      }
      if vb.Some? {
        var v := vestings[vb.value];
        if v.owner == owner && v.core && v.coinDays && v.seconds == seconds {
          assert VestingOk(vestings, vested, nextVesting, vb.value);
          TotalUpdate(vested, vb.value, vested[vb.value] + amount);
          DepositedUpdate(vestings, vested, vb.value, v, vested[vb.value] + amount);
          VestingsGrow(vestings, vested, nextVesting, vb.value, v, vested[vb.value] + amount);
          assert vestings[vb.value := v] == vestings;
          vested := vested[vb.value := vested[vb.value] + amount];
          return None;
        }
      }
      var id := nextVesting;
      VestingsGrow(vestings, vested, nextVesting, id, Vesting(owner, true, true, seconds), amount);
      TotalUpdate(vested, id, amount);
      DepositedUpdate(vestings, vested, id, Vesting(owner, true, true, seconds), amount);
      vestings := vestings[id := Vesting(owner, true, true, seconds)];
      vested := vested[id := amount];
      nextVesting := id + 1;
      return Some(id);
    }

    /** `deposit_cashback`: what the chain's own accounts would get leaves the supply. */
    method DepositCashback(account: nat, amount: nat)
      requires Valid() && account in accounts
      modifies this`vested, this`vestings, this`nextVesting, this`accounts, this`currentSupply
      ensures Valid() && SameShares(old(accounts), accounts) && old(vested).Keys <= vested.Keys
      ensures Deposited(old(vestings), old(vested), vestings, vested, account, Cashback(account, amount))
      ensures Total(vested) == old(Total(vested)) + Cashback(account, amount)
      ensures currentSupply == old(currentSupply) - (amount - Cashback(account, amount))
    {
      if amount == 0 {
        return;
      }
      if account in CHAIN_ACCOUNTS {
        currentSupply := currentSupply - amount;
        return;
      }
      assert AccountOk(accounts, vestings, account);
      ghost var was := vestings;
      var created := DepositLazyVesting(accounts[account].cashbackVb, amount, cashbackSeconds, account);
      ReferencesSurvive(accounts, payVb, was, vestings);
      if created.Some? {
        CashbackSet(accounts, vestings, account, created.value);
        accounts := accounts[account := accounts[account].(cashbackVb := created)];
      }
    }

    /** `deposit_witness_pay`. */
    method DepositWitnessPay(signer: nat, owner: nat, amount: nat)
      requires Valid()
      modifies this`vested, this`vestings, this`nextVesting, this`payVb
      ensures Valid() && Total(vested) == old(Total(vested)) + amount && old(vested).Keys <= vested.Keys
      ensures Deposited(old(vestings), old(vested), vestings, vested, owner, amount)
    {
      if amount == 0 {
        return;
      }
      assert PayOk(payVb, vestings, signer);
      ghost var was := vestings;
      var created :=
          DepositLazyVesting(if signer in payVb then Some(payVb[signer]) else None, amount, paySeconds, owner);
      ReferencesSurvive(accounts, payVb, was, vestings);
      if created.Some? {
        PayVbSet(payVb, vestings, signer, created.value);
        payVb := payVb[signer := created.value];
      }
    }

    /** `update_signing_witness`: a block's pay moves from the witness budget to vesting. */
    method PayForBlock(signer: nat, owner: nat, payPerBlock: nat) returns (pay: nat)
      requires Valid()
      modifies this`witnessBudget, this`vested, this`vestings, this`nextVesting, this`payVb
      ensures Valid() && pay == Min(payPerBlock, old(witnessBudget))
      ensures witnessBudget == old(witnessBudget) - pay && Gap() == old(Gap())
      ensures old(vested).Keys <= vested.Keys
      ensures Deposited(old(vestings), old(vested), vestings, vested, owner, pay)
    {
      pay := Min(payPerBlock, witnessBudget);
      witnessBudget := witnessBudget - pay;
      DepositWitnessPay(signer, owner, pay);
    }

    /** `account_statistics_object::pay_fee`. */
    method CreditFee(payer: nat, amount: nat)
      requires NonNegative(pending) && NonNegative(pendingVested)
      modifies this`pending, this`pendingVested
      ensures NonNegative(pending) && NonNegative(pendingVested)
      ensures pending == if amount > vestingThreshold then old(pending)[payer := Get(old(pending), payer) + amount]
              else old(pending)
      ensures pendingVested == if amount > vestingThreshold then old(pendingVested)
                               else old(pendingVested)[payer := Get(old(pendingVested), payer) + amount]
      ensures Total(pending) + Total(pendingVested) == old(Total(pending)) + old(Total(pendingVested)) + amount
    {
      assert InCredit(pending, payer) && InCredit(pendingVested, payer);
      if amount > vestingThreshold {
        TotalUpdate(pending, payer, Get(pending, payer) + amount);
        NonNegativeUpdate(pending, payer, Get(pending, payer) + amount);
        pending := pending[payer := Get(pending, payer) + amount];
      } else {
        TotalUpdate(pendingVested, payer, Get(pendingVested, payer) + amount);
        NonNegativeUpdate(pendingVested, payer, Get(pendingVested, payer) + amount);
        pendingVested := pendingVested[payer := Get(pendingVested, payer) + amount];
      }
    }

    /**
     The fee of one operation, through `prepare_fee`, `pay_fee` and `db_adjust_balance`. A fee field
     of 1 asks for the scheduled fee: that is what is credited, but 1 is what is debited. A failed
     debit throws, and the transaction leaves no trace.
     */
    method PayFee(payer: nat, fee: int, required: int, isCoupon: bool) returns (ok: bool)
      requires Valid()
      modifies this`pending, this`pendingVested, this`balances, this`coupons
      ensures Valid()
      ensures ok <==> FeeAccepted(fee, required)
                      && (old(UsesCoupon(payer, fee, required, isCoupon)) || Get(old(balances), payer) >= fee)
      ensures Gap() == old(Gap())
              - if ok && !old(UsesCoupon(payer, fee, required, isCoupon)) then Credited(fee, required) - fee else 0
      ensures if ok && old(UsesCoupon(payer, fee, required, isCoupon))
              then coupons == old(coupons)[payer := Get(old(coupons), payer) - fee]
              else coupons == old(coupons)
      ensures if ok && !old(UsesCoupon(payer, fee, required, isCoupon))
              then FeeTaken(old(Fees()), Fees(), payer, fee, Credited(fee, required), vestingThreshold)
              else Fees() == old(Fees())
    {
      if fee < 0 {
        return false;
      }
      var credited := fee;
      if fee == 1 {
        credited := required;
        if credited <= 0 {
          return false;
        }
      } else if credited < required {
        return false;
      }
      if isCoupon || Get(coupons, payer) >= credited {
        coupons := coupons[payer := Get(coupons, payer) - fee];
        return true;
      }
      ok := Charge(payer, fee, credited);
    }

    /** Credits a fee and debits what the fee field says; a failed debit throws. */
    method Charge(payer: nat, fee: int, credited: nat) returns (ok: bool)
      requires NonNegative(balances) && NonNegative(pending) && NonNegative(pendingVested)
      modifies this`pending, this`pendingVested, this`balances
      ensures NonNegative(balances) && NonNegative(pending) && NonNegative(pendingVested)
      ensures ok <==> Get(old(balances), payer) >= fee
      ensures if ok then FeeTaken(old(Fees()), Fees(), payer, fee, credited, vestingThreshold)
              else Fees() == old(Fees())
      ensures Total(pending) + Total(pendingVested) + Total(balances)
              == old(Total(pending)) + old(Total(pendingVested)) + old(Total(balances))
                + if ok then credited - fee else 0
    {
      var undo := (pending, pendingVested);
      CreditFee(payer, credited);
      ok := AdjustBalance(payer, -fee);
      if !ok {
        pending, pendingVested := undo.0, undo.1;
      }
    }

    ghost function Fees(): FeeBooks
      reads this
    {
      FeeBooks(balances, pending, pendingVested)
    }

    predicate UsesCoupon(payer: nat, fee: int, required: int, isCoupon: bool)
      reads this
    {
      isCoupon || Get(coupons, payer) >= Credited(fee, required)
    }

    /** `pay_out_fees`: network cut, lifetime cut, referrer cut, and the registrar has the rest. */
    method PayOutFees(account: nat, total: nat)
      requires Valid() && account in accounts
      modifies this`accumulatedFees, this`vested, this`vestings, this`nextVesting, this`accounts, this`currentSupply
      ensures Valid() && SameShares(old(accounts), accounts) && old(vested).Keys <= vested.Keys
      ensures accumulatedFees == old(accumulatedFees) + old(accounts)[account].NetworkCut(total)
      ensures Spread(old(vestings), old(vested), vestings, vested, old(accounts)[account], total)
      ensures currentSupply - Total(vested) - accumulatedFees
              == old(currentSupply) - old(Total(vested)) - old(accumulatedFees) - total
      ensures currentSupply <= old(currentSupply)
    {
      assert AccountOk(accounts, vestings, account);
      var a := accounts[account];
      a.SharesFit(total);
      var networkCut := CutFee(total, a.networkPercent);
      var lifetimeCut := CutFee(total, a.lifetimePercent);
      var referral := total - networkCut - lifetimeCut;
      accumulatedFees := accumulatedFees + networkCut;
      var referrerCut := CutFee(referral, a.referrerPercent);
      DepositCashback(a.lifetimeReferrer, lifetimeCut);
      ghost var vestings1, vested1 := vestings, vested;
      DepositCashback(a.referrer, referrerCut);
      ghost var vestings2, vested2 := vestings, vested;
      DepositCashback(a.registrar, referral - referrerCut);
      DepositedThrice(old(vestings), old(vested), vestings1, vested1, vestings2, vested2, vestings, vested, a, total);
    }

    method ClearPending(account: nat)
      requires NonNegative(pending) && NonNegative(pendingVested)
      modifies this`pending, this`pendingVested
      ensures NonNegative(pending) && NonNegative(pendingVested)
      ensures pending == old(pending)[account := 0] && pendingVested == old(pendingVested)[account := 0]
      ensures Total(pending) == old(Total(pending)) - old(Get(pending, account))
      ensures Total(pendingVested) == old(Total(pendingVested)) - old(Get(pendingVested, account))
    {
      TotalUpdate(pending, account, 0);
      TotalUpdate(pendingVested, account, 0);
      NonNegativeUpdate(pending, account, 0);
      NonNegativeUpdate(pendingVested, account, 0);
      pending := pending[account := 0];
      pendingVested := pendingVested[account := 0];
    }

    /** Both kinds of pending fees of an account. */
    method PayOutBoth(account: nat, p: nat, v: nat)
      requires Valid() && account in accounts
      modifies this`accumulatedFees, this`vested, this`vestings, this`nextVesting, this`accounts, this`currentSupply
      ensures Valid() && SameShares(old(accounts), accounts) && old(vested).Keys <= vested.Keys
      ensures accumulatedFees
              == old(accumulatedFees) + old(accounts)[account].NetworkCut(p) + old(accounts)[account].NetworkCut(v)
      ensures SpreadBoth(old(vestings), old(vested), vestings, vested, old(accounts)[account], p, v)
      ensures currentSupply - Total(vested) - accumulatedFees
              == old(currentSupply) - old(Total(vested)) - old(accumulatedFees) - p - v
      ensures currentSupply <= old(currentSupply)
    {
      PayOutFees(account, p);
      ghost var a := accounts[account];
      ghost var midVestings, midVested := vestings, vested;
      PayOutFees(account, v);
      SpreadTwice(old(vestings), old(vested), midVestings, midVested, vestings, vested,
                  old(accounts)[account], a, p, v);
    }

    /** `process_fees`: the whole of what is pending is paid out, and nothing is lost to rounding. */
    method ProcessFees(account: nat)
      requires Valid() && account in accounts
      modifies this`pending, this`pendingVested, this`accumulatedFees, this`vested, this`vestings, this`nextVesting,
               this`accounts, this`currentSupply
      ensures Valid() && Gap() == old(Gap()) && SameShares(old(accounts), accounts) && old(vested).Keys <= vested.Keys
      ensures Cleared(old(pending), pending, account) && Cleared(old(pendingVested), pendingVested, account)
      ensures SpreadBoth(old(vestings), old(vested), vestings, vested, old(accounts)[account], old(Pending(account)),
                         old(PendingVested(account)))
      ensures accumulatedFees == old(accumulatedFees) + old(accounts)[account].NetworkCut(old(Pending(account)))
                                 + old(accounts)[account].NetworkCut(old(PendingVested(account)))
    {
      var p, v := Pending(account), PendingVested(account);
      if p > 0 || v > 0 {
        PayOutBoth(account, p, v);
        ClearPending(account);
      } else {
        NoShares(accounts[account]);
      }
    }

    function Pending(account: nat): nat
      requires NonNegative(pending)
      reads this
    {
      assert InCredit(pending, account);
      Get(pending, account)
    }

    function PendingVested(account: nat): nat
      requires NonNegative(pendingVested)
      reads this
    {
      assert InCredit(pendingVested, account);
      Get(pendingVested, account)
    }

    /**
     `budget_miners`: the witness budget up to the next maintenance, from fees first and then from new
     supply. When the caps leave no new supply, the fees are still added to the budget but stay in the
     books as fees.
     */
    method BudgetMiners(now: nat, full: nat) returns (budget: int)
      requires Sound()
      modifies this`accumulatedFees, this`currentSupply, this`minerSupply
      ensures Sound()
      ensures minerSupply == old(minerSupply) + NewMinerSupply(old(View()), now, full)
      ensures currentSupply == old(currentSupply) + NewMinerSupply(old(View()), now, full)
      ensures if TooEarly(old(View()), now) then budget == 0 && accumulatedFees == old(accumulatedFees)
              else 0 <= budget <= full && (budget < full ==> MinerRoom() == 0 || SupplyRoom() == 0)
      ensures accumulatedFees ==
              if TooEarly(old(View()), now) || (old(accumulatedFees) < full - old(witnessBudget)
                                                && NewMinerSupply(old(View()), now, full) <= 0)
              then old(accumulatedFees)
              else Max(old(accumulatedFees) - (full - old(witnessBudget)), 0)
      ensures accumulatedFees + budget == old(accumulatedFees) + old(witnessBudget)
              + NewMinerSupply(old(View()), now, full) + MinerDrift(old(View()), now, full)
    {
      var unused := witnessBudget;
      if lastBudgetTime == 0 || now <= lastBudgetTime {
        return 0;
      }
      budget := full - unused;
      if accumulatedFees >= budget {
        accumulatedFees := accumulatedFees - budget;
      } else {
        var supply := budget - accumulatedFees;
        var fees := accumulatedFees;
        if supply > MAX_SHARE_MINER - minerSupply {
          supply := MAX_SHARE_MINER - minerSupply;
        }
        if supply > maxSupply - currentSupply {
          supply := maxSupply - currentSupply;
        }
        if supply > 0 {
          currentSupply := currentSupply + supply;
          minerSupply := minerSupply + supply;
          accumulatedFees := 0;
        }
        budget := supply + fees;
      }
      budget := budget + unused;
    }

    function MinerRoom(): int
      reads this
    {
      MAX_SHARE_MINER - minerSupply
    }

    function BudgetRoom(): int
      reads this
    {
      MAX_SHARE_BUDGET - budgetSupply
    }

    function SupplyRoom(): int
      reads this
    {
      maxSupply - currentSupply
    }

    /**
     The middle of `pay_workers`: the money for the payroll, from the platform account first and then
     from new supply. When the caps leave no new supply, what the platform account holds is paid out
     but not debited.
     */
    method FundWorkers(wanted: nat) returns (budget: int)
      requires Sound()
      modifies this`balances, this`currentSupply, this`budgetSupply
      ensures Sound() && 0 <= budget <= wanted
      ensures budget < wanted ==> BudgetRoom() == 0 || SupplyRoom() == 0
      ensures var made := NewSupply(wanted, Get(old(balances), PLATFORM_ACCOUNT), old(BudgetRoom()), old(SupplyRoom()));
              && budgetSupply == old(budgetSupply) + made && currentSupply == old(currentSupply) + made
              && made - Total(balances) - budget == -old(Total(balances))
                 - Unbacked(wanted, Get(old(balances), PLATFORM_ACCOUNT), old(BudgetRoom()), old(SupplyRoom()))
      ensures forall a: nat :: a != PLATFORM_ACCOUNT ==> Get(balances, a) == Get(old(balances), a)
      ensures Funded(wanted, Get(old(balances), PLATFORM_ACCOUNT), budgetSupply - old(budgetSupply), budget,
                     Get(old(balances), PLATFORM_ACCOUNT) - Get(balances, PLATFORM_ACCOUNT))
    {
      budget := wanted;
      var platform := Get(balances, PLATFORM_ACCOUNT);
      assert InCredit(balances, PLATFORM_ACCOUNT);
      if platform >= budget {
        var ok := AdjustBalance(PLATFORM_ACCOUNT, -budget);
      } else {
        var supply := budget - platform;
        if supply > MAX_SHARE_BUDGET - budgetSupply {
          supply := MAX_SHARE_BUDGET - budgetSupply;
        }
        if supply > maxSupply - currentSupply {
          supply := maxSupply - currentSupply;
        }
        if supply > 0 {
          currentSupply := currentSupply + supply;
          budgetSupply := budgetSupply + supply;
          var ok := AdjustBalance(PLATFORM_ACCOUNT, -platform);
        }
        budget := supply + platform;
      }
    }

    /** The books that workers are paid from and into. */
    ghost function Pays(): PayBooks
      reads this
    {
      PayBooks(currentSupply, balances, vested, exchangeFees)
    }

    /** `pay_worker` of the four kinds of worker. */
    method PayWorker(kind: WorkerKind, pay: nat)
      requires Payable() && pay > 0 && (kind.Vest? ==> kind.balance in vested)
      modifies this`currentSupply, this`vested, this`balances, this`exchangeFees
      ensures Payable() && Gap() == old(Gap()) - pay && vested.Keys == old(vested).Keys
      ensures PaidOne(old(Pays()), Pays(), kind, pay)
    {
      match kind {
        case Refund =>
          currentSupply := currentSupply - pay;
        case Vest(v) =>
          TotalUpdate(vested, v, vested[v] + pay);
          assert VestingOk(vestings, vested, nextVesting, v);
          VestingsGrow(vestings, vested, nextVesting, v, vestings[v], vested[v] + pay);
          assert vestings[v := vestings[v]] == vestings;
          vested := vested[v := vested[v] + pay];
        case Burn =>
          assert InCredit(balances, NULL_ACCOUNT);
          var ok := AdjustBalance(NULL_ACCOUNT, pay);
        case Exchange(a) =>
          TotalUpdate(exchangeFees, a, Get(exchangeFees, a) + pay);
          exchangeFees := exchangeFees[a := Get(exchangeFees, a) + pay];
      }
    }

    /** The second half of `pay_workers`: first come, first served, by rank. All of the budget is handed out. */
    method PayByRank(ranked: seq<Worker>, budget: nat, distance: nat)
      requires Payable() && WorkersOk(ranked, vested) && budget <= Requested(ranked, distance)
      modifies this`currentSupply, this`vested, this`balances, this`exchangeFees
      ensures Payable() && Gap() == old(Gap()) - budget && vested.Keys == old(vested).Keys
      ensures PaidByRank(old(Pays()), Pays(), ranked, budget, distance, |ranked|)
    {
      var paid := 0;
      PaidNobody(Pays(), ranked, budget, distance);
      for i := 0 to |ranked|
        invariant Payable() && vested.Keys == old(vested).Keys
        invariant paid == Min(budget, Requested(ranked[..i], distance)) && Gap() == old(Gap()) - paid
        invariant PaidByRank(old(Pays()), Pays(), ranked, budget, distance, i)
      {
        assert ranked[..i + 1][..i] == ranked[..i];
        var requested := ranked[i].Budget(distance);
        var pay := Min(budget - paid, requested);
        ghost var before := Pays();
        if pay > 0 {
          PayWorker(ranked[i].kind, pay);
          paid := paid + pay;
        }
        PaidNext(old(Pays()), before, Pays(), ranked, budget, distance, i, pay);
      }
      assert ranked[..|ranked|] == ranked;
    }

    /** The active workers are ranked, and share the budget first come, first served. */
    method HandOut(workers: seq<Worker>, budget: nat, distance: nat)
      returns (ghost ranked: seq<Worker>, ghost pays: seq<nat>)
      requires Payable() && WorkersOk(workers, vested) && budget <= Requested(Active(workers), distance)
      modifies this`currentSupply, this`vested, this`balances, this`exchangeFees
      ensures Payable() && Gap() == old(Gap()) - budget && vested.Keys == old(vested).Keys
      ensures PaidInOrder(workers, ranked, pays, distance) && SumOf(pays) == budget
      ensures pays == Payouts(ranked, budget, distance)
      ensures PaidByRank(old(Pays()), Pays(), ranked, budget, distance, |ranked|)
    {
      ranked := Ranked(Active(workers));
      pays := Payouts(ranked, budget, distance);
      RankedAsksTheSame(Active(workers), distance);
      PayoutsInOrder(workers, ranked, pays, budget, distance);
      PayoutsAddUp(ranked, pays, budget, distance);
      if budget > 0 {
        RankedWorkersOk(workers, vested);
        PayByRank(Ranked(Active(workers)), budget, distance);
      } else {
        NothingPaid(Pays(), ranked, distance);
      }
    }

    /**
     The whole of `pay_workers`. The pays of the ranked workers add up to the budget, and go where the kinds
     of the workers say; what the platform account loses and what is new supply pays for them, unless a cap
     leaves no new supply.
     */
    method PayWorkers(workers: seq<Worker>, wanted: nat, distance: nat)
      returns (ghost ranked: seq<Worker>, ghost pays: seq<nat>, ghost debited: int)
      requires Payable() && WorkersOk(workers, vested) && wanted <= Requested(Active(workers), distance)
      modifies this`currentSupply, this`budgetSupply, this`balances, this`vested, this`exchangeFees
      ensures Payable() && vested.Keys == old(vested).Keys
      ensures budgetSupply == old(budgetSupply)
              + NewSupply(wanted, Get(old(balances), PLATFORM_ACCOUNT), old(BudgetRoom()), old(SupplyRoom()))
      ensures Gap() == old(Gap())
              - Unbacked(wanted, Get(old(balances), PLATFORM_ACCOUNT), old(BudgetRoom()), old(SupplyRoom()))
      ensures PaidInOrder(workers, ranked, pays, distance)
      ensures Funded(wanted, Get(old(balances), PLATFORM_ACCOUNT), budgetSupply
                     - old(budgetSupply), SumOf(pays), debited)
      ensures PayrollMet(old(Pays()), Pays(), budgetSupply - old(budgetSupply), debited, ranked, pays)
    {
      var budget := FundWorkers(wanted);
      ghost var funded := Pays();
      debited := Get(old(balances), PLATFORM_ACCOUNT) - Get(balances, PLATFORM_ACCOUNT);
      ranked, pays := HandOut(workers, budget, distance);
      RankMeetsPayroll(old(Pays()), funded, Pays(), budgetSupply - old(budgetSupply), debited, ranked, pays, budget,
                       distance);
    }

    /** `process_budget`, once what the witnesses and the workers need is known. */
    method ProcessBudget(now: nat, full: nat, workers: seq<Worker>, wanted: nat, distance: nat)
      returns (ghost ranked: seq<Worker>, ghost pays: seq<nat>, ghost debited: int)
      requires Payable() && now > lastBudgetTime
      requires WorkersOk(workers, vested) && wanted <= Requested(Active(workers), distance)
      modifies this`accumulatedFees, this`currentSupply, this`minerSupply, this`budgetSupply, this`balances,
               this`vested, this`exchangeFees, this`witnessBudget, this`lastBudgetTime
      ensures Payable() && lastBudgetTime == now && vested.Keys == old(vested).Keys
      ensures minerSupply == old(minerSupply) + NewMinerSupply(old(View()), now, full)
      ensures budgetSupply == old(budgetSupply) + NewWorkerSupply(old(View()), now, full, wanted)
      ensures Gap() == old(Gap()) - MinerDrift(old(View()), now, full) - WorkerDrift(old(View()), now, full, wanted)
      ensures PaidInOrder(workers, ranked, pays, distance)
      ensures Funded(wanted, Get(old(balances), PLATFORM_ACCOUNT), budgetSupply
                     - old(budgetSupply), SumOf(pays), debited)
      ensures PayrollMet(old(Pays()), Pays(), minerSupply - old(minerSupply) + budgetSupply
                         - old(budgetSupply), debited,
                         ranked, pays)
    {
      var budget := BudgetMiners(now, full);
      ranked, pays, debited := PayWorkers(workers, wanted, distance);
      witnessBudget := budget;
      lastBudgetTime := now;
    }

    /** `gateway_issue_currency_evaluator` for the core asset. */
    method GatewayIssue(account: nat, amount: int, revoke: bool) returns (ok: bool)
      requires Sound() && amount >= 0
      modifies this`balances, this`currentSupply, this`budgetSupply, this`gatewayIssued
      ensures Sound() && Gap() == old(Gap())
      ensures ok <==> old(if revoke
                          then account in gatewayIssued
                               && amount <= Min(Min(Get(balances, account), currentSupply), gatewayIssued[account])
                          else amount <= Min(maxSupply - currentSupply, MAX_SHARE_BUDGET - budgetSupply))
      ensures var moved := if !ok then 0 else if revoke then -amount else amount;
              && currentSupply == old(currentSupply) + moved && budgetSupply == old(budgetSupply) + moved
              && (forall a: nat :: Get(balances, a) == Get(old(balances), a) + if a == account then moved else 0)
              && (forall a: nat ::
                    Get(gatewayIssued, a) == Get(old(gatewayIssued), a) + if a == account then moved else 0)
    {
      if revoke {
        if account !in gatewayIssued || amount > Get(balances, account) || amount > currentSupply
           || amount > gatewayIssued[account] {
          return false;
        }
        ok := AdjustBalance(account, -amount);
        currentSupply := currentSupply - amount;
        gatewayIssued := gatewayIssued[account := gatewayIssued[account] - amount];
        budgetSupply := budgetSupply - amount;
      } else {
        if maxSupply < currentSupply || amount > maxSupply - currentSupply || amount > MAX_SHARE_BUDGET - budgetSupply {
          return false;
        }
        assert InCredit(balances, account);
        ok := AdjustBalance(account, amount);
        currentSupply := currentSupply + amount;
        gatewayIssued := gatewayIssued[account := Get(gatewayIssued, account) + amount];
        budgetSupply := budgetSupply + amount;
      }
    }

    /** `asset_reserve_evaluator`: back to the reserve. */
    method Reserve(payer: nat, amount: int) returns (ok: bool)
      requires Sound() && amount >= 0
      modifies this`balances, this`currentSupply
      ensures Sound() && Gap() == old(Gap())
      ensures ok <==> old(currentSupply) >= amount && Get(old(balances), payer) >= amount
      ensures currentSupply == old(currentSupply) - if ok then amount else 0
      ensures PaidFrom(old(balances), balances, payer, if ok then amount else 0)
    {
      if currentSupply - amount < 0 {
        return false;
      }
      ok := AdjustBalance(payer, -amount);
      if ok {
        currentSupply := currentSupply - amount;
      }
    }

    /** `asset_claim_fees_evaluator`, and with `back` its opposite, `asset_reserve_fees_evaluator`. */
    method MoveFees(issuer: nat, amount: int, back: bool) returns (ok: bool)
      requires Sound() && amount >= 0
      modifies this`balances, this`accumulatedFees
      ensures Sound() && Gap() == old(Gap())
      ensures ok <==> amount <= if back then Get(old(balances), issuer) else old(accumulatedFees)
      ensures accumulatedFees == old(accumulatedFees) + if !ok then 0 else if back then amount else -amount
      ensures PaidFrom(old(balances), balances, issuer, if !ok then 0 else if back then amount else -amount)
    {
      assert InCredit(balances, issuer);
      if back {
        ok := AdjustBalance(issuer, -amount);
        if ok {
          accumulatedFees := accumulatedFees + amount;
        }
      } else {
        if amount > accumulatedFees {
          return false;
        }
        accumulatedFees := accumulatedFees - amount;
        ok := AdjustBalance(issuer, amount);
      }
    }

    ghost function View(): Books
      reads this
    {
      Books(balances, coupons, accumulatedFees, witnessBudget, currentSupply, maxSupply, minerSupply, budgetSupply,
            lastBudgetTime, Gap())
    }

    /** The operations that move core asset by hand. */
    method Move(op: Operation) returns (ok: bool)
      requires Sound() && (op.Gateway? || op.Burned? || op.Fees?)
      modifies this`balances, this`currentSupply, this`budgetSupply, this`gatewayIssued, this`accumulatedFees
      ensures Sound() && Gap() == old(Gap())
    {
      match op
      case Gateway(account, amount, revoke) => ok := GatewayIssue(account, amount, revoke);
      case Burned(payer, amount) => ok := Reserve(payer, amount);
      case Fees(issuer, amount, back) => ok := MoveFees(issuer, amount, back);
    }

    /** What happens without anyone asking for it: fees are distributed, blocks are paid for. */
    method Settle(op: Operation)
      requires Valid() && (op.Distribute? || op.Produce?) && Performable(op, accounts.Keys, vested)
      modifies this`pending, this`pendingVested, this`accumulatedFees, this`vested, this`vestings, this`nextVesting,
               this`accounts, this`currentSupply, this`witnessBudget, this`payVb
      ensures Valid() && Gap() == old(Gap())
      ensures accounts.Keys == old(accounts).Keys && old(vested).Keys <= vested.Keys
    {
      match op
      case Distribute(account) => ProcessFees(account);
      case Produce(signer, owner, pay) => var _ := PayForBlock(signer, owner, pay);
    }

    method PerformMaintenance(m: Maintenance)
      requires Payable() && WorkersOk(m.workers, vested) && m.now > lastBudgetTime
      modifies this`accumulatedFees, this`currentSupply, this`minerSupply, this`budgetSupply, this`balances,
               this`vested, this`exchangeFees, this`witnessBudget, this`lastBudgetTime
      ensures Payable() && lastBudgetTime == m.now && vested.Keys == old(vested).Keys
      ensures Gap() == old(Gap()) - Drift(old(View()), Maintain(m))
    {
      ghost var ranked, pays, debited :=
        ProcessBudget(m.now, m.FullPay(), m.workers, m.WorkerBudget(lastBudgetTime), m.Distance(lastBudgetTime));
    }

    /** One operation, or one step of block production; false stands for an exception, which leaves no trace. */
    method Perform(op: Operation) returns (ok: bool)
      requires Valid() && Performable(op, accounts.Keys, vested) && (op.Maintain? ==> op.m.now > lastBudgetTime)
      modifies this
      ensures Valid() && Gap() == old(Gap()) - Drift(old(View()), op)
      ensures accounts.Keys == old(accounts).Keys && old(vested).Keys <= vested.Keys
      ensures maxSupply == old(maxSupply) && lastBudgetTime == if op.Maintain? then op.m.now else old(lastBudgetTime)
    {
      ok := true;
      match op {
        case Fee(payer, fee, required, isCoupon) => ok := PayFee(payer, fee, required, isCoupon);
        case Maintain(m) => PerformMaintenance(m);
        case Distribute(_) => Settle(op);
        case Produce(_, _, _) => Settle(op);
        case _ => ok := Move(op);
      }
    }

    /**
     Conservation over a run: the gap between supply and holdings moves by exactly the drifts, so it is
     the same at the end if every operation conserves where it takes place.
     */
    method Run(ops: seq<Operation>) returns (ghost trace: seq<Books>)
      requires Valid() && InTime(ops, lastBudgetTime)
      requires forall i :: 0 <= i < |ops| ==> Performable(ops[i], accounts.Keys, vested)
      modifies this
      ensures Valid() && |trace| == |ops| + 1 && trace[0] == old(View()) && trace[|ops|] == View()
      ensures Gap() == old(Gap()) - DriftSum(trace[..|ops|], ops)
      ensures (forall i :: 0 <= i < |ops| ==> Conserves(trace[i], ops[i])) ==> Gap() == old(Gap())
    {
      trace := [View()];
      for i := 0 to |ops|
        invariant Valid() && InTime(ops[i..], lastBudgetTime)
        invariant accounts.Keys == old(accounts).Keys && old(vested).Keys <= vested.Keys
        invariant |trace| == i + 1 && trace[0] == old(View()) && trace[i] == View()
        invariant forall j :: 0 <= j <= i ==> BooksOk(trace[j])
        invariant forall j :: 0 <= j < i && ops[j].Maintain? ==> ops[j].m.now > trace[j].lastBudgetTime
        invariant Gap() == old(Gap()) - DriftSum(trace[..i], ops[..i])
      {
        assert Performable(ops[i], old(accounts.Keys), old(vested));
        assert ops[i..][0] == ops[i] && ops[i..][1..] == ops[i + 1..];
        var ok := Perform(ops[i]);
        trace := trace + [View()];
        assert trace[..i + 1][..i] == trace[..i] && ops[..i + 1][..i] == ops[..i];
      }
      assert ops[..|ops|] == ops;
      if forall i :: 0 <= i < |ops| ==> Conserves(trace[i], ops[i]) {
        ConservingRun(trace[..|ops|], ops);
      }
    }
  }

  /** One entry is zero, and no other has changed. */
  ghost predicate Cleared(m: map<nat, int>, m': map<nat, int>, k: nat) {
    forall j: nat :: Get(m', j) == if j == k then 0 else Get(m, j)
  }

  /** One balance is lower by an amount, and no other has changed. */
  ghost predicate PaidFrom(m: map<nat, int>, m': map<nat, int>, payer: nat, amount: int) {
    forall a: nat :: Get(m', a) == Get(m, a) - if a == payer then amount else 0
  }

  datatype PayBooks = PayBooks(supply: int, balances: map<nat, int>, vested: map<nat, int>, exchangeFees: map<nat, int>)

  /** One worker's pay has gone to the one place that its kind says, and nothing else has changed. */
  ghost predicate PaidOne(x: PayBooks, y: PayBooks, kind: WorkerKind, pay: nat) {
    && y.supply == x.supply - (if kind == Refund then pay else 0)
    && (forall a: nat ::
          Get(y.balances, a) == Get(x.balances, a) + if kind == Burn && a == NULL_ACCOUNT then pay else 0)
    && (forall v: nat :: Get(y.vested, v) == Get(x.vested, v) + if kind == Vest(v) then pay else 0)
    && (forall a: nat :: Get(y.exchangeFees, a) == Get(x.exchangeFees, a) + if kind == Exchange(a) then pay else 0)
  }

  /** The first n in rank have been paid: every place has the shares of its workers more. */
  ghost predicate PaidByRank(x: PayBooks, y: PayBooks, ranked: seq<Worker>, budget: nat, distance: nat, n: nat)
    requires n <= |ranked|
  {
    && y.supply == x.supply - Share(ranked, budget, distance, Refund, n)
    && (forall a: nat :: Get(y.balances, a) == Get(x.balances, a)
                         + if a == NULL_ACCOUNT then Share(ranked, budget, distance, Burn, n) else 0)
    && (forall v: nat :: Get(y.vested, v) == Get(x.vested, v) + Share(ranked, budget, distance, Vest(v), n))
    && (forall a: nat ::
          Get(y.exchangeFees, a) == Get(x.exchangeFees, a) + Share(ranked, budget, distance, Exchange(a), n))
  }

  lemma {:induction false} PaidNobody(x: PayBooks, ranked: seq<Worker>, budget: nat, distance: nat)
    ensures PaidByRank(x, x, ranked, budget, distance, 0)
  {
    assert forall kind: WorkerKind :: Share(ranked, budget, distance, kind, 0) == 0;
  }

  lemma {:induction false} PaidNext(x: PayBooks, y: PayBooks, z: PayBooks, ranked: seq<Worker>, budget: nat,
                                    distance: nat, n: nat, pay: nat)
    requires n < |ranked| && PaidByRank(x, y, ranked, budget, distance, n) && pay == Payout(ranked, budget, distance, n)
    requires if pay > 0 then PaidOne(y, z, ranked[n].kind, pay) else z == y
    ensures PaidByRank(x, z, ranked, budget, distance, n + 1)
  {
    assert forall kind: WorkerKind {:trigger Share(ranked, budget, distance, kind, n)} ::
        Share(ranked, budget, distance, kind, n + 1)
        == Share(ranked, budget, distance, kind, n) + if ranked[n].kind == kind then pay else 0;
  }

  /**
   What a payroll is paid from: the platform account alone if that has enough, and else new supply beside it,
   in which case the platform account is emptied, but only if there is any new supply at all.
   */
  predicate Funded(wanted: int, platform: int, made: int, budget: int, debited: int) {
    if platform >= wanted then made == 0 && budget == debited == wanted
    else made >= 0 && budget == platform + made <= wanted && debited == if made > 0 then platform else 0
  }

  /** The pays have gone to the places that the kinds of the workers say. */
  ghost predicate PayrollMet(x: PayBooks, y: PayBooks, made: int, debited: int, ranked: seq<Worker>, pays: seq<nat>)
    requires |ranked| == |pays|
  {
    && y.supply == x.supply + made - KindSum(ranked, pays, Refund)
    && (forall a: nat :: Get(y.balances, a)
                         == Get(x.balances, a) - (if a == PLATFORM_ACCOUNT then debited else 0)
                            + if a == NULL_ACCOUNT then KindSum(ranked, pays, Burn) else 0)
    && (forall v: nat :: Get(y.vested, v) == Get(x.vested, v) + KindSum(ranked, pays, Vest(v)))
    && (forall a: nat :: Get(y.exchangeFees, a) == Get(x.exchangeFees, a) + KindSum(ranked, pays, Exchange(a)))
  }

  lemma {:induction false} NothingPaid(x: PayBooks, ranked: seq<Worker>, distance: nat)
    ensures PaidByRank(x, x, ranked, 0, distance, |ranked|)
  {
    forall kind: WorkerKind
      ensures Share(ranked, 0, distance, kind, |ranked|) == 0
    {
      NoShare(ranked, distance, kind, |ranked|);
    }
  }

  lemma {:induction false} NoShare(ranked: seq<Worker>, distance: nat, kind: WorkerKind, n: nat)
    requires n <= |ranked|
    ensures Share(ranked, 0, distance, kind, n) == 0
    decreases n
  {
    if n > 0 {
      NoShare(ranked, distance, kind, n - 1);
    }
  }

  lemma {:induction false} RankMeetsPayroll(x: PayBooks, funded: PayBooks, y: PayBooks, made: int, debited: int,
                                            ranked: seq<Worker>, pays: seq<nat>, budget: nat, distance: nat)
    requires PaidByRank(funded, y, ranked, budget, distance, |ranked|) && pays == Payouts(ranked, budget, distance)
    requires funded.supply == x.supply + made && funded.vested == x.vested && funded.exchangeFees == x.exchangeFees
    requires forall a: nat ::
               Get(funded.balances, a) == Get(x.balances, a) - if a == PLATFORM_ACCOUNT then debited else 0
    ensures PayrollMet(x, y, made, debited, ranked, pays)
  {
    PayoutsAddUp(ranked, pays, budget, distance);
  }

  /** The books that a fee moves between. */
  datatype FeeBooks = FeeBooks(balances: map<nat, int>, pending: map<nat, int>, pendingVested: map<nat, int>)

  /** The fee field is taken from the payer, and the credit is pending, vested unless it is over the threshold. */
  ghost predicate FeeTaken(x: FeeBooks, y: FeeBooks, payer: nat, fee: int, credited: int, threshold: int) {
    && PaidFrom(x.balances, y.balances, payer, fee)
    && y.pending == (if credited > threshold then x.pending[payer := Get(x.pending, payer) + credited] else x.pending)
    && y.pendingVested == if credited > threshold then x.pendingVested
                          else x.pendingVested[payer := Get(x.pendingVested, payer) + credited]
  }

  /** What a fee field is worth: 1 asks for the scheduled fee. */
  function Credited(fee: int, required: int): int {
    if fee == 1 then required else fee
  }

  predicate FeeAccepted(fee: int, required: int) {
    fee >= 0 && if fee == 1 then required > 0 else fee >= required
  }

  /** An accepted fee credits the scheduled fee at least, and any field of that much is accepted. */
  lemma {:induction false} AcceptedFeesCover(fee: int, required: int)
    ensures FeeAccepted(fee, required) ==>
              && Credited(fee, required) >= required && Credited(fee, required) >= fee >= 0
              && (fee < required ==> fee == 1 && Credited(fee, required) == required)
    ensures fee >= 0 && fee >= required && fee != 1 ==> FeeAccepted(fee, required) && Credited(fee, required) == fee
    ensures FeeAccepted(1, required) <==> required > 0
  {
  }

  /** A payroll's vesting workers have their vesting balances. */
  ghost predicate WorkersOk(workers: seq<Worker>, vested: map<nat, int>) {
    forall w :: w in workers && w.kind.Vest? ==> w.kind.balance in vested
  }

  lemma {:induction false} ActiveAreWorkers(workers: seq<Worker>, w: Worker)
    requires w in Active(workers)
    ensures w in workers
  {
    if w in Active(workers[..|workers| - 1]) {
      ActiveAreWorkers(workers[..|workers| - 1], w);
    }
  }

  lemma {:induction false} RankedWorkersOk(workers: seq<Worker>, vested: map<nat, int>)
    requires WorkersOk(workers, vested)
    ensures WorkersOk(Ranked(Active(workers)), vested)
  {
    RankedIsOrdered(Active(workers));
    forall w | w in Ranked(Active(workers)) && w.kind.Vest?
      ensures w.kind.balance in vested
    {
      assert w in multiset(Ranked(Active(workers)));
      ActiveAreWorkers(workers, w);
    }
  }

  type Positive = n: nat | n > 0 witness 1

  /** What a maintenance knows: times in seconds, pay, the workers and their daily limit. */
  datatype Maintenance = Maintenance(
    now: nat, toMaintenance: Positive, interval: Positive, payPerBlock: nat, workers: seq<Worker>, maxWorkerPay: nat)
  {
    /** The pay for all blocks that fit before the next maintenance. */
    function FullPay(): nat {
      payPerBlock * ((toMaintenance + interval - 1) / interval)
    }

    /** Microseconds since the last budget. */
    function Distance(last: nat): nat {
      if now >= last then (now - last) * 1000000 else 0
    }

    /** What the active workers ask for, up to the daily limit scaled to the distance. */
    function WorkerBudget(last: nat): nat {
      Min(Requested(Active(workers), Distance(last)), DailyCap(maxWorkerPay).Budget(Distance(last)))
    }
  }

  /** The payroll is what is asked for, or the daily limit's share of the time since the last one, if that is less. */
  lemma {:induction false} PayrollIsCapped(m: Maintenance, last: nat)
    requires m.now > last
    ensures var asked, d := Requested(Active(m.workers), m.Distance(last)), (m.now - last) * 1000000;
            && m.Distance(last) == d && m.WorkerBudget(last) <= asked
            && m.WorkerBudget(last) * DAY <= m.maxWorkerPay * d
            && (m.WorkerBudget(last) < asked ==> (m.WorkerBudget(last) + 1) * DAY > m.maxWorkerPay * d)
  {
    var cap := DailyCap(m.maxWorkerPay);
    BudgetRoundsDown(cap, m.Distance(last));
    MulLe(m.WorkerBudget(last), cap.Budget(m.Distance(last)), DAY);
  }

  /** The witnesses' budget is the pay for as many blocks as it takes to reach the maintenance. */
  lemma {:induction false} FullPayReachesMaintenance(m: Maintenance) returns (blocks: nat)
    ensures m.FullPay() == m.payPerBlock * blocks
    ensures (blocks - 1) * m.interval < m.toMaintenance <= blocks * m.interval
  {
    blocks := (m.toMaintenance + m.interval - 1) / m.interval;
    DivBounds(m.toMaintenance + m.interval - 1, m.interval);
    Arithmetic.Distribute(blocks, 1, m.interval);
  }

  /** The object the daily limit is scaled with. */
  function DailyCap(pay: nat): Worker {
    Worker(0, Refund, pay, false, 0)
  }

  /** The values that decide how an operation moves the core asset; `gap` is supply that is held nowhere. */
  datatype Books = Books(
    balances: map<nat, int>, coupons: map<nat, int>, accumulatedFees: int, witnessBudget: int,
    currentSupply: int, maxSupply: int, minerSupply: int, budgetSupply: int, lastBudgetTime: nat, gap: int)

  ghost predicate BooksOk(b: Books) {
    && NonNegative(b.balances) && b.accumulatedFees >= 0 && b.witnessBudget >= 0
    && b.minerSupply <= MAX_SHARE_MINER && b.budgetSupply <= MAX_SHARE_BUDGET && b.currentSupply <= b.maxSupply
    && (b.lastBudgetTime == 0 ==> b.witnessBudget == 0)
  }

  datatype Operation =
    | Fee(payer: nat, fee: int, required: int, isCoupon: bool)
    | Distribute(account: nat)
    | Produce(signer: nat, owner: nat, pay: nat)
    | Maintain(m: Maintenance)
    | Gateway(gateway: nat, amount: nat, revoke: bool)
    | Burned(holder: nat, burned: nat)
    | Fees(issuer: nat, moved: nat, back: bool)

  ghost predicate Performable(op: Operation, accounts: set<nat>, vested: map<nat, int>) {
    match op
    case Distribute(account) => account in accounts
    case Maintain(m) => WorkersOk(m.workers, vested)
    case _ => true
  }

  /** Time passes between maintenances, and the first one comes after time zero. */
  ghost predicate InTime(ops: seq<Operation>, last: nat) {
    ops == [] || if ops[0].Maintain? then ops[0].m.now > last && InTime(ops[1..], ops[0].m.now)
      else InTime(ops[1..], last)
  }

  predicate TooEarly(b: Books, now: nat) {
    b.lastBudgetTime == 0 || now <= b.lastBudgetTime
  }

  /** New supply for a need that what is in store does not meet, as far as both caps leave room. */
  function NewSupply(wanted: int, store: int, capRoom: int, supplyRoom: int): int {
    if store >= wanted then 0 else Min(Min(wanted - store, capRoom), supplyRoom)
  }

  /** New supply is made only for what the store lacks, and less than that only if a cap leaves no more room. */
  lemma {:induction false} NewSupplyMeetsNeed(wanted: int, store: int, capRoom: nat, supplyRoom: nat)
    ensures store >= wanted ==> NewSupply(wanted, store, capRoom, supplyRoom) == 0
    ensures store < wanted ==>
              var made := NewSupply(wanted, store, capRoom, supplyRoom);
              && 0 <= made <= wanted - store && made <= capRoom && made <= supplyRoom
              && (made < wanted - store ==> made == capRoom || made == supplyRoom)
  {
  }

  /** There is a new budget exactly at a time later than that of a budget before; until then nothing is made. */
  lemma {:induction false} BudgetTime(b: Books, now: nat, full: nat)
    ensures TooEarly(b, now) <==> !(0 < b.lastBudgetTime < now)
    ensures TooEarly(b, now) ==> NewMinerSupply(b, now, full) == 0
    ensures !TooEarly(b, now) && b.accumulatedFees + b.witnessBudget >= full ==> NewMinerSupply(b, now, full) == 0
  {
  }

  /** What is taken from the store without being debited there. */
  function Unbacked(wanted: int, store: int, capRoom: int, supplyRoom: int): int {
    if store < wanted && NewSupply(wanted, store, capRoom, supplyRoom) <= 0 then store else 0
  }

  function NewMinerSupply(b: Books, now: nat, full: nat): int {
    if TooEarly(b, now) then 0
    else NewSupply(full - b.witnessBudget, b.accumulatedFees, MAX_SHARE_MINER - b.minerSupply,
                   b.maxSupply - b.currentSupply)
  }

  /** What `budget_miners` and `process_budget` credit to the witnesses without debiting anyone. */
  function MinerDrift(b: Books, now: nat, full: nat): int {
    if TooEarly(b, now) then -b.witnessBudget
    else Unbacked(full - b.witnessBudget, b.accumulatedFees, MAX_SHARE_MINER - b.minerSupply,
                  b.maxSupply - b.currentSupply)
  }

  function NewWorkerSupply(b: Books, now: nat, full: nat, wanted: nat): int {
    NewSupply(wanted, Get(b.balances, PLATFORM_ACCOUNT),
              MAX_SHARE_BUDGET - b.budgetSupply, b.maxSupply - b.currentSupply - NewMinerSupply(b, now, full))
  }

  /** What `pay_workers` pays without debiting anyone. */
  function WorkerDrift(b: Books, now: nat, full: nat, wanted: nat): int {
    Unbacked(wanted, Get(b.balances, PLATFORM_ACCOUNT),
             MAX_SHARE_BUDGET - b.budgetSupply, b.maxSupply - b.currentSupply - NewMinerSupply(b, now, full))
  }

  /** Whether a fee is taken from the payer's balance. */
  predicate Charged(b: Books, payer: nat, fee: int, required: int, isCoupon: bool) {
    && FeeAccepted(fee, required)
    && !isCoupon && Get(b.coupons, payer) < Credited(fee, required)
    && Get(b.balances, payer) >= fee
  }

  /** By how much an operation adds to the holdings without adding to the supply. */
  function Drift(b: Books, op: Operation): int
  {
    match op
    case Fee(payer, fee, required, isCoupon) =>
      if Charged(b, payer, fee, required, isCoupon) then Credited(fee, required) - fee else 0
    case Maintain(m) =>
      MinerDrift(b, m.now, m.FullPay()) + WorkerDrift(b, m.now, m.FullPay(), m.WorkerBudget(b.lastBudgetTime))
    case _ => 0
  }

  /** There is room for new supply, or no need of it, or nothing in store to be left undebited. */
  predicate Backed(wanted: int, store: int, capRoom: int, supplyRoom: int) {
    store == 0 || store >= wanted || (capRoom > 0 && supplyRoom > 0)
  }

  predicate WitnessesBacked(b: Books, full: nat) {
    Backed(full - b.witnessBudget, b.accumulatedFees, MAX_SHARE_MINER - b.minerSupply, b.maxSupply - b.currentSupply)
  }

  predicate WorkersBacked(b: Books, now: nat, full: nat, wanted: nat) {
    Backed(wanted, Get(b.balances, PLATFORM_ACCOUNT),
           MAX_SHARE_BUDGET - b.budgetSupply, b.maxSupply - b.currentSupply - NewMinerSupply(b, now, full))
  }

  /** The guards under which an operation conserves the core asset. */
  predicate Conserves(b: Books, op: Operation)
  {
    match op
    case Fee(payer, fee, required, isCoupon) => !Charged(b, payer, fee, required, isCoupon) || fee != 1 || required == 1
    case Maintain(m) =>
      && (b.lastBudgetTime == 0 || WitnessesBacked(b, m.FullPay()))
      && WorkersBacked(b, m.now, m.FullPay(), m.WorkerBudget(b.lastBudgetTime))
    case _ => true
  }

  /** An operation conserves the core asset exactly under its guard. */
  lemma {:induction false} ConservesExactly(b: Books, op: Operation)
    requires BooksOk(b) && (op.Maintain? ==> op.m.now > b.lastBudgetTime)
    ensures Conserves(b, op) <==> Drift(b, op) == 0
  {
    assert InCredit(b.balances, PLATFORM_ACCOUNT);
  }

  /** Nothing that happens can lose core asset: drifts only ever add to the holdings. */
  lemma {:induction false} DriftOnlyAdds(b: Books, op: Operation)
    requires BooksOk(b) && (op.Maintain? ==> op.m.now > b.lastBudgetTime)
    ensures Drift(b, op) >= 0
  {
    assert InCredit(b.balances, PLATFORM_ACCOUNT);
  }

  ghost function DriftSum(trace: seq<Books>, ops: seq<Operation>): int
    requires |trace| == |ops|
  {
    if ops == [] then 0
    else DriftSum(trace[..|ops| - 1], ops[..|ops| - 1]) + Drift(trace[|ops| - 1], ops[|ops| - 1])
  }

  lemma {:induction false} ConservingRun(trace: seq<Books>, ops: seq<Operation>)
    requires |trace| == |ops|
    requires forall i :: 0 <= i < |ops| ==> BooksOk(trace[i]) && Conserves(trace[i], ops[i])
    requires forall i :: 0 <= i < |ops| && ops[i].Maintain? ==> ops[i].m.now > trace[i].lastBudgetTime
    ensures DriftSum(trace, ops) == 0
  {
    if ops != [] {
      ConservingRun(trace[..|ops| - 1], ops[..|ops| - 1]);
      ConservesExactly(trace[|ops| - 1], ops[|ops| - 1]);
    }
  }

  /** Amounts as a running chain has them: what genesis gave away, and a day between two maintenances. */
  const CLAIMED := 2000000000 * 100000
  const YESTERDAY := 1571443200
  const TODAY := 1571529600

  /** At the miners' cap the fees that are in store are credited to the witnesses and kept as well. */
  lemma {:induction false} CapDuplicatesFees(gap: int)
    ensures var fees, minted := 5000 * 100000, CLAIMED + MAX_SHARE_MINER;
            var b := Books(map[], map[], fees, 0, minted, MAX_SHARE_SUPPLY, MAX_SHARE_MINER, 0, YESTERDAY, gap);
            BooksOk(b) && Drift(b, Maintain(Maintenance(TODAY, 86400, 3, 30000, [], 0))) == fees
  {
    var b := Books(map[], map[], 5000 * 100000, 0, CLAIMED + MAX_SHARE_MINER, MAX_SHARE_SUPPLY, MAX_SHARE_MINER, 0,
                   YESTERDAY, gap);
    assert Maintenance(TODAY, 86400, 3, 30000, [], 0).FullPay() == 864000000;
  }

  /** Past the budget cap a worker is paid what the platform account holds, which keeps it as well. */
  lemma {:induction false} CapDuplicatesPlatformMoney(gap: int)
    ensures var held, minted := 5000 * 100000, CLAIMED + MAX_SHARE_BUDGET;
            var b := Books(map[PLATFORM_ACCOUNT := held], map[], 0, 0, minted, MAX_SHARE_SUPPLY, 0, MAX_SHARE_BUDGET,
                           YESTERDAY, gap);
            var burner := Worker(0, Burn, 7000 * 100000, true, 1);
            BooksOk(b) && Drift(b, Maintain(Maintenance(TODAY, 86400, 3, 0, [burner], 7000 * 100000))) == held
  {
    var b := Books(map[PLATFORM_ACCOUNT := 5000 * 100000], map[], 0, 0, CLAIMED + MAX_SHARE_BUDGET, MAX_SHARE_SUPPLY, 0,
                   MAX_SHARE_BUDGET, YESTERDAY, gap);
    var pay := 7000 * 100000;
    var burner := Worker(0, Burn, pay, true, 1);
    var m := Maintenance(TODAY, 86400, 3, 0, [burner], pay);
    assert [burner] == [] + [burner] && Active([burner]) == [burner];
    assert m.Distance(YESTERDAY) == DAY && Requested([burner], DAY) == pay && m.WorkerBudget(YESTERDAY) == pay;
    assert b.balances[PLATFORM_ACCOUNT] == 5000 * 100000;
  }

  /** Whoever names a fee of 1 pays 1, and the scheduled fee is credited. */
  lemma {:induction false} FeeOfOneIsMinted(gap: int)
    ensures var scheduled := 2 * 100000;
            var b := Books(map[7 := 1], map[], 0, 0, CLAIMED, MAX_SHARE_SUPPLY, 0, 0, YESTERDAY, gap);
            && BooksOk(b) && Charged(b, 7, 1, scheduled, false)
            && Drift(b, Fee(7, 1, scheduled, false)) == scheduled - 1
  {
    var b := Books(map[7 := 1], map[], 0, 0, CLAIMED, MAX_SHARE_SUPPLY, 0, 0, YESTERDAY, gap);
    assert b.balances[7] == 1;
  }
}
