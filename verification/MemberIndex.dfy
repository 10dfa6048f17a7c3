/**
 Which accounts an account, a key or an address has a say in
 (libraries/chain/account_object.cpp, and libraries/db/include/graphene/db/index.hpp for who calls the hooks).
 */
module Membership {
  datatype Authority = Authority(accounts: set<nat>, keys: set<nat>, addresses: set<nat>)

  datatype Account = Account(owner: Authority, active: Authority, memoKey: nat)

  function AccountMembers(a: Account): set<nat> {
    a.owner.accounts + a.active.accounts
  }

  function KeyMembers(a: Account): set<nat> {
    a.owner.keys + a.active.keys + {a.memoKey}
  }

  /** The memo key counts as an address too, through the conversion of keys to addresses. */
  function AddressMembers(addressOf: nat -> nat, a: Account): set<nat> {
    a.owner.addresses + a.active.addresses + {addressOf(a.memoKey)}
  }

  /** An account is a member of another one if either authority of that one names it. */
  predicate NamesAccount(a: Account, k: nat) {
    k in a.owner.accounts || k in a.active.accounts
  }

  /** A key is a member if either authority names it, or as the memo key. */
  predicate NamesKey(a: Account, k: nat) {
    k in a.owner.keys || k in a.active.keys || k == a.memoKey
  }

  predicate NamesAddress(addressOf: nat -> nat, a: Account, k: nat) {
    k in a.owner.addresses || k in a.active.addresses || k == addressOf(a.memoKey)
  }

  /** The members of an account are what its fields name. */
  lemma {:induction false} MembersAreNamed(addressOf: nat -> nat, a: Account, k: nat)
    ensures k in AccountMembers(a) <==> NamesAccount(a, k)
    ensures k in KeyMembers(a) <==> NamesKey(a, k)
    ensures k in AddressMembers(addressOf, a) <==> NamesAddress(addressOf, a, k)
  {
  }

  type Memberships = map<nat, set<nat>>

  /** A missing key has no accounts. */
  function Lookup(m: Memberships, k: nat): set<nat> {
    if k in m then m[k] else {}
  }

  predicate Listed(m: Memberships, k: nat, id: nat) {
    id in Lookup(m, k)
  }

  /** The members of every account, as a rescan would find them. */
  type Rows = map<nat, set<nat>>

  predicate Member(rows: Rows, k: nat, id: nat) {
    id in rows && k in rows[id]
  }

  ghost predicate Agrees(m: Memberships, rows: Rows) {
    forall k: nat, id: nat {:trigger Listed(m, k, id)} :: Listed(m, k, id) <==> Member(rows, k, id)
  }

  /** An index agrees with the accounts exactly if each of its sets is what a full rescan finds. */
  lemma {:induction false} AgreesIsRescan(m: Memberships, rows: Rows)
    ensures Agrees(m, rows) <==> forall k: nat :: Lookup(m, k) == set id | id in rows && k in rows[id]
  {
    if forall k: nat :: Lookup(m, k) == set id | id in rows && k in rows[id] {
      forall k: nat, id: nat
        ensures Listed(m, k, id) <==> Member(rows, k, id)
      {
        assert Lookup(m, k) == set i | i in rows && k in rows[i];
      }
    }
    if Agrees(m, rows) {
      forall k: nat
        ensures Lookup(m, k) == set id | id in rows && k in rows[id]
      {
        forall id: nat
          ensures id in Lookup(m, k) <==> id in rows && k in rows[id]
        {
          assert Listed(m, k, id) <==> Member(rows, k, id);
        }
      }
    }
  }

  /** `id` is listed under all of the keys, and nothing else has changed. */
  ghost predicate Entered(m: Memberships, r: Memberships, keys: set<nat>, id: nat) {
    forall k: nat, i: nat {:trigger Listed(r, k, i)} :: Listed(r, k, i) <==> Listed(m, k, i) || (i == id && k in keys)
  }

  /** `id` is listed under none of the keys, and nothing else has changed. */
  ghost predicate Left(m: Memberships, r: Memberships, keys: set<nat>, id: nat) {
    forall k: nat, i: nat {:trigger Listed(r, k, i)} :: Listed(r, k, i) <==> Listed(m, k, i) && !(i == id && k in keys)
  }

  lemma {:induction false} EnterStep(m: Memberships, r: Memberships, done: set<nat>, k: nat, id: nat)
    requires Entered(m, r, done, id)
    ensures Entered(m, r[k := Lookup(r, k) + {id}], done + {k}, id)
  {
    var r' := r[k := Lookup(r, k) + {id}];
    forall j: nat, i: nat
      ensures Listed(r', j, i) <==> Listed(m, j, i) || (i == id && j in done + {k})
    {
      assert Listed(r, j, i) <==> Listed(m, j, i) || (i == id && j in done);
    }
  }

  lemma {:induction false} LeaveStep(m: Memberships, r: Memberships, done: set<nat>, k: nat, id: nat)
    requires Left(m, r, done, id)
    ensures Left(m, r[k := Lookup(r, k) - {id}], done + {k}, id)
  {
    var r' := r[k := Lookup(r, k) - {id}];
    forall j: nat, i: nat
      ensures Listed(r', j, i) <==> Listed(m, j, i) && !(i == id && j in done + {k})
    {
      assert Listed(r, j, i) <==> Listed(m, j, i) && !(i == id && j in done);
    }
  }

  method Enter(m: Memberships, keys: set<nat>, id: nat) returns (r: Memberships)
    ensures Entered(m, r, keys, id)
  {
    r := m;
    var todo := keys;
    while todo != {}
      invariant todo <= keys && Entered(m, r, keys - todo, id)
    {
      var k :| k in todo;
      EnterStep(m, r, keys - todo, k, id);
      r := r[k := Lookup(r, k) + {id}];
      assert keys - todo + {k} == keys - (todo - {k});
      todo := todo - {k};
    }
    assert keys - todo == keys;
  }

  method Leave(m: Memberships, keys: set<nat>, id: nat) returns (r: Memberships)
    ensures Left(m, r, keys, id)
  {
    r := m;
    var todo := keys;
    while todo != {}
      invariant todo <= keys && Left(m, r, keys - todo, id)
    {
      var k :| k in todo;
      LeaveStep(m, r, keys - todo, k, id);
      r := r[k := Lookup(r, k) - {id}];
      assert keys - todo + {k} == keys - (todo - {k});
      todo := todo - {k};
    }
    assert keys - todo == keys;
  }

  lemma {:induction false} EnterAgrees(m: Memberships, r: Memberships, rows: Rows, keys: set<nat>, id: nat)
    requires Agrees(m, rows) && id !in rows && Entered(m, r, keys, id)
    ensures Agrees(r, rows[id := keys])
  {
    var rows' := rows[id := keys];
    forall k: nat, i: nat
      ensures Listed(r, k, i) <==> Member(rows', k, i)
    {
      assert Listed(m, k, i) <==> Member(rows, k, i);
    }
  }

  lemma {:induction false} LeaveAgrees(m: Memberships, r: Memberships, rows: Rows, id: nat)
    requires Agrees(m, rows) && id in rows && Left(m, r, rows[id], id)
    ensures Agrees(r, rows - {id})
  {
    var rows' := rows - {id};
    forall k: nat, i: nat
      ensures Listed(r, k, i) <==> Member(rows', k, i)
    {
      assert Listed(m, k, i) <==> Member(rows, k, i);
    }
  }

  /** The two loops of `object_modified` over one of the maps. */
  ghost predicate Swapped(m: Memberships, r: Memberships, before: set<nat>, after: set<nat>, id: nat) {
    exists s :: Left(m, s, before - after, id) && Entered(s, r, after - before, id)
  }

  method Swap(m: Memberships, before: set<nat>, after: set<nat>, id: nat) returns (r: Memberships)
    ensures Swapped(m, r, before, after, id)
  {
    var s := Leave(m, before - after, id);
    r := Enter(s, after - before, id);
  }

  /** What the recorded members must have in common with the real ones for the differences to suffice. */
  predicate Recorded(before: set<nat>, actual: set<nat>, after: set<nat>) {
    before * after <= actual && actual <= before + after
  }

  lemma {:induction false} SwappedLists(m: Memberships, r: Memberships, before: set<nat>, after: set<nat>, id: nat,
                                        k: nat, i: nat)
    requires Swapped(m, r, before, after, id)
    ensures Listed(r, k, i) <==> if i == id && k in before - after then false
                                 else if i == id && k in after - before then true
                                 else Listed(m, k, i)
  {
    var s :| Left(m, s, before - after, id) && Entered(s, r, after - before, id);
    assert Listed(s, k, i) <==> Listed(m, k, i) && !(i == id && k in before - after);
  }

  /**
   Changing the index by set differences keeps it in agreement exactly if the members recorded before
   the change lie, between what stays and what changes, where the account's real members lie.
   */
  lemma {:induction false} SwapAgreesIff(m: Memberships, r: Memberships, rows: Rows, before: set<nat>, after: set<nat>,
                                         id: nat)
    requires Agrees(m, rows) && id in rows && Swapped(m, r, before, after, id)
    ensures Agrees(r, rows[id := after]) <==> Recorded(before, rows[id], after)
  {
    var rows' := rows[id := after];
    if Recorded(before, rows[id], after) {
      forall k: nat, i: nat
        ensures Listed(r, k, i) <==> Member(rows', k, i)
      {
        SwappedLists(m, r, before, after, id, k, i);
        assert Listed(m, k, i) <==> Member(rows, k, i);
      }
    }
    if Agrees(r, rows') {
      forall k: nat
        ensures (k in before * after ==> k in rows[id]) && (k in rows[id] ==> k in before + after)
      {
        SwappedLists(m, r, before, after, id, k, id);
        assert Listed(r, k, id) <==> Member(rows', k, id);
        assert Listed(m, k, id) <==> Member(rows, k, id);
      }
    }
  }

  ghost function AccountRows(accounts: map<nat, Account>): Rows {
    map id | id in accounts :: AccountMembers(accounts[id])
  }

  ghost function KeyRows(accounts: map<nat, Account>): Rows {
    map id | id in accounts :: KeyMembers(accounts[id])
  }

  ghost function AddressRows(addressOf: nat -> nat, accounts: map<nat, Account>): Rows {
    map id | id in accounts :: AddressMembers(addressOf, accounts[id])
  }

  /** The three maps of the index. */
  datatype Index = Index(byAccount: Memberships, byKey: Memberships, byAddress: Memberships)

  /** Each of the three maps is what a full rescan of the accounts gives. */
  ghost predicate AllAgree(x: Index, addressOf: nat -> nat, accounts: map<nat, Account>) {
    && Agrees(x.byAccount, AccountRows(accounts))
    && Agrees(x.byKey, KeyRows(accounts))
    && Agrees(x.byAddress, AddressRows(addressOf, accounts))
  }

  /** Under every account, key and address exactly those accounts are listed whose fields name it. */
  ghost predicate ListsWhoNames(x: Index, addressOf: nat -> nat, accounts: map<nat, Account>) {
    && (forall k: nat, id: nat {:trigger Listed(x.byAccount, k, id)} ::
          Listed(x.byAccount, k, id) <==> id in accounts && NamesAccount(accounts[id], k))
    && (forall k: nat, id: nat {:trigger Listed(x.byKey, k, id)} ::
          Listed(x.byKey, k, id) <==> id in accounts && NamesKey(accounts[id], k))
    && (forall k: nat, id: nat {:trigger Listed(x.byAddress, k, id)} ::
          Listed(x.byAddress, k, id) <==> id in accounts && NamesAddress(addressOf, accounts[id], k))
  }

  lemma {:induction false} AgreeAlike(m: Memberships, rows: Rows, names: (nat, nat) -> bool)
    requires forall k: nat, id: nat {:trigger Member(rows, k, id)} :: Member(rows, k, id) <==> names(id, k)
    ensures Agrees(m, rows)
            <==> forall k: nat, id: nat {:trigger Listed(m, k, id)} :: Listed(m, k, id) <==> names(id, k)
  {
    if Agrees(m, rows) {
      forall k: nat, id: nat
        ensures Listed(m, k, id) <==> names(id, k)
      {
        assert Listed(m, k, id) <==> Member(rows, k, id);
      }
    }
    if forall k: nat, id: nat {:trigger Listed(m, k, id)} :: Listed(m, k, id) <==> names(id, k) {
      forall k: nat, id: nat
        ensures Listed(m, k, id) <==> Member(rows, k, id)
      {
        assert Listed(m, k, id) <==> names(id, k);
      }
    }
  }

  lemma {:induction false} AccountsByFields(m: Memberships, accounts: map<nat, Account>)
    ensures Agrees(m, AccountRows(accounts))
            <==> forall k: nat, id: nat {:trigger Listed(m, k, id)} ::
                   Listed(m, k, id) <==> id in accounts && NamesAccount(accounts[id], k)
  {
    AgreeAlike(m, AccountRows(accounts), (id: nat, k: nat) => id in accounts && NamesAccount(accounts[id], k));
  }

  lemma {:induction false} KeysByFields(m: Memberships, accounts: map<nat, Account>)
    ensures Agrees(m, KeyRows(accounts))
            <==> forall k: nat, id: nat {:trigger Listed(m, k, id)} ::
                   Listed(m, k, id) <==> id in accounts && NamesKey(accounts[id], k)
  {
    AgreeAlike(m, KeyRows(accounts), (id: nat, k: nat) => id in accounts && NamesKey(accounts[id], k));
  }

  lemma {:induction false} AddressesByFields(m: Memberships, addressOf: nat -> nat, accounts: map<nat, Account>)
    ensures Agrees(m, AddressRows(addressOf, accounts))
            <==> forall k: nat, id: nat {:trigger Listed(m, k, id)} ::
                   Listed(m, k, id) <==> id in accounts && NamesAddress(addressOf, accounts[id], k)
  {
    AgreeAlike(m, AddressRows(addressOf, accounts),
               (id: nat, k: nat) => id in accounts && NamesAddress(addressOf, accounts[id], k));
  }

  /** Agreeing with a rescan is listing, field by field, who names a member. */
  lemma {:induction false} AgreesByFields(x: Index, addressOf: nat -> nat, accounts: map<nat, Account>)
    ensures AllAgree(x, addressOf, accounts) <==> ListsWhoNames(x, addressOf, accounts)
  {
    AccountsByFields(x.byAccount, accounts);
    KeysByFields(x.byKey, accounts);
    AddressesByFields(x.byAddress, addressOf, accounts);
  }

  /** One look into one of the maps. */
  lemma {:induction false} LookupFindsWhoNames(x: Index, addressOf: nat -> nat, accounts: map<nat, Account>, k: nat,
                                               id: nat)
    requires ListsWhoNames(x, addressOf, accounts)
    ensures id in Lookup(x.byAccount, k)
            <==> id in accounts && (k in accounts[id].owner.accounts || k in accounts[id].active.accounts)
    ensures id in Lookup(x.byKey, k)
            <==> id in accounts && (k in accounts[id].owner.keys || k in accounts[id].active.keys
                                    || k == accounts[id].memoKey)
    ensures id in Lookup(x.byAddress, k)
            <==> id in accounts && (k in accounts[id].owner.addresses || k in accounts[id].active.addresses
                                    || k == addressOf(accounts[id].memoKey))
  {
    assert Listed(x.byAccount, k, id) <==> id in Lookup(x.byAccount, k);
    assert Listed(x.byKey, k, id) <==> id in Lookup(x.byKey, k);
    assert Listed(x.byAddress, k, id) <==> id in Lookup(x.byAddress, k);
  }

  ghost predicate AllEntered(x: Index, y: Index, addressOf: nat -> nat, id: nat, a: Account) {
    && Entered(x.byAccount, y.byAccount, AccountMembers(a), id)
    && Entered(x.byKey, y.byKey, KeyMembers(a), id)
    && Entered(x.byAddress, y.byAddress, AddressMembers(addressOf, a), id)
  }

  lemma {:induction false} MembersNamed(addressOf: nat -> nat, a: Account)
    ensures forall k {:trigger k in AccountMembers(a)} :: k in AccountMembers(a) <==> NamesAccount(a, k)
    ensures forall k {:trigger k in KeyMembers(a)} :: k in KeyMembers(a) <==> NamesKey(a, k)
    ensures forall k {:trigger k in AddressMembers(addressOf, a)} ::
              k in AddressMembers(addressOf, a) <==> NamesAddress(addressOf, a, k)
  {
    forall k: nat
      ensures k in AccountMembers(a) <==> NamesAccount(a, k)
      ensures k in KeyMembers(a) <==> NamesKey(a, k)
      ensures k in AddressMembers(addressOf, a) <==> NamesAddress(addressOf, a, k)
    {
      MembersAreNamed(addressOf, a, k);
    }
  }

  /** The account is listed under what its fields name in addition. */
  ghost predicate NamedEntered(x: Index, y: Index, addressOf: nat -> nat, id: nat, a: Account) {
    && (forall k: nat, i: nat {:trigger Listed(y.byAccount, k, i)} ::
          Listed(y.byAccount, k, i) <==> Listed(x.byAccount, k, i) || (i == id && NamesAccount(a, k)))
    && (forall k: nat, i: nat {:trigger Listed(y.byKey, k, i)} ::
          Listed(y.byKey, k, i) <==> Listed(x.byKey, k, i) || (i == id && NamesKey(a, k)))
    && (forall k: nat, i: nat {:trigger Listed(y.byAddress, k, i)} ::
          Listed(y.byAddress, k, i) <==> Listed(x.byAddress, k, i) || (i == id && NamesAddress(addressOf, a, k)))
  }

  /** The account is no longer listed under what its fields name. */
  ghost predicate NamedLeft(x: Index, y: Index, addressOf: nat -> nat, id: nat, a: Account) {
    && (forall k: nat, i: nat {:trigger Listed(y.byAccount, k, i)} ::
          Listed(y.byAccount, k, i) <==> Listed(x.byAccount, k, i) && !(i == id && NamesAccount(a, k)))
    && (forall k: nat, i: nat {:trigger Listed(y.byKey, k, i)} ::
          Listed(y.byKey, k, i) <==> Listed(x.byKey, k, i) && !(i == id && NamesKey(a, k)))
    && (forall k: nat, i: nat {:trigger Listed(y.byAddress, k, i)} ::
          Listed(y.byAddress, k, i) <==> Listed(x.byAddress, k, i) && !(i == id && NamesAddress(addressOf, a, k)))
  }

  ghost predicate AllLeft(x: Index, y: Index, addressOf: nat -> nat, id: nat, a: Account) {
    && Left(x.byAccount, y.byAccount, AccountMembers(a), id)
    && Left(x.byKey, y.byKey, KeyMembers(a), id)
    && Left(x.byAddress, y.byAddress, AddressMembers(addressOf, a), id)
  }

  lemma {:induction false} InsertAgrees(x: Index, y: Index, addressOf: nat -> nat, accounts: map<nat, Account>, id: nat,
                                        a: Account)
    requires AllAgree(x, addressOf, accounts) && id !in accounts && AllEntered(x, y, addressOf, id, a)
    ensures AllAgree(y, addressOf, accounts[id := a])
  {
    EnterAgrees(x.byAccount, y.byAccount, AccountRows(accounts), AccountMembers(a), id);
    EnterAgrees(x.byKey, y.byKey, KeyRows(accounts), KeyMembers(a), id);
    EnterAgrees(x.byAddress, y.byAddress, AddressRows(addressOf, accounts), AddressMembers(addressOf, a), id);
    RowsSet(addressOf, accounts, id, a);
  }

  lemma {:induction false} RemoveAgrees(x: Index, y: Index, addressOf: nat -> nat, accounts: map<nat, Account>, id: nat)
    requires AllAgree(x, addressOf, accounts) && id in accounts && AllLeft(x, y, addressOf, id, accounts[id])
    ensures AllAgree(y, addressOf, accounts - {id})
  {
    LeaveAgrees(x.byAccount, y.byAccount, AccountRows(accounts), id);
    LeaveAgrees(x.byKey, y.byKey, KeyRows(accounts), id);
    LeaveAgrees(x.byAddress, y.byAddress, AddressRows(addressOf, accounts), id);
    assert AccountRows(accounts - {id}) == AccountRows(accounts) - {id};
    assert KeyRows(accounts - {id}) == KeyRows(accounts) - {id};
    assert AddressRows(addressOf, accounts - {id}) == AddressRows(addressOf, accounts) - {id};
  }

  lemma {:induction false} RowsSet(addressOf: nat -> nat, accounts: map<nat, Account>, id: nat, a: Account)
    ensures AccountRows(accounts[id := a]) == AccountRows(accounts)[id := AccountMembers(a)]
    ensures KeyRows(accounts[id := a]) == KeyRows(accounts)[id := KeyMembers(a)]
    ensures AddressRows(addressOf, accounts[id := a])
            == AddressRows(addressOf, accounts)[id := AddressMembers(addressOf, a)]
  {
  }

  /** Members as `about_to_modify` records them. */
  datatype Before = Before(accounts: set<nat>, keys: set<nat>, addresses: set<nat>)

  function RecordOf(addressOf: nat -> nat, a: Account): Before {
    Before(AccountMembers(a), KeyMembers(a), AddressMembers(addressOf, a))
  }

  ghost predicate AllSwapped(x: Index, y: Index, addressOf: nat -> nat, before: Before, id: nat, after: Account) {
    && Swapped(x.byAccount, y.byAccount, before.accounts, AccountMembers(after), id)
    && Swapped(x.byKey, y.byKey, before.keys, KeyMembers(after), id)
    && Swapped(x.byAddress, y.byAddress, before.addresses, AddressMembers(addressOf, after), id)
  }

  predicate AllRecorded(addressOf: nat -> nat, before: Before, actual: Account, after: Account) {
    && Recorded(before.accounts, AccountMembers(actual), AccountMembers(after))
    && Recorded(before.keys, KeyMembers(actual), KeyMembers(after))
    && Recorded(before.addresses, AddressMembers(addressOf, actual), AddressMembers(addressOf, after))
  }

  lemma {:induction false} ModifyAgreesIff(x: Index, y: Index, addressOf: nat -> nat, accounts: map<nat, Account>,
                                           before: Before, id: nat, after: Account)
    requires AllAgree(x, addressOf, accounts) && id in accounts && AllSwapped(x, y, addressOf, before, id, after)
    ensures AllAgree(y, addressOf, accounts[id := after]) <==> AllRecorded(addressOf, before, accounts[id], after)
  {
    SwapAgreesIff(x.byAccount, y.byAccount, AccountRows(accounts), before.accounts, AccountMembers(after), id);
    SwapAgreesIff(x.byKey, y.byKey, KeyRows(accounts), before.keys, KeyMembers(after), id);
    SwapAgreesIff(x.byAddress, y.byAddress, AddressRows(addressOf, accounts), before.addresses,
                  AddressMembers(addressOf, after), id);
    RowsSet(addressOf, accounts, id, after);
  }

  /** Whatever was recorded, nothing goes wrong for an account whose members stay as they were. */
  lemma {:induction false} UnchangedMembersNeedNoRecord(addressOf: nat -> nat, before: Before, actual: Account,
                                                        after: Account)
    requires RecordOf(addressOf, actual) == RecordOf(addressOf, after)
    ensures AllRecorded(addressOf, before, actual, after)
  {
  }

  datatype Change = Create(id: nat, a: Account) | Remove(id: nat) | Modify(id: nat, a: Account)

  function Apply(accounts: map<nat, Account>, c: Change): map<nat, Account> {
    match c
    case Create(id, a) => if id in accounts then accounts else accounts[id := a]
    case Remove(id) => accounts - {id}
    case Modify(id, a) => if id in accounts then accounts[id := a] else accounts
  }

  function ApplyAll(accounts: map<nat, Account>, cs: seq<Change>): map<nat, Account> {
    if cs == [] then accounts else Apply(ApplyAll(accounts, cs[..|cs| - 1]), cs[|cs| - 1])
  }

  /** The account that `about_to_modify` saw last, when `outer` is being modified and some changes come in between. */
  function LastSeen(accounts: map<nat, Account>, outer: nat, inner: seq<Change>): Account
    requires outer in accounts
  {
    if inner == [] then accounts[outer]
    else
      var was, c := ApplyAll(accounts, inner[..|inner| - 1]), inner[|inner| - 1];
      if c.Modify? && c.id in was then was[c.id] else LastSeen(accounts, outer, inner[..|inner| - 1])
  }

  /** The changes are modifications that leave every account's members as they are. */
  ghost predicate Preserving(addressOf: nat -> nat, accounts: map<nat, Account>, cs: seq<Change>) {
    forall i :: 0 <= i < |cs| ==>
      && cs[i].Modify?
      && (cs[i].id in accounts ==> RecordOf(addressOf, cs[i].a) == RecordOf(addressOf, accounts[cs[i].id]))
  }

  lemma {:induction false} PreservingKeepsMembers(addressOf: nat -> nat, accounts: map<nat, Account>, cs: seq<Change>,
                                                  id: nat)
    requires Preserving(addressOf, accounts, cs) && id in accounts
    ensures id in ApplyAll(accounts, cs)
            && RecordOf(addressOf, ApplyAll(accounts, cs)[id]) == RecordOf(addressOf, accounts[id])
  {
    if cs != [] {
      PreservingKeepsMembers(addressOf, accounts, cs[..|cs| - 1], id);
    }
  }

  lemma {:induction false} ModifiedStay(accounts: map<nat, Account>, cs: seq<Change>)
    requires forall i :: 0 <= i < |cs| ==> cs[i].Modify?
    ensures ApplyAll(accounts, cs).Keys == accounts.Keys
  {
    if cs != [] {
      ModifiedStay(accounts, cs[..|cs| - 1]);
    }
  }

  /** The account index with its `account_member_index`. */
  class AccountIndex {
    const addressOf: nat -> nat
    var accounts: map<nat, Account>
    var accountMemberships: Memberships
    var keyMemberships: Memberships
    var addressMemberships: Memberships
    var beforeAccountMembers: set<nat>
    var beforeKeyMembers: set<nat>
    var beforeAddressMembers: set<nat>

    ghost function Maps(): Index
      reads this
    {
      Index(accountMemberships, keyMemberships, addressMemberships)
    }

    ghost function Records(): Before
      reads this
    {
      Before(beforeAccountMembers, beforeKeyMembers, beforeAddressMembers)
    }

    ghost predicate Valid()
      reads this
    {
      AllAgree(Maps(), addressOf, accounts)
    }

    constructor (addressOf: nat -> nat)
      ensures Valid() && accounts == map[] && this.addressOf == addressOf
    {
      this.addressOf := addressOf;
      accounts, accountMemberships, keyMemberships, addressMemberships := map[], map[], map[], map[];
      beforeAccountMembers, beforeKeyMembers, beforeAddressMembers := {}, {}, {};
    }

    method ObjectInserted(id: nat, a: Account)
      modifies this`accountMemberships, this`keyMemberships, this`addressMemberships
      ensures AllEntered(old(Maps()), Maps(), addressOf, id, a)
      ensures NamedEntered(old(Maps()), Maps(), addressOf, id, a)
    {
      MembersNamed(addressOf, a);
      accountMemberships := Enter(accountMemberships, AccountMembers(a), id);
      keyMemberships := Enter(keyMemberships, KeyMembers(a), id);
      addressMemberships := Enter(addressMemberships, AddressMembers(addressOf, a), id);
    }

    method ObjectRemoved(id: nat, a: Account)
      modifies this`accountMemberships, this`keyMemberships, this`addressMemberships
      ensures AllLeft(old(Maps()), Maps(), addressOf, id, a)
      ensures NamedLeft(old(Maps()), Maps(), addressOf, id, a)
    {
      MembersNamed(addressOf, a);
      keyMemberships := Leave(keyMemberships, KeyMembers(a), id);
      addressMemberships := Leave(addressMemberships, AddressMembers(addressOf, a), id);
      accountMemberships := Leave(accountMemberships, AccountMembers(a), id);
    }

    method AboutToModify(before: Account)
      modifies this`beforeAccountMembers, this`beforeKeyMembers, this`beforeAddressMembers
      ensures Records() == RecordOf(addressOf, before)
      ensures forall k: nat ::
                && (k in beforeAccountMembers <==> NamesAccount(before, k))
                && (k in beforeKeyMembers <==> NamesKey(before, k))
                && (k in beforeAddressMembers <==> NamesAddress(addressOf, before, k))
    {
      beforeKeyMembers, beforeAccountMembers := {}, {};
      beforeKeyMembers := KeyMembers(before);
      beforeAddressMembers := AddressMembers(addressOf, before);
      beforeAccountMembers := AccountMembers(before);
    }

    method ObjectModified(id: nat, after: Account)
      modifies this`accountMemberships, this`keyMemberships, this`addressMemberships
      ensures AllSwapped(old(Maps()), Maps(), addressOf, Records(), id, after)
    {
      accountMemberships := Swap(accountMemberships, beforeAccountMembers, AccountMembers(after), id);
      keyMemberships := Swap(keyMemberships, beforeKeyMembers, KeyMembers(after), id);
      addressMemberships := Swap(addressMemberships, beforeAddressMembers, AddressMembers(addressOf, after), id);
    }

    /**
     Storing the new version of an account and calling `object_modified`, whatever the last call of
     `about_to_modify` recorded: the maps agree with a rescan exactly if those records were good enough.
     */
    method FinishModify(id: nat, after: Account)
      requires Valid() && id in accounts
      modifies this`accounts, this`accountMemberships, this`keyMemberships, this`addressMemberships
      ensures accounts == old(accounts)[id := after]
      ensures Valid() <==> AllRecorded(addressOf, Records(), old(accounts)[id], after)
    {
      accounts := accounts[id := after];
      ObjectModified(id, after);
      ModifyAgreesIff(old(Maps()), Maps(), addressOf, old(accounts), Records(), id, after);
    }

    /** One change through the primary index, with its calls of the hooks. */
    method Perform(c: Change)
      requires Valid()
      modifies this
      ensures Valid() && accounts == Apply(old(accounts), c)
      ensures ListsWhoNames(Maps(), addressOf, accounts)
      ensures Records()
              == if c.Modify? && c.id in old(accounts) then RecordOf(addressOf, old(accounts)[c.id]) else old(Records())
    {
      match c {
        case Create(id, a) =>
          if id !in accounts {
            ObjectInserted(id, a);
            InsertAgrees(old(Maps()), Maps(), addressOf, accounts, id, a);
            accounts := accounts[id := a];
          }
        case Remove(id) =>
          if id in accounts {
            ObjectRemoved(id, accounts[id]);
            RemoveAgrees(old(Maps()), Maps(), addressOf, accounts, id);
            accounts := accounts - {id};
          } else {
            assert accounts - {id} == accounts;
          }
        case Modify(id, a) =>
          if id in accounts {
            AboutToModify(accounts[id]);
            FinishModify(id, a);
          }
      }
      AgreesByFields(Maps(), addressOf, accounts);
    }

    /**
     Modifications from inside a modification, as when an account's upgrade pays out its fees: the
     records are those of the last account seen. The maps agree with a rescan afterwards exactly if
     these are good enough for the outer change, as they are when it leaves its account's members alone.
     */
    method ModifyAround(outer: nat, inner: seq<Change>, after: Account)
      requires Valid() && outer in accounts && forall i :: 0 <= i < |inner| ==> inner[i].Modify?
      modifies this
      ensures accounts == ApplyAll(old(accounts), inner)[outer := after] && outer in ApplyAll(old(accounts), inner)
      ensures Valid() <==> AllRecorded(addressOf, RecordOf(addressOf, LastSeen(old(accounts), outer, inner)),
                                       ApplyAll(old(accounts), inner)[outer], after)
      ensures Preserving(addressOf, old(accounts), inner + [Modify(outer, after)]) ==> Valid()
    {
      ModifiedStay(accounts, inner);
      AboutToModify(accounts[outer]);
      for i := 0 to |inner|
        invariant Valid() && accounts == ApplyAll(old(accounts), inner[..i])
        invariant Records() == RecordOf(addressOf, LastSeen(old(accounts), outer, inner[..i]))
      {
        assert inner[..i + 1][..i] == inner[..i];
        Perform(inner[i]);
      }
      assert inner[..|inner|] == inner;
      ghost var was := accounts;
      FinishModify(outer, after);
      if Preserving(addressOf, old(accounts), inner + [Modify(outer, after)]) {
        assert (inner + [Modify(outer, after)])[|inner|] == Modify(outer, after);
        assert forall i | 0 <= i < |inner| :: (inner + [Modify(outer, after)])[i] == inner[i];
        PreservingKeepsMembers(addressOf, old(accounts), inner, outer);
        UnchangedMembersNeedNoRecord(addressOf, Records(), was[outer], after);
      }
    }

    /** After any run of changes the three maps are what a full rescan of the resulting accounts gives. */
    method Run(cs: seq<Change>)
      requires Valid()
      modifies this
      ensures Valid() && accounts == ApplyAll(old(accounts), cs)
      ensures ListsWhoNames(Maps(), addressOf, accounts)
    {
      for i := 0 to |cs|
        invariant Valid() && accounts == ApplyAll(old(accounts), cs[..i])
      {
        assert cs[..i + 1][..i] == cs[..i];
        Perform(cs[i]);
      }
      assert cs[..|cs|] == cs;
      AgreesByFields(Maps(), addressOf, accounts);
    }
  }

  /** The records are not good enough when the outer change gives its account a key that the account seen last has. */
  lemma {:induction false} NestedGainIsMissed(addressOf: nat -> nat, accounts: map<nat, Account>, outer: nat,
                                              inner: seq<Change>, after: Account, k: nat)
    requires outer in accounts && outer in ApplyAll(accounts, inner)
    requires k in KeyMembers(LastSeen(accounts, outer, inner)) && k in KeyMembers(after)
    requires k !in KeyMembers(ApplyAll(accounts, inner)[outer])
    ensures !AllRecorded(addressOf, RecordOf(addressOf, LastSeen(accounts, outer, inner)),
                         ApplyAll(accounts, inner)[outer], after)
  {
    assert k in KeyMembers(LastSeen(accounts, outer, inner)) * KeyMembers(after);
  }

  /** Two accounts: while the first is given the second's key, the second is modified. */
  lemma {:induction false} NestedModifyLosesMember(addressOf: nat -> nat)
    ensures var none := Authority({}, {}, {});
            var x, y := Account(none, none, 1), Account(none, none, 2);
            !AllRecorded(addressOf, RecordOf(addressOf, LastSeen(map[10 := x, 11 := y], 10, [Modify(11, y)])), x, y)
  {
    var none := Authority({}, {}, {});
    var x, y := Account(none, none, 1), Account(none, none, 2);
    var accounts, inner := map[10 := x, 11 := y], [Modify(11, y)];
    assert inner[..0] == [] && ApplyAll(accounts, inner) == accounts;
    NestedGainIsMissed(addressOf, accounts, 10, inner, y, 2);
  }
}
