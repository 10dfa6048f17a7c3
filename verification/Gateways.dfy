/**
 Which gateways may handle which assets: kept on the asset, on the gateway and on the lending options
 (libraries/chain/gateway_evaluator.cpp, asset_evaluator.cpp).
 */
module GatewayRelation {
  import opened Wrappers

  const NULL_ACCOUNT := 3
  const COMMITTEE_ACCOUNT := 0

  datatype Asset = Asset(issuer: nat, whitelist: set<nat>)

  datatype Gateway = Gateway(account: nat, allowed: set<nat>)

  datatype LendingOption = LendingOption(asset: nat, lenderDesc: bool, gateways: set<nat>)

  type Assets = map<nat, Asset>
  type Gateways = map<nat, Gateway>
  type Options = map<nat, LendingOption>

  /** Whether an asset lists a gateway's account. */
  predicate Lists(assets: Assets, asset: nat, account: nat) {
    asset in assets && account in assets[asset].whitelist
  }

  /** Whether an account's gateway, found through the index by account, allows an asset. */
  predicate Allows(gateways: Gateways, byAccount: map<nat, nat>, account: nat, asset: nat) {
    account in byAccount && byAccount[account] in gateways && asset in gateways[byAccount[account]].allowed
  }

  /** The two sides of the relation are the same. */
  ghost predicate TwoWay(assets: Assets, gateways: Gateways, byAccount: map<nat, nat>) {
    forall asset: nat, account: nat {:trigger Lists(assets, asset, account)} ::
      Lists(assets, asset, account) <==> Allows(gateways, byAccount, account, asset)
  }

  /** A gateway is indexed under its account, and under no other. */
  predicate Indexed(gateways: Gateways, byAccount: map<nat, nat>, account: nat) {
    account in byAccount ==> byAccount[account] in gateways && gateways[byAccount[account]].account == account
  }

  predicate Findable(gateways: Gateways, byAccount: map<nat, nat>, g: nat) {
    g in gateways ==> gateways[g].account in byAccount && byAccount[gateways[g].account] == g
  }

  ghost predicate IndexOk(gateways: Gateways, byAccount: map<nat, nat>) {
    && (forall account: nat {:trigger Indexed(gateways, byAccount, account)} :: Indexed(gateways, byAccount, account))
    && (forall g: nat {:trigger Findable(gateways, byAccount, g)} :: Findable(gateways, byAccount, g))
  }

  /** A lender option names the gateways of its asset. */
  predicate Mirrors(assets: Assets, options: Options, o: nat) {
    o in options ==>
      options[o].asset in assets
      && (options[o].lenderDesc ==> options[o].gateways == assets[options[o].asset].whitelist)
  }

  ghost predicate AllMirror(assets: Assets, options: Options) {
    forall o: nat {:trigger Mirrors(assets, options, o)} :: Mirrors(assets, options, o)
  }

  /** The assets after one gateway's account is put on or taken off some whitelists. */
  function Listing(assets: Assets, which: set<nat>, account: nat, on: bool): Assets {
    map a | a in assets ::
      if a !in which then assets[a]
      else assets[a].(whitelist := if on then assets[a].whitelist + {account} else assets[a].whitelist - {account})
  }

  /** The gateways after one asset is allowed or disallowed by some of them. */
  function Allowing(gateways: Gateways, which: set<nat>, asset: nat, on: bool): Gateways {
    map g | g in gateways ::
      if g !in which then gateways[g]
      else gateways[g].(allowed := if on then gateways[g].allowed + {asset} else gateways[g].allowed - {asset})
  }

  /** The options after those that `chosen` names have copied their asset's whitelist. */
  function Copied(options: Options, assets: Assets, chosen: LendingOption -> bool, done: set<nat>): Options {
    map o | o in options ::
      if o in done && chosen(options[o]) && options[o].asset in assets
      then options[o].(gateways := assets[options[o].asset].whitelist)
      else options[o]
  }

  /** Who is listed afterwards: on the chosen assets this account as asked, and else whoever was. */
  lemma {:induction false} ListingLists(assets: Assets, which: set<nat>, account: nat, on: bool, a: nat, y: nat)
    ensures Lists(Listing(assets, which, account, on), a, y)
            <==> if a in assets && a in which && y == account then on else Lists(assets, a, y)
    ensures Listing(assets, which, account, on).Keys == assets.Keys
    ensures a in assets ==> Listing(assets, which, account, on)[a].issuer == assets[a].issuer
  {
  }

  /** Who allows what afterwards: the chosen gateways this asset as asked, and else what they did. */
  lemma {:induction false} AllowingAllows(gateways: Gateways, which: set<nat>, asset: nat, on: bool,
                                          byAccount: map<nat, nat>, y: nat, a: nat)
    ensures Allows(Allowing(gateways, which, asset, on), byAccount, y, a)
            <==> if y in byAccount && byAccount[y] in gateways && byAccount[y] in which && a == asset then on
                 else Allows(gateways, byAccount, y, a)
    ensures Allowing(gateways, which, asset, on).Keys == gateways.Keys
    ensures forall g | g in gateways :: Allowing(gateways, which, asset, on)[g].account == gateways[g].account
  {
  }

  lemma {:induction false} ListingStep(assets: Assets, done: set<nat>, a: nat, account: nat, on: bool)
    requires a in assets && a !in done
    ensures var x := Listing(assets, done, account, on)[a];
            Listing(assets, done + {a}, account, on)
            == Listing(assets, done, account, on)
                 [a := x.(whitelist := if on then x.whitelist + {account} else x.whitelist - {account})]
  {
  }

  lemma {:induction false} AllowingStep(gateways: Gateways, done: set<nat>, g: nat, asset: nat, on: bool)
    requires g in gateways && g !in done
    ensures var x := Allowing(gateways, done, asset, on)[g];
            Allowing(gateways, done + {g}, asset, on)
            == Allowing(gateways, done, asset, on)
                 [g := x.(allowed := if on then x.allowed + {asset} else x.allowed - {asset})]
  {
  }

  /** The gateways of the given accounts. */
  function GatewaysOf(byAccount: map<nat, nat>, accounts: set<nat>): set<nat> {
    set a | a in accounts && a in byAccount :: byAccount[a]
  }

  function Touches(which: set<nat>): LendingOption -> bool {
    (o: LendingOption) => o.asset in which
  }

  function LendsIn(asset: nat): LendingOption -> bool {
    (o: LendingOption) => o.asset == asset && o.lenderDesc
  }

  /** A gateway that gives up `before` and takes `after` keeps the relation two-way. */
  lemma {:induction false} RetargetKeepsTwoWay(assets: Assets, gateways: Gateways, byAccount: map<nat, nat>, g: nat,
                                               after: set<nat>)
    requires TwoWay(assets, gateways, byAccount) && IndexOk(gateways, byAccount) && g in gateways
             && after <= assets.Keys
    ensures var account := gateways[g].account;
            var assets' := Listing(Listing(assets, gateways[g].allowed, account, false), after, account, true);
            TwoWay(assets', gateways[g := gateways[g].(allowed := after)], byAccount)
  {
    var account := gateways[g].account;
    var assets' := Listing(Listing(assets, gateways[g].allowed, account, false), after, account, true);
    var gateways' := gateways[g := gateways[g].(allowed := after)];
    assert Findable(gateways, byAccount, g);
    forall x: nat, y: nat
      ensures Lists(assets', x, y) <==> Allows(gateways', byAccount, y, x)
    {
      assert Lists(assets, x, y) <==> Allows(gateways, byAccount, y, x);
      assert Indexed(gateways, byAccount, y);
    }
  }

  /** A new gateway, allowing nothing yet, does not disturb the relation. */
  lemma {:induction false} NewGatewayKeepsTwoWay(assets: Assets, gateways: Gateways, byAccount: map<nat, nat>, g: nat,
                                                 account: nat)
    requires TwoWay(assets, gateways, byAccount) && IndexOk(gateways, byAccount) && g !in gateways
             && account !in byAccount
    ensures TwoWay(assets, gateways[g := Gateway(account, {})], byAccount[account := g])
    ensures IndexOk(gateways[g := Gateway(account, {})], byAccount[account := g])
  {
    var gateways', byAccount' := gateways[g := Gateway(account, {})], byAccount[account := g];
    forall x: nat, y: nat
      ensures Lists(assets, x, y) <==> Allows(gateways', byAccount', y, x)
    {
      assert Lists(assets, x, y) <==> Allows(gateways, byAccount, y, x);
      assert Indexed(gateways, byAccount, y);
    }
    forall y: nat
      ensures Indexed(gateways', byAccount', y)
    {
      assert Indexed(gateways, byAccount, y);
    }
    forall h: nat
      ensures Findable(gateways', byAccount', h)
    {
      assert Findable(gateways, byAccount, h);
    }
  }

  /** Replacing an asset's whitelist, with the old and the new gateways told, keeps the relation two-way. */
  lemma {:induction false} RelistKeepsTwoWay(assets: Assets, gateways: Gateways, byAccount: map<nat, nat>, asset: nat,
                                             after: set<nat>)
    requires TwoWay(assets, gateways, byAccount) && IndexOk(gateways, byAccount) && asset in assets
             && after <= byAccount.Keys
    ensures var gone := Allowing(gateways, GatewaysOf(byAccount, assets[asset].whitelist), asset, false);
            TwoWay(assets[asset := assets[asset].(whitelist := after)],
                   Allowing(gone, GatewaysOf(byAccount, after), asset, true), byAccount)
  {
    var gone := Allowing(gateways, GatewaysOf(byAccount, assets[asset].whitelist), asset, false);
    var assets' := assets[asset := assets[asset].(whitelist := after)];
    var gateways' := Allowing(gone, GatewaysOf(byAccount, after), asset, true);
    forall x: nat, y: nat
      ensures Lists(assets', x, y) <==> Allows(gateways', byAccount, y, x)
    {
      assert Lists(assets, x, y) <==> Allows(gateways, byAccount, y, x);
      assert Indexed(gateways, byAccount, y);
      if y in byAccount {
        OneGatewayEach(gateways, byAccount, y, after);
        OneGatewayEach(gateways, byAccount, y, assets[asset].whitelist);
      }
    }
  }

  /** Different accounts have different gateways. */
  lemma {:induction false} OneGatewayEach(gateways: Gateways, byAccount: map<nat, nat>, y: nat, accounts: set<nat>)
    requires IndexOk(gateways, byAccount) && y in byAccount
    ensures byAccount[y] in GatewaysOf(byAccount, accounts) <==> y in accounts
  {
    assert Indexed(gateways, byAccount, y);
    if byAccount[y] in GatewaysOf(byAccount, accounts) {
      var z :| z in accounts && z in byAccount && byAccount[z] == byAccount[y];
      assert Indexed(gateways, byAccount, z);
    }
  }

  /** Changing gateways' allowed assets leaves the index by account alone. */
  lemma {:induction false} IndexSurvives(gateways: Gateways, gateways': Gateways, byAccount: map<nat, nat>)
    requires IndexOk(gateways, byAccount) && gateways'.Keys == gateways.Keys
    requires forall g :: g in gateways ==> gateways'[g].account == gateways[g].account
    ensures IndexOk(gateways', byAccount)
  {
    forall y: nat
      ensures Indexed(gateways', byAccount, y)
    {
      assert Indexed(gateways, byAccount, y);
    }
    forall h: nat
      ensures Findable(gateways', byAccount, h)
    {
      assert Findable(gateways, byAccount, h);
    }
  }

  /** If every lender option whose asset changed copies the new whitelist, all of them mirror again. */
  lemma {:induction false} CopyRestoresMirrors(assets: Assets, assets': Assets, options: Options,
                                               chosen: LendingOption -> bool)
    requires AllMirror(assets, options) && assets'.Keys == assets.Keys
    requires forall o: LendingOption ::
               o.lenderDesc && !chosen(o) && o.asset in assets ==>
                 assets'[o.asset].whitelist == assets[o.asset].whitelist
    ensures AllMirror(assets', Copied(options, assets', chosen, options.Keys))
  {
    var options' := Copied(options, assets', chosen, options.Keys);
    forall o: nat
      ensures Mirrors(assets', options', o)
    {
      assert Mirrors(assets, options, o);
    }
  }

  /** A gateway's new assets reach every lending option on one of them, whatever kind it is, and no other. */
  lemma {:induction false} GatewayChangeReachesOptions(options: Options, assets: Assets, which: set<nat>, o: nat)
    requires o in options && options[o].asset in assets
    ensures var now := Copied(options, assets, Touches(which), options.Keys)[o];
            && now.asset == options[o].asset && now.lenderDesc == options[o].lenderDesc
            && now.gateways == if options[o].asset in which then assets[options[o].asset].whitelist
                               else options[o].gateways
  {
  }

  /** One operation; `eligible` sums up what account creation and balances have to say. */
  datatype Operation =
    | CreateGateway(account: nat, eligible: bool, allowed: set<nat>)
    | UpdateGateway(gateway: nat, account: nat, newAllowed: Option<set<nat>>)
    | UpdateAsset(asset: nat, issuer: nat, whitelist: set<nat>)

  predicate MayChange(asset: Asset, issuer: nat) {
    asset.issuer == issuer || (asset.issuer == NULL_ACCOUNT && issuer == COMMITTEE_ACCOUNT)
  }

  class GatewayRegistry {
    var assets: Assets
    var gateways: Gateways
    var byAccount: map<nat, nat>
    var options: Options
    var gatewayMembers: set<nat>
    var nextGateway: nat

    ghost predicate Valid()
      reads this
    {
      && TwoWay(assets, gateways, byAccount) && IndexOk(gateways, byAccount) && AllMirror(assets, options)
      && gatewayMembers == byAccount.Keys
      && forall g :: g in gateways ==> g < nextGateway
    }

    /** Before there is any gateway no asset lists an account. */
    constructor (assets: Assets, options: Options)
      requires (forall a | a in assets :: assets[a].whitelist == {}) && AllMirror(assets, options)
      ensures Valid() && this.assets == assets && this.options == options && gateways == map[] && gatewayMembers == {}
    {
      this.assets, this.options := assets, options;
      gateways, byAccount, gatewayMembers, nextGateway := map[], map[], {}, 0;
    }

    /** The loops that put an account on some assets' whitelists, or take it off. */
    method SetListed(which: set<nat>, account: nat, on: bool)
      requires which <= assets.Keys
      modifies this`assets
      ensures assets == Listing(old(assets), which, account, on)
    {
      ghost var was := assets;
      var todo := which;
      assert assets == Listing(was, which - todo, account, on);
      while todo != {}
        invariant todo <= which && assets == Listing(was, which - todo, account, on)
      {
        var a :| a in todo;
        ListingStep(was, which - todo, a, account, on);
        assert which - (todo - {a}) == which - todo + {a};
        var x := assets[a];
        assets := assets[a := x.(whitelist := if on then x.whitelist + {account} else x.whitelist - {account})];
        todo := todo - {a};
      }
      assert which - todo == which;
    }

    /** The loops that make some accounts' gateways allow an asset, or disallow it. */
    method SetAllowed(accounts: set<nat>, asset: nat, on: bool)
      requires accounts <= byAccount.Keys && IndexOk(gateways, byAccount)
      modifies this`gateways
      ensures gateways == Allowing(old(gateways), GatewaysOf(byAccount, accounts), asset, on)
    {
      ghost var was := gateways;
      var todo := accounts;
      assert gateways == Allowing(was, GatewaysOf(byAccount, accounts - todo), asset, on);
      while todo != {}
        invariant todo <= accounts && gateways == Allowing(was, GatewaysOf(byAccount, accounts - todo), asset, on)
      {
        var a :| a in todo;
        assert Indexed(was, byAccount, a);
        var g := byAccount[a];
        OneGatewayEach(was, byAccount, a, accounts - todo);
        AllowingStep(was, GatewaysOf(byAccount, accounts - todo), g, asset, on);
        assert GatewaysOf(byAccount, accounts - (todo - {a})) == GatewaysOf(byAccount, accounts - todo) + {g};
        var x := gateways[g];
        gateways := gateways[g := x.(allowed := if on then x.allowed + {asset} else x.allowed - {asset})];
        todo := todo - {a};
      }
      assert accounts - todo == accounts;
    }

    /** The loops over all lending options. */
    method CopyWhitelists(chosen: LendingOption -> bool)
      requires forall o :: o in options ==> options[o].asset in assets
      modifies this`options
      ensures options == Copied(old(options), assets, chosen, old(options).Keys)
    {
      ghost var was := options;
      var todo := options.Keys;
      assert options == Copied(was, assets, chosen, was.Keys - todo);
      while todo != {}
        invariant todo <= was.Keys && options == Copied(was, assets, chosen, was.Keys - todo)
      {
        var o :| o in todo;
        assert options[o] == was[o];
        assert was.Keys - (todo - {o}) == was.Keys - todo + {o};
        if chosen(options[o]) {
          options := options[o := options[o].(gateways := assets[options[o].asset].whitelist)];
        }
        todo := todo - {o};
      }
      assert was.Keys - todo == was.Keys;
    }

    /** `do_allowed_asset`. */
    method DoAllowedAsset(g: nat, after: set<nat>)
      requires Valid() && g in gateways && after <= assets.Keys
      modifies this`assets, this`gateways, this`options
      ensures Valid() && gateways == old(gateways)[g := old(gateways)[g].(allowed := after)]
      ensures assets == Listing(Listing(old(assets), old(gateways)[g].allowed, old(gateways)[g].account, false),
                                after, old(gateways)[g].account, true)
      ensures options == Copied(old(options), assets, Touches(old(gateways)[g].allowed + after), old(options).Keys)
    {
      var account, before := gateways[g].account, gateways[g].allowed;
      BeforeIsListed(g);
      RetargetKeepsTwoWay(assets, gateways, byAccount, g, after);
      SetListed(before, account, false);
      SetListed(after, account, true);
      gateways := gateways[g := gateways[g].(allowed := after)];
      IndexSurvives(old(gateways), gateways, byAccount);
      OptionsHaveAssets(old(assets));
      CopyWhitelists(Touches(before + after));
      CopyRestoresMirrors(old(assets), assets, old(options), Touches(before + after));
    }

    lemma {:induction false} BeforeIsListed(g: nat)
      requires Valid() && g in gateways
      ensures gateways[g].allowed <= assets.Keys
    {
      assert Findable(gateways, byAccount, g);
      forall a | a in gateways[g].allowed
        ensures a in assets
      {
        assert Lists(assets, a, gateways[g].account) <==> Allows(gateways, byAccount, gateways[g].account, a);
      }
    }

    lemma {:induction false} OptionsHaveAssets(before: Assets)
      requires AllMirror(before, options)
      ensures forall o :: o in options ==> options[o].asset in before
    {
      forall o | o in options
        ensures options[o].asset in before
      {
        assert Mirrors(before, options, o);
      }
    }

    /** `gateway_create_evaluator`. */
    method Create(account: nat, eligible: bool, allowed: set<nat>) returns (r: Option<nat>)
      requires Valid()
      modifies this
      ensures Valid() && assets.Keys == old(assets).Keys
      ensures r.Some? <==> eligible && account !in old(byAccount) && allowed <= old(assets).Keys
      ensures match r
              case Some(g) => g !in old(gateways) && gateways == old(gateways)[g := Gateway(account, allowed)]
                              && byAccount == old(byAccount)[account := g]
                              && assets == Listing(old(assets), allowed, account, true)
              case None => gateways == old(gateways) && byAccount == old(byAccount) && assets == old(assets)
                           && options == old(options)
    {
      if !eligible || account in gatewayMembers || !(allowed <= assets.Keys) {
        return None;
      }
      var g := nextGateway;
      NewGatewayKeepsTwoWay(assets, gateways, byAccount, g, account);
      assert Listing(assets, {}, account, false) == assets;
      gateways := gateways[g := Gateway(account, {})];
      byAccount := byAccount[account := g];
      nextGateway := g + 1;
      gatewayMembers := gatewayMembers + {account};
      DoAllowedAsset(g, allowed);
      return Some(g);
    }

    /** `gateway_update_evaluator`. */
    method Update(g: nat, account: nat, newAllowed: Option<set<nat>>) returns (ok: bool)
      requires Valid()
      modifies this`assets, this`gateways, this`options
      ensures Valid() && assets.Keys == old(assets).Keys
      ensures ok <==> g in old(gateways) && old(gateways)[g].account == account
                      && (newAllowed.Some? ==> newAllowed.value <= old(assets).Keys)
      ensures gateways == if ok && newAllowed.Some? then old(gateways)[g := Gateway(account, newAllowed.value)]
              else old(gateways)
      ensures if ok && newAllowed.Some?
              then assets == Listing(Listing(old(assets), old(gateways)[g].allowed, account, false), newAllowed.value,
                                     account, true)
              else assets == old(assets) && options == old(options)
    {
      if g !in gateways || gateways[g].account != account || (newAllowed.Some? && !(newAllowed.value <= assets.Keys)) {
        return false;
      }
      if newAllowed.Some? {
        DoAllowedAsset(g, newAllowed.value);
      }
      return true;
    }

    /** `asset_update_gateway_evaluator`. */
    method UpdateWhitelist(asset: nat, issuer: nat, whitelist: set<nat>) returns (ok: bool)
      requires Valid()
      modifies this`assets, this`gateways, this`options
      ensures Valid() && assets.Keys == old(assets).Keys
      ensures ok <==> asset in old(assets) && MayChange(old(assets)[asset], issuer) && whitelist <= byAccount.Keys
      ensures ok ==> var owner := old(assets)[asset].issuer; owner == issuer || (owner == 3 && issuer == 0)
      ensures !ok && asset in old(assets) && whitelist <= byAccount.Keys ==>
                var owner := old(assets)[asset].issuer; owner != issuer && !(owner == 3 && issuer == 0)
      ensures assets == if ok then old(assets)[asset := old(assets)[asset].(whitelist := whitelist)] else old(assets)
      ensures options == if ok then Copied(old(options), assets, LendsIn(asset), old(options).Keys) else old(options)
      ensures gateways ==
              if ok then Allowing(Allowing(old(gateways), GatewaysOf(byAccount, old(assets)[asset].whitelist), asset,
                                           false),
                                  GatewaysOf(byAccount, whitelist), asset, true)
              else old(gateways)
    {
      OptionsHaveAssets(assets);
      if asset !in assets || !MayChange(assets[asset], issuer) || !(whitelist <= gatewayMembers) {
        return false;
      }
      var before := assets[asset].whitelist;
      ListedAreGateways(asset);
      RelistKeepsTwoWay(assets, gateways, byAccount, asset, whitelist);
      SetAllowed(before, asset, false);
      IndexSurvives(old(gateways), gateways, byAccount);
      assets := assets[asset := assets[asset].(whitelist := whitelist)];
      SetAllowed(whitelist, asset, true);
      IndexSurvives(old(gateways), gateways, byAccount);
      CopyWhitelists(LendsIn(asset));
      CopyRestoresMirrors(old(assets), assets, old(options), LendsIn(asset));
      return true;
    }

    lemma {:induction false} ListedAreGateways(asset: nat)
      requires Valid() && asset in assets
      ensures assets[asset].whitelist <= byAccount.Keys
    {
      forall y | y in assets[asset].whitelist
        ensures y in byAccount
      {
        assert Lists(assets, asset, y) <==> Allows(gateways, byAccount, y, asset);
      }
    }

    /** Over every run the relation stays two-way, and every lender option mirrors its asset. */
    method Run(ops: seq<Operation>)
      requires Valid()
      modifies this
      ensures Valid() && assets.Keys == old(assets).Keys
    {
      for i := 0 to |ops|
        invariant Valid() && assets.Keys == old(assets).Keys
      {
        match ops[i]
        case CreateGateway(account, eligible, allowed) => var _ := Create(account, eligible, allowed);
        case UpdateGateway(g, account, newAllowed) => var _ := Update(g, account, newAllowed);
        case UpdateAsset(asset, issuer, whitelist) => var _ := UpdateWhitelist(asset, issuer, whitelist);
      }
    }
  }

  /** Only lender options follow an asset's new whitelist; a gateway's new assets reach all options. */
  lemma {:induction false} OtherOptionsLagBehind(assets: Assets, options: Options, asset: nat, o: nat,
                                                 whitelist: set<nat>)
    requires asset in assets && o in options && options[o].asset == asset
    ensures var assets' := assets[asset := assets[asset].(whitelist := whitelist)];
            Copied(options, assets', LendsIn(asset), options.Keys)[o].gateways == whitelist
            <==> options[o].lenderDesc || options[o].gateways == whitelist
  {
  }
}
