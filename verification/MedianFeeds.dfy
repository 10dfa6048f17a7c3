/** Price feeds and their medians (libraries/chain/asset_object.cpp). */
module MedianFeeds {
  import opened OrderStatistics

  /** Both amounts are non-negative; the quote of a published price is positive. */
  datatype Price = Price(base: nat, quote: nat)

  type LivePrice = p: Price | p.quote > 0 witness Price(0, 1)

  datatype Feed = Feed(settlement: LivePrice, maintenanceRatio: nat, squeezeRatio: nat, coreRate: LivePrice)

  /** `price::operator<` on prices of one pair of assets, by cross multiplication. */
  predicate PriceLess(a: LivePrice, b: LivePrice) {
    b.quote * a.base < a.quote * b.base
  }

  /** What a price stands for. */
  ghost function Ratio(p: LivePrice): real {
    p.base as real / p.quote as real
  }

  /** Prices compare as their ratios do. */
  lemma {:induction false} PriceOrderIsRatioOrder(a: LivePrice, b: LivePrice)
    ensures PriceLess(a, b) <==> Ratio(a) < Ratio(b)
    ensures SamePrice(a, b) <==> Ratio(a) == Ratio(b)
  {
    var an, ad, bn, bd := a.base as real, a.quote as real, b.base as real, b.quote as real;
    CrossReal(an, ad, bn, bd);
    assert an * bd == (a.base * b.quote) as real && bn * ad == (b.base * a.quote) as real;
  }

  lemma {:induction false} CrossReal(an: real, ad: real, bn: real, bd: real)
    requires ad > 0.0 && bd > 0.0
    ensures an / ad < bn / bd <==> an * bd < bn * ad
    ensures an / ad == bn / bd <==> an * bd == bn * ad
  {
    var x, y := an / ad, bn / bd;
    assert an == x * ad && bn == y * bd;
    assert an * bd == x * (ad * bd) && bn * ad == y * (ad * bd);
    ScaleReal(x, y, ad * bd);
  }

  lemma {:induction false} ScaleReal(x: real, y: real, c: real)
    requires c > 0.0
    ensures x < y <==> x * c < y * c
    ensures x == y <==> x * c == y * c
  {
  }

  /** Of two prices one is less, or they are the same; and with the same quote the bases decide. */
  lemma {:induction false} PricesAreOrdered(a: LivePrice, b: LivePrice)
    ensures PriceLess(a, b) ==> !PriceLess(b, a) && !SamePrice(a, b)
    ensures PriceLess(a, b) || PriceLess(b, a) || SamePrice(a, b)
    ensures a.quote == b.quote ==> (PriceLess(a, b) <==> a.base < b.base) && (SamePrice(a, b) <==> a.base == b.base)
    ensures a.base == b.base > 0 ==> (PriceLess(a, b) <==> b.quote < a.quote)
  {
    PriceOrderIsRatioOrder(a, b);
    PriceOrderIsRatioOrder(b, a);
    if a.quote == b.quote {
      MulKeeps(a.base, b.base, a.quote);
      MulKeeps(b.base, a.base, a.quote);
    }
    if a.base == b.base > 0 {
      MulKeeps(b.quote, a.quote, a.base);
    }
  }

  function BySettlement(): (Feed, Feed) -> bool {
    (a: Feed, b: Feed) => PriceLess(a.settlement, b.settlement)
  }

  function ByMaintenance(): (Feed, Feed) -> bool {
    (a: Feed, b: Feed) => a.maintenanceRatio < b.maintenanceRatio
  }

  function BySqueeze(): (Feed, Feed) -> bool {
    (a: Feed, b: Feed) => a.squeezeRatio < b.squeezeRatio
  }

  function ByCoreRate(): (Feed, Feed) -> bool {
    (a: Feed, b: Feed) => PriceLess(a.coreRate, b.coreRate)
  }

  lemma {:induction false} MulKeeps(x: int, y: int, c: int)
    requires c > 0
    ensures x < y <==> x * c < y * c
  {
  }

  lemma {:induction false} MulSwap(x: int, y: int, z: int)
    ensures x * y * z == x * z * y
  {
  }

  /** Comparing fractions by cross multiplication is transitive, strictly and weakly. */
  lemma {:induction false} CrossTransitive(an: int, ad: int, bn: int, bd: int, cn: int, cd: int)
    requires ad > 0 && bd > 0 && cd > 0
    ensures an * bd < bn * ad && bn * cd < cn * bd ==> an * cd < cn * ad
    ensures an * bd <= bn * ad && bn * cd <= cn * bd ==> an * cd <= cn * ad
  {
    MulKeeps(an * bd, bn * ad, cd);
    MulKeeps(bn * ad, an * bd, cd);
    MulKeeps(bn * cd, cn * bd, ad);
    MulKeeps(cn * bd, bn * cd, ad);
    MulSwap(an, bd, cd);
    MulSwap(bn, ad, cd);
    MulSwap(cn, bd, ad);
    MulKeeps(an * cd, cn * ad, bd);
    MulKeeps(cn * ad, an * cd, bd);
  }

  lemma {:induction false} PriceLessTransitive(a: LivePrice, b: LivePrice, c: LivePrice)
    ensures PriceLess(a, b) && PriceLess(b, c) ==> PriceLess(a, c)
    ensures !PriceLess(a, b) && !PriceLess(b, c) ==> !PriceLess(a, c)
  {
    CrossTransitive(a.base, a.quote, b.base, b.quote, c.base, c.quote);
    CrossTransitive(c.base, c.quote, b.base, b.quote, a.base, a.quote);
  }

  /** All four comparisons are what `std::nth_element` asks for. */
  lemma {:induction false} ComparisonsAreStrictWeak()
    ensures StrictWeak(BySettlement()) && StrictWeak(ByMaintenance()) && StrictWeak(BySqueeze())
            && StrictWeak(ByCoreRate())
  {
    forall x: Feed, y: Feed, z: Feed
      ensures PriceLess(x.settlement, y.settlement) && PriceLess(y.settlement, z.settlement)
              ==> PriceLess(x.settlement, z.settlement)
      ensures !PriceLess(x.settlement, y.settlement) && !PriceLess(y.settlement, z.settlement)
              ==> !PriceLess(x.settlement, z.settlement)
      ensures PriceLess(x.coreRate, y.coreRate) && PriceLess(y.coreRate, z.coreRate)
              ==> PriceLess(x.coreRate, z.coreRate)
      ensures !PriceLess(x.coreRate, y.coreRate) && !PriceLess(y.coreRate, z.coreRate)
              ==> !PriceLess(x.coreRate, z.coreRate)
    {
      PriceLessTransitive(x.settlement, y.settlement, z.settlement);
      PriceLessTransitive(x.coreRate, y.coreRate, z.coreRate);
    }
  }

  /** One loop of `set_pric`: common factors of ten go, the ratio stays. */
  method Normalise(p: LivePrice) returns (r: LivePrice)
    ensures r.base * p.quote == p.base * r.quote
    ensures p.base == 0 ==> r == p
    ensures r.base == 0 || r.base % 10 != 0 || r.quote % 10 != 0
  {
    r := p;
    ghost var factor := 1;
    while r.base != 0 && r.quote != 0 && r.base % 10 == 0 && r.quote % 10 == 0
      invariant factor > 0 && p.base == r.base * factor && p.quote == r.quote * factor
      invariant p.base == 0 ==> r == p
      decreases r.base
    {
      assert r.base == r.base / 10 * 10 && r.quote == r.quote / 10 * 10;
      assert p.base == r.base / 10 * (10 * factor) && p.quote == r.quote / 10 * (10 * factor);
      r := Price(r.base / 10, r.quote / 10);
      factor := 10 * factor;
    }
    assert r.base * (r.quote * factor) == (r.base * factor) * r.quote;
  }

  /** Two prices that stand for the same ratio. */
  predicate SamePrice(a: LivePrice, b: LivePrice) {
    a.base * b.quote == b.base * a.quote
  }

  datatype Published = Published(time: int, feed: Feed)

  predicate IsLive(f: Published, now: int, lifetime: nat) {
    now - f.time < lifetime && f.time != 0
  }

  /** The unexpired feeds, in the order of their publishers. */
  function Live(feeds: seq<Published>, now: int, lifetime: nat): seq<Feed> {
    if feeds == [] then []
    else
      var last := feeds[|feeds| - 1];
      Live(feeds[..|feeds| - 1], now, lifetime) + if IsLive(last, now, lifetime) then [last.feed] else []
  }

  /** Feeds are collected in their order: those that have been published, and less than their lifetime ago. */
  lemma {:induction false} LiveInOrder(before: seq<Published>, f: Published, after: seq<Published>, now: int,
                                       lifetime: nat)
    ensures Live(before + [f] + after, now, lifetime)
            == Live(before, now, lifetime)
               + (if f.time != 0 && now - f.time < lifetime then [f.feed] else [])
               + Live(after, now, lifetime)
    decreases |after|
  {
    if after == [] {
      assert before + [f] + after == before + [f] && (before + [f])[..|before|] == before;
    } else {
      var n := |after| - 1;
      var all := before + [f] + after;
      assert all[..|all| - 1] == before + [f] + after[..n] && all[|all| - 1] == after[n];
      LiveInOrder(before, f, after[..n], now, lifetime);
    }
  }

  /** No unexpired feed is older, and one is as old unless all are from the future. */
  lemma {:induction false} OldestIsLeast(feeds: seq<Published>, now: int, lifetime: nat)
    ensures Oldest(feeds, now, lifetime) <= now
    ensures forall i | 0 <= i < |feeds| ::
              feeds[i].time != 0 && now - feeds[i].time < lifetime ==> Oldest(feeds, now, lifetime) <= feeds[i].time
    ensures Oldest(feeds, now, lifetime) == now
            || exists i :: 0 <= i < |feeds| && feeds[i].time != 0 && now - feeds[i].time < lifetime
                           && Oldest(feeds, now, lifetime) == feeds[i].time
  {
    if feeds != [] {
      var n := |feeds| - 1;
      var before := feeds[..n];
      OldestIsLeast(before, now, lifetime);
      assert forall i | 0 <= i < n :: before[i] == feeds[i];
      if Oldest(feeds, now, lifetime) == Oldest(before, now, lifetime) != now {
        var i :| 0 <= i < n && before[i].time != 0 && now - before[i].time < lifetime
                 && Oldest(before, now, lifetime) == before[i].time;
        assert feeds[i] == before[i];
      }
    }
  }

  /** The oldest publication among the unexpired feeds, and now. */
  function Oldest(feeds: seq<Published>, now: int, lifetime: nat): int {
    if feeds == [] then now
    else
      var last := feeds[|feeds| - 1];
      var before := Oldest(feeds[..|feeds| - 1], now, lifetime);
      if IsLive(last, now, lifetime) && last.time < before then last.time else before
  }

  datatype Current = NoFeed | Single(feed: Feed) | Median(feed: Feed)

  /** Field by field, `m` holds the middle one of the feeds. */
  ghost predicate IsMedian(feeds: seq<Feed>, m: Feed) {
    var k := |feeds| / 2;
    && (exists f :: IsNth(feeds, BySettlement(), k, f) && SamePrice(m.settlement, f.settlement))
    && (exists f :: IsNth(feeds, ByMaintenance(), k, f) && m.maintenanceRatio == f.maintenanceRatio)
    && (exists f :: IsNth(feeds, BySqueeze(), k, f) && m.squeezeRatio == f.squeezeRatio)
    && (exists f :: IsNth(feeds, ByCoreRate(), k, f) && SamePrice(m.coreRate, f.coreRate))
  }

  /** One `CALCULATE_MEDIAN_VALUE`: whatever order the vector was left in, the middle one is found. */
  method SelectMiddle(v: array<Feed>, less: (Feed, Feed) -> bool, ghost feeds: seq<Feed>) returns (m: Feed)
    requires StrictWeak(less) && v.Length > 0 && multiset(v[..]) == multiset(feeds)
    modifies v
    ensures multiset(v[..]) == multiset(feeds)
    ensures IsNth(feeds, less, |feeds| / 2, m)
  {
    var k := v.Length / 2;
    NthElement(v, k, less);
    m := v[k];
    PartitionedNth(v[..], less, k);
    NthPermutation(v[..], feeds, less, k, m);
    assert |multiset(v[..])| == |v[..]| && |multiset(feeds)| == |feeds|;
  }

  class AssetFeeds {
    var feeds: seq<Published>
    var lifetime: nat
    var minimum: nat
    var current: Current
    var publicationTime: int

    constructor (feeds: seq<Published>, lifetime: nat, minimum: nat)
      ensures this.feeds == feeds && this.lifetime == lifetime && this.minimum == minimum && current == NoFeed
    {
      this.feeds, this.lifetime, this.minimum, current, publicationTime := feeds, lifetime, minimum, NoFeed, 0;
    }

    /** The loop that collects the unexpired feeds. */
    method Collect(now: int) returns (live: seq<Feed>, oldest: int)
      ensures live == Live(feeds, now, lifetime) && oldest == Oldest(feeds, now, lifetime)
    {
      live, oldest := [], now;
      for i := 0 to |feeds|
        invariant live == Live(feeds[..i], now, lifetime) && oldest == Oldest(feeds[..i], now, lifetime)
      {
        assert feeds[..i + 1][..i] == feeds[..i];
        if IsLive(feeds[i], now, lifetime) {
          live := live + [feeds[i].feed];
          if feeds[i].time < oldest {
            oldest := feeds[i].time;
          }
        }
      }
      assert feeds[..|feeds|] == feeds;
    }

    /** `update_median_feeds`. */
    method UpdateMedianFeeds(now: int)
      requires minimum >= 1
      modifies this`current, this`publicationTime
      ensures var live := Live(feeds, now, lifetime);
        if |live| < minimum then current == NoFeed && publicationTime == now
        else
          && publicationTime == Oldest(feeds, now, lifetime)
          && if |live| == 1 then current == Single(live[0])
             else current.Median? && IsMedian(live, current.feed)
    {
      var live, oldest := Collect(now);
      publicationTime := oldest;
      if |live| < minimum {
        publicationTime := now;
        current := NoFeed;
        return;
      }
      if |live| == 1 {
        current := Single(live[0]);
        return;
      }
      ComparisonsAreStrictWeak();
      var v := new Feed[|live|](i requires 0 <= i < |live| => live[i]);
      assert v[..] == live;
      var a := SelectMiddle(v, BySettlement(), live);
      var b := SelectMiddle(v, ByMaintenance(), live);
      var c := SelectMiddle(v, BySqueeze(), live);
      var d := SelectMiddle(v, ByCoreRate(), live);
      var settlement := Normalise(a.settlement);
      var coreRate := Normalise(d.coreRate);
      current := Median(Feed(settlement, b.maintenanceRatio, c.squeezeRatio, coreRate));
    }
  }

  /** The price of a feed lies between those of two others. */
  ghost function SettlementWithin(lo: Feed, hi: Feed): Feed -> bool {
    (f: Feed) => Ratio(lo.settlement) <= Ratio(f.settlement) <= Ratio(hi.settlement)
  }

  ghost function CoreRateWithin(lo: Feed, hi: Feed): Feed -> bool {
    (f: Feed) => Ratio(lo.coreRate) <= Ratio(f.coreRate) <= Ratio(hi.coreRate)
  }

  ghost function MaintenanceWithin(lo: Feed, hi: Feed): Feed -> bool {
    (f: Feed) => lo.maintenanceRatio <= f.maintenanceRatio <= hi.maintenanceRatio
  }

  ghost function SqueezeWithin(lo: Feed, hi: Feed): Feed -> bool {
    (f: Feed) => lo.squeezeRatio <= f.squeezeRatio <= hi.squeezeRatio
  }

  ghost predicate Majority(feeds: seq<Feed>, p: Feed -> bool) {
    2 * Count(feeds, p) > |feeds|
  }

  lemma {:induction false} MajorityBindsField(feeds: seq<Feed>, less: (Feed, Feed) -> bool, lo: Feed, hi: Feed, f: Feed,
                                              p: Feed -> bool)
    requires StrictWeak(less) && IsNth(feeds, less, |feeds| / 2, f)
    requires forall g {:trigger p(g)} | p(g) :: !less(g, lo) && !less(hi, g)
    ensures Majority(feeds, p) ==> !less(f, lo) && !less(hi, f)
  {
    if Majority(feeds, p) {
      CountWeaker(feeds, p, Between(less, lo, hi));
      MajorityBindsMedian(feeds, less, lo, hi, f);
    }
  }

  lemma {:induction false} SettlementBound(feeds: seq<Feed>, m: Feed, lo: Feed, hi: Feed)
    requires IsMedian(feeds, m) && Majority(feeds, SettlementWithin(lo, hi))
    ensures SettlementWithin(lo, hi)(m)
  {
    ComparisonsAreStrictWeak();
    var f :| IsNth(feeds, BySettlement(), |feeds| / 2, f) && SamePrice(m.settlement, f.settlement);
    forall g {:trigger SettlementWithin(lo, hi)(g)} | SettlementWithin(lo, hi)(g)
      ensures !BySettlement()(g, lo) && !BySettlement()(hi, g)
    {
      PriceOrderIsRatioOrder(g.settlement, lo.settlement);
      PriceOrderIsRatioOrder(hi.settlement, g.settlement);
    }
    MajorityBindsField(feeds, BySettlement(), lo, hi, f, SettlementWithin(lo, hi));
    PriceOrderIsRatioOrder(f.settlement, lo.settlement);
    PriceOrderIsRatioOrder(hi.settlement, f.settlement);
    PriceOrderIsRatioOrder(m.settlement, f.settlement);
  }

  lemma {:induction false} CoreRateBound(feeds: seq<Feed>, m: Feed, lo: Feed, hi: Feed)
    requires IsMedian(feeds, m) && Majority(feeds, CoreRateWithin(lo, hi))
    ensures CoreRateWithin(lo, hi)(m)
  {
    ComparisonsAreStrictWeak();
    var f :| IsNth(feeds, ByCoreRate(), |feeds| / 2, f) && SamePrice(m.coreRate, f.coreRate);
    forall g {:trigger CoreRateWithin(lo, hi)(g)} | CoreRateWithin(lo, hi)(g)
      ensures !ByCoreRate()(g, lo) && !ByCoreRate()(hi, g)
    {
      PriceOrderIsRatioOrder(g.coreRate, lo.coreRate);
      PriceOrderIsRatioOrder(hi.coreRate, g.coreRate);
    }
    MajorityBindsField(feeds, ByCoreRate(), lo, hi, f, CoreRateWithin(lo, hi));
    PriceOrderIsRatioOrder(f.coreRate, lo.coreRate);
    PriceOrderIsRatioOrder(hi.coreRate, f.coreRate);
    PriceOrderIsRatioOrder(m.coreRate, f.coreRate);
  }

  lemma {:induction false} MaintenanceBound(feeds: seq<Feed>, m: Feed, lo: Feed, hi: Feed)
    requires IsMedian(feeds, m) && Majority(feeds, MaintenanceWithin(lo, hi))
    ensures MaintenanceWithin(lo, hi)(m)
  {
    ComparisonsAreStrictWeak();
    var f :| IsNth(feeds, ByMaintenance(), |feeds| / 2, f) && m.maintenanceRatio == f.maintenanceRatio;
    MajorityBindsField(feeds, ByMaintenance(), lo, hi, f, MaintenanceWithin(lo, hi));
  }

  lemma {:induction false} SqueezeBound(feeds: seq<Feed>, m: Feed, lo: Feed, hi: Feed)
    requires IsMedian(feeds, m) && Majority(feeds, SqueezeWithin(lo, hi))
    ensures SqueezeWithin(lo, hi)(m)
  {
    ComparisonsAreStrictWeak();
    var f :| IsNth(feeds, BySqueeze(), |feeds| / 2, f) && m.squeezeRatio == f.squeezeRatio;
    MajorityBindsField(feeds, BySqueeze(), lo, hi, f, SqueezeWithin(lo, hi));
  }

  /**
   No minority of publishers can move a field out of the range of the majority: if more than half
   of the feeds lie between two bounds in a field, so does the result. Prices lie as their ratios do.
   */
  lemma {:induction false} MajorityBindsEveryField(feeds: seq<Feed>, m: Feed, lo: Feed, hi: Feed)
    requires IsMedian(feeds, m)
    ensures Majority(feeds, SettlementWithin(lo, hi)) ==> SettlementWithin(lo, hi)(m)
    ensures Majority(feeds, MaintenanceWithin(lo, hi)) ==> MaintenanceWithin(lo, hi)(m)
    ensures Majority(feeds, SqueezeWithin(lo, hi)) ==> SqueezeWithin(lo, hi)(m)
    ensures Majority(feeds, CoreRateWithin(lo, hi)) ==> CoreRateWithin(lo, hi)(m)
  {
    if Majority(feeds, MaintenanceWithin(lo, hi)) {
      MaintenanceBound(feeds, m, lo, hi);
    }
    if Majority(feeds, SqueezeWithin(lo, hi)) {
      SqueezeBound(feeds, m, lo, hi);
    }
    if Majority(feeds, SettlementWithin(lo, hi)) {
      SettlementBound(feeds, m, lo, hi);
    }
    if Majority(feeds, CoreRateWithin(lo, hi)) {
      CoreRateBound(feeds, m, lo, hi);
    }
  }
}
