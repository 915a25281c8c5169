/** How often, and how far, the grid moves over whole runs. */
module GridDrift {
  import opened Prelude
  import opened Rounding
  import opened Grid
  import opened GridGeometry

  // ----- One tick -----

  lemma InitialDistance(anchor: real, ratio: real)
    requires anchor > 0.0 && ratio > 0.0
    ensures Abs(anchor - anchor) < ratio * anchor
  {
    MulLeftStrict(anchor, 0.0, ratio);
  }

  /** What a positive tick does to the anchor, leaving the levels aside. */
  predicate Moved(s: State, s1: State, price: real) {
    && s1.cfg == s.cfg
    && (if NeedsRebuild(s, price) then s1.rebuilds == s.rebuilds + 1 && s1.anchor == price
        else s1.rebuilds == s.rebuilds && s1.anchor == s.anchor)
  }

  lemma TickMoves(s: State, price: real)
    requires Inv(s) && price > 0.0
    ensures Inv(OnTick(s, price).state) && Moved(s, OnTick(s, price).state, price)
  {
    StepInv(s, Tick(price));
  }

  lemma MovedRests(s: State, s1: State, price: real)
    requires Sane(s.cfg) && price > 0.0 && Moved(s, s1, price)
    ensures Resting(s1, price)
    ensures s.cfg.dynamicEnabled ==> Settled(s1.cfg, s1.anchor, price)
  {
    if NeedsRebuild(s, price) { InitialDistance(price, s.cfg.recenterThresholdRatio); }
  }

  lemma LevelsBracket(s: State, price: real)
    requires Inv(s) && s.anchor > 0.0 && Brackets(s.cfg, s.anchor, price)
    ensures |s.levels| == s.cfg.levels && s.levels[0].buyPrice <= price <= s.levels[|s.levels| - 1].buyPrice
  {
    assert s.levels[0].(state := Idle) == LevelAt(s.cfg, s.anchor, 0);
    assert s.levels[s.cfg.levels - 1].(state := Idle) == LevelAt(s.cfg, s.anchor, s.cfg.levels - 1);
  }

  /**
   After any positive tick the grid has an anchor; in dynamic mode it is
   settled around the price, after at most one rebuild, and with a threshold of
   at most half the band the outer levels bracket a price in whole cents.
   */
  lemma TickTracksPrice(s: State, price: real)
    requires Inv(s) && price > 0.0
    ensures var s1 := OnTick(s, price).state;
            && s1.cfg == s.cfg && |s1.levels| == s.cfg.levels
            && s.rebuilds <= s1.rebuilds <= s.rebuilds + 1
            && s1.anchor == (if s1.rebuilds == s.rebuilds then s.anchor else price)
            && (s.cfg.dynamicEnabled ==> Settled(s1.cfg, s1.anchor, price))
            && (s.cfg.dynamicEnabled && WholeCents(price) && s.cfg.recenterThresholdRatio <= s.cfg.bandRatio * 0.5 ==>
                  s1.levels[0].buyPrice <= price <= s1.levels[|s1.levels| - 1].buyPrice)
  {
    var s1 := OnTick(s, price).state;
    TickMoves(s, price);
    MovedRests(s, s1, price);
    if s.cfg.dynamicEnabled && WholeCents(price) && s.cfg.recenterThresholdRatio <= s.cfg.bandRatio * 0.5 {
      SettledBracketed(s.cfg, s1.anchor, price);
      LevelsBracket(s1, price);
    }
  }

  // ----- Amortised bound on rebuilds -----

  /** The positive tick prices of a run: the others are ignored by the strategy. */
  function Prices(events: seq<Event>): seq<real> {
    if events == [] then []
    else
      var n := |events| - 1;
      Prices(events[..n]) + PriceOf(events[n])
  }

  function PriceOf(e: Event): seq<real> {
    if e.Tick? && e.price > 0.0 then [e.price] else []
  }

  function Updates(events: seq<Event>): nat {
    if events == [] then 0
    else
      var n := |events| - 1;
      Updates(events[..n]) + if events[n].Update? then 1 else 0
  }

  /** Total variation: the length of the path the price has travelled. */
  function Variation(prices: seq<real>): real {
    if |prices| <= 1 then 0.0
    else
      var n := |prices| - 1;
      Variation(prices[..n]) + Abs(prices[n] - prices[n - 1])
  }

  ghost predicate ThresholdsAtLeast(c: Config, events: seq<Event>, r: real) {
    && Sanitize(c).recenterThresholdRatio >= r
    && forall e | e in events && e.Update? :: Sanitize(e.cfg).recenterThresholdRatio >= r
  }

  ghost predicate AllAtLeast(prices: seq<real>, floor: real) {
    forall i | 0 <= i < |prices| :: prices[i] >= floor
  }

  function Last(prices: seq<real>): real
    requires prices != []
  {
    prices[|prices| - 1]
  }

  predicate Affords(c: Config, cost: real, floor: real) {
    c.recenterThresholdRatio * floor >= cost
  }

  /** Potential: each chargeable rebuild has used up `cost` of the path; the rest covers the current drift. */
  predicate Paid(s: State, prices: seq<real>, updates: nat, cost: real, floor: real) {
    && Affords(s.cfg, cost, floor)
    && if prices == [] then s.anchor == 0.0 && s.rebuilds == 0
       else
         && s.anchor >= floor
         && Charge(cost, s.rebuilds - 1 - updates) + Abs(Last(prices) - s.anchor) <= Variation(prices)
  }

  function Charge(cost: real, n: int): real {
    cost * n as real
  }

  lemma ChargeMore(cost: real, n: int)
    requires cost >= 0.0
    ensures Charge(cost, n + 1) == Charge(cost, n) + cost
    ensures Charge(cost, n - 1) <= Charge(cost, n)
    ensures n <= 0 ==> Charge(cost, n) <= 0.0
  {
    if n <= 0 { MulLeft(cost, n as real, 0.0); }
  }

  lemma VariationAppend(prices: seq<real>, p: real)
    ensures Variation(prices + [p]) == if prices == [] then 0.0 else Variation(prices) + Abs(p - Last(prices))
  {
    if prices != [] { assert (prices + [p])[..|prices|] == prices; }
  }

  lemma MovedPaid(s: State, s1: State, prices: seq<real>, updates: nat, cost: real, floor: real, price: real)
    requires Sane(s.cfg) && Paid(s, prices, updates, cost, floor) && Moved(s, s1, price)
    requires cost > 0.0 && price >= floor > 0.0
    ensures Paid(s1, prices + [price], updates, cost, floor)
  {
    VariationAppend(prices, price);
    if prices == [] {
      ChargeMore(cost, 0 - (updates as int));
    } else if NeedsRebuild(s, price) {
      DriftCosts(s, price, cost, floor);
      ChargeMore(cost, s.rebuilds - 1 - updates);
    }
  }

  lemma DriftCosts(s: State, price: real, cost: real, floor: real)
    requires Sane(s.cfg) && s.anchor >= floor > 0.0 && Affords(s.cfg, cost, floor) && NeedsRebuild(s, price)
    ensures Abs(price - s.anchor) >= cost
  {
    MulLeft(s.cfg.recenterThresholdRatio, floor, s.anchor);
  }

  lemma StepPaid(s: State, prices: seq<real>, updates: nat, cost: real, floor: real, e: Event)
    requires Inv(s) && Paid(s, prices, updates, cost, floor)
    requires cost > 0.0 && floor > 0.0
    requires e.Tick? && e.price > 0.0 ==> e.price >= floor
    requires e.Update? ==> Affords(Sanitize(e.cfg), cost, floor)
    ensures Paid(Step(s, e).state,
                 prices + PriceOf(e),
                 updates + (if e.Update? then 1 else 0), cost, floor)
  {
    assert prices + [] == prices;
    match e {
      case Tick(price) =>
        if price > 0.0 {
          TickMoves(s, price);
          MovedPaid(s, OnTick(s, price).state, prices, updates, cost, floor, price);
        }
      case BuyFill(_) =>
      case SellFill(_) =>
      case Update(_) => ChargeMore(cost, s.rebuilds - 1 - updates);
    }
  }

  lemma SplitAtLeast(before: seq<real>, last: seq<real>, floor: real)
    requires AllAtLeast(before + last, floor)
    ensures AllAtLeast(before, floor) && AllAtLeast(last, floor)
  {
    assert forall i | 0 <= i < |before| :: before[i] == (before + last)[i];
    assert forall i | 0 <= i < |last| :: last[i] == (before + last)[|before| + i];
  }

  lemma PrefixPrices(events: seq<Event>, floor: real)
    requires events != [] && AllAtLeast(Prices(events), floor)
    ensures AllAtLeast(Prices(events[..|events| - 1]), floor)
    ensures AllAtLeast(PriceOf(events[|events| - 1]), floor)
  {
    SplitAtLeast(Prices(events[..|events| - 1]), PriceOf(events[|events| - 1]), floor);
  }

  lemma PrefixThresholds(c: Config, events: seq<Event>, r: real)
    requires events != [] && ThresholdsAtLeast(c, events, r)
    ensures ThresholdsAtLeast(c, events[..|events| - 1], r)
    ensures var e := events[|events| - 1]; e.Update? ==> Sanitize(e.cfg).recenterThresholdRatio >= r
  {
    assert events[|events| - 1] in events;
    assert forall x | x in events[..|events| - 1] :: x in events;
  }

  lemma {:induction false} RunPaid(c: Config, events: seq<Event>, r: real, floor: real, cost: real)
    requires r > 0.0 && floor > 0.0 && CostIs(cost, r, floor)
    requires ThresholdsAtLeast(c, events, r)
    requires AllAtLeast(Prices(events), floor)
    ensures Paid(After(c, events), Prices(events), Updates(events), cost, floor)
  {
    CostCovered(r, floor, cost, Sanitize(c));
    if events == [] {
    } else {
      var n := |events| - 1;
      PrefixPrices(events, floor);
      PrefixThresholds(c, events, r);
      RunPaid(c, events[..n], r, floor, cost);
      ReachableInv(c, events[..n]);
      if events[n].Update? { CostCovered(r, floor, cost, Sanitize(events[n].cfg)); }
      assert PriceOf(events[n]) != [] ==> PriceOf(events[n])[0] >= floor;
      StepPaid(After(c, events[..n]), Prices(events[..n]), Updates(events[..n]), cost, floor, events[n]);
    }
  }

  predicate CostIs(cost: real, r: real, floor: real) {
    cost == r * floor
  }

  lemma CostCovered(r: real, floor: real, cost: real, c: Config)
    requires c.recenterThresholdRatio >= r > 0.0 && floor > 0.0 && CostIs(cost, r, floor)
    ensures cost > 0.0 && Affords(c, cost, floor)
  {
    MulLeftStrict(r, 0.0, floor);
    MulLeft(floor, r, c.recenterThresholdRatio);
  }

  /**
   Over any run whose thresholds are at least r and whose positive prices are
   at least `floor`, rebuilds are paid for by price movement: beyond the first
   grid and one per configuration update, each costs r * floor of the path, and
   what is left of the path still covers the current distance to the anchor.
   */
  lemma RebuildsBounded(c: Config, events: seq<Event>, r: real, floor: real)
    requires r > 0.0 && floor > 0.0
    requires ThresholdsAtLeast(c, events, r)
    requires AllAtLeast(Prices(events), floor)
    ensures var s := After(c, events);
            var prices := Prices(events);
            if prices == [] then s.rebuilds == 0
            else
              Charge(r * floor, s.rebuilds - 1 - Updates(events)) + Abs(Last(prices) - s.anchor) <= Variation(prices)
  {
    RunPaid(c, events, r, floor, r * floor);
  }

  // ----- Geometric separation of successive anchors -----

  ghost predicate NoUpdates(events: seq<Event>) {
    forall e | e in events :: !e.Update?
  }

  ghost predicate Rising(prices: seq<real>) {
    forall i, j | 0 <= i < j < |prices| :: prices[i] <= prices[j]
  }

  ghost predicate Falling(prices: seq<real>) {
    forall i, j | 0 <= i < j < |prices| :: prices[i] >= prices[j]
  }

  lemma {:induction false} ConfigFixed(c: Config, events: seq<Event>)
    requires NoUpdates(events)
    ensures After(c, events).cfg == Sanitize(c)
  {
    if events == [] {
    } else {
      var n := |events| - 1;
      ConfigFixed(c, events[..n]);
      assert events[n] in events;
    }
  }

  predicate RisingApart(s: State, prices: seq<real>, factor: real) {
    if prices == [] then s.anchor == 0.0 && s.rebuilds == 0
    else s.rebuilds >= 1 && 0.0 < s.anchor && s.anchor <= Last(prices)
         && s.anchor >= Compound(prices[0], factor, s.rebuilds - 1)
  }

  lemma RisingStep(s: State, s1: State, prices: seq<real>, price: real, factor: real)
    requires Sane(s.cfg) && Moved(s, s1, price) && price > 0.0
    requires factor == 1.0 + s.cfg.recenterThresholdRatio
    requires prices != [] ==> Last(prices) <= price
    requires RisingApart(s, prices, factor)
    ensures RisingApart(s1, prices + [price], factor)
  {
    if prices != [] && NeedsRebuild(s, price) {
      GrowthStep(s.anchor, price, s.cfg.recenterThresholdRatio, Compound(prices[0], factor, s.rebuilds - 1));
    }
  }

  lemma GrowthStep(anchor: real, price: real, r: real, bound: real)
    requires anchor > 0.0 && r > 0.0 && anchor <= price
    requires Abs(price - anchor) >= r * anchor && anchor >= bound
    ensures price >= bound * (1.0 + r)
  {
    MulLeft(1.0 + r, bound, anchor);
  }

  predicate FallingApart(s: State, prices: seq<real>, factor: real) {
    if prices == [] then s.anchor == 0.0 && s.rebuilds == 0
    else s.rebuilds >= 1 && 0.0 < s.anchor && s.anchor >= Last(prices)
         && s.anchor <= Compound(prices[0], factor, s.rebuilds - 1)
  }

  lemma FallingStep(s: State, s1: State, prices: seq<real>, price: real, factor: real)
    requires Sane(s.cfg) && Moved(s, s1, price) && price > 0.0
    requires factor == 1.0 - s.cfg.recenterThresholdRatio
    requires prices != [] ==> Last(prices) >= price
    requires FallingApart(s, prices, factor)
    ensures FallingApart(s1, prices + [price], factor)
  {
    if prices != [] && NeedsRebuild(s, price) {
      ShrinkStep(s.anchor, price, s.cfg.recenterThresholdRatio, Compound(prices[0], factor, s.rebuilds - 1));
    }
  }

  lemma ShrinkStep(anchor: real, price: real, r: real, bound: real)
    requires anchor >= price > 0.0 && r > 0.0
    requires Abs(price - anchor) >= r * anchor && anchor <= bound
    ensures price <= bound * (1.0 - r)
  {
    if r >= 1.0 { MulLeft(anchor, 1.0, r); }
    MulLeft(1.0 - r, anchor, bound);
  }

  lemma FillsStay(s: State, e: Event)
    requires s.cfg.levels >= 2 && !e.Update? && !(e.Tick? && e.price > 0.0)
    ensures Step(s, e).state.anchor == s.anchor && Step(s, e).state.rebuilds == s.rebuilds
  {}

  lemma PrefixFacts(c: Config, events: seq<Event>)
    requires NoUpdates(events) && events != []
    ensures var n := |events| - 1;
            && NoUpdates(events[..n]) && !events[n].Update?
            && Inv(After(c, events[..n])) && After(c, events[..n]).cfg == Sanitize(c)
            && Prices(events[..n]) == Prices(events)[..|Prices(events[..n])|]
  {
    var n := |events| - 1;
    assert events[n] in events;
    assert NoUpdates(events[..n]) by { assert forall e | e in events[..n] :: e in events; }
    ConfigFixed(c, events[..n]);
    ReachableInv(c, events[..n]);
  }

  lemma RisingEvent(s: State, e: Event, prices: seq<real>, factor: real)
    requires Inv(s) && !e.Update?
    requires factor == 1.0 + s.cfg.recenterThresholdRatio
    requires RisingApart(s, prices, factor)
    requires e.Tick? && e.price > 0.0 && prices != [] ==> Last(prices) <= e.price
    ensures RisingApart(Step(s, e).state, prices + PriceOf(e), factor)
  {
    if e.Tick? && e.price > 0.0 {
      TickMoves(s, e.price);
      RisingStep(s, Step(s, e).state, prices, e.price, factor);
    } else {
      FillsStay(s, e);
      assert prices + PriceOf(e) == prices;
    }
  }

  /** Along rising prices, every rebuild lifts the anchor by at least the threshold factor. */
  lemma {:induction false} SeparationRising(c: Config, events: seq<Event>, factor: real)
    requires NoUpdates(events) && Rising(Prices(events))
    requires factor == 1.0 + Sanitize(c).recenterThresholdRatio
    ensures RisingApart(After(c, events), Prices(events), factor)
  {
    if events == [] {
    } else {
      var n := |events| - 1;
      PrefixFacts(c, events);
      var before := Prices(events[..n]);
      SeparationRising(c, events[..n], factor);
      if PriceOf(events[n]) != [] && before != [] {
        assert Prices(events)[|before| - 1] <= Prices(events)[|before|];
      }
      RisingEvent(After(c, events[..n]), events[n], before, factor);
    }
  }

  lemma FallingEvent(s: State, e: Event, prices: seq<real>, factor: real)
    requires Inv(s) && !e.Update?
    requires factor == 1.0 - s.cfg.recenterThresholdRatio
    requires FallingApart(s, prices, factor)
    requires e.Tick? && e.price > 0.0 && prices != [] ==> Last(prices) >= e.price
    ensures FallingApart(Step(s, e).state, prices + PriceOf(e), factor)
  {
    if e.Tick? && e.price > 0.0 {
      TickMoves(s, e.price);
      FallingStep(s, Step(s, e).state, prices, e.price, factor);
    } else {
      FillsStay(s, e);
      assert prices + PriceOf(e) == prices;
    }
  }

  /** Along falling prices, every rebuild lowers the anchor by at least the threshold factor. */
  lemma {:induction false} SeparationFalling(c: Config, events: seq<Event>, factor: real)
    requires NoUpdates(events) && Falling(Prices(events))
    requires factor == 1.0 - Sanitize(c).recenterThresholdRatio
    ensures FallingApart(After(c, events), Prices(events), factor)
  {
    if events == [] {
    } else {
      var n := |events| - 1;
      PrefixFacts(c, events);
      var before := Prices(events[..n]);
      SeparationFalling(c, events[..n], factor);
      if PriceOf(events[n]) != [] && before != [] {
        assert Prices(events)[|before| - 1] >= Prices(events)[|before|];
      }
      FallingEvent(After(c, events[..n]), events[n], before, factor);
    }
  }

  // ----- Repeated price: the eligible levels drain one by one -----

  function EligibleCount(levels: seq<Level>, price: real, from: nat): nat
    requires from <= |levels|
    decreases |levels| - from
  {
    if from == |levels| then 0
    else EligibleCount(levels, price, from + 1) + if Eligible(levels[from], price) then 1 else 0
  }

  /** The state and the intents after n more ticks at the same price. */
  function Repeat(s: State, price: real, n: nat): (o: Outcome)
    requires s.cfg.levels >= 2
    ensures o.state.cfg.levels >= 2
    decreases n
  {
    if n == 0 then Outcome(s, [])
    else
      var o := OnTick(s, price);
      var rest := Repeat(o.state, price, n - 1);
      Outcome(rest.state, o.out + rest.out)
  }

  predicate Resting(s: State, price: real) {
    price > 0.0 && s.anchor > 0.0 && !NeedsRebuild(s, price)
  }

  lemma {:induction false} CountSame(a: seq<Level>, b: seq<Level>, price: real, from: nat)
    requires |a| == |b| && from <= |a|
    requires forall j | from <= j < |a| :: a[j] == b[j]
    ensures EligibleCount(a, price, from) == EligibleCount(b, price, from)
    decreases |a| - from
  {
    if from == |a| {
    } else { CountSame(a, b, price, from + 1); }
  }

  /** Counting may skip everything before the first eligible level. */
  lemma {:induction false} CountFromFirst(levels: seq<Level>, price: real, from: nat)
    requires from <= |levels|
    ensures var k := FirstEligible(levels, price, from);
            EligibleCount(levels, price, from) ==
            if k == |levels| then 0 else 1 + EligibleCount(levels, price, k + 1)
    decreases |levels| - from
  {
    if from == |levels| || Eligible(levels[from], price) {
    } else { CountFromFirst(levels, price, from + 1); }
  }

  lemma CountAfterTick(s: State, price: real)
    requires Resting(s, price) && s.cfg.levels >= 2
    ensures var o := OnTick(s, price);
            var k := FirstEligible(s.levels, price, 0);
            && Resting(o.state, price)
            && o.state.(levels := []) == s.(levels := [])
            && EligibleCount(o.state.levels, price, 0) ==
               EligibleCount(s.levels, price, 0) - (if k < |s.levels| then 1 else 0)
            && (k == |s.levels| ==> o == Outcome(s, []))
            && (k < |s.levels| ==> FirstEligible(o.state.levels, price, 0) > k)
  {
    var o := OnTick(s, price);
    var k := FirstEligible(s.levels, price, 0);
    if k < |s.levels| {
      CountFromFirst(s.levels, price, 0);
      assert forall j | 0 <= j <= k :: !Eligible(o.state.levels[j], price);
      CountTo(o.state.levels, price, 0, k + 1);
      CountSame(o.state.levels, s.levels, price, k + 1);
    }
  }

  lemma {:induction false} CountTo(levels: seq<Level>, price: real, from: nat, k: nat)
    requires from <= k <= |levels|
    requires forall j | from <= j < k :: !Eligible(levels[j], price)
    ensures EligibleCount(levels, price, from) == EligibleCount(levels, price, k)
    decreases k - from
  {
    if from < k { CountTo(levels, price, from + 1, k); }
  }

  ghost predicate Ascending(out: seq<Intent>) {
    forall i, j | 0 <= i < j < |out| :: out[i].gridId < out[j].gridId
  }

  /** The intents are buys at or above the price, of levels after the first `from`, in ascending order. */
  ghost predicate BuysFrom(out: seq<Intent>, price: real, from: nat) {
    && Ascending(out)
    && forall i | 0 <= i < |out| :: out[i].side == Buy && out[i].price >= price && out[i].gridId > from
  }

  lemma BuyFirst(s: State, price: real, k: nat, rest: seq<Intent>, next: nat)
    requires k < |s.levels| && s.levels[k].id == k + 1 && s.levels[k].buyPrice >= price && k < next
    requires BuysFrom(rest, price, next)
    ensures BuysFrom([BuyIntent(s, k)] + rest, price, k)
  {}

  /** From s, n ticks at this price led to o: no rebuild, and one buy for each of the first n eligible levels. */
  ghost predicate Drained(s: State, price: real, n: nat, o: Outcome) {
    var k := EligibleCount(s.levels, price, 0);
    && o.state.rebuilds == s.rebuilds && o.state.anchor == s.anchor
    && |o.out| == (if n < k then n else k)
    && BuysFrom(o.out, price, FirstEligible(s.levels, price, 0))
  }

  lemma DrainStep(s: State, price: real, n: nat, rest: Outcome)
    requires Inv(s) && Resting(s, price) && Drained(OnTick(s, price).state, price, n, rest)
    ensures Drained(s, price, n + 1, Outcome(rest.state, OnTick(s, price).out + rest.out))
  {
    var o := OnTick(s, price);
    var k := FirstEligible(s.levels, price, 0);
    CountAfterTick(s, price);
    CountFromFirst(s.levels, price, 0);
    if k == |s.levels| {
      assert o.out + rest.out == rest.out;
    } else {
      ReachableSorted(s);
      BuyFirst(s, price, k, rest.out, FirstEligible(o.state.levels, price, 0));
    }
  }

  /**
   While the price stays put, nothing is rebuilt and each tick buys the next
   eligible level, in strictly ascending order, until none is left: n ticks
   emit exactly min(n, number of eligible levels) intents.
   */
  lemma {:induction false} RepeatedPriceDrains(s: State, price: real, n: nat)
    requires Inv(s) && Resting(s, price)
    ensures Drained(s, price, n, Repeat(s, price, n))
    decreases n
  {
    if n > 0 {
      CountAfterTick(s, price);
      StepInv(s, Tick(price));
      RepeatedPriceDrains(OnTick(s, price).state, price, n - 1);
      DrainStep(s, price, n - 1, Repeat(OnTick(s, price).state, price, n - 1));
    }
  }

  /** Every positive tick leaves the strategy resting at its price. */
  lemma TickRests(s: State, price: real)
    requires Inv(s) && price > 0.0
    ensures Resting(OnTick(s, price).state, price)
  {
    TickMoves(s, price);
    MovedRests(s, OnTick(s, price).state, price);
  }
}
