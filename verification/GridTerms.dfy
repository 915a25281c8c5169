/** The terms of a run, in plain numbers: which configuration is in force, when the grid moves, and its prices. */
module GridTerms {
  import opened Prelude
  import opened Grid
  import opened GridGeometry
  import opened GridDrift
  import opened GridJournal
  import opened GridReach

  /** The configuration asked for last. */
  function LastAsked(c: Config, events: seq<Event>): Config {
    if events == [] then c
    else
      var n := |events| - 1;
      if events[n].Update? then events[n].cfg else LastAsked(c, events[..n])
  }

  /** After every run each parameter is the one asked for last if that is in range, and its own default otherwise. */
  lemma {:induction false} ParametersInForce(c: Config, events: seq<Event>)
    ensures var asked, cfg := LastAsked(c, events), After(c, events).cfg;
            && cfg.levels == (if asked.levels >= 2 then asked.levels else 2)
            && cfg.orderQty == (if asked.orderQty > 0.0 then asked.orderQty else 0.001)
            && cfg.takeProfitRatio == (if asked.takeProfitRatio > 0.0 then asked.takeProfitRatio else 0.002)
            && cfg.recenterThresholdRatio ==
               (if asked.recenterThresholdRatio > 0.0 then asked.recenterThresholdRatio else 0.004)
            && cfg.bandRatio == (if asked.bandRatio > 0.002 then asked.bandRatio else 0.06)
            && cfg.dynamicEnabled == asked.dynamicEnabled
  {
    if events == [] {
    } else {
      var n := |events| - 1;
      ParametersInForce(c, events[..n]);
      ReachableInv(c, events[..n]);
      StepKeepsConfig(After(c, events[..n]), events[n]);
    }
  }

  lemma StepKeepsConfig(s: State, e: Event)
    requires s.cfg.levels >= 2
    ensures Step(s, e).state.cfg == if e.Update? then Sanitize(e.cfg) else s.cfg
  {}

  /** The relative distance of the price from the anchor reaches the threshold. */
  predicate Drifted(s: State, price: real) {
    s.anchor > 0.0 && Abs(price - s.anchor) / s.anchor >= s.cfg.recenterThresholdRatio
  }

  /** The event gives rise to a new grid: the first price, a drift in dynamic mode, or a new configuration of a grid. */
  predicate Moves(s: State, e: Event) {
    match e
    case Tick(price) => price > 0.0 && (s.rebuilds == 0 || (s.cfg.dynamicEnabled && Drifted(s, price)))
    case Update(_) => s.rebuilds > 0
    case _ => false
  }

  lemma TickMovesExactly(s: State, price: real)
    requires Inv(s) && price > 0.0
    ensures NeedsRebuild(s, price) <==> Moves(s, Tick(price))
  {
    if s.anchor > 0.0 { RatioAtLeast(Abs(price - s.anchor), s.anchor, s.cfg.recenterThresholdRatio); }
  }

  lemma StepMovesExactly(s: State, e: Event)
    requires Inv(s)
    ensures var s1 := Step(s, e).state;
            && s1.rebuilds == s.rebuilds + (if Moves(s, e) then 1 else 0)
            && s1.anchor == (if Moves(s, e) && e.Tick? then e.price else s.anchor)
  {
    if e.Tick? && e.price > 0.0 {
      TickMovesExactly(s, e.price);
      TickMoves(s, e.price);
    }
  }

  /**
   In every run the next event makes a new grid exactly when it gives rise to
   one, and the anchor changes only then, and only to a tick's price.
   */
  lemma MovesExactly(c: Config, events: seq<Event>, e: Event)
    ensures var s, s1 := After(c, events), After(c, events + [e]);
            && s1.rebuilds == s.rebuilds + (if Moves(s, e) then 1 else 0)
            && s1.anchor == (if Moves(s, e) && e.Tick? then e.price else s.anchor)
  {
    OneMore(c, events, e);
    ReachableInv(c, events);
    StepMovesExactly(After(c, events), e);
  }

  // ----- Prices -----

  /** The i-th of n prices evenly spread over a band around the anchor. */
  function Spread(anchor: real, band: real, i: nat, n: int): real
    requires n >= 2
  {
    anchor * (1.0 - band / 2.0 + band * (i as real / (n - 1) as real))
  }

  predicate Near(price: real, exact: real) {
    Abs(price - exact) <= 0.005
  }

  lemma SpreadIs(anchor: real, band: real, i: nat, n: int, step: real)
    requires n >= 2 && step == anchor * band / (n - 1) as real
    ensures anchor - anchor * (band * 0.5) + step * i as real == Spread(anchor, band, i, n)
  {
    var d := (n - 1) as real;
    var share := i as real / d;
    StepTimes(anchor * band, d, i as real);
    assert anchor * band * share == anchor * (band * share);
    assert anchor * (1.0 - band / 2.0 + band * share) == anchor - anchor * (band * 0.5) + anchor * (band * share);
  }

  lemma StepTimes(x: real, d: real, i: real)
    requires d != 0.0
    ensures x / d * i == x * (i / d)
  {}

  lemma ExactIsSpread(c: Config, anchor: real, i: nat)
    requires c.levels >= 2
    ensures ExactBuy(c, anchor, i) == Spread(anchor, c.bandRatio, i, c.levels)
  {
    assert Upper(c, anchor) - Lower(c, anchor) == anchor * c.bandRatio;
    SpreadIs(anchor, c.bandRatio, i, c.levels, Spacing(c, anchor));
  }

  /**
   Level i has id i + 1, its buy price is within half a cent of the i-th of
   evenly spread prices over the band around the anchor, and its sell price
   within half a cent of that times one plus the take-profit.
   */
  predicate InPlace(s: State, i: nat) {
    && i < |s.levels| == s.cfg.levels && s.cfg.levels >= 2
    && s.levels[i].id == i + 1
    && Priced(s.levels[i], Spread(s.anchor, s.cfg.bandRatio, i, s.cfg.levels), s.cfg.takeProfitRatio)
  }

  predicate Priced(lv: Level, exact: real, ratio: real) {
    Near(lv.buyPrice, exact) && Near(lv.sellPrice, exact * (1.0 + ratio))
  }

  lemma LevelInPlace(s: State, i: nat)
    requires Inv(s) && i < |s.levels|
    ensures InPlace(s, i)
  {
    ReachableSorted(s);
    LevelPrices(s, i);
    LayoutPriced(s.cfg, s.anchor, i);
    SamePrices(s.levels[i], LevelAt(s.cfg, s.anchor, i), Spread(s.anchor, s.cfg.bandRatio, i, s.cfg.levels),
               s.cfg.takeProfitRatio);
  }

  lemma SamePrices(lv: Level, other: Level, exact: real, ratio: real)
    requires lv.buyPrice == other.buyPrice && lv.sellPrice == other.sellPrice && Priced(other, exact, ratio)
    ensures Priced(lv, exact, ratio)
  {}

  lemma LayoutPriced(c: Config, anchor: real, i: nat)
    requires c.levels >= 2
    ensures Priced(LevelAt(c, anchor, i), Spread(anchor, c.bandRatio, i, c.levels), c.takeProfitRatio)
  {
    ExactIsSpread(c, anchor, i);
    PricesNear(i, ExactBuy(c, anchor, i), c.takeProfitRatio);
  }

  /** All levels of every reachable grid are in place. */
  lemma PricesInPlace(c: Config, events: seq<Event>)
    ensures forall i | 0 <= i < |After(c, events).levels| :: InPlace(After(c, events), i)
  {
    ReachableInv(c, events);
    forall i | 0 <= i < |After(c, events).levels| ensures InPlace(After(c, events), i) {
      LevelInPlace(After(c, events), i);
    }
  }

  lemma PricesNear(i: nat, exact: real, ratio: real)
    ensures Priced(LevelOf(i, exact, ratio), exact, ratio)
  {}
}
