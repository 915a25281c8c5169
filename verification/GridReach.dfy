/** The layout's two exact conditions, over the states that runs reach. */
module GridReach {
  import opened Rounding
  import opened Grid
  import opened GridGeometry
  import opened GridDrift

  ghost predicate NoLossLevels(s: State) {
    forall i | 0 <= i < |s.levels| :: s.levels[i].sellPrice >= s.levels[i].buyPrice
  }

  lemma LevelPrices(s: State, i: nat)
    requires Inv(s) && i < |s.levels|
    ensures s.anchor > 0.0 && |s.levels| == s.cfg.levels
    ensures s.levels[i].buyPrice == LevelAt(s.cfg, s.anchor, i).buyPrice
    ensures s.levels[i].sellPrice == LevelAt(s.cfg, s.anchor, i).sellPrice
  {
    assert s.levels[i].(state := Idle) == LevelAt(s.cfg, s.anchor, i);
  }

  lemma NoLossReached(c: Config, events: seq<Event>)
    requires NoUpdates(events) && NoLossLayout(Sanitize(c))
    ensures NoLossLevels(After(c, events))
  {
    var s := After(c, events);
    ConfigFixed(c, events);
    ReachableInv(c, events);
    forall i | 0 <= i < |s.levels| ensures s.levels[i].sellPrice >= s.levels[i].buyPrice {
      LevelPrices(s, i);
    }
  }

  /** The state after a first tick. */
  lemma FirstTick(c: Config, anchor: real)
    requires anchor > 0.0
    ensures var s := After(c, [Tick(anchor)]);
            Inv(s) && s.cfg == Sanitize(c) && s.anchor == anchor && |s.levels| == s.cfg.levels
    ensures NoUpdates([Tick(anchor)])
  {
    assert [Tick(anchor)][..0] == [];
    ReachableInv(c, []);
    TickMoves(Initial(c), anchor);
  }

  /**
   As long as the configuration is not changed, every level of every reachable
   grid sells at or above its buy price exactly when the band is at most twice
   the anchor; a wider one fails after a single tick.
   */
  lemma NoLossRunsIff(c: Config)
    ensures (forall events | NoUpdates(events) :: NoLossLevels(After(c, events))) <==> Sanitize(c).bandRatio <= 2.0
  {
    NoLossLayoutIff(Sanitize(c));
    if Sanitize(c).bandRatio <= 2.0 {
      forall events | NoUpdates(events) ensures NoLossLevels(After(c, events)) { NoLossReached(c, events); }
    } else {
      var anchor := WideBandWitness(Sanitize(c));
      FirstTick(c, anchor);
      LevelPrices(After(c, [Tick(anchor)]), 0);
      assert !NoLossLevels(After(c, [Tick(anchor)]));
    }
  }

  // ----- Coverage -----

  predicate Covers(s: State, price: real) {
    |s.levels| > 0 && s.levels[0].buyPrice <= price <= s.levels[|s.levels| - 1].buyPrice
  }

  /** Every positive tick price in whole cents ends up between the outer levels. */
  ghost predicate CoversTicks(c: Config) {
    forall events, price | NoUpdates(events) && price > 0.0 && WholeCents(price) ::
      Covers(After(c, events + [Tick(price)]), price)
  }

  lemma AfterTick(c: Config, events: seq<Event>, price: real)
    ensures After(c, events + [Tick(price)]) == OnTick(After(c, events), price).state
  {
    assert (events + [Tick(price)])[..|events|] == events;
  }

  lemma CoveredTick(c: Config, events: seq<Event>, price: real)
    requires NoUpdates(events) && price > 0.0 && WholeCents(price)
    requires c.dynamicEnabled && Sanitize(c).recenterThresholdRatio <= Sanitize(c).bandRatio * 0.5
    ensures Covers(After(c, events + [Tick(price)]), price)
  {
    AfterTick(c, events, price);
    ConfigFixed(c, events);
    ReachableInv(c, events);
    TickTracksPrice(After(c, events), price);
  }

  lemma CoversIsBrackets(s: State, price: real)
    requires Inv(s) && s.anchor > 0.0
    ensures Covers(s, price) <==> Brackets(s.cfg, s.anchor, price)
  {
    LevelPrices(s, 0);
    LevelPrices(s, |s.levels| - 1);
  }

  lemma MovedStays(s: State, s1: State, price: real)
    requires s.anchor > 0.0 && Moved(s, s1, price)
    requires s.cfg.dynamicEnabled ==> Settled(s.cfg, s.anchor, price)
    ensures s1.anchor == s.anchor
  {}

  lemma OutsideAfter(s: State, price: real)
    requires Inv(s) && s.anchor > 0.0 && price > 0.0
    requires s.cfg.dynamicEnabled ==> Settled(s.cfg, s.anchor, price)
    requires !Brackets(s.cfg, s.anchor, price)
    ensures !Covers(OnTick(s, price).state, price)
  {
    TickMoves(s, price);
    MovedStays(s, OnTick(s, price).state, price);
    CoversIsBrackets(OnTick(s, price).state, price);
  }

  /** A second tick that does not move the grid and lies outside it is not covered. */
  lemma UncoveredTick(c: Config, anchor: real, price: real)
    requires anchor > 0.0 && price > 0.0 && WholeCents(price) && !Brackets(Sanitize(c), anchor, price)
    requires c.dynamicEnabled ==> Settled(Sanitize(c), anchor, price)
    ensures !CoversTicks(c)
  {
    FirstTick(c, anchor);
    OutsideAfter(After(c, [Tick(anchor)]), price);
    AfterTick(c, [Tick(anchor)], price);
    assert !Covers(After(c, [Tick(anchor)] + [Tick(price)]), price);
  }

  /**
   As long as the configuration is not changed, every tick leaves its price, in
   whole cents, between the outer levels exactly when the grid is dynamic with
   a threshold of at most half the band; otherwise two ticks can fail.
   */
  lemma CoversTicksIff(c: Config)
    ensures CoversTicks(c) <==> c.dynamicEnabled && Sanitize(c).recenterThresholdRatio <= Sanitize(c).bandRatio * 0.5
  {
    var d := Sanitize(c);
    if c.dynamicEnabled && d.recenterThresholdRatio <= d.bandRatio * 0.5 {
      forall events, price | NoUpdates(events) && price > 0.0 && WholeCents(price)
        ensures Covers(After(c, events + [Tick(price)]), price)
      {
        CoveredTick(c, events, price);
      }
    } else if c.dynamicEnabled {
      var anchor, price := UncoveredWitness(d);
      UncoveredTick(c, anchor, price);
    } else {
      var price := PriceAbove(d, 100.0);
      UncoveredTick(c, 100.0, price);
    }
  }
}
