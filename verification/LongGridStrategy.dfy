/** The strategy object: fields updated in place, scan and fill loops, proved to implement Grid.Step. */
module LongGridStrategies {
  import opened Prelude
  import opened Grid
  import opened GridGeometry
  import opened GridDrift

  class LongGridStrategy {
    var cfg: Config
    var levels: seq<Level>
    var anchorPrice: real
    var rebuildCount: nat

    // Every call so far, oldest first; the object's state is what this run leads to.
    ghost const initial: Config
    ghost var history: seq<Event>

    ghost function View(): State
      reads this
    {
      State(cfg, levels, anchorPrice, rebuildCount)
    }

    ghost predicate Valid()
      reads this
    {
      View() == After(initial, history)
    }

    constructor (c: Config)
      ensures Valid() && initial == c && history == []
    {
      cfg, levels, anchorPrice, rebuildCount := c, [], 0.0, 0;
      initial, history := c, [];
      new;
      SanitizeConfig();
    }

    method SanitizeConfig()
      modifies this`cfg
      ensures cfg == Sanitize(old(cfg))
    {
      if cfg.levels < 2 { cfg := cfg.(levels := 2); }
      if cfg.orderQty <= 0.0 { cfg := cfg.(orderQty := 0.001); }
      if cfg.takeProfitRatio <= 0.0 { cfg := cfg.(takeProfitRatio := 0.002); }
      if cfg.recenterThresholdRatio <= 0.0 { cfg := cfg.(recenterThresholdRatio := 0.004); }
      if cfg.bandRatio <= 0.002 { cfg := cfg.(bandRatio := 0.06); }
    }

    /** The fill loop lays out exactly the grid of the layout formula. */
    method RebuildGrid(anchor: real)
      requires cfg.levels >= 2
      modifies this`levels, this`anchorPrice, this`rebuildCount
      ensures View() == Rebuild(old(View()), anchor)
    {
      anchorPrice := anchor;
      rebuildCount := rebuildCount + 1;

      var half := anchorPrice * (cfg.bandRatio * 0.5);
      var lower := anchorPrice - half;
      var upper := anchorPrice + half;
      var step := (upper - lower) / (cfg.levels - 1) as real;

      FillLevels(lower, step);
      LaidOutByLoop(cfg, anchor, lower, step, levels);
    }

    method FillLevels(lower: real, step: real)
      modifies this`levels
      ensures |levels| == if cfg.levels < 0 then 0 else cfg.levels
      ensures forall j | 0 <= j < |levels| ::
                levels[j] == LevelOf(j, Interpolate(lower, step, j), cfg.takeProfitRatio)
    {
      levels := [];
      var i := 0;
      while i < cfg.levels
        invariant 0 <= i && |levels| == i && (i <= cfg.levels || i == 0)
        invariant forall j | 0 <= j < i :: levels[j] == LevelOf(j, Interpolate(lower, step, j), cfg.takeProfitRatio)
      {
        var buy := lower + step * i as real;
        assert buy == Interpolate(lower, step, i);
        levels := levels + [LevelOf(i, buy, cfg.takeProfitRatio)];
        i := i + 1;
      }
    }

    /**
     The strict-less scan for the eligible level nearest to the price. On
     sorted levels it is the first eligible one in index order.
     */
    method NearestIdle(price: real) returns (candidate: Option<nat>)
      requires Sorted(levels)
      ensures var k := FirstEligible(levels, price, 0);
              candidate == if k < |levels| then Some(k) else None
      ensures candidate.Some? ==>
                forall j | 0 <= j < |levels| && Eligible(levels[j], price) ::
                  Abs(levels[candidate.value].buyPrice - price) <= Abs(levels[j].buyPrice - price)
    {
      candidate := None;
      var i := 0;
      while i < |levels|
        invariant 0 <= i <= |levels|
        invariant candidate.None? ==> forall j | 0 <= j < i :: !Eligible(levels[j], price)
        invariant candidate.Some? ==> candidate.value < i && Eligible(levels[candidate.value], price)
        invariant candidate.Some? ==> forall j | 0 <= j < candidate.value :: !Eligible(levels[j], price)
      {
        if levels[i].state == Idle && price <= levels[i].buyPrice {
          if candidate.None?
             || Abs(levels[i].buyPrice - price) < Abs(levels[candidate.value].buyPrice - price) {
            candidate := Some(i);
          }
        }
        i := i + 1;
      }
    }

    /** The first tick sets the anchor; in dynamic mode a drift past the threshold moves it. */
    method Recentre(price: real)
      requires Sane(cfg) && price > 0.0
      modifies this`levels, this`anchorPrice, this`rebuildCount
      ensures View() == Recentred(old(View()), price)
    {
      if anchorPrice <= 0.0 {
        RebuildGrid(price);
        InitialDistance(price, cfg.recenterThresholdRatio);
      }
      if cfg.dynamicEnabled {
        RatioAtLeast(Abs(price - anchorPrice), anchorPrice, cfg.recenterThresholdRatio);
        var drift := Abs(price - anchorPrice) / anchorPrice;
        if drift >= cfg.recenterThresholdRatio {
          RebuildGrid(price);
        }
      }
    }

    /** One tick: at most one rebuild, then at most one buy at the nearest eligible level. */
    method OnPriceTick(price: real) returns (out: seq<Intent>)
      requires Valid()
      modifies this
      ensures Valid() && history == old(history) + [Tick(price)]
      ensures Outcome(View(), out) == OnTick(old(View()), price)
    {
      ghost var s0 := View();
      ReachableInv(initial, history);
      history := history + [Tick(price)];
      assert history[..|history| - 1] == old(history);
      out := [];
      if price <= 0.0 { return; }
      Recentre(price);
      RecentredInv(s0, price);
      ReachableSorted(View());

      var candidate := NearestIdle(price);
      if candidate.Some? {
        var k := candidate.value;
        levels := levels[k := levels[k].(state := BuyPlaced)];
        out := [Intent(Buy, Limit, cfg.orderQty, levels[k].buyPrice, levels[k].id)];
      }
    }

    /** First level with this id, or the number of levels. */
    method FindLevel(gridId: nat) returns (k: nat)
      ensures k <= |levels|
      ensures forall j | 0 <= j < k :: levels[j].id != gridId
      ensures k < |levels| ==> levels[k].id == gridId
    {
      k := 0;
      while k < |levels| && levels[k].id != gridId
        invariant k <= |levels|
        invariant forall j | 0 <= j < k :: levels[j].id != gridId
      {
        k := k + 1;
      }
    }

    method OnBuyFilled(gridId: nat) returns (sell: Option<Intent>)
      requires Valid()
      modifies this
      ensures Valid() && history == old(history) + [BuyFill(gridId)]
      ensures Outcome(View(), if sell.Some? then [sell.value] else []) == OnBuyFill(old(View()), gridId)
    {
      ReachableInv(initial, history);
      ReachableSorted(View());
      history := history + [BuyFill(gridId)];
      assert history[..|history| - 1] == old(history);
      sell := None;
      var k := FindLevel(gridId);
      assert 1 <= gridId <= |levels| ==> levels[gridId - 1].id == gridId;
      if k == |levels| { return; }
      if levels[k].state != BuyPlaced && levels[k].state != BuyFilled { return; }
      levels := levels[k := levels[k].(state := SellPlaced)];
      sell := Some(Intent(Sell, Limit, cfg.orderQty, levels[k].sellPrice, levels[k].id));
    }

    method OnSellFilled(gridId: nat)
      requires Valid()
      modifies this
      ensures Valid() && history == old(history) + [SellFill(gridId)]
      ensures View() == OnSellFill(old(View()), gridId).state
    {
      ReachableInv(initial, history);
      ReachableSorted(View());
      history := history + [SellFill(gridId)];
      assert history[..|history| - 1] == old(history);
      var k := FindLevel(gridId);
      assert 1 <= gridId <= |levels| ==> levels[gridId - 1].id == gridId;
      if k == |levels| { return; }
      levels := levels[k := levels[k].(state := Idle)];
    }

    method UpdateConfig(c: Config)
      requires Valid()
      modifies this
      ensures Valid() && history == old(history) + [Update(c)]
      ensures View() == OnUpdate(old(View()), c).state
    {
      history := history + [Update(c)];
      assert history[..|history| - 1] == old(history);
      cfg := c;
      SanitizeConfig();
      if anchorPrice > 0.0 {
        RebuildGrid(anchorPrice);
      }
    }
  }

  lemma LaidOutByLoop(c: Config, anchor: real, lower: real, step: real, levels: seq<Level>)
    requires c.levels >= 2 && |levels| == c.levels
    requires lower == Lower(c, anchor) && step == Spacing(c, anchor)
    requires forall j | 0 <= j < |levels| ::
               levels[j] == LevelOf(j, Interpolate(lower, step, j), c.takeProfitRatio)
    ensures levels == GridLevels(c, anchor)
  {
    forall j | 0 <= j < |levels| ensures levels[j] == GridLevels(c, anchor)[j] {
      assert levels[j] == LevelAt(c, anchor, j);
    }
  }

  lemma RecentredInv(s: State, price: real)
    requires Inv(s) && price > 0.0
    ensures Inv(Recentred(s, price))
  {}
}
