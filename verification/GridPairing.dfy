/**
 Long-only accounting over whole runs: every SELL intent closes one earlier
 BUY intent of the same grid, and no more is ever sold than was bought.
 */
module GridPairing {
  import opened Prelude
  import opened Rounding
  import opened Grid
  import opened GridGeometry

  /** An emitted intent together with the number of the grid (rebuild count) it belongs to. */
  datatype Entry = Entry(intent: Intent, epoch: nat)

  /** All intents of a run, oldest first. */
  function Log(c: Config, events: seq<Event>): seq<Entry> {
    if events == [] then []
    else
      var n := |events| - 1;
      var o := Step(After(c, events[..n]), events[n]);
      Log(c, events[..n]) + Stamp(o)
  }

  function Stamp(o: Outcome): (entries: seq<Entry>) {
    seq(|o.out|, i requires 0 <= i < |o.out| => Entry(o.out[i], o.state.rebuilds))
  }

  predicate InSlot(e: Entry, epoch: nat, gridId: nat) {
    e.epoch == epoch && e.intent.gridId == gridId
  }

  /** Index of the latest entry for this grid level in this epoch, or -1. */
  function Latest(log: seq<Entry>, epoch: nat, gridId: nat): (i: int)
    ensures -1 <= i < |log|
    ensures i >= 0 ==> InSlot(log[i], epoch, gridId)
    ensures forall j | i < j < |log| :: !InSlot(log[j], epoch, gridId)
  {
    if log == [] then -1
    else if InSlot(log[|log| - 1], epoch, gridId) then |log| - 1
    else Latest(log[..|log| - 1], epoch, gridId)
  }

  /** The entry before j for the same level and epoch: what a SELL at j closes. */
  function Partner(log: seq<Entry>, j: nat): (i: int)
    requires j < |log|
    ensures -1 <= i < j
  {
    Latest(log[..j], log[j].epoch, log[j].intent.gridId)
  }

  /** No two entries have the same partner. */
  lemma PartnerInjective(log: seq<Entry>, j: nat, k: nat)
    requires j < k < |log| && Partner(log, j) >= 0
    ensures Partner(log, j) != Partner(log, k)
  {
    var i, i' := Partner(log, j), Partner(log, k);
    if InSlot(log[j], log[k].epoch, log[k].intent.gridId) {
      assert log[..k][j] == log[j];
      assert i' >= j;
    } else if i' >= 0 {
      assert log[..j][i] == log[i] && log[..k][i'] == log[i'];
    }
  }

  /** The SELL at j closes an earlier BUY of the same grid, level and quantity, at no loss. */
  predicate ClosesBuy(log: seq<Entry>, j: nat)
    requires j < |log|
  {
    var i := Partner(log, j);
    && i >= 0
    && log[i].intent.side == Buy
    && log[i].epoch == log[j].epoch
    && log[i].intent.gridId == log[j].intent.gridId
    && log[i].intent.qty == log[j].intent.qty
    && 0.0 < log[i].intent.price <= log[j].intent.price
  }

  ghost predicate AllSellsClose(log: seq<Entry>) {
    forall j | 0 <= j < |log| && log[j].intent.side == Sell :: ClosesBuy(log, j)
  }

  /** The level's outstanding buy is the latest entry of its slot. */
  predicate OpenBuy(s: State, log: seq<Entry>, k: nat)
    requires k < |s.levels|
  {
    var i := Latest(log, s.rebuilds, s.levels[k].id);
    && i >= 0
    && log[i].intent == BuyIntent(s, k)
    && s.levels[k].buyPrice > 0.0
  }

  ghost predicate Accounted(s: State, log: seq<Entry>) {
    && (forall e | e in log :: e.epoch <= s.rebuilds)
    && (forall k | 0 <= k < |s.levels| && s.levels[k].state == BuyPlaced :: OpenBuy(s, log, k))
  }

  lemma PrefixCloses(log: seq<Entry>, more: seq<Entry>, j: nat)
    requires j < |log|
    ensures ClosesBuy(log + more, j) == ClosesBuy(log, j)
  {
    assert (log + more)[..j] == log[..j];
  }

  lemma TickAccounted(s: State, log: seq<Entry>, price: real)
    requires Inv(s) && Accounted(s, log)
    ensures var o := OnTick(s, price); Accounted(o.state, log + Stamp(o))
    ensures forall e | e in Stamp(OnTick(s, price)) :: e.intent.side == Buy
  {
    if price > 0.0 {
      var s1 := Recentred(s, price);
      var o := OnTick(s, price);
      assert Accounted(s1, log);
      StepInv(s, Tick(price));
      ReachableSorted(o.state);
      var k := FirstEligible(s1.levels, price, 0);
      if k < |s1.levels| {
        var added := Entry(BuyIntent(s1, k), s1.rebuilds);
        assert Stamp(o) == [added];
        forall m | 0 <= m < |o.state.levels| && o.state.levels[m].state == BuyPlaced
          ensures OpenBuy(o.state, log + [added], m)
        {
          LatestAppend(log, added, s1.rebuilds, o.state.levels[m].id);
          assert m != k ==> OpenBuy(s1, log, m);
        }
      } else {
        assert log + Stamp(o) == log;
      }
    } else {
      assert log + Stamp(OnTick(s, price)) == log;
    }
  }

  lemma LatestAppend(log: seq<Entry>, e: Entry, epoch: nat, gridId: nat)
    ensures Latest(log + [e], epoch, gridId) == if InSlot(e, epoch, gridId) then |log| else Latest(log, epoch, gridId)
  {
    assert (log + [e])[..|log|] == log;
  }

  lemma BuyFillAccounted(s: State, log: seq<Entry>, gridId: nat)
    requires Inv(s) && Accounted(s, log)
    ensures var o := OnBuyFill(s, gridId);
            && Accounted(o.state, log + Stamp(o))
            && (forall j | |log| <= j < |log + Stamp(o)| :: ClosesBuy(log + Stamp(o), j))
  {
    var o := OnBuyFill(s, gridId);
    if o.out == [] {
      assert log + Stamp(o) == log;
    } else {
      var k := gridId - 1;
      var added := Entry(SellIntent(s, k), s.rebuilds);
      assert Stamp(o) == [added];
      var log1 := log + [added];
      assert s.levels[k].state == BuyPlaced;
      assert OpenBuy(s, log, k);
      ReachableSorted(s);
      assert log1[..|log|] == log;
      SellCoversBuy(s.cfg, s.anchor, k);
      assert s.levels[k].(state := Idle) == LevelAt(s.cfg, s.anchor, k);
      assert ClosesBuy(log1, |log|);
      forall m | 0 <= m < |o.state.levels| && o.state.levels[m].state == BuyPlaced
        ensures OpenBuy(o.state, log1, m)
      {
        LatestAppend(log, added, s.rebuilds, o.state.levels[m].id);
        assert OpenBuy(s, log, m);
      }
    }
  }

  lemma StepAccounted(s: State, log: seq<Entry>, e: Event)
    requires Inv(s) && Accounted(s, log)
    ensures var o := Step(s, e);
            && Accounted(o.state, log + Stamp(o))
            && (forall j | |log| <= j < |log + Stamp(o)| && (log + Stamp(o))[j].intent.side == Sell ::
                  ClosesBuy(log + Stamp(o), j))
  {
    var o := Step(s, e);
    match e {
      case Tick(price) => TickAccounted(s, log, price);
      case BuyFill(id) => BuyFillAccounted(s, log, id);
      case SellFill(id) =>
        assert log + Stamp(o) == log;
        forall m | 0 <= m < |o.state.levels| && o.state.levels[m].state == BuyPlaced ensures OpenBuy(o.state, log, m) {
          assert OpenBuy(s, log, m);
        }
      case Update(c) => assert log + Stamp(o) == log;
    }
  }

  lemma {:induction false} RunAccounted(c: Config, events: seq<Event>)
    ensures Accounted(After(c, events), Log(c, events)) && AllSellsClose(Log(c, events))
  {
    if events == [] {
    } else {
      var n := |events| - 1;
      RunAccounted(c, events[..n]);
      ReachableInv(c, events[..n]);
      var s, log, o := After(c, events[..n]), Log(c, events[..n]), Step(After(c, events[..n]), events[n]);
      StepAccounted(s, log, events[n]);
      forall j | 0 <= j < |log| && log[j].intent.side == Sell ensures ClosesBuy(log + Stamp(o), j) {
        PrefixCloses(log, Stamp(o), j);
      }
    }
  }

  /**
   In the log of every run, for any events whatever, each SELL closes the
   latest earlier entry of its level and grid, which is a BUY of the same
   quantity at a positive price no higher than the SELL's. With
   PartnerInjective, SELLs are matched one to one.
   */
  lemma SellsCloseBuys(c: Config, events: seq<Event>)
    ensures forall j | 0 <= j < |Log(c, events)| && Log(c, events)[j].intent.side == Sell ::
              ClosesBuy(Log(c, events), j)
  {
    RunAccounted(c, events);
  }

  lemma PartnerInPrefix(log: seq<Entry>, more: seq<Entry>, j: nat)
    requires j < |log|
    ensures Partner(log + more, j) == Partner(log, j)
  {
    assert (log + more)[..j] == log[..j];
  }

  lemma LogNext(c: Config, events: seq<Event>, n: nat)
    requires n < |events|
    ensures Log(c, events[..n + 1]) == Log(c, events[..n]) + Stamp(Step(After(c, events[..n]), events[n]))
  {
    assert events[..n + 1][..n] == events[..n];
  }

  lemma PrefixThrough<T>(a: seq<T>, b: seq<T>, c: seq<T>)
    requires a <= b && b <= c
    ensures a <= c
  {}

  lemma {:induction false} LogExtends(c: Config, events: seq<Event>, n: nat)
    requires n <= |events|
    ensures Log(c, events[..n]) <= Log(c, events)
    decreases |events| - n
  {
    if n == |events| {
      assert events[..n] == events;
    } else {
      LogNext(c, events, n);
      LogExtends(c, events, n + 1);
      PrefixThrough(Log(c, events[..n]), Log(c, events[..n + 1]), Log(c, events));
    }
  }

  /** The gain condition of the trade that this fill closes. */
  predicate GainCondition(s: State, gridId: nat)
    requires s.cfg.levels >= 2 && 1 <= gridId <= |s.levels|
  {
    ExactSell(s.cfg, s.anchor, gridId - 1) >= s.levels[gridId - 1].buyPrice + 0.005
  }

  lemma FillGains(s: State, log: seq<Entry>, gridId: nat)
    requires Inv(s) && Accounted(s, log) && OnBuyFill(s, gridId).out != []
    ensures var log1 := log + Stamp(OnBuyFill(s, gridId));
            && |log1| == |log| + 1 && 1 <= gridId <= |s.levels|
            && log1[|log|].intent == SellIntent(s, gridId - 1)
            && ClosesBuy(log1, |log|)
            && log1[Partner(log1, |log|)].intent.price == s.levels[gridId - 1].buyPrice > 0.0
  {
    var k := gridId - 1;
    var added := Entry(SellIntent(s, k), s.rebuilds);
    assert Stamp(OnBuyFill(s, gridId)) == [added];
    BuyFillAccounted(s, log, gridId);
    assert s.levels[k].state == BuyPlaced;
    assert OpenBuy(s, log, k);
    ReachableSorted(s);
    assert (log + [added])[..|log|] == log;
  }

  lemma LevelGains(s: State, gridId: nat)
    requires Inv(s) && 1 <= gridId <= |s.levels| && s.levels[gridId - 1].buyPrice > 0.0
    ensures s.levels[gridId - 1].sellPrice > s.levels[gridId - 1].buyPrice <==> GainCondition(s, gridId)
    ensures ExactBuy(s.cfg, s.anchor, gridId - 1) * s.cfg.takeProfitRatio >= 0.01 ==> GainCondition(s, gridId)
  {
    var k := gridId - 1;
    assert s.levels[k].(state := Idle) == LevelAt(s.cfg, s.anchor, k);
    SellGainsIff(s.cfg, s.anchor, k);
    SellCoversBuy(s.cfg, s.anchor, k);
  }

  /** Entry j is the SELL of this level, it closes a BUY, and it gains under exactly the stated condition. */
  predicate TradeAt(log: seq<Entry>, j: nat, s: State, gridId: nat)
    requires s.cfg.levels >= 2
  {
    && j < |log| && 1 <= gridId <= |s.levels|
    && log[j].intent == SellIntent(s, gridId - 1)
    && ClosesBuy(log, j)
    && var buy, sell := log[Partner(log, j)].intent, log[j].intent;
    && (buy.price < sell.price <==> GainCondition(s, gridId))
    && (ExactBuy(s.cfg, s.anchor, gridId - 1) * s.cfg.takeProfitRatio >= 0.01 ==> buy.price < sell.price)
  }

  lemma TradeStays(log: seq<Entry>, longer: seq<Entry>, j: nat, s: State, gridId: nat)
    requires s.cfg.levels >= 2 && log <= longer && TradeAt(log, j, s, gridId)
    ensures TradeAt(longer, j, s, gridId)
  {
    var more := longer[|log|..];
    assert longer == log + more;
    PrefixCloses(log, more, j);
    PartnerInPrefix(log, more, j);
  }

  lemma FillTrade(s: State, log: seq<Entry>, gridId: nat)
    requires Inv(s) && Accounted(s, log) && OnBuyFill(s, gridId).out != []
    ensures TradeAt(log + Stamp(OnBuyFill(s, gridId)), |log|, s, gridId)
  {
    FillGains(s, log, gridId);
    LevelGains(s, gridId);
  }

  lemma TradeAfterFill(c: Config, events: seq<Event>, n: nat)
    requires n < |events| && events[n].BuyFill?
    requires OnBuyFill(After(c, events[..n]), events[n].gridId).out != []
    ensures TradeAt(Log(c, events[..n + 1]), |Log(c, events[..n])|, After(c, events[..n]), events[n].gridId)
  {
    RunAccounted(c, events[..n]);
    ReachableInv(c, events[..n]);
    FillTrade(After(c, events[..n]), Log(c, events[..n]), events[n].gridId);
    LogNext(c, events, n);
  }

  /**
   Whenever a buy fill of a run emits a SELL, its partner in the run's log is
   strictly cheaper exactly when the level's unrounded sell price is at least
   half a cent above its buy price; in particular whenever the unrounded buy
   price times the take-profit ratio is a cent or more.
   */
  lemma ClosedTradeGainsIff(c: Config, events: seq<Event>, n: nat)
    requires n < |events| && events[n].BuyFill?
    ensures var s, id := After(c, events[..n]), events[n].gridId;
            OnBuyFill(s, id).out != [] ==> TradeAt(Log(c, events), |Log(c, events[..n])|, s, id)
  {
    var s, id := After(c, events[..n]), events[n].gridId;
    if OnBuyFill(s, id).out != [] {
      TradeAfterFill(c, events, n);
      LogExtends(c, events, n + 1);
      TradeStays(Log(c, events[..n + 1]), Log(c, events), |Log(c, events[..n])|, s, id);
    }
  }

  /** A closed trade may gain nothing: with default ratios and a price near one, both sides round to the same cent. */
  lemma BreakEvenTrade()
    ensures var c := Config(2, 1.0, 0.002, false, 0.004, 0.06);
            var log := Log(c, [Tick(1.0), BuyFill(2)]);
            |log| == 2 && log[0].intent.side == Buy && log[1].intent.side == Sell
            && log[0].intent.price == log[1].intent.price == 1.03
  {
    var c := Config(2, 1.0, 0.002, false, 0.004, 0.06);
    var es := [Tick(1.0), BuyFill(2)];
    assert es[..1] == [Tick(1.0)] && es[..1][..0] == [];
    var s1 := Rebuild(Initial(c), 1.0);
    assert ExactBuy(c, 1.0, 0) == 0.97 && ExactBuy(c, 1.0, 1) == 1.03;
    assert Round(0.97 * 100.0) == 97 && Round(1.03 * 100.0) == 103 && Round(1.03 * 1.002 * 100.0) == 103;
    assert s1.levels[0].buyPrice == 0.97 && s1.levels[1].buyPrice == 1.03 && s1.levels[1].sellPrice == 1.03;
    assert FirstEligible(s1.levels, 1.0, 0) == 1;
  }

  // ----- Totals -----

  function Total(log: seq<Entry>, side: Side): real {
    if log == [] then 0.0
    else
      var last := log[|log| - 1].intent;
      Total(log[..|log| - 1], side) + if last.side == side then last.qty else 0.0
  }

  function Gain(buy: Intent, sell: Intent): real {
    sell.qty * (sell.price - buy.price)
  }

  /** What the SELLs bring in beyond what the BUYs they close cost. */
  function Profit(log: seq<Entry>): real {
    if log == [] then 0.0
    else
      var j := |log| - 1;
      var i := Partner(log, j);
      Profit(log[..j]) +
      if log[j].intent.side == Sell && i >= 0 then Gain(log[i].intent, log[j].intent) else 0.0
  }

  lemma GainNonNegative(buy: Intent, sell: Intent)
    requires sell.qty > 0.0 && buy.price <= sell.price
    ensures Gain(buy, sell) >= 0.0
  {
    MulLeft(sell.qty, 0.0, sell.price - buy.price);
  }

  lemma {:induction false} ProfitFromClosing(log: seq<Entry>)
    requires AllSellsClose(log)
    requires forall j | 0 <= j < |log| :: log[j].intent.qty > 0.0
    ensures Profit(log) >= 0.0
  {
    if log == [] {
    } else {
      var j := |log| - 1;
      ClosingPrefix(log, j);
      ProfitFromClosing(log[..j]);
      if log[j].intent.side == Sell {
        assert ClosesBuy(log, j);
        GainNonNegative(log[Partner(log, j)].intent, log[j].intent);
      }
    }
  }

  lemma ClosingPrefix(log: seq<Entry>, n: nat)
    requires AllSellsClose(log) && n <= |log|
    ensures AllSellsClose(log[..n])
  {
    forall k | 0 <= k < n && log[k].intent.side == Sell ensures ClosesBuy(log[..n], k) {
      assert log[..n] + log[n..] == log;
      PrefixCloses(log[..n], log[n..], k);
    }
  }

  lemma {:induction false} QuantitiesPositive(c: Config, events: seq<Event>)
    ensures forall j | 0 <= j < |Log(c, events)| :: Log(c, events)[j].intent.qty > 0.0
  {
    if events == [] {
    } else {
      var n := |events| - 1;
      QuantitiesPositive(c, events[..n]);
      ReachableInv(c, events[..n]);
    }
  }

  /** Over every run the closed trades together never lose money. */
  lemma NoRealisedLoss(c: Config, events: seq<Event>)
    ensures Profit(Log(c, events)) >= 0.0
  {
    RunAccounted(c, events);
    QuantitiesPositive(c, events);
    ProfitFromClosing(Log(c, events));
  }

  /** The quantity on order at levels whose buy has not been filled. */
  function Outstanding(levels: seq<Level>, qty: real): real {
    if levels == [] then 0.0
    else Outstanding(levels[..|levels| - 1], qty) + if levels[|levels| - 1].state == BuyPlaced then qty else 0.0
  }

  lemma {:induction false} OutstandingSet(levels: seq<Level>, qty: real, k: nat, st: LevelState)
    requires k < |levels|
    ensures Outstanding(levels[k := levels[k].(state := st)], qty) ==
            Outstanding(levels, qty)
            - (if levels[k].state == BuyPlaced then qty else 0.0)
            + (if st == BuyPlaced then qty else 0.0)
  {
    var n := |levels| - 1;
    var changed := levels[k := levels[k].(state := st)];
    if k == n {
      assert changed[..n] == levels[..n];
    } else {
      assert changed[..n] == levels[..n][k := levels[k].(state := st)];
      OutstandingSet(levels[..n], qty, k, st);
    }
  }

  lemma {:induction false} OutstandingBounds(levels: seq<Level>, qty: real)
    requires qty > 0.0
    ensures Outstanding(levels, qty) >= 0.0
    ensures (forall lv | lv in levels :: lv.state != BuyPlaced) ==> Outstanding(levels, qty) == 0.0
  {
    if levels == [] {
    } else {
      OutstandingBounds(levels[..|levels| - 1], qty);
    }
  }

  lemma TotalAppend(log: seq<Entry>, e: Entry, side: Side)
    ensures Total(log + [e], side) == Total(log, side) + if e.intent.side == side then e.intent.qty else 0.0
  {
    assert (log + [e])[..|log|] == log;
  }

  predicate Covered(s: State, log: seq<Entry>) {
    Total(log, Buy) - Total(log, Sell) >= Outstanding(s.levels, s.cfg.orderQty)
  }

  lemma RebuildCovered(s: State, log: seq<Entry>, c: Config, anchor: real)
    requires Inv(s) && Covered(s, log) && Sane(c)
    ensures Covered(Rebuild(s.(cfg := c), anchor), log)
  {
    OutstandingBounds(s.levels, s.cfg.orderQty);
    OutstandingBounds(GridLevels(c, anchor), c.orderQty);
  }

  /** Setting one level's state while emitting this intent keeps the log covering the outstanding buys. */
  lemma EmitCovered(s: State, log: seq<Entry>, k: nat, st: LevelState, e: Entry)
    requires Covered(s, log) && k < |s.levels| && e.intent.qty == s.cfg.orderQty
    requires if e.intent.side == Buy then s.levels[k].state == Idle && st == BuyPlaced
             else s.levels[k].state == BuyPlaced && st != BuyPlaced
    ensures Covered(WithState(s, k, st), log + [e])
  {
    OutstandingSet(s.levels, s.cfg.orderQty, k, st);
    TotalAppend(log, e, Buy);
    TotalAppend(log, e, Sell);
  }

  lemma TickCovered(s: State, log: seq<Entry>, price: real)
    requires Inv(s) && Covered(s, log) && price > 0.0
    ensures Covered(OnTick(s, price).state, log + Stamp(OnTick(s, price)))
  {
    var o, s1 := OnTick(s, price), Recentred(s, price);
    if NeedsRebuild(s, price) { RebuildCovered(s, log, s.cfg, price); }
    var k := FirstEligible(s1.levels, price, 0);
    if k == |s1.levels| {
      assert log + Stamp(o) == log;
    } else {
      var added := Entry(BuyIntent(s1, k), s1.rebuilds);
      assert Stamp(o) == [added];
      EmitCovered(s1, log, k, BuyPlaced, added);
    }
  }

  lemma BuyFillCovered(s: State, log: seq<Entry>, gridId: nat)
    requires Inv(s) && Covered(s, log)
    ensures Covered(OnBuyFill(s, gridId).state, log + Stamp(OnBuyFill(s, gridId)))
  {
    var o := OnBuyFill(s, gridId);
    if o.out == [] {
      assert log + Stamp(o) == log;
    } else {
      var added := Entry(SellIntent(s, gridId - 1), s.rebuilds);
      assert Stamp(o) == [added];
      assert s.levels[gridId - 1].state == BuyPlaced;
      EmitCovered(s, log, gridId - 1, SellPlaced, added);
    }
  }

  lemma SellFillCovered(s: State, log: seq<Entry>, gridId: nat)
    requires Inv(s) && Covered(s, log)
    ensures Covered(OnSellFill(s, gridId).state, log)
  {
    if 1 <= gridId <= |s.levels| { OutstandingSet(s.levels, s.cfg.orderQty, gridId - 1, Idle); }
  }

  lemma UpdateCovered(s: State, log: seq<Entry>, c: Config)
    requires Inv(s) && Covered(s, log)
    ensures Covered(OnUpdate(s, c).state, log)
  {
    if s.anchor > 0.0 { RebuildCovered(s, log, Sanitize(c), s.anchor); }
  }

  lemma StepCovered(s: State, log: seq<Entry>, e: Event)
    requires Inv(s) && Covered(s, log)
    ensures Covered(Step(s, e).state, log + Stamp(Step(s, e)))
  {
    if Step(s, e).out == [] { assert log + Stamp(Step(s, e)) == log; }
    match e {
      case Tick(price) => if price > 0.0 { TickCovered(s, log, price); }
      case BuyFill(id) => BuyFillCovered(s, log, id);
      case SellFill(id) => SellFillCovered(s, log, id);
      case Update(c) => UpdateCovered(s, log, c);
    }
  }

  lemma {:induction false} RunCovered(c: Config, events: seq<Event>)
    ensures Covered(After(c, events), Log(c, events))
  {
    if events == [] {
    } else {
      var n := |events| - 1;
      RunCovered(c, events[..n]);
      ReachableInv(c, events[..n]);
      StepCovered(After(c, events[..n]), Log(c, events[..n]), events[n]);
    }
  }

  /**
   Long-only: over every sequence of ticks, fills and configuration updates,
   the quantity sold and the quantity still on order together never exceed the
   quantity bought.
   */
  lemma NeverShort(c: Config, events: seq<Event>)
    ensures var s := After(c, events);
            var log := Log(c, events);
            Total(log, Sell) <= Total(log, Sell) + Outstanding(s.levels, s.cfg.orderQty) <= Total(log, Buy)
  {
    RunCovered(c, events);
    ReachableInv(c, events);
    var s := After(c, events);
    OutstandingBounds(s.levels, s.cfg.orderQty);
  }
}
