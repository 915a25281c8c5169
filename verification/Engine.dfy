/** The service object: the start-up sequence, the tick handler and the control routes, proved to implement Desk.Step. */
module Engine {
  import opened Prelude
  import opened Orders
  import opened OrderManagement
  import opened RuntimeState
  import opened Desk
  import opened LongGridStrategies
  import Trading
  import TradingRuns
  import Grid

  class Service {
    const limits: Limits
    const core: Trading.TradingCore
    const grid: LongGridStrategy
    var orders: seq<CachedOrder>
    var notes: seq<Note>
    var risk: RiskConfig
    var enabled: bool
    var file: Option<string>

    ghost function View(): State
      reads this, core, core.oms, grid
    {
      State(core.View(), grid.View(), orders, notes, risk, enabled, file)
    }

    /** The grid is in a state of its own run; the core's ids are dense, so a submitted order is always found. */
    ghost predicate Valid()
      reads this, core, core.oms, grid
    {
      grid.Valid() && TradingRuns.Inv(core.View())
    }

    constructor (maxEvents: nat, maxOrders: nat, trimBatch: nat,
                 cfg: Loaded, gridCfg: Grid.Config, savedFile: Option<string>)
      ensures Valid() && fresh(core) && fresh(core.oms) && fresh(grid)
      ensures limits == Clamp(maxEvents, maxOrders, trimBatch)
      ensures View() == Boot(Startup(cfg, DEFAULT_FUNDS, gridCfg, savedFile))
    {
      var live := cfg;
      if savedFile.Some? {
        live := Load(STREAM, savedFile.value, cfg);
      }
      limits := Clamp(maxEvents, maxOrders, trimBatch);
      core := new Trading.TradingCore(live.risk);
      grid := new LongGridStrategy(gridCfg);
      orders, notes := [], [];
      risk, enabled, file := live.risk, live.enabled, savedFile;
      new;
      assert TradingRuns.Dense(core.View());
    }

    method Note(n: Note)
      modifies this`notes
      ensures notes == PushNote(limits, old(notes), n) == PushNotes(limits, old(notes), [n])
    {
      assert [n][..0] == [];
      notes := notes + [n];
      if |notes| > limits.maxEvents { notes := notes[1..]; }
    }

    /** Copies the order as it was decided into the cache. */
    method Remember(id: nat, now: nat) returns (found: bool)
      modifies this`orders
      ensures found == (id in core.oms.orders)
      ensures orders == if found then PushOrder(limits, old(orders), Snapshot(core.oms.orders[id], id, now))
                        else old(orders)
    {
      var order := core.GetOrder(id);
      if order.None? { return false; }
      orders := orders + [CachedOrder(id, order.value.status, order.value.reason, now)];
      if |orders| > limits.maxOrders {
        orders := orders[Min(limits.trimBatch, |orders|)..];
      }
      return true;
    }

    method Save(saveOk: bool)
      modifies this`file
      ensures file == if saveOk then Some(SaveText(STREAM, enabled, risk)) else old(file)
    {
      if saveOk { file := Some(SaveText(STREAM, enabled, risk)); }
    }

    method OnMarketTick(price: real)
      requires Valid()
      modifies this, core, grid
      ensures Valid() && View() == Step(limits, old(View()), Tick(price))
    {
      TradingRuns.StepInv(core.View(), Trading.Tick(price));
      core.OnTick(price);
      if !enabled {
        return;
      }
      var intents := grid.OnPriceTick(price);
      var i := 0;
      while i < |intents|
        invariant 0 <= i <= |intents|
        invariant notes == PushNotes(limits, old(notes), IntentNotes(intents)[..i])
        modifies this`notes
      {
        assert IntentNotes(intents)[..i + 1] == IntentNotes(intents)[..i] + [IntentNotes(intents)[i]];
        Note(StrategyIntent(intents[i].gridId));
        i := i + 1;
      }
      assert IntentNotes(intents)[..i] == IntentNotes(intents);
    }

    method Manual(req: Request, now: nat) returns (status: nat)
      requires Valid()
      modifies this, core, core.oms
      ensures Valid() && View() == Step(limits, old(View()), PlaceOrder(req, now))
      ensures status == if Desk.Valid(old(View()), PlaceOrder(req, now)) then 200 else 400
    {
      if req.qty <= 0.0 { return 400; }
      SubmitStep(limits, View(), req, now);
      var id := core.SubmitManualOrder(req, now);
      var found := Remember(id, now);
      status := 500;
      if !found { return; }
      Note(ManualOrder(id));
      return 200;
    }

    method Cancel(id: Option<nat>) returns (status: nat)
      requires Valid()
      modifies this, core, core.oms
      ensures Valid() && View() == Step(limits, old(View()), CancelOrder(id))
      ensures status == if id.Some? && Has(old(core.oms.orders), id.value, Accepted) then 200 else 400
    {
      if id.None? { return 400; }
      TradingRuns.StepInv(core.View(), Trading.Cancel(id.value));
      var ok := core.CancelOrder(id.value);
      Note(ManualCancel(id.value));
      return if ok then 200 else 400;
    }

    /** The limits with the fields that the request gives. */
    method AskedRisk(change: RiskChange) returns (next: RiskConfig)
      ensures next == Changed(risk, change)
    {
      next := risk;
      if change.single.Some? { next := next.(maxSingleOrderNotional := change.single.value); }
      if change.ratio.Some? { next := next.(maxPositionRatio := change.ratio.value); }
      if change.loss.Some? { next := next.(dailyLossStopRatio := change.loss.value); }
    }

    method UpdateRisk(change: RiskChange, saveOk: bool) returns (status: nat)
      requires Valid()
      modifies this, core
      ensures Valid() && View() == Step(limits, old(View()), SetRisk(change, saveOk))
      ensures status == if Desk.Valid(old(View()), SetRisk(change, saveOk)) then 200 else 400
    {
      var next := AskedRisk(change);
      if next.maxSingleOrderNotional <= 0.0 || next.maxPositionRatio <= 0.0 || next.maxPositionRatio > 1.0
         || next.dailyLossStopRatio <= 0.0 || next.dailyLossStopRatio > 1.0 {
        return 400;
      }
      TradingRuns.StepInv(core.View(), Trading.SetRisk(next));
      risk := next;
      core.UpdateRiskConfig(next);
      Save(saveOk);
      Note(RiskUpdated);
      return 200;
    }

    method SwitchStrategy(on: Option<bool>, saveOk: bool) returns (status: nat)
      requires Valid()
      modifies this
      ensures Valid() && View() == Step(limits, old(View()), Switch(on, saveOk))
      ensures status == if on.Some? then 200 else 400
    {
      if on.None? { return 400; }
      enabled := on.value;
      Save(saveOk);
      Note(StrategySwitched(on.value));
      return 200;
    }

    /** The grid's configuration with the fields that the request gives. */
    method AskedGrid(change: GridChange) returns (g: Grid.Config)
      ensures g == GridChanged(grid.cfg, change)
    {
      g := grid.cfg;
      if change.levels.Some? { g := g.(levels := change.levels.value); }
      if change.orderQty.Some? { g := g.(orderQty := change.orderQty.value); }
      if change.takeProfitRatio.Some? { g := g.(takeProfitRatio := change.takeProfitRatio.value); }
      if change.dynamicEnabled.Some? { g := g.(dynamicEnabled := change.dynamicEnabled.value); }
      if change.recenterThresholdRatio.Some? { g := g.(recenterThresholdRatio := change.recenterThresholdRatio.value); }
      if change.bandRatio.Some? { g := g.(bandRatio := change.bandRatio.value); }
    }

    method ConfigureGrid(change: GridChange) returns (status: nat)
      requires Valid()
      modifies this, grid
      ensures Valid() && View() == Step(limits, old(View()), SetGrid(change))
      ensures status == if Desk.Valid(old(View()), SetGrid(change)) then 200 else 400
    {
      var g := AskedGrid(change);
      if g.levels < 2 || g.levels > 200 { return 400; }
      if g.orderQty <= 0.0 || g.orderQty > 1000.0 { return 400; }
      grid.UpdateConfig(g);
      Note(GridUpdated);
      return 200;
    }
  }

  /** With dense ids a submitted order is always found, and ends up in the cache as it was decided. */
  lemma SubmitStep(l: Limits, s: State, req: Request, now: nat)
    requires TradingRuns.Inv(s.core) && s.grid.cfg.levels >= 2 && req.qty > 0.0
    ensures var core := Trading.Step(s.core, Trading.Submit(req, now));
            && TradingRuns.Inv(core) && core.seqNo in core.book
            && Step(l, s, PlaceOrder(req, now)) ==
               s.(core := core,
                  orders := PushOrder(l, s.orders, Snapshot(core.book[core.seqNo], core.seqNo, now)),
                  notes := PushNotes(l, s.notes, [ManualOrder(core.seqNo)]))
  {
    TradingRuns.SubmitEffect(s.core, req, now);
    TradingRuns.SubmitInv(s.core, req, now);
    PlaceOrderStep(l, s, req, now);
  }
}
