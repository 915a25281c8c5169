/**
 The running service as a state machine: market ticks and control requests
 act on the core, the grid, the bounded caches, the live settings and the
 saved settings file.
 */
module Desk {
  import opened Prelude
  import opened Orders
  import opened RuntimeState
  import Trading
  import Grid

  /** A submitted order as the cache shows it: decided status and reason at submission. */
  datatype CachedOrder = CachedOrder(id: nat, status: Status, reason: Reason, ts: nat)

  datatype Note =
    | ManualOrder(id: nat)
    | ManualCancel(id: nat)
    | RiskUpdated
    | GridUpdated
    | StrategySwitched(on: bool)
    | StrategyIntent(gridId: nat)

  /** Cache sizes, fixed at start-up after clamping. */
  datatype Limits = Limits(maxEvents: nat, maxOrders: nat, trimBatch: nat)

  predicate Clamped(l: Limits) {
    l.maxEvents >= 1 && l.maxOrders >= 100 && l.trimBatch >= 1
  }

  function Clamp(events: nat, orders: nat, batch: nat): (l: Limits)
    ensures Clamped(l)
    ensures Clamped(Limits(events, orders, batch)) ==> l == Limits(events, orders, batch)
    ensures l.maxEvents in {1, events} && l.maxOrders in {100, orders} && l.trimBatch in {1, batch}
    ensures l.maxEvents >= events && l.maxOrders >= orders && l.trimBatch >= batch
  {
    Limits(if events < 1 then 1 else events, if orders < 100 then 100 else orders, if batch < 1 then 1 else batch)
  }

  datatype State = State(
    core: Trading.Core,
    grid: Grid.State,
    orders: seq<CachedOrder>,
    notes: seq<Note>,
    risk: RiskConfig,
    enabled: bool,
    file: Option<string>)

  datatype RiskChange = RiskChange(single: Option<real>, ratio: Option<real>, loss: Option<real>)

  datatype GridChange = GridChange(
    levels: Option<int>,
    orderQty: Option<real>,
    takeProfitRatio: Option<real>,
    dynamicEnabled: Option<bool>,
    recenterThresholdRatio: Option<real>,
    bandRatio: Option<real>)

  /** A tick, or a control request with its parsed parameters; saveOk says whether the settings file can be written. */
  datatype Event =
    | Tick(price: real)
    | PlaceOrder(req: Request, now: nat)
    | CancelOrder(id: Option<nat>)
    | SetRisk(risk: RiskChange, saveOk: bool)
    | Switch(on: Option<bool>, saveOk: bool)
    | SetGrid(grid: GridChange)

  // ----- Bounded caches -----

  function Min(a: nat, b: nat): nat {
    if a < b then a else b
  }

  /** Append; once over the maximum, drop a batch from the front. */
  function PushOrder(l: Limits, orders: seq<CachedOrder>, o: CachedOrder): seq<CachedOrder> {
    var grown := orders + [o];
    if |grown| > l.maxOrders then grown[Min(l.trimBatch, |grown|)..] else grown
  }

  function PushNote(l: Limits, notes: seq<Note>, n: Note): seq<Note> {
    var grown := notes + [n];
    if |grown| > l.maxEvents then grown[1..] else grown
  }

  function PushNotes(l: Limits, notes: seq<Note>, more: seq<Note>): seq<Note> {
    if more == [] then notes
    else PushNote(l, PushNotes(l, notes, more[..|more| - 1]), more[|more| - 1])
  }

  function Snapshot(o: Order, id: nat, now: nat): CachedOrder {
    CachedOrder(id, o.status, o.reason, now)
  }

  // ----- Settings -----

  function Or<T>(change: Option<T>, current: T): T {
    if change.Some? then change.value else current
  }

  function Changed(risk: RiskConfig, c: RiskChange): RiskConfig {
    RiskConfig(
      Or(c.single, risk.maxSingleOrderNotional),
      Or(c.ratio, risk.maxPositionRatio),
      Or(c.loss, risk.dailyLossStopRatio))
  }

  predicate RiskInRange(r: RiskConfig) {
    && r.maxSingleOrderNotional > 0.0
    && 0.0 < r.maxPositionRatio <= 1.0
    && 0.0 < r.dailyLossStopRatio <= 1.0
  }

  function GridChanged(cfg: Grid.Config, c: GridChange): Grid.Config {
    Grid.Config(
      Or(c.levels, cfg.levels),
      Or(c.orderQty, cfg.orderQty),
      Or(c.takeProfitRatio, cfg.takeProfitRatio),
      Or(c.dynamicEnabled, cfg.dynamicEnabled),
      Or(c.recenterThresholdRatio, cfg.recenterThresholdRatio),
      Or(c.bandRatio, cfg.bandRatio))
  }

  predicate GridInRange(cfg: Grid.Config) {
    2 <= cfg.levels <= 200 && 0.0 < cfg.orderQty <= 1000.0
  }

  function Saved(s: State, saveOk: bool): State {
    if saveOk then s.(file := Some(SaveText(STREAM, s.enabled, s.risk))) else s
  }

  // ----- Steps -----

  /** What the service starts from: configured settings and grid, the account, and the settings file if there is one. */
  datatype Startup = Startup(cfg: Loaded, funds: Funds, grid: Grid.Config, file: Option<string>)

  /** Start-up: settings from the configuration, overridden by the settings file where there is one. */
  function Boot(b: Startup): State {
    var live := match b.file case None => b.cfg case Some(text) => Load(STREAM, text, b.cfg);
    State(Trading.Initial(live.risk, b.funds), Grid.Initial(b.grid), [], [], live.risk, live.enabled, b.file)
  }

  /** The event can be carried out: the control request is well formed and in range. */
  predicate Valid(s: State, e: Event) {
    match e
    case Tick(_) => true
    case PlaceOrder(req, _) => req.qty > 0.0
    case CancelOrder(id) => id.Some?
    case SetRisk(c, _) => RiskInRange(Changed(s.risk, c))
    case Switch(on, _) => on.Some?
    case SetGrid(c) => GridInRange(GridChanged(s.grid.cfg, c))
  }

  function IntentNotes(out: seq<Grid.Intent>): seq<Note> {
    seq(|out|, i requires 0 <= i < |out| => StrategyIntent(out[i].gridId))
  }

  /** The notes an event adds. */
  function NotesOf(s: State, e: Event): seq<Note>
    requires s.grid.cfg.levels >= 2
  {
    if !Valid(s, e) then []
    else
      match e
      case Tick(price) => if s.enabled then IntentNotes(Grid.OnTick(s.grid, price).out) else []
      case PlaceOrder(_, _) => [ManualOrder(s.core.seqNo + 1)]
      case CancelOrder(id) => [ManualCancel(id.value)]
      case SetRisk(_, _) => [RiskUpdated]
      case Switch(on, _) => [StrategySwitched(on.value)]
      case SetGrid(_) => [GridUpdated]
  }

  function Step(l: Limits, s: State, e: Event): State
    requires s.grid.cfg.levels >= 2
  {
    if !Valid(s, e) then s
    else Effect(l, s, e).(notes := PushNotes(l, s.notes, NotesOf(s, e)))
  }

  /** What a valid event does, its notes aside. */
  function Effect(l: Limits, s: State, e: Event): State
    requires s.grid.cfg.levels >= 2 && Valid(s, e)
  {
    match e
    case Tick(price) =>
      s.(core := Trading.Step(s.core, Trading.Tick(price)),
         grid := if s.enabled then Grid.OnTick(s.grid, price).state else s.grid)
    case PlaceOrder(req, now) =>
      var core := Trading.OnSubmit(s.core, req, now);
      if core.seqNo !in core.book then s.(core := core)
      else
        s.(core := core, orders := PushOrder(l, s.orders, Snapshot(core.book[core.seqNo], core.seqNo, now)))
    case CancelOrder(id) =>
      s.(core := Trading.Step(s.core, Trading.Cancel(id.value)))
    case SetRisk(c, saveOk) =>
      var next := Changed(s.risk, c);
      Saved(s.(risk := next, core := Trading.Step(s.core, Trading.SetRisk(next))), saveOk)
    case Switch(on, saveOk) =>
      Saved(s.(enabled := on.value), saveOk)
    case SetGrid(c) =>
      s.(grid := Grid.OnUpdate(s.grid, GridChanged(s.grid.cfg, c)).state)
  }

  /** A submitted order that the core knows ends up in the cache as it was decided. */
  lemma PlaceOrderStep(l: Limits, s: State, req: Request, now: nat)
    requires s.grid.cfg.levels >= 2 && req.qty > 0.0
    ensures var core := Trading.OnSubmit(s.core, req, now);
            core.seqNo in core.book ==>
              Step(l, s, PlaceOrder(req, now)) ==
              s.(core := core,
                 orders := PushOrder(l, s.orders, Snapshot(core.book[core.seqNo], core.seqNo, now)),
                 notes := PushNotes(l, s.notes, [ManualOrder(s.core.seqNo + 1)]))
  {}

  function Run(l: Limits, s: State, events: seq<Event>): (r: State)
    requires s.grid.cfg.levels >= 2
    ensures r.grid.cfg.levels >= 2
  {
    if events == [] then s
    else
      var n := |events| - 1;
      Step(l, Run(l, s, events[..n]), events[n])
  }
}
