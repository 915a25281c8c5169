/** The live settings and the notes of the service, read off the requests of the run alone. */
module DeskRequests {
  import opened Prelude
  import opened Orders
  import opened Scanning
  import opened RuntimeState
  import opened Desk
  import opened DeskRuns
  import Grid

  // ----- Risk limits -----

  datatype Limit = SingleOrder | PositionRatio | LossStop

  /** The value that a request gives for a limit, if it names it. */
  function Named(c: RiskChange, limit: Limit): Option<real> {
    match limit
    case SingleOrder => c.single
    case PositionRatio => c.ratio
    case LossStop => c.loss
  }

  function ValueOf(r: RiskConfig, limit: Limit): real {
    match limit
    case SingleOrder => r.maxSingleOrderNotional
    case PositionRatio => r.maxPositionRatio
    case LossStop => r.dailyLossStopRatio
  }

  /** The value that the last accepted request naming this limit gave, or the one at start-up. */
  function LastNamed(start: RiskConfig, events: seq<Event>, limit: Limit): real
    decreases |events|, 0
  {
    if events == [] then ValueOf(start, limit)
    else
      var n := |events| - 1;
      var named := if events[n].SetRisk? then Named(events[n].risk, limit) else None;
      if named.Some? && Allowed(start, events[..n], events[n].risk) then named.value
      else LastNamed(start, events[..n], limit)
  }

  /** The value a limit would have if the request were accepted. */
  function Proposed(start: RiskConfig, events: seq<Event>, c: RiskChange, limit: Limit): real
    decreases |events|, 1
  {
    if Named(c, limit).Some? then Named(c, limit).value else LastNamed(start, events, limit)
  }

  /** A request is accepted if it would leave all three limits in range. */
  predicate Allowed(start: RiskConfig, events: seq<Event>, c: RiskChange)
    decreases |events|, 2
  {
    && Proposed(start, events, c, SingleOrder) > 0.0
    && 0.0 < Proposed(start, events, c, PositionRatio) <= 1.0
    && 0.0 < Proposed(start, events, c, LossStop) <= 1.0
  }

  ghost predicate LimitsFromRequests(start: RiskConfig, events: seq<Event>, r: RiskConfig) {
    forall limit :: ValueOf(r, limit) == LastNamed(start, events, limit)
  }

  lemma AllowedIsValid(start: RiskConfig, events: seq<Event>, s: State, c: RiskChange, saveOk: bool)
    requires LimitsFromRequests(start, events, s.risk)
    ensures Valid(s, SetRisk(c, saveOk)) <==> Allowed(start, events, c)
    ensures forall limit :: ValueOf(Changed(s.risk, c), limit) == Proposed(start, events, c, limit)
  {
    assert ValueOf(s.risk, SingleOrder) == LastNamed(start, events, SingleOrder);
    assert ValueOf(s.risk, PositionRatio) == LastNamed(start, events, PositionRatio);
    assert ValueOf(s.risk, LossStop) == LastNamed(start, events, LossStop);
  }

  lemma RiskAfter(l: Limits, s: State, e: Event)
    requires s.grid.cfg.levels >= 2
    ensures Step(l, s, e).risk == if e.SetRisk? && Valid(s, e) then Changed(s.risk, e.risk) else s.risk
  {}

  lemma LimitsStep(l: Limits, start: RiskConfig, events: seq<Event>, s: State)
    requires events != [] && s.grid.cfg.levels >= 2
    requires LimitsFromRequests(start, events[..|events| - 1], s.risk)
    ensures LimitsFromRequests(start, events, Step(l, s, events[|events| - 1]).risk)
  {
    var n := |events| - 1;
    RiskAfter(l, s, events[n]);
    if events[n].SetRisk? { AllowedIsValid(start, events[..n], s, events[n].risk, events[n].saveOk); }
  }

  /**
   After every run each limit, as shown and as the core applies it, is what the
   last accepted request that named it gave, or its value at start-up; and the
   next request is accepted iff all three limits would then be in range.
   */
  lemma {:induction false} LimitsAreLastNamed(l: Limits, b: Startup, events: seq<Event>)
    ensures var s := Run(l, Boot(b), events);
            && LimitsFromRequests(Boot(b).risk, events, s.risk)
            && LimitsFromRequests(Boot(b).risk, events, s.core.risk)
            && forall c, saveOk :: Valid(s, SetRisk(c, saveOk)) <==> Allowed(Boot(b).risk, events, c)
  {
    var s := Run(l, Boot(b), events);
    RiskCopiesAgree(l, b, events);
    if events == [] {
    } else {
      LimitsAreLastNamed(l, b, events[..|events| - 1]);
      LimitsStep(l, Boot(b).risk, events, Run(l, Boot(b), events[..|events| - 1]));
    }
    forall c, saveOk ensures Valid(s, SetRisk(c, saveOk)) <==> Allowed(Boot(b).risk, events, c) {
      AllowedIsValid(Boot(b).risk, events, s, c, saveOk);
    }
  }

  // ----- The switch -----

  /** What the last switch request with a value asked for, or the setting at start-up. */
  function LastSwitch(start: bool, events: seq<Event>): bool {
    if events == [] then start
    else
      var n := |events| - 1;
      if events[n].Switch? && events[n].on.Some? then events[n].on.value else LastSwitch(start, events[..n])
  }

  lemma {:induction false} SwitchIsLast(l: Limits, s0: State, events: seq<Event>)
    requires s0.grid.cfg.levels >= 2
    ensures Run(l, s0, events).enabled == LastSwitch(s0.enabled, events)
  {
    if events == [] {
    } else {
      SwitchIsLast(l, s0, events[..|events| - 1]);
    }
  }

  // ----- The grid's parameters -----

  /** A parameter after a request: the named value if it is in range, the default if it is not, else as it was. */
  predicate Taken<T(==)>(named: Option<T>, inRange: bool, fallback: T, before: T, after: T) {
    after == if named.None? then before else if inRange then named.value else fallback
  }

  /** Each parameter follows what the request says about it, and nothing else. */
  predicate GridTaken(c: GridChange, d: Grid.Config, d1: Grid.Config) {
    && d1.levels == Or(c.levels, d.levels)
    && d1.orderQty == Or(c.orderQty, d.orderQty)
    && Taken(c.takeProfitRatio, Or(c.takeProfitRatio, 1.0) > 0.0, 0.002, d.takeProfitRatio, d1.takeProfitRatio)
    && d1.dynamicEnabled == Or(c.dynamicEnabled, d.dynamicEnabled)
    && Taken(c.recenterThresholdRatio, Or(c.recenterThresholdRatio, 1.0) > 0.0, 0.004, d.recenterThresholdRatio,
             d1.recenterThresholdRatio)
    && Taken(c.bandRatio, Or(c.bandRatio, 1.0) > 0.002, 0.06, d.bandRatio, d1.bandRatio)
  }

  predicate LevelsAndQuantityFit(d: Grid.Config, c: GridChange) {
    2 <= Or(c.levels, d.levels) <= 200 && 0.0 < Or(c.orderQty, d.orderQty) <= 1000.0
  }

  lemma ChangedFields(d: Grid.Config, c: GridChange)
    requires Grid.Sane(d) && LevelsAndQuantityFit(d, c)
    ensures GridTaken(c, d, Grid.Sanitize(GridChanged(d, c)))
  {}

  lemma GridRequestStep(l: Limits, s: State, c: GridChange)
    requires s.grid.cfg.levels >= 2
    ensures Valid(s, SetGrid(c)) <==> LevelsAndQuantityFit(s.grid.cfg, c)
    ensures Step(l, s, SetGrid(c)).grid.cfg ==
            if Valid(s, SetGrid(c)) then Grid.Sanitize(GridChanged(s.grid.cfg, c)) else s.grid.cfg
  {}

  lemma GridIsSane(l: Limits, b: Startup, events: seq<Event>)
    ensures Grid.Sane(Run(l, Boot(b), events).grid.cfg)
  {
    GridRuns(l, Boot(b), b.grid, events);
    Grid.ReachableInv(b.grid, GridEvents(l, Boot(b), events));
  }

  /**
   In every run a grid request is accepted iff the levels and the quantity it
   leads to are in range; then each parameter follows its own part of it.
   */
  lemma GridFieldsTaken(l: Limits, b: Startup, events: seq<Event>, c: GridChange)
    ensures var s := Run(l, Boot(b), events);
            var d, d1 := s.grid.cfg, Step(l, s, SetGrid(c)).grid.cfg;
            if LevelsAndQuantityFit(d, c) then Valid(s, SetGrid(c)) && GridTaken(c, d, d1)
            else !Valid(s, SetGrid(c)) && d1 == d
  {
    var s := Run(l, Boot(b), events);
    GridIsSane(l, b, events);
    GridRequestStep(l, s, c);
    if LevelsAndQuantityFit(s.grid.cfg, c) { ChangedFields(s.grid.cfg, c); }
  }

  // ----- Start-up -----

  /** Without a settings file, or as far as it has no such key, the configured settings are in force. */
  lemma ConfiguredUnlessSaved(b: Startup)
    ensures b.file.None? ==> Boot(b).enabled == b.cfg.enabled && Boot(b).risk == Boot(b).core.risk == b.cfg.risk
    ensures b.file.Some? ==>
              && (Lacks(b.file.value, "strategy_enabled") ==> Boot(b).enabled == b.cfg.enabled)
              && (Lacks(b.file.value, "max_single_order_notional_usd") ==>
                    Boot(b).risk.maxSingleOrderNotional == b.cfg.risk.maxSingleOrderNotional)
              && (Lacks(b.file.value, "max_position_ratio") ==>
                    Boot(b).risk.maxPositionRatio == b.cfg.risk.maxPositionRatio)
              && (Lacks(b.file.value, "daily_loss_stop_ratio") ==>
                    Boot(b).risk.dailyLossStopRatio == b.cfg.risk.dailyLossStopRatio)
  {
    if b.file.Some? { MissingKept(KEYS, STREAM, b.file.value, b.cfg); }
  }
}
