/**
 The long-only grid as a state machine over values: what one tick, fill or
 configuration update does to the strategy, and which order intents it emits.
 The class LongGridStrategy is proved to implement Step.
 */
module Grid {
  import opened Prelude
  import opened Rounding

  datatype Config = Config(
    levels: int,
    orderQty: real,
    takeProfitRatio: real,
    dynamicEnabled: bool,
    recenterThresholdRatio: real,
    bandRatio: real)

  datatype LevelState = Idle | BuyPlaced | BuyFilled | SellPlaced

  datatype Level = Level(id: nat, buyPrice: real, sellPrice: real, state: LevelState)

  datatype Intent = Intent(side: Side, orderType: OrderType, qty: real, price: real, gridId: nat)

  datatype State = State(cfg: Config, levels: seq<Level>, anchor: real, rebuilds: nat)

  datatype Event = Tick(price: real) | BuyFill(gridId: nat) | SellFill(gridId: nat) | Update(cfg: Config)

  datatype Outcome = Outcome(state: State, out: seq<Intent>)

  predicate Sane(c: Config) {
    && c.levels >= 2
    && c.orderQty > 0.0
    && c.takeProfitRatio > 0.0
    && c.recenterThresholdRatio > 0.0
    && c.bandRatio > 0.002
  }

  /** Out-of-range parameters fall back to their defaults; the result always is in range. */
  function Sanitize(c: Config): (r: Config)
    ensures Sane(r) && r.dynamicEnabled == c.dynamicEnabled
    ensures Sane(c) ==> r == c
  {
    Config(
      if c.levels < 2 then 2 else c.levels,
      if c.orderQty <= 0.0 then 0.001 else c.orderQty,
      if c.takeProfitRatio <= 0.0 then 0.002 else c.takeProfitRatio,
      c.dynamicEnabled,
      if c.recenterThresholdRatio <= 0.0 then 0.004 else c.recenterThresholdRatio,
      if c.bandRatio <= 0.002 then 0.06 else c.bandRatio)
  }

  // ----- The grid laid out around an anchor -----

  function HalfBand(c: Config, anchor: real): real {
    anchor * (c.bandRatio * 0.5)
  }

  function Lower(c: Config, anchor: real): real {
    anchor - HalfBand(c, anchor)
  }

  function Upper(c: Config, anchor: real): real {
    anchor + HalfBand(c, anchor)
  }

  function Spacing(c: Config, anchor: real): real
    requires c.levels >= 2
  {
    (Upper(c, anchor) - Lower(c, anchor)) / (c.levels - 1) as real
  }

  function Interpolate(lower: real, step: real, i: int): real {
    lower + step * i as real
  }

  /** The buy price of level i before rounding. */
  function ExactBuy(c: Config, anchor: real, i: int): real
    requires c.levels >= 2
  {
    Interpolate(Lower(c, anchor), Spacing(c, anchor), i)
  }

  /** The sell price of level i before rounding. */
  function ExactSell(c: Config, anchor: real, i: int): real
    requires c.levels >= 2
  {
    ExactBuy(c, anchor, i) * (1.0 + c.takeProfitRatio)
  }

  function LevelOf(i: nat, buy: real, ratio: real): Level {
    Level(i + 1, Round2(buy), Round2(buy * (1.0 + ratio)), Idle)
  }

  function LevelAt(c: Config, anchor: real, i: nat): Level
    requires c.levels >= 2
  {
    LevelOf(i, ExactBuy(c, anchor, i), c.takeProfitRatio)
  }

  function GridLevels(c: Config, anchor: real): seq<Level>
    requires c.levels >= 2
  {
    seq(c.levels, i requires 0 <= i => LevelAt(c, anchor, i))
  }

  // ----- Transitions -----

  function Initial(c: Config): State {
    State(Sanitize(c), [], 0.0, 0)
  }

  function Rebuild(s: State, anchor: real): State
    requires s.cfg.levels >= 2
  {
    State(s.cfg, GridLevels(s.cfg, anchor), anchor, s.rebuilds + 1)
  }

  /** A tick at this price starts a new grid: there is none yet, or the price has drifted too far. */
  predicate NeedsRebuild(s: State, price: real) {
    || s.anchor <= 0.0
    || (s.cfg.dynamicEnabled && Abs(price - s.anchor) >= s.cfg.recenterThresholdRatio * s.anchor)
  }

  predicate Eligible(lv: Level, price: real) {
    lv.state == Idle && price <= lv.buyPrice
  }

  /** The first level at or after `from` that a tick at this price may buy; |levels| if none. */
  function FirstEligible(levels: seq<Level>, price: real, from: nat): (k: nat)
    requires from <= |levels|
    ensures from <= k <= |levels|
    ensures forall j | from <= j < k :: !Eligible(levels[j], price)
    ensures k < |levels| ==> Eligible(levels[k], price)
    decreases |levels| - from
  {
    if from == |levels| || Eligible(levels[from], price) then from
    else FirstEligible(levels, price, from + 1)
  }

  function WithState(s: State, k: nat, st: LevelState): State
    requires k < |s.levels|
  {
    s.(levels := s.levels[k := s.levels[k].(state := st)])
  }

  function BuyIntent(s: State, k: nat): Intent
    requires k < |s.levels|
  {
    Intent(Buy, Limit, s.cfg.orderQty, s.levels[k].buyPrice, s.levels[k].id)
  }

  function SellIntent(s: State, k: nat): Intent
    requires k < |s.levels|
  {
    Intent(Sell, Limit, s.cfg.orderQty, s.levels[k].sellPrice, s.levels[k].id)
  }

  function Recentred(s: State, price: real): State
    requires s.cfg.levels >= 2
  {
    if NeedsRebuild(s, price) then Rebuild(s, price) else s
  }

  function OnTick(s: State, price: real): Outcome
    requires s.cfg.levels >= 2
  {
    if price <= 0.0 then Outcome(s, []) else
    var s1 := Recentred(s, price);
    var k := FirstEligible(s1.levels, price, 0);
    if k == |s1.levels| then Outcome(s1, [])
    else Outcome(WithState(s1, k, BuyPlaced), [BuyIntent(s1, k)])
  }

  function OnBuyFill(s: State, gridId: nat): Outcome {
    if 1 <= gridId <= |s.levels| && s.levels[gridId - 1].state in {BuyPlaced, BuyFilled} then
      Outcome(WithState(s, gridId - 1, SellPlaced), [SellIntent(s, gridId - 1)])
    else
      Outcome(s, [])
  }

  function OnSellFill(s: State, gridId: nat): Outcome {
    if 1 <= gridId <= |s.levels| then Outcome(WithState(s, gridId - 1, Idle), [])
    else Outcome(s, [])
  }

  function OnUpdate(s: State, c: Config): Outcome {
    var s1 := s.(cfg := Sanitize(c));
    Outcome(if s.anchor > 0.0 then Rebuild(s1, s.anchor) else s1, [])
  }

  function Step(s: State, e: Event): Outcome
    requires s.cfg.levels >= 2
  {
    match e
    case Tick(price) => OnTick(s, price)
    case BuyFill(id) => OnBuyFill(s, id)
    case SellFill(id) => OnSellFill(s, id)
    case Update(c) => OnUpdate(s, c)
  }

  /** The state after a whole run, oldest event first. */
  function After(c: Config, events: seq<Event>): (s: State)
    ensures s.cfg.levels >= 2
  {
    if events == [] then Initial(c)
    else
      var n := |events| - 1;
      Step(After(c, events[..n]), events[n]).state
  }

  // ----- The invariant of every reachable state -----

  /** Level i has the identity and prices that the layout formula gives it; only its state varies. */
  predicate LaidOut(s: State)
    requires s.cfg.levels >= 2
  {
    && |s.levels| == s.cfg.levels
    && forall i | 0 <= i < |s.levels| :: s.levels[i].(state := Idle) == LevelAt(s.cfg, s.anchor, i)
  }

  predicate Inv(s: State) {
    && Sane(s.cfg)
    && s.anchor >= 0.0
    && (s.anchor == 0.0 <==> s.rebuilds == 0)
    && (if s.anchor == 0.0 then s.levels == [] else LaidOut(s))
    && forall lv | lv in s.levels :: lv.state != BuyFilled
  }

  lemma StepInv(s: State, e: Event)
    requires Inv(s)
    ensures Inv(Step(s, e).state)
  {}

  /**
   In every reachable state there is no grid iff no anchor was ever set iff
   nothing was ever rebuilt; otherwise all levels carry the formula's prices
   for the current anchor and configuration, and none is in state BuyFilled.
   */
  lemma {:induction false} ReachableInv(c: Config, events: seq<Event>)
    ensures Inv(After(c, events))
  {
    if events == [] {
    } else {
      var n := |events| - 1;
      ReachableInv(c, events[..n]);
      StepInv(After(c, events[..n]), events[n]);
    }
  }
}
