/** How much exposure the service can build up against its equity. */
module DeskExposure {
  import opened Prelude
  import opened Orders
  import opened Desk
  import opened DeskRuns
  import Trading
  import TradingRuns

  /** The limits cannot carry exposure past the equity: a ratio of at most one, or no buy is accepted at all. */
  predicate Contained(risk: RiskConfig, account: Account) {
    risk.maxPositionRatio <= 1.0 || risk.maxSingleOrderNotional <= 0.0 || LossStopped(risk, account)
  }

  predicate WithinEquity(s: State) {
    0.0 <= s.core.account.position <= s.core.account.equity
  }

  predicate Sound(s: State) {
    WithinEquity(s) && s.risk == s.core.risk && Contained(s.core.risk, s.core.account)
  }

  lemma SizePositive(qty: real, price: real)
    requires qty > 0.0 && price > 0.0
    ensures qty * price > 0.0
  {}

  lemma CapWithinEquity(risk: RiskConfig, account: Account)
    requires account.equity >= 0.0 && risk.maxPositionRatio <= 1.0
    ensures Cap(risk, account) <= account.equity
  {
    MulLeft(account.equity, risk.maxPositionRatio, 1.0);
  }

  lemma OrderSound(s: Trading.Core, req: Request, now: nat)
    requires TradingRuns.Inv(s) && req.qty > 0.0 && Contained(s.risk, s.account)
    requires 0.0 <= s.account.position <= s.account.equity
    ensures var s1 := Trading.OnSubmit(s, req, now);
            && s1.risk == s.risk && s1.account == s.account.(position := s1.account.position)
            && s.account.position <= s1.account.position <= s.account.equity
  {
    TradingRuns.SubmitEffect(s, req, now);
    if s.risk.maxPositionRatio <= 1.0 { CapWithinEquity(s.risk, s.account); }
    var price := Trading.RefPrice(req, s.lastPrice);
    if price > 0.0 { SizePositive(req.qty, price); }
  }

  lemma StepSound(l: Limits, s: State, e: Event)
    requires Sound(s) && TradingRuns.Inv(s.core) && s.grid.cfg.levels >= 2
    ensures Sound(Step(l, s, e))
  {
    RiskStep(l, s, e);
    if e.PlaceOrder? && e.req.qty > 0.0 {
      OrderSound(s.core, e.req, e.now);
    }
  }

  lemma {:induction false} RunSound(l: Limits, s0: State, f: Funds, events: seq<Event>)
    requires s0.grid.cfg.levels >= 2 && s0.core == Trading.Initial(s0.risk, f)
    requires f.equity > 0.0 && Contained(s0.risk, s0.core.account)
    ensures Sound(Run(l, s0, events))
  {
    if events == [] {
    } else {
      var n := |events| - 1;
      RunSound(l, s0, f, events[..n]);
      CoreRuns(l, s0, events[..n]);
      TradingRuns.ReachableInv(s0.risk, f, CoreEvents(l, s0, events[..n]));
      StepSound(l, Run(l, s0, events[..n]), events[n]);
    }
  }

  // ----- A run past the equity -----

  function SubmitMany(req: Request, n: nat): (events: seq<Trading.Event>)
    ensures |events| == n && TradingRuns.Identical(events, req)
  {
    seq(n, i => Trading.Submit(req, 0))
  }

  lemma {:induction false} PlaceManyReachesCore(l: Limits, s0: State, req: Request, n: nat)
    requires s0.grid.cfg.levels >= 2 && req.qty > 0.0
    ensures CoreEvents(l, s0, PlaceMany(req, n)) == SubmitMany(req, n)
  {
    if n > 0 {
      PlaceOneMore(req, n - 1);
      PlaceManyReachesCore(l, s0, req, n - 1);
      assert SubmitMany(req, n) == SubmitMany(req, n - 1) + [Trading.Submit(req, 0)];
    }
  }

  lemma {:induction false} TimesIs(v: real, n: nat)
    ensures TradingRuns.Times(v, n) == v * n as real
  {
    if n > 0 { TimesIs(v, n - 1); }
  }

  lemma FilledToCap(room: real, v: real)
    requires room >= 0.0 && v > 0.0
    ensures TradingRuns.Times(v, TradingRuns.Quotient(room, v)) > room - v
  {
    var q := room / v;
    assert q * v == room;
    TimesIs(v, q.Floor);
    MulLeftStrict(v, q - 1.0, q.Floor as real);
    assert v * (q - 1.0) == room - v;
  }

  /** A limit buy of this notional, at price one. */
  function BuyOf(v: real): Request {
    Request("", Buy, Limit, v, 1.0)
  }

  lemma BuyOfSize(v: real, lastPrice: real)
    ensures Trading.RefPrice(BuyOf(v), lastPrice) == 1.0 && Trading.Size(BuyOf(v), lastPrice) == v
  {}

  /** The notional of the orders that overshoot: small enough to pass the single-order limit and to fill up the cap. */
  function Overshoot(s: Trading.Core): real {
    var room := Cap(s.risk, s.account) - s.account.equity;
    if s.risk.maxSingleOrderNotional < room then s.risk.maxSingleOrderNotional else room
  }

  lemma Overshoots(s: Trading.Core)
    requires s.account.equity > 0.0 && s.account.position == 0.0 && !Contained(s.risk, s.account)
    ensures var v := Overshoot(s);
            && 0.0 < v <= s.risk.maxSingleOrderNotional
            && TradingRuns.Times(v, TradingRuns.Slots(s, v)) > s.account.equity
  {
    MulLeftStrict(s.account.equity, 1.0, s.risk.maxPositionRatio);
    FilledToCap(Cap(s.risk, s.account), Overshoot(s));
  }

  lemma UncontainedRun(l: Limits, s0: State, f: Funds)
    requires s0.grid.cfg.levels >= 2 && s0.core == Trading.Initial(s0.risk, f)
    requires f.equity > 0.0 && !Contained(s0.risk, s0.core.account)
    ensures exists events :: !WithinEquity(Run(l, s0, events))
  {
    var v := Overshoot(s0.core);
    Overshoots(s0.core);
    var n := TradingRuns.Slots(s0.core, v);
    BuyOfSize(v, s0.core.lastPrice);
    TradingRuns.ReachableInv(s0.risk, f, []);
    TradingRuns.AdmissionsExact(s0.core, SubmitMany(BuyOf(v), n), BuyOf(v), v);
    PlaceManyReachesCore(l, s0, BuyOf(v), n);
    CoreRuns(l, s0, PlaceMany(BuyOf(v), n));
    assert !WithinEquity(Run(l, s0, PlaceMany(BuyOf(v), n)));
  }

  /**
   Requests can only set position ratios up to one, but start-up takes any
   limits. The exposure stays between zero and the equity in every run exactly
   when the limits at start-up have a ratio of at most one, or accept no buy
   because of the single-order limit or the loss stop.
   */
  lemma ExposureWithinEquityIff(l: Limits, b: Startup)
    requires b.funds.equity > 0.0
    ensures (forall events :: WithinEquity(Run(l, Boot(b), events)))
            <==> Contained(Boot(b).risk, Account(b.funds.equity, 0.0, b.funds.dayLoss))
  {
    BootFresh(b);
    if Contained(Boot(b).risk, Boot(b).core.account) {
      forall events ensures WithinEquity(Run(l, Boot(b), events)) { RunSound(l, Boot(b), b.funds, events); }
    } else {
      UncontainedRun(l, Boot(b), b.funds);
    }
  }
}
