/** Order records, risk limits and the pre-trade check. */
module Orders {
  import opened Prelude

  datatype Status = New | Accepted | Rejected | Cancelled

  datatype Reason = NoReason | MaxSingleOrderNotional | MaxPositionRatio | DailyLossStop | PriceUnavailable

  datatype Request = Request(symbol: string, side: Side, orderType: OrderType, qty: real, limitPrice: real)

  datatype Order = Order(
    id: nat,
    symbol: string,
    side: Side,
    orderType: OrderType,
    qty: real,
    refPrice: real,
    status: Status,
    reason: Reason,
    createTs: nat)

  datatype RiskConfig = RiskConfig(
    maxSingleOrderNotional: real,
    maxPositionRatio: real,
    dailyLossStopRatio: real)

  datatype Account = Account(equity: real, position: real, dayLoss: real)

  /** What the account starts with; nothing in the code changes it afterwards. */
  datatype Funds = Funds(equity: real, dayLoss: real)

  const DEFAULT_FUNDS := Funds(1000.0, 0.0)

  function Notional(o: Order): real {
    o.qty * o.refPrice
  }

  function Cap(cfg: RiskConfig, account: Account): real {
    account.equity * cfg.maxPositionRatio
  }

  /** The day's loss has used up the permitted share of the equity; with no equity the share lost counts as one. */
  predicate LossStopped(cfg: RiskConfig, account: Account) {
    if account.equity > 0.0 then account.dayLoss >= cfg.dailyLossStopRatio * account.equity
    else cfg.dailyLossStopRatio <= 1.0
  }

  /** What the limits mean for an order of this size: the first one that is exceeded names the rejection. */
  function Gate(cfg: RiskConfig, size: real, account: Account): Reason {
    if size > cfg.maxSingleOrderNotional then MaxSingleOrderNotional
    else if account.position + size > Cap(cfg, account) then MaxPositionRatio
    else if LossStopped(cfg, account) then DailyLossStop
    else NoReason
  }

  /** The check as it is computed, with the loss as a ratio of the equity. */
  function CheckPreTrade(cfg: RiskConfig, order: Order, account: Account): Reason {
    var notional := Abs(order.qty * order.refPrice);
    if notional > cfg.maxSingleOrderNotional then MaxSingleOrderNotional
    else
      var maxPositionAllowed := account.equity * cfg.maxPositionRatio;
      if account.position + notional > maxPositionAllowed then MaxPositionRatio
      else
        var dayLossRatio := if account.equity > 0.0 then account.dayLoss / account.equity else 1.0;
        if dayLossRatio >= cfg.dailyLossStopRatio then DailyLossStop else NoReason
  }

  lemma CheckIsGate(cfg: RiskConfig, order: Order, account: Account)
    ensures CheckPreTrade(cfg, order, account) == Gate(cfg, Abs(Notional(order)), account)
  {
    if account.equity > 0.0 { RatioAtLeast(account.dayLoss, account.equity, cfg.dailyLossStopRatio); }
  }
}
