/** Order intake: id allocation, reference price, risk gate and the exposure counter. */
module Trading {
  import opened Prelude
  import opened Orders
  import opened OrderManagement

  datatype Core = Core(book: Book, seqNo: nat, risk: RiskConfig, lastPrice: real, account: Account)

  datatype Event = Tick(price: real) | Submit(req: Request, now: nat) | Cancel(id: nat) | SetRisk(cfg: RiskConfig)

  function Initial(c: RiskConfig, f: Funds): Core {
    Core(map[], 0, c, 0.0, Account(f.equity, 0.0, f.dayLoss))
  }

  /** A limit order with a positive limit uses it; any other order uses the last price. */
  function RefPrice(req: Request, lastPrice: real): real {
    if req.orderType == Limit && req.limitPrice > 0.0 then req.limitPrice else lastPrice
  }

  /** Signed notional value of the request. */
  function Size(req: Request, lastPrice: real): real {
    req.qty * RefPrice(req, lastPrice)
  }

  function NewOrder(s: Core, req: Request, now: nat): Order {
    Order(s.seqNo + 1, req.symbol, req.side, req.orderType, req.qty, RefPrice(req, s.lastPrice), New, NoReason, now)
  }

  function OnSubmit(s: Core, req: Request, now: nat): Core {
    var o := NewOrder(s, req, now);
    var s1 := s.(seqNo := o.id);
    if o.refPrice <= 0.0 then
      s1.(book := RejectedIn(Submitted(s.book, o), o.id, PriceUnavailable))
    else if o.id in s.book then
      s1
    else
      var book := Submitted(s.book, o);
      var reason := Gate(s.risk, Abs(Size(req, s.lastPrice)), s.account);
      if reason == NoReason then
        s1.(book := AcceptedIn(book, o.id),
            account := if o.side == Buy then s.account.(position := s.account.position + Size(req, s.lastPrice))
                       else s.account)
      else
        s1.(book := RejectedIn(book, o.id, reason))
  }

  function Step(s: Core, e: Event): Core {
    match e
    case Tick(price) => s.(lastPrice := price)
    case Submit(req, now) => OnSubmit(s, req, now)
    case Cancel(id) => s.(book := CancelledIn(s.book, id))
    case SetRisk(cfg) => s.(risk := cfg)
  }

  function RunFrom(s: Core, events: seq<Event>): Core {
    if events == [] then s
    else
      var n := |events| - 1;
      Step(RunFrom(s, events[..n]), events[n])
  }

  function After(c: RiskConfig, f: Funds, events: seq<Event>): Core {
    RunFrom(Initial(c, f), events)
  }

  class TradingCore {
    const oms: OMS
    var risk: RiskConfig
    var seqNo: nat
    var lastPrice: real
    var account: Account

    ghost function View(): Core
      reads this, oms
    {
      Core(oms.orders, seqNo, risk, lastPrice, account)
    }

    constructor (cfg: RiskConfig)
      ensures View() == Initial(cfg, DEFAULT_FUNDS) && fresh(oms)
    {
      oms := new OMS();
      risk, seqNo, lastPrice := cfg, 0, 0.0;
      account := Account(1000.0, 0.0, 0.0);
    }

    method OnTick(price: real)
      modifies this
      ensures View() == Step(old(View()), Tick(price))
    {
      lastPrice := price;
    }

    method RiskVerdict(order: Order) returns (reason: Reason)
      ensures reason == Gate(risk, Abs(Notional(order)), account)
    {
      CheckIsGate(risk, order, account);
      reason := CheckPreTrade(risk, order, account);
    }

    method SubmitManualOrder(req: Request, now: nat) returns (id: nat)
      modifies this`seqNo, this`account, oms
      ensures View() == Step(old(View()), Submit(req, now)) && id == seqNo == old(seqNo) + 1
    {
      seqNo := seqNo + 1;
      id := seqNo;

      var refPrice := if req.orderType == Limit && req.limitPrice > 0.0 then req.limitPrice else lastPrice;
      var order := Order(id, req.symbol, req.side, req.orderType, req.qty, refPrice, New, NoReason, now);

      assert Notional(order) == Size(req, lastPrice);
      if order.refPrice <= 0.0 {
        var _ := oms.Submit(order);
        var _ := oms.Reject(id, PriceUnavailable);
        return;
      }

      var isNew := oms.Submit(order);
      if !isNew { return; }

      var reason := RiskVerdict(order);
      if reason == NoReason {
        var _ := oms.Accept(id);
        var notional := order.qty * order.refPrice;
        if order.side == Buy {
          account := account.(position := account.position + notional);
        }
      } else {
        var _ := oms.Reject(id, reason);
      }
    }

    method CancelOrder(id: nat) returns (ok: bool)
      modifies this, oms
      ensures View() == Step(old(View()), Cancel(id))
      ensures ok == Has(old(oms.orders), id, Accepted)
    {
      ok := oms.Cancel(id);
    }

    method GetOrder(id: nat) returns (o: Option<Order>)
      ensures o == if id in oms.orders then Some(oms.orders[id]) else None
    {
      o := oms.Get(id);
    }

    method UpdateRiskConfig(cfg: RiskConfig)
      modifies this
      ensures View() == Step(old(View()), SetRisk(cfg))
    {
      risk := cfg;
    }
  }
}
