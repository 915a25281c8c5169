/** Properties of whole runs of the trading core. */
module TradingRuns {
  import opened Prelude
  import opened Orders
  import opened OrderManagement
  import opened Trading

  // ----- Reachable states -----

  /** A buy that was accepted counts towards the exposure for good, cancelled or not. */
  function Contribution(o: Order): real {
    if o.side == Buy && o.status in {Accepted, Cancelled} then Notional(o) else 0.0
  }

  /** Sum of the contributions of orders 1..n. */
  function Exposure(b: Book, n: nat): real
    requires forall id | 1 <= id <= n :: id in b
  {
    if n == 0 then 0.0 else Exposure(b, n - 1) + Contribution(b[n])
  }

  /** Ids are exactly 1..seqNo and each record carries its own id. */
  ghost predicate Dense(s: Core) {
    && (forall id :: id in s.book <==> 1 <= id <= s.seqNo)
    && (forall id | id in s.book :: s.book[id].id == id)
  }

  ghost predicate Inv(s: Core) {
    && Dense(s)
    && (forall id | id in s.book :: s.book[id].status != New)
    && (forall id | id in s.book :: s.book[id].status == Rejected <==> s.book[id].reason != NoReason)
    && s.account.position == Exposure(s.book, s.seqNo)
  }

  /** The outcome of a submission: why it is refused, or NoReason. */
  function Verdict(s: Core, req: Request): Reason {
    if RefPrice(req, s.lastPrice) <= 0.0 then PriceUnavailable
    else Gate(s.risk, Abs(Size(req, s.lastPrice)), s.account)
  }

  function Decided(o: Order, reason: Reason): Order {
    o.(status := if reason == NoReason then Accepted else Rejected, reason := reason)
  }

  /** With ids allocated in order the duplicate-id branch is dead: one new record, and nothing else but the exposure. */
  lemma SubmitEffect(s: Core, req: Request, now: nat)
    requires Dense(s)
    ensures s.seqNo + 1 !in s.book
    ensures var reason := Verdict(s, req);
            var o := Decided(NewOrder(s, req, now), reason);
            OnSubmit(s, req, now) ==
            s.(seqNo := s.seqNo + 1,
               book := s.book[s.seqNo + 1 := o],
               account := s.account.(position := s.account.position + Contribution(o)))
  {}

  lemma {:induction false} ExposureSame(a: Book, b: Book, n: nat)
    requires forall id | 1 <= id <= n :: id in a && id in b && Contribution(a[id]) == Contribution(b[id])
    ensures Exposure(a, n) == Exposure(b, n)
  {
    if n > 0 { ExposureSame(a, b, n - 1); }
  }

  lemma SubmitInv(s: Core, req: Request, now: nat)
    requires Inv(s)
    ensures Inv(OnSubmit(s, req, now))
  {
    SubmitEffect(s, req, now);
    ExposureSame(s.book, OnSubmit(s, req, now).book, s.seqNo);
  }

  lemma StepInv(s: Core, e: Event)
    requires Inv(s)
    ensures Inv(Step(s, e))
  {
    if e.Submit? { SubmitInv(s, e.req, e.now); } else { ExposureSame(s.book, Step(s, e).book, s.seqNo); }
  }

  lemma StepKeepsFunds(s: Core, e: Event)
    ensures Step(s, e).account.(position := 0.0) == s.account.(position := 0.0)
  {}

  /**
   After every run: ids are exactly 1..n, no order is left New, an order is
   Rejected iff it has a reason, and the exposure is the sum of quantity times
   reference price over the accepted and the cancelled buys.
   */
  lemma {:induction false} ReachableInv(c: RiskConfig, f: Funds, events: seq<Event>)
    ensures var s := After(c, f, events);
            && Inv(s)
            && (forall id :: id in s.book <==> 1 <= id <= s.seqNo)
            && (forall id | id in s.book :: s.book[id].status == Rejected <==> s.book[id].reason != NoReason)
            && s.account == Account(f.equity, Exposure(s.book, s.seqNo), f.dayLoss)
  {
    if events == [] {
    } else {
      var n := |events| - 1;
      ReachableInv(c, f, events[..n]);
      StepInv(After(c, f, events[..n]), events[n]);
      StepKeepsFunds(After(c, f, events[..n]), events[n]);
    }
  }

  // ----- Exposure cap -----

  /** The largest position ratio in force at any time of the run. */
  function PeakRatio(c: RiskConfig, events: seq<Event>): real {
    if events == [] then c.maxPositionRatio
    else
      var n := |events| - 1;
      var before := PeakRatio(c, events[..n]);
      if events[n].SetRisk? && events[n].cfg.maxPositionRatio > before then events[n].cfg.maxPositionRatio else before
  }

  lemma {:induction false} PeakCoversCurrent(c: RiskConfig, f: Funds, events: seq<Event>)
    ensures After(c, f, events).risk.maxPositionRatio <= PeakRatio(c, events)
  {
    if events == [] {
    } else {
      var n := |events| - 1;
      PeakCoversCurrent(c, f, events[..n]);
    }
  }

  function Max(x: real, y: real): real {
    if x < y then y else x
  }

  lemma StepWithinCap(s: Core, e: Event)
    requires Dense(s)
    ensures Step(s, e).account.position <= Max(s.account.position, Cap(s.risk, s.account))
  {
    if e.Submit? { SubmitEffect(s, e.req, e.now); }
  }

  function Ceiling(equity: real, ratio: real): real {
    equity * ratio
  }

  lemma CapRises(risk: RiskConfig, account: Account, equity: real, before: real, after: real)
    requires account.equity == equity >= 0.0 && risk.maxPositionRatio <= before <= after
    ensures Cap(risk, account) <= Ceiling(equity, before) <= Ceiling(equity, after)
  {
    MulLeft(equity, risk.maxPositionRatio, before);
    MulLeft(equity, before, after);
  }

  /** The exposure never exceeds equity times the largest ratio that was ever in force. */
  lemma {:induction false} ExposureCapped(c: RiskConfig, f: Funds, events: seq<Event>)
    requires f.equity >= 0.0
    ensures After(c, f, events).account.position <= Max(0.0, Ceiling(f.equity, PeakRatio(c, events)))
  {
    if events == [] {
    } else {
      var n := |events| - 1;
      var s := After(c, f, events[..n]);
      ExposureCapped(c, f, events[..n]);
      PeakCoversCurrent(c, f, events[..n]);
      ReachableInv(c, f, events[..n]);
      StepWithinCap(s, events[n]);
      CapRises(s.risk, s.account, f.equity, PeakRatio(c, events[..n]), PeakRatio(c, events));
    }
  }

  ghost predicate RiskFixed(events: seq<Event>) {
    forall e | e in events :: !e.SetRisk?
  }

  /**
   While the exposure is above the current cap (a lowered ratio, say), no
   order of either side is accepted and the exposure does not move, however
   many orders are cancelled.
   */
  lemma {:induction false} FrozenAboveCap(s: Core, events: seq<Event>)
    requires Inv(s) && s.account.position > Cap(s.risk, s.account)
    requires RiskFixed(events)
    ensures var s1 := RunFrom(s, events);
            && Inv(s1) && s1.account == s.account && s1.risk == s.risk
            && forall id | id in s1.book && id !in s.book :: s1.book[id].status == Rejected
  {
    if events == [] {
    } else {
      var n := |events| - 1;
      assert events[n] in events;
      assert RiskFixed(events[..n]) by { assert forall e | e in events[..n] :: e in events; }
      FrozenAboveCap(s, events[..n]);
      var s1 := RunFrom(s, events[..n]);
      if events[n].Submit? { SubmitEffect(s1, events[n].req, events[n].now); }
      StepInv(s1, events[n]);
    }
  }

  // ----- Life of one order -----

  /** A decided order never changes again, except that an accepted one may be cancelled. */
  lemma {:induction false} OrderImmutable(s: Core, events: seq<Event>, id: nat)
    requires Inv(s) && id in s.book
    ensures var s1 := RunFrom(s, events);
            && Inv(s1) && id in s1.book
            && (s1.book[id] == s.book[id] ||
                (s.book[id].status == Accepted && s1.book[id] == s.book[id].(status := Cancelled)))
  {
    if events == [] {
    } else {
      var n := |events| - 1;
      OrderImmutable(s, events[..n], id);
      var s1 := RunFrom(s, events[..n]);
      if events[n].Submit? { SubmitEffect(s1, events[n].req, events[n].now); }
      StepInv(s1, events[n]);
    }
  }

  /** How many cancel requests for this id were answered with success. */
  function Cancellations(c: RiskConfig, f: Funds, events: seq<Event>, id: nat): nat {
    if events == [] then 0
    else
      var n := |events| - 1;
      Cancellations(c, f, events[..n], id)
      + if events[n] == Cancel(id) && Has(After(c, f, events[..n]).book, id, Accepted) then 1 else 0
  }

  /** Each id is cancelled successfully at most once, and exactly once iff it ends up Cancelled. */
  lemma {:induction false} CancelledOnce(c: RiskConfig, f: Funds, events: seq<Event>, id: nat)
    ensures Cancellations(c, f, events, id) == if Has(After(c, f, events).book, id, Cancelled) then 1 else 0
  {
    if events == [] {
    } else {
      var n := |events| - 1;
      CancelledOnce(c, f, events[..n], id);
      ReachableInv(c, f, events[..n]);
      if events[n].Submit? { SubmitEffect(After(c, f, events[..n]), events[n].req, events[n].now); }
    }
  }

  // ----- Sells and cancels do not influence buys -----

  predicate Relevant(e: Event) {
    match e
    case Submit(req, _) => req.side == Buy
    case Cancel(_) => false
    case _ => true
  }

  function BuySide(events: seq<Event>): seq<Event> {
    if events == [] then []
    else
      var n := |events| - 1;
      BuySide(events[..n]) + if Relevant(events[n]) then [events[n]] else []
  }

  /** The verdicts on the buy submissions of a run, in order. */
  function BuyVerdicts(s: Core, events: seq<Event>): seq<Reason> {
    if events == [] then []
    else
      var n := |events| - 1;
      BuyVerdicts(s, events[..n]) +
      if events[n].Submit? && events[n].req.side == Buy then [Verdict(RunFrom(s, events[..n]), events[n].req)] else []
  }

  predicate Agree(s: Core, t: Core) {
    s.account == t.account && s.risk == t.risk && s.lastPrice == t.lastPrice
  }

  lemma StepAgree(s: Core, t: Core, e: Event)
    requires Dense(s) && Dense(t) && Agree(s, t)
    ensures Agree(Step(s, e), if Relevant(e) then Step(t, e) else t)
    ensures e.Submit? ==> Verdict(s, e.req) == Verdict(t, e.req)
  {
    if e.Submit? {
      SubmitEffect(s, e.req, e.now);
      SubmitEffect(t, e.req, e.now);
    }
  }

  lemma BuySideRun(c: RiskConfig, f: Funds, events: seq<Event>, e: Event)
    requires Relevant(e)
    ensures After(c, f, events + [e]) == Step(After(c, f, events), e)
    ensures BuyVerdicts(Initial(c, f), events + [e]) ==
            BuyVerdicts(Initial(c, f), events) + if e.Submit? then [Verdict(After(c, f, events), e.req)] else []
  {
    assert (events + [e])[..|events|] == events;
  }

  /** Striking every sell and every cancel from a run leaves the verdicts on its buys and its exposure unchanged. */
  lemma {:induction false} SellsAndCancelsIrrelevant(c: RiskConfig, f: Funds, events: seq<Event>)
    ensures Agree(After(c, f, events), After(c, f, BuySide(events)))
    ensures BuyVerdicts(Initial(c, f), events) == BuyVerdicts(Initial(c, f), BuySide(events))
  {
    if events == [] {
    } else {
      var n := |events| - 1;
      var kept := BuySide(events[..n]);
      SellsAndCancelsIrrelevant(c, f, events[..n]);
      ReachableInv(c, f, events[..n]);
      ReachableInv(c, f, kept);
      StepAgree(After(c, f, events[..n]), After(c, f, kept), events[n]);
      if Relevant(events[n]) { BuySideRun(c, f, kept, events[n]); } else { assert BuySide(events) == kept; }
    }
  }

  // ----- Exact admission count -----

  /** How many orders of this notional fit between the exposure and the cap. */
  function Slots(s: Core, v: real): nat
    requires v > 0.0
  {
    var room := Cap(s.risk, s.account) - s.account.position;
    if room < 0.0 then 0 else Quotient(room, v)
  }

  function Quotient(room: real, v: real): (k: nat)
    requires room >= 0.0 && v > 0.0
    ensures room >= v ==> k >= 1
    ensures room < v ==> k == 0
  {
    QuotientBounds(room, v);
    (room / v).Floor
  }

  lemma QuotientBounds(room: real, v: real)
    requires room >= 0.0 && v > 0.0
    ensures room / v >= 0.0
    ensures room >= v <==> room / v >= 1.0
  {
    var q := room / v;
    assert q * v == room;
    NonNegativeFactor(q, v);
    if q < 1.0 { MulLeftStrict(v, q, 1.0); } else { MulLeft(v, 1.0, q); }
  }

  lemma NonNegativeFactor(q: real, v: real)
    requires v > 0.0 && q * v >= 0.0
    ensures q >= 0.0
  {}

  lemma DivisionUnique(x: real, v: real, q: real)
    requires v > 0.0 && q * v == x
    ensures x / v == q
  {}

  lemma QuotientLess(room: real, v: real)
    requires v > 0.0 && room >= v
    ensures Quotient(room, v) == Quotient(room - v, v) + 1
  {
    var q := (room - v) / v;
    assert q * v == room - v;
    assert (q + 1.0) * v == room;
    DivisionUnique(room, v, q + 1.0);
  }

  ghost predicate Identical(events: seq<Event>, req: Request) {
    forall e | e in events :: e.Submit? && e.req == req
  }

  function Times(v: real, n: nat): real {
    if n == 0 then 0.0 else Times(v, n - 1) + v
  }

  /** The request is a buy of notional v that only the position limit can refuse. */
  predicate OnlyCapMatters(s: Core, req: Request, v: real) {
    && req.side == Buy
    && RefPrice(req, s.lastPrice) > 0.0
    && v == Size(req, s.lastPrice)
    && 0.0 < v <= s.risk.maxSingleOrderNotional
    && !LossStopped(s.risk, s.account)
  }

  predicate Advanced(s: Core, s1: Core, v: real, n: nat)
    requires v > 0.0
  {
    var slots := Slots(s, v);
    && s1.risk == s.risk && s1.lastPrice == s.lastPrice
    && s1.account == s.account.(position := s.account.position + Times(v, if n < slots then n else slots))
    && Slots(s1, v) == if n < slots then slots - n else 0
  }

  lemma AdmitOne(s: Core, req: Request, now: nat, v: real)
    requires Dense(s) && OnlyCapMatters(s, req, v)
    ensures var s1 := OnSubmit(s, req, now);
            && Verdict(s, req) == (if Slots(s, v) > 0 then NoReason else MaxPositionRatio)
            && s1.account == s.account.(position := s.account.position + (if Slots(s, v) > 0 then v else 0.0))
            && s1.risk == s.risk && s1.lastPrice == s.lastPrice
  {
    SubmitEffect(s, req, now);
    assert Abs(v) == v;
  }

  lemma StillOnlyCap(s: Core, s1: Core, req: Request, v: real, n: nat)
    requires OnlyCapMatters(s, req, v) && Advanced(s, s1, v, n)
    ensures OnlyCapMatters(s1, req, v)
  {}

  lemma AdvanceOne(s: Core, s1: Core, s2: Core, v: real, n: nat)
    requires v > 0.0 && Advanced(s, s1, v, n)
    requires s2.risk == s1.risk && s2.lastPrice == s1.lastPrice
    requires s2.account == s1.account.(position := s1.account.position + (if Slots(s1, v) > 0 then v else 0.0))
    ensures Advanced(s, s2, v, n + 1)
  {
    var slots := Slots(s, v);
    var room := Cap(s1.risk, s1.account) - s1.account.position;
    if n < slots {
      assert room >= v;
      QuotientLess(room, v);
      assert s2.account.position == s.account.position + Times(v, n + 1);
      assert Cap(s2.risk, s2.account) - s2.account.position == room - v;
    } else {
      assert s2.account == s1.account;
    }
  }

  /**
   A batch of identical buys that only the position limit can refuse is
   admitted from the front until the next one would pass the cap: with room
   for k of them, exactly the first min(n, k) are accepted and each adds v.
   */
  lemma {:induction false} AdmissionsExact(s: Core, events: seq<Event>, req: Request, v: real)
    requires Inv(s) && Identical(events, req) && OnlyCapMatters(s, req, v)
    ensures Advanced(s, RunFrom(s, events), v, |events|) && Inv(RunFrom(s, events))
    ensures |BuyVerdicts(s, events)| == |events|
    ensures forall i | 0 <= i < |events| ::
              BuyVerdicts(s, events)[i] == if i < Slots(s, v) then NoReason else MaxPositionRatio
  {
    if events == [] {
    } else {
      var n := |events| - 1;
      assert events[n] in events;
      assert Identical(events[..n], req) by { assert forall e | e in events[..n] :: e in events; }
      AdmissionsExact(s, events[..n], req, v);
      var s1 := RunFrom(s, events[..n]);
      StepInv(s1, events[n]);
      StillOnlyCap(s, s1, req, v, n);
      AdmitOne(s1, req, events[n].now, v);
      AdvanceOne(s, s1, Step(s1, events[n]), v, n);
    }
  }
}
