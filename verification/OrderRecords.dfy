/** What the record of every order says, in terms of the events of the run alone. */
module OrderRecords {
  import opened Prelude
  import opened Orders
  import opened OrderManagement
  import opened Trading
  import opened TradingRuns

  /** The price of the latest tick; zero before the first. */
  function LastTick(events: seq<Event>): real {
    if events == [] then 0.0
    else
      var n := |events| - 1;
      if events[n].Tick? then events[n].price else LastTick(events[..n])
  }

  /** The limits set last. */
  function LastLimits(c: RiskConfig, events: seq<Event>): RiskConfig {
    if events == [] then c
    else
      var n := |events| - 1;
      if events[n].SetRisk? then events[n].cfg else LastLimits(c, events[..n])
  }

  function Submissions(events: seq<Event>): nat {
    if events == [] then 0
    else
      var n := |events| - 1;
      Submissions(events[..n]) + if events[n].Submit? then 1 else 0
  }

  lemma StepFields(s: Core, e: Event)
    requires Dense(s)
    ensures var s1 := Step(s, e);
            && s1.lastPrice == (if e.Tick? then e.price else s.lastPrice)
            && s1.risk == (if e.SetRisk? then e.cfg else s.risk)
            && s1.seqNo == s.seqNo + (if e.Submit? then 1 else 0)
  {
    if e.Submit? { SubmitEffect(s, e.req, e.now); }
  }

  /** The core's last price, limits and order number are what the events say. */
  lemma {:induction false} FieldsFromEvents(c: RiskConfig, f: Funds, events: seq<Event>)
    ensures var s := After(c, f, events);
            s.lastPrice == LastTick(events) && s.risk == LastLimits(c, events) && s.seqNo == Submissions(events)
  {
    if events == [] {
    } else {
      var n := |events| - 1;
      FieldsFromEvents(c, f, events[..n]);
      ReachableInv(c, f, events[..n]);
      StepFields(After(c, f, events[..n]), events[n]);
    }
  }

  /** The record carries the request as it was made, under this id, and its reference price. */
  predicate Carries(o: Order, id: nat, req: Request, now: nat, lastTick: real) {
    && o.id == id && o.symbol == req.symbol && o.side == req.side && o.orderType == req.orderType
    && o.qty == req.qty && o.createTs == now
    && (req.orderType == Market ==> o.refPrice == lastTick)
    && (req.orderType == Limit && req.limitPrice > 0.0 ==> o.refPrice == req.limitPrice)
    && (req.orderType == Limit && req.limitPrice <= 0.0 ==> o.refPrice == lastTick)
  }

  /** The checks in their order, each with the reason it gives. */
  predicate Reasoned(o: Order, risk: RiskConfig, account: Account) {
    var size := Abs(o.qty * o.refPrice);
    var lost := if account.equity > 0.0 then account.dayLoss / account.equity else 1.0;
    var unpriced, large := o.refPrice <= 0.0, size > risk.maxSingleOrderNotional;
    var full := account.position + size > account.equity * risk.maxPositionRatio;
    var stopped := lost >= risk.dailyLossStopRatio;
    && (o.reason == PriceUnavailable <==> unpriced)
    && (o.reason == MaxSingleOrderNotional <==> !unpriced && large)
    && (o.reason == MaxPositionRatio <==> !unpriced && !large && full)
    && (o.reason == DailyLossStop <==> !unpriced && !large && !full && stopped)
    && (o.reason == NoReason <==> !unpriced && !large && !full && !stopped)
  }

  /** A cancel request for this id comes after the n-th event. */
  ghost predicate CancelledAfter(events: seq<Event>, n: nat, id: nat) {
    exists m :: n < m < |events| && events[m] == Cancel(id)
  }

  predicate InStatus(o: Order, cancelled: bool) {
    o.status == if o.reason != NoReason then Rejected else if cancelled then Cancelled else Accepted
  }

  lemma CheckReasons(o: Order, risk: RiskConfig, account: Account)
    requires o.reason == if o.refPrice <= 0.0 then PriceUnavailable else CheckPreTrade(risk, o, account)
    ensures Reasoned(o, risk, account)
  {}

  lemma SubmittedRecord(s: Core, req: Request, now: nat)
    requires Dense(s)
    ensures Recorded(OnSubmit(s, req, now).book, s.seqNo + 1, req, now, s.lastPrice, s.risk, s.account, false)
  {
    var o := NewOrder(s, req, now);
    var decided := Decided(o, Verdict(s, req));
    SubmitEffect(s, req, now);
    assert Size(req, s.lastPrice) == Notional(o) == Notional(decided);
    CheckIsGate(s.risk, decided, s.account);
    CheckReasons(decided, s.risk, s.account);
  }

  /** The book holds, under this id, the record of this request, decided under these limits and this account. */
  predicate Recorded(book: Book, id: nat, req: Request, now: nat, lastTick: real, risk: RiskConfig, account: Account,
                     cancelled: bool) {
    && id in book
    && Carries(book[id], id, req, now, lastTick)
    && Reasoned(book[id], risk, account)
    && InStatus(book[id], cancelled)
  }

  lemma ReasonsStay(o: Order, o1: Order, risk: RiskConfig, account: Account)
    requires Reasoned(o, risk, account) && o1 == o.(status := o1.status)
    ensures Reasoned(o1, risk, account)
  {}

  /** Everything but the status of a record stays, and the status changes with the first cancel request only. */
  lemma LaterEvent(s: Core, e: Event, id: nat, cancelled: bool)
    requires Dense(s) && id in s.book && InStatus(s.book[id], cancelled)
    ensures var s1 := Step(s, e);
            && id in s1.book && InStatus(s1.book[id], cancelled || e == Cancel(id))
            && s1.book[id] == s.book[id].(status := s1.book[id].status)
  {
    if e.Submit? { SubmitEffect(s, e.req, e.now); }
  }

  lemma StaysRecorded(s: Core, e: Event, id: nat, req: Request, now: nat, lastTick: real, risk: RiskConfig,
                      account: Account, cancelled: bool)
    requires Dense(s) && Recorded(s.book, id, req, now, lastTick, risk, account, cancelled)
    ensures Recorded(Step(s, e).book, id, req, now, lastTick, risk, account, cancelled || e == Cancel(id))
  {
    LaterEvent(s, e, id, cancelled);
    ReasonsStay(s.book[id], Step(s, e).book[id], risk, account);
  }

  /** Whatever else happens in the run, the n-th event, a submission, is on record in the end. */
  ghost predicate OnRecord(c: RiskConfig, f: Funds, events: seq<Event>, n: nat)
    requires n < |events| && events[n].Submit?
  {
    var before, id := events[..n], Submissions(events[..n]) + 1;
    Recorded(After(c, f, events).book, id, events[n].req, events[n].now, LastTick(before), LastLimits(c, before),
             After(c, f, before).account, CancelledAfter(events, n, id))
  }

  lemma RecordedAtOnce(c: RiskConfig, f: Funds, events: seq<Event>)
    requires events != [] && events[|events| - 1].Submit?
    ensures OnRecord(c, f, events, |events| - 1)
  {
    var n := |events| - 1;
    ReachableInv(c, f, events[..n]);
    FieldsFromEvents(c, f, events[..n]);
    SubmittedRecord(After(c, f, events[..n]), events[n].req, events[n].now);
  }

  lemma {:induction false} RecordAt(c: RiskConfig, f: Funds, events: seq<Event>, n: nat)
    requires n < |events| && events[n].Submit?
    ensures OnRecord(c, f, events, n)
  {
    var m := |events| - 1;
    if n == m {
      RecordedAtOnce(c, f, events);
    } else {
      RecordAt(c, f, events[..m], n);
      RecordExtends(c, f, events, n);
    }
  }

  lemma RecordExtends(c: RiskConfig, f: Funds, events: seq<Event>, n: nat)
    requires n < |events| - 1 && events[n].Submit? && OnRecord(c, f, events[..|events| - 1], n)
    ensures OnRecord(c, f, events, n)
  {
    var m, before, id := |events| - 1, events[..n], Submissions(events[..n]) + 1;
    assert events[..m][..n] == before;
    ReachableInv(c, f, events[..m]);
    StaysRecorded(After(c, f, events[..m]), events[m], id, events[n].req, events[n].now, LastTick(before),
                  LastLimits(c, before), After(c, f, before).account, CancelledAfter(events[..m], n, id));
    CancelSoFar(events, n, id);
  }

  lemma CancelSoFar(events: seq<Event>, n: nat, id: nat)
    requires n < |events| - 1
    ensures var m := |events| - 1;
            CancelledAfter(events, n, id) <==> CancelledAfter(events[..m], n, id) || events[m] == Cancel(id)
  {
    var m := |events| - 1;
    if CancelledAfter(events[..m], n, id) {
      var k :| n < k < m && events[..m][k] == Cancel(id);
      assert events[k] == Cancel(id);
    }
    if CancelledAfter(events, n, id) && events[m] != Cancel(id) {
      var k :| n < k < |events| && events[k] == Cancel(id);
      assert events[..m][k] == Cancel(id);
    }
  }

  /**
   The book at the end of every run is what its events make it: it holds one
   record for each submission, numbered in order, with the request as it was
   made, the price of the latest tick before it or its own limit as reference
   price, the first check it fails under the limits set last as reason, and the
   status Cancelled iff it was admitted and a cancel request for it followed.
   */
  lemma BookFromEvents(c: RiskConfig, f: Funds, events: seq<Event>)
    ensures forall n | 0 <= n < |events| && events[n].Submit? :: OnRecord(c, f, events, n)
    ensures forall id :: id in After(c, f, events).book <==> 1 <= id <= Submissions(events)
  {
    forall n | 0 <= n < |events| && events[n].Submit? ensures OnRecord(c, f, events, n) {
      RecordAt(c, f, events, n);
    }
    FieldsFromEvents(c, f, events);
    ReachableInv(c, f, events);
  }
}
