/** What a run's own record of orders and sales says about each level, and what the next event then emits. */
module GridJournal {
  import opened Prelude
  import opened Grid
  import opened GridGeometry
  import opened GridPairing

  /** An entry of the log, or a reported sale, with the grid it refers to. */
  datatype Mark = Ordered(entry: Entry) | Sold(epoch: nat, gridId: nat)

  /** The log of a run with the reported sales in between, oldest first. */
  function Journal(c: Config, events: seq<Event>): seq<Mark> {
    if events == [] then []
    else
      var n := |events| - 1;
      Journal(c, events[..n]) + Marks(After(c, events[..n]), events[n])
  }

  function Marks(s: State, e: Event): seq<Mark>
    requires s.cfg.levels >= 2
  {
    if e.SellFill? then [Sold(s.rebuilds, e.gridId)] else OrderMarks(Stamp(Step(s, e)))
  }

  function OrderMarks(entries: seq<Entry>): seq<Mark> {
    seq(|entries|, i requires 0 <= i < |entries| => Ordered(entries[i]))
  }

  predicate Concerns(m: Mark, epoch: nat, gridId: nat) {
    match m
    case Ordered(e) => InSlot(e, epoch, gridId)
    case Sold(at, id) => at == epoch && id == gridId
  }

  /** The latest mark for a level of a grid. */
  function LastMark(journal: seq<Mark>, epoch: nat, gridId: nat): Option<Mark> {
    if journal == [] then None
    else
      var n := |journal| - 1;
      if Concerns(journal[n], epoch, gridId) then Some(journal[n]) else LastMark(journal[..n], epoch, gridId)
  }

  /** A level waits for its buy after a BUY, for its sell after a SELL, and is free after a sale or in a new grid. */
  function Expected(last: Option<Mark>): LevelState {
    match last
    case None => Idle
    case Some(Sold(_, _)) => Idle
    case Some(Ordered(e)) => if e.intent.side == Buy then BuyPlaced else SellPlaced
  }

  /** Every order mark of the current grid is for one of its levels; no mark is of a later grid. */
  predicate Known(s: State, m: Mark) {
    match m
    case Ordered(e) => e.epoch <= s.rebuilds && (e.epoch == s.rebuilds ==> 1 <= e.intent.gridId <= |s.levels|)
    case Sold(epoch, _) => epoch <= s.rebuilds
  }

  ghost predicate Told(s: State, journal: seq<Mark>) {
    && (forall i | 0 <= i < |journal| :: Known(s, journal[i]))
    && forall k | 0 <= k < |s.levels| :: s.levels[k].state == Expected(LastMark(journal, s.rebuilds, k + 1))
  }

  lemma LastMarkAppend(journal: seq<Mark>, m: Mark, epoch: nat, gridId: nat)
    ensures LastMark(journal + [m], epoch, gridId) ==
            if Concerns(m, epoch, gridId) then Some(m) else LastMark(journal, epoch, gridId)
  {
    assert (journal + [m])[..|journal|] == journal;
  }

  /** Nothing has been noted about a grid that does not exist yet. */
  lemma {:induction false} NoMarkYet(s: State, journal: seq<Mark>, epoch: nat, gridId: nat)
    requires epoch > s.rebuilds && forall i | 0 <= i < |journal| :: Known(s, journal[i])
    ensures LastMark(journal, epoch, gridId) == None
  {
    if journal == [] {
    } else {
      assert Known(s, journal[|journal| - 1]);
      NoMarkYet(s, journal[..|journal| - 1], epoch, gridId);
    }
  }

  lemma RebuildTold(s: State, journal: seq<Mark>, c: Config, anchor: real)
    requires Told(s, journal) && c.levels >= 2
    ensures Told(Rebuild(s.(cfg := c), anchor), journal)
  {
    var s1 := Rebuild(s.(cfg := c), anchor);
    forall i | 0 <= i < |journal| ensures Known(s1, journal[i]) {
      assert Known(s, journal[i]);
    }
    forall k | 0 <= k < |s1.levels| ensures s1.levels[k].state == Expected(LastMark(journal, s1.rebuilds, k + 1)) {
      NoMarkYet(s, journal, s1.rebuilds, k + 1);
    }
  }

  /** Noting about one level what its new state is keeps the journal telling. */
  lemma MarkTold(s: State, journal: seq<Mark>, k: nat, st: LevelState, m: Mark)
    requires Told(s, journal) && k < |s.levels|
    requires Concerns(m, s.rebuilds, k + 1) && Expected(Some(m)) == st
    ensures Told(WithState(s, k, st), journal + [m])
  {
    var s1 := WithState(s, k, st);
    forall j | 0 <= j < |s1.levels| ensures s1.levels[j].state == Expected(LastMark(journal + [m], s1.rebuilds, j + 1)) {
      LastMarkAppend(journal, m, s1.rebuilds, j + 1);
    }
    forall i | 0 <= i < |journal + [m]| ensures Known(s1, (journal + [m])[i]) {
      if i < |journal| { assert Known(s, journal[i]); }
    }
  }

  lemma RecentreTold(s: State, journal: seq<Mark>, price: real)
    requires Inv(s) && Told(s, journal)
    ensures Told(Recentred(s, price), journal)
  {
    if NeedsRebuild(s, price) { RebuildTold(s, journal, s.cfg, price); }
  }

  lemma TickTold(s: State, journal: seq<Mark>, price: real)
    requires Inv(s) && Told(s, journal) && price > 0.0
    ensures Told(OnTick(s, price).state, journal + OrderMarks(Stamp(OnTick(s, price))))
  {
    var s1 := Recentred(s, price);
    RecentreTold(s, journal, price);
    RecentredSorted(s, price);
    var k := FirstEligible(s1.levels, price, 0);
    var o := OnTick(s, price);
    if k == |s1.levels| {
      assert journal + OrderMarks(Stamp(o)) == journal;
    } else {
      var m := Ordered(Entry(BuyIntent(s1, k), s1.rebuilds));
      assert OrderMarks(Stamp(o)) == [m];
      MarkTold(s1, journal, k, BuyPlaced, m);
    }
  }

  lemma RecentredSorted(s: State, price: real)
    requires Inv(s) && price > 0.0
    ensures var s1 := Recentred(s, price);
            && Inv(s1) && s1.cfg == s.cfg && Sorted(s1.levels)
            && forall i | 0 <= i < |s1.levels| :: s1.levels[i].id == i + 1
  {
    ReachableSorted(Recentred(s, price));
  }

  lemma BuyFillTold(s: State, journal: seq<Mark>, gridId: nat)
    requires Inv(s) && Told(s, journal)
    ensures Told(OnBuyFill(s, gridId).state, journal + OrderMarks(Stamp(OnBuyFill(s, gridId))))
  {
    var o := OnBuyFill(s, gridId);
    if o.out == [] {
      assert journal + OrderMarks(Stamp(o)) == journal;
    } else {
      ReachableSorted(s);
      var m := Ordered(Entry(SellIntent(s, gridId - 1), s.rebuilds));
      assert OrderMarks(Stamp(o)) == [m];
      MarkTold(s, journal, gridId - 1, SellPlaced, m);
    }
  }

  lemma SellFillTold(s: State, journal: seq<Mark>, gridId: nat)
    requires Inv(s) && Told(s, journal)
    ensures Told(OnSellFill(s, gridId).state, journal + [Sold(s.rebuilds, gridId)])
  {
    var m := Sold(s.rebuilds, gridId);
    if 1 <= gridId <= |s.levels| {
      MarkTold(s, journal, gridId - 1, Idle, m);
    } else {
      forall k | 0 <= k < |s.levels|
        ensures s.levels[k].state == Expected(LastMark(journal + [m], s.rebuilds, k + 1))
      {
        LastMarkAppend(journal, m, s.rebuilds, k + 1);
      }
    }
  }

  lemma StepTold(s: State, journal: seq<Mark>, e: Event)
    requires Inv(s) && Told(s, journal)
    ensures Told(Step(s, e).state, journal + Marks(s, e))
  {
    if !e.SellFill? && Step(s, e).out == [] { assert journal + Marks(s, e) == journal; }
    match e {
      case Tick(price) => if price > 0.0 { TickTold(s, journal, price); }
      case BuyFill(id) => BuyFillTold(s, journal, id);
      case SellFill(id) => SellFillTold(s, journal, id);
      case Update(c) => if s.anchor > 0.0 { RebuildTold(s, journal, Sanitize(c), s.anchor); }
    }
  }

  /**
   After every run each level's state is what the run's own record says: a
   level waits for its buy iff the last thing noted about it in this grid is a
   BUY, for its sell iff it is a SELL, and is free iff it is a reported sale or
   nothing at all.
   */
  lemma {:induction false} JournalTells(c: Config, events: seq<Event>)
    ensures Told(After(c, events), Journal(c, events))
  {
    if events == [] {
    } else {
      var n := |events| - 1;
      JournalTells(c, events[..n]);
      ReachableInv(c, events[..n]);
      StepTold(After(c, events[..n]), Journal(c, events[..n]), events[n]);
    }
  }

  // ----- What the next event emits -----

  lemma OneMore(c: Config, events: seq<Event>, e: Event)
    ensures var o := Step(After(c, events), e);
            After(c, events + [e]) == o.state && Log(c, events + [e]) == Log(c, events) + Stamp(o)
  {
    assert (events + [e])[..|events|] == events;
  }

  predicate Buyable(lv: Level, price: real) {
    lv.state == Idle && lv.buyPrice >= price
  }

  /** The last entry of the log is the BUY of level k, now waiting for it, and no level below it could be bought. */
  ghost predicate BoughtLowest(s: State, before: seq<Entry>, log: seq<Entry>, price: real, k: nat) {
    && k < |s.levels| && s.levels[k].state == BuyPlaced && s.levels[k].buyPrice >= price
    && log == before + [Entry(Intent(Buy, Limit, s.cfg.orderQty, s.levels[k].buyPrice, k + 1), s.rebuilds)]
    && forall j | 0 <= j < k :: !Buyable(s.levels[j], price)
  }

  lemma TickOutcome(s: State, price: real, log: seq<Entry>)
    requires Inv(s) && price > 0.0
    ensures var o := OnTick(s, price);
            || (log + Stamp(o) == log && forall j | 0 <= j < |o.state.levels| :: !Buyable(o.state.levels[j], price))
            || exists k :: BoughtLowest(o.state, log, log + Stamp(o), price, k)
  {
    var s1, o := Recentred(s, price), OnTick(s, price);
    RecentredSorted(s, price);
    var k := FirstEligible(s1.levels, price, 0);
    if k == |s1.levels| {
      assert log + Stamp(o) == log;
      forall j | 0 <= j < |s1.levels| ensures !Buyable(s1.levels[j], price) { assert !Eligible(s1.levels[j], price); }
    } else {
      assert Stamp(o) == [Entry(BuyIntent(s1, k), s1.rebuilds)];
      forall j | 0 <= j < k ensures !Buyable(o.state.levels[j], price) { assert !Eligible(s1.levels[j], price); }
      assert BoughtLowest(o.state, log, log + Stamp(o), price, k);
    }
  }

  /**
   Every positive tick of every run, whether or not it moves the grid, either
   adds nothing to the log, and then leaves no free level at or above the
   price, or adds the BUY of exactly one level, which then waits for it, with
   no free level at or above the price below it.
   */
  lemma TickBuysLowest(c: Config, events: seq<Event>, price: real)
    ensures var s, before, log := After(c, events + [Tick(price)]), Log(c, events), Log(c, events + [Tick(price)]);
            if price <= 0.0 then log == before && s == After(c, events)
            else
              || (log == before && forall j | 0 <= j < |s.levels| :: !Buyable(s.levels[j], price))
              || exists k :: BoughtLowest(s, before, log, price, k)
  {
    OneMore(c, events, Tick(price));
    ReachableInv(c, events);
    if price <= 0.0 {
      assert Stamp(Step(After(c, events), Tick(price))) == [];
    } else {
      TickOutcome(After(c, events), price, Log(c, events));
    }
  }

  predicate IsBuy(last: Option<Mark>) {
    last.Some? && last.value.Ordered? && last.value.entry.intent.side == Buy
  }

  lemma {:induction false} LastMarkIn(s: State, journal: seq<Mark>, epoch: nat, gridId: nat)
    requires forall i | 0 <= i < |journal| :: Known(s, journal[i])
    ensures var last := LastMark(journal, epoch, gridId);
            last.Some? ==> Known(s, last.value) && Concerns(last.value, epoch, gridId)
  {
    if journal == [] {
    } else {
      LastMarkIn(s, journal[..|journal| - 1], epoch, gridId);
    }
  }

  lemma FillOutcome(s: State, journal: seq<Mark>, gridId: nat)
    requires Inv(s) && Told(s, journal)
    ensures var o := OnBuyFill(s, gridId);
            if IsBuy(LastMark(journal, s.rebuilds, gridId)) then
              && 1 <= gridId <= |s.levels|
              && o.out == [Intent(Sell, Limit, s.cfg.orderQty, s.levels[gridId - 1].sellPrice, gridId)]
              && o.state.rebuilds == s.rebuilds
            else o == Outcome(s, [])
  {
    ReachableSorted(s);
    LastMarkIn(s, journal, s.rebuilds, gridId);
    if 1 <= gridId <= |s.levels| {
      assert s.levels[gridId - 1].state == Expected(LastMark(journal, s.rebuilds, gridId - 1 + 1));
    }
  }

  lemma StampIs(o: Outcome)
    requires |o.out| <= 1
    ensures Stamp(o) == if o.out == [] then [] else [Entry(o.out[0], o.state.rebuilds)]
  {}

  /**
   In every run a reported buy emits a SELL, of the same level at its sell
   price, iff the last thing noted about that level in this grid is a BUY. Any
   other report, late, doubled or for an unknown level, changes nothing.
   */
  lemma FillSellsIff(c: Config, events: seq<Event>, gridId: nat)
    ensures var s, log := After(c, events), Log(c, events + [BuyFill(gridId)]);
            if IsBuy(LastMark(Journal(c, events), s.rebuilds, gridId)) then
              && 1 <= gridId <= |s.levels|
              && log == Log(c, events) +
                        [Entry(Intent(Sell, Limit, s.cfg.orderQty, s.levels[gridId - 1].sellPrice, gridId), s.rebuilds)]
            else log == Log(c, events) && After(c, events + [BuyFill(gridId)]) == s
  {
    var s := After(c, events);
    OneMore(c, events, BuyFill(gridId));
    ReachableInv(c, events);
    JournalTells(c, events);
    FillOutcome(s, Journal(c, events), gridId);
    StampIs(OnBuyFill(s, gridId));
  }

  // ----- No second buy without a sale -----

  /** The n-th event of the run buys this level of this grid. */
  predicate BuysAt(c: Config, events: seq<Event>, n: nat, epoch: nat, gridId: nat)
    requires n < |events|
  {
    var o := Step(After(c, events[..n]), events[n]);
    |o.out| == 1 && o.out[0].side == Buy && InSlot(Stamp(o)[0], epoch, gridId)
  }

  predicate Busy(s: State, epoch: nat, gridId: nat) {
    s.rebuilds == epoch && 1 <= gridId <= |s.levels| && s.levels[gridId - 1].state != Idle
  }

  lemma BuyMakesBusy(s: State, e: Event, epoch: nat, gridId: nat)
    requires Inv(s)
    requires var o := Step(s, e); |o.out| == 1 && o.out[0].side == Buy && InSlot(Stamp(o)[0], epoch, gridId)
    ensures Busy(Step(s, e).state, epoch, gridId) && !Busy(s, epoch, gridId) && s.rebuilds <= epoch
  {
    RecentredSorted(s, e.price);
  }

  lemma StaysBusy(s: State, e: Event, epoch: nat, gridId: nat)
    requires Inv(s) && e != SellFill(gridId) && Busy(s, epoch, gridId)
    ensures var s1 := Step(s, e).state; s1.rebuilds > epoch || Busy(s1, epoch, gridId)
  {}

  lemma StateNext(c: Config, events: seq<Event>, n: nat)
    requires n < |events|
    ensures After(c, events[..n + 1]) == Step(After(c, events[..n]), events[n]).state
  {
    assert events[..n + 1][..n] == events[..n];
  }

  lemma {:induction false} BusyUntilSale(c: Config, events: seq<Event>, m: nat, n: nat, epoch: nat, gridId: nat)
    requires m < n <= |events| && BuysAt(c, events, m, epoch, gridId)
    requires forall k | m < k < n :: events[k] != SellFill(gridId)
    ensures After(c, events[..n]).rebuilds > epoch || Busy(After(c, events[..n]), epoch, gridId)
    decreases n
  {
    ReachableInv(c, events[..n - 1]);
    StateNext(c, events, n - 1);
    if m == n - 1 {
      BuyMakesBusy(After(c, events[..m]), events[m], epoch, gridId);
    } else {
      BusyUntilSale(c, events, m, n - 1, epoch, gridId);
      StaysBusyOrOld(After(c, events[..n - 1]), events[n - 1], epoch, gridId);
    }
  }

  lemma StaysBusyOrOld(s: State, e: Event, epoch: nat, gridId: nat)
    requires Inv(s) && e != SellFill(gridId) && (s.rebuilds > epoch || Busy(s, epoch, gridId))
    ensures var s1 := Step(s, e).state; s1.rebuilds > epoch || Busy(s1, epoch, gridId)
  {
    if s.rebuilds > epoch { RebuildsGrow(s, e); } else { StaysBusy(s, e, epoch, gridId); }
  }

  lemma RebuildsGrow(s: State, e: Event)
    requires Inv(s)
    ensures Step(s, e).state.rebuilds >= s.rebuilds
  {}

  /** Between two BUYs of the same level of the same grid a sale of that level has been reported. */
  lemma BoughtAgainOnlyAfterSale(c: Config, events: seq<Event>, m: nat, n: nat, epoch: nat, gridId: nat)
    requires m < n < |events|
    requires BuysAt(c, events, m, epoch, gridId) && BuysAt(c, events, n, epoch, gridId)
    ensures exists k :: m < k < n && events[k] == SellFill(gridId)
  {
    ReachableInv(c, events[..n]);
    BuyMakesBusy(After(c, events[..n]), events[n], epoch, gridId);
    if forall k | m < k < n :: events[k] != SellFill(gridId) {
      BusyUntilSale(c, events, m, n, epoch, gridId);
      assert false;
    }
  }
}
