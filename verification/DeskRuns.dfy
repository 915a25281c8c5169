/** Properties of whole runs of the service, across its components. */
module DeskRuns {
  import opened Prelude
  import opened Orders
  import opened Desk
  import Trading
  import TradingRuns
  import Grid

  // ----- The order cache -----

  /** The number of cached orders after n submissions. */
  function CacheSize(l: Limits, n: nat): nat
    requires Clamped(l)
  {
    if n <= l.maxOrders then n
    else
      var d := Min(l.trimBatch, l.maxOrders + 1);
      l.maxOrders + 1 - d + (n - l.maxOrders - 1) % d
  }

  /** The entry shows the order as it was decided; only a later cancellation is missing from it. */
  predicate Shows(c: CachedOrder, o: Order) {
    && c.id == o.id && c.reason == o.reason && c.ts == o.createTs
    && (c.status == o.status || (c.status == Accepted && o.status == Cancelled))
  }

  ghost predicate CacheInv(l: Limits, s: State)
    requires Clamped(l)
  {
    var n := s.core.seqNo;
    && TradingRuns.Inv(s.core)
    && |s.orders| == CacheSize(l, n)
    && ShowsLatest(s.orders, s.core.book, n)
  }

  /** The entries show the latest orders up to number n, without gaps. */
  ghost predicate ShowsLatest(orders: seq<CachedOrder>, book: map<nat, Order>, n: nat) {
    |orders| <= n && forall i | 0 <= i < |orders| :: EntryShows(orders, book, n, i)
  }

  predicate EntryShows(orders: seq<CachedOrder>, book: map<nat, Order>, n: nat, i: nat)
    requires i < |orders| <= n
  {
    var id := n - |orders| + 1 + i;
    id in book && Shows(orders[i], book[id])
  }

  lemma LatestGrows(orders: seq<CachedOrder>, book: map<nat, Order>, grown: map<nat, Order>, n: nat, entry: CachedOrder)
    requires ShowsLatest(orders, book, n) && n + 1 in grown && Shows(entry, grown[n + 1])
    requires forall id | id in book :: id in grown && grown[id] == book[id]
    ensures ShowsLatest(orders + [entry], grown, n + 1)
  {
    var more, next := orders + [entry], n + 1;
    forall i | 0 <= i < |more| ensures EntryShows(more, grown, next, i) {
      if i < |orders| { assert EntryShows(orders, book, n, i); }
    }
  }

  lemma LatestDrops(orders: seq<CachedOrder>, book: map<nat, Order>, n: nat, d: nat)
    requires ShowsLatest(orders, book, n) && d <= |orders|
    ensures ShowsLatest(orders[d..], book, n)
  {
    var kept := orders[d..];
    forall i | 0 <= i < |kept| ensures EntryShows(kept, book, n, i) {
      assert EntryShows(orders, book, n, d + i);
    }
  }

  lemma LatestStays(orders: seq<CachedOrder>, book: map<nat, Order>, later: map<nat, Order>, n: nat)
    requires ShowsLatest(orders, book, n)
    requires forall id | id in book ::
               id in later &&
               (later[id] == book[id] || (book[id].status == Accepted && later[id] == book[id].(status := Cancelled)))
    ensures ShowsLatest(orders, later, n)
  {
    forall i | 0 <= i < |orders| ensures EntryShows(orders, later, n, i) {
      assert EntryShows(orders, book, n, i);
    }
  }

  lemma ModStep(r: nat, d: nat)
    requires d >= 1
    ensures (r + 1) % d == if r % d == d - 1 then 0 else r % d + 1
  {
    var q := r / d;
    assert r == q * d + r % d;
    if r % d == d - 1 {
      assert r + 1 == (q + 1) * d;
      ModIs(r + 1, d, q + 1, 0);
    } else {
      ModIs(r + 1, d, q, r % d + 1);
    }
  }

  lemma AtLeastOnce(a: int, d: nat)
    requires a >= 1
    ensures a * d >= d
  {}

  lemma ModIs(x: nat, d: nat, q: int, r: nat)
    requires r < d && x == q * d + r
    ensures x % d == r
  {
    var q', r' := x / d, x % d;
    Distribute(q, q', d);
    if q > q' { AtLeastOnce(q - q', d); } else if q < q' { AtLeastOnce(q' - q, d); Distribute(q', q, d); }
  }

  lemma Distribute(a: int, b: int, d: int)
    ensures (a - b) * d == a * d - b * d
  {}

  lemma CacheSizeStep(l: Limits, n: nat)
    requires Clamped(l)
    ensures var grown := CacheSize(l, n) + 1;
            CacheSize(l, n + 1) == if grown > l.maxOrders then grown - Min(l.trimBatch, grown) else grown
  {
    if n > l.maxOrders { ModStep(n - l.maxOrders - 1, Min(l.trimBatch, l.maxOrders + 1)); }
  }

  /** With at least one submission the length formula leaves nothing exactly once a batch exceeds the cache. */
  lemma CacheNeverEmptyIff(l: Limits)
    requires Clamped(l)
    ensures (forall n: nat | n >= 1 :: CacheSize(l, n) >= 1) <==> l.trimBatch <= l.maxOrders
    ensures l.trimBatch > l.maxOrders ==> CacheSize(l, l.maxOrders + 1) == 0
  {
    if l.trimBatch > l.maxOrders {
      assert Min(l.trimBatch, l.maxOrders + 1) == l.maxOrders + 1;
      assert CacheSize(l, l.maxOrders + 1) == 0;
    }
  }

  lemma OrderKeepsCache(l: Limits, s: State, req: Request, now: nat)
    requires Clamped(l) && CacheInv(l, s) && s.grid.cfg.levels >= 2 && req.qty > 0.0
    ensures CacheInv(l, Effect(l, s, PlaceOrder(req, now)))
  {
    TradingRuns.SubmitEffect(s.core, req, now);
    TradingRuns.StepInv(s.core, Trading.Submit(req, now));
    var t := Effect(l, s, PlaceOrder(req, now));
    NewEntryKeepsCache(l, s, t, Snapshot(t.core.book[t.core.seqNo], t.core.seqNo, now));
  }

  /** Caching one more decided order, under the next id, keeps the cache in agreement. */
  lemma NewEntryKeepsCache(l: Limits, s: State, t: State, entry: CachedOrder)
    requires Clamped(l) && CacheInv(l, s) && TradingRuns.Inv(t.core)
    requires t.core.seqNo == s.core.seqNo + 1 && t.core.seqNo in t.core.book
    requires forall id | id in s.core.book :: id in t.core.book && t.core.book[id] == s.core.book[id]
    requires Shows(entry, t.core.book[t.core.seqNo])
    requires t.orders == PushOrder(l, s.orders, entry)
    ensures CacheInv(l, t)
  {
    var grown := s.orders + [entry];
    CacheSizeStep(l, s.core.seqNo);
    LatestGrows(s.orders, s.core.book, t.core.book, s.core.seqNo, entry);
    LatestDrops(grown, t.core.book, t.core.seqNo, Min(l.trimBatch, |grown|));
  }

  /** Changing nothing in the book but cancelling accepted orders keeps the cache in agreement. */
  lemma CoreKeepsCache(l: Limits, s: State, core: Trading.Core)
    requires Clamped(l) && CacheInv(l, s) && TradingRuns.Inv(core) && core.seqNo == s.core.seqNo
    requires forall id | id in s.core.book ::
               id in core.book &&
               (core.book[id] == s.core.book[id] ||
                (s.core.book[id].status == Accepted && core.book[id] == s.core.book[id].(status := Cancelled)))
    ensures CacheInv(l, s.(core := core))
  {
    LatestStays(s.orders, s.core.book, core.book, core.seqNo);
  }

  lemma CacheOnly(l: Limits, s: State, t: State)
    requires Clamped(l) && CacheInv(l, s) && t.core == s.core && t.orders == s.orders
    ensures CacheInv(l, t)
  {}

  lemma EffectKeepsCache(l: Limits, s: State, e: Event)
    requires Clamped(l) && CacheInv(l, s) && s.grid.cfg.levels >= 2 && Valid(s, e)
    ensures CacheInv(l, Effect(l, s, e))
  {
    if e.PlaceOrder? {
      OrderKeepsCache(l, s, e.req, e.now);
    } else if CoreEvent(s, e) == [] {
      CacheOnly(l, s, Effect(l, s, e));
    } else {
      var core := Trading.Step(s.core, CoreEvent(s, e)[0]);
      TradingRuns.StepInv(s.core, CoreEvent(s, e)[0]);
      CoreKeepsCache(l, s, core);
      CacheOnly(l, s.(core := core), Effect(l, s, e));
    }
  }

  lemma StepKeepsCache(l: Limits, s: State, e: Event)
    requires Clamped(l) && CacheInv(l, s) && s.grid.cfg.levels >= 2
    ensures CacheInv(l, Step(l, s, e))
  {
    if Valid(s, e) {
      EffectKeepsCache(l, s, e);
      CacheOnly(l, Effect(l, s, e), Step(l, s, e));
    }
  }

  lemma BootCache(l: Limits, b: Startup)
    requires Clamped(l)
    ensures CacheInv(l, Boot(b))
  {
    TradingRuns.ReachableInv(Boot(b).risk, b.funds, []);
  }

  lemma {:induction false} CacheKept(l: Limits, s0: State, events: seq<Event>)
    requires Clamped(l) && s0.grid.cfg.levels >= 2 && CacheInv(l, s0)
    ensures CacheInv(l, Run(l, s0, events))
  {
    if events == [] {
    } else {
      var n := |events| - 1;
      CacheKept(l, s0, events[..n]);
      StepKeepsCache(l, Run(l, s0, events[..n]), events[n]);
    }
  }

  /**
   After every run the cache holds the latest submissions without gaps, their
   number following the trimming cycle, and each entry agrees with the order
   book except that it may still show Accepted for a cancelled order.
   */
  lemma CacheAgrees(l: Limits, b: Startup, events: seq<Event>)
    requires Clamped(l)
    ensures CacheInv(l, Run(l, Boot(b), events))
  {
    BootCache(l, b);
    CacheKept(l, Boot(b), events);
  }

  /** n submissions of the same order, and nothing else. */
  function PlaceMany(req: Request, n: nat): (events: seq<Event>)
    ensures |events| == n
  {
    seq(n, i => PlaceOrder(req, 0))
  }

  lemma PlaceOneMore(req: Request, n: nat)
    ensures PlaceMany(req, n + 1)[..n] == PlaceMany(req, n) && PlaceMany(req, n + 1)[n] == PlaceOrder(req, 0)
  {}

  lemma {:induction false} PlacedCount(l: Limits, s0: State, req: Request, n: nat)
    requires s0.grid.cfg.levels >= 2 && req.qty > 0.0
    ensures Run(l, s0, PlaceMany(req, n)).core.seqNo == s0.core.seqNo + n
  {
    if n > 0 {
      PlaceOneMore(req, n - 1);
      PlacedCount(l, s0, req, n - 1);
    }
  }

  /** The latest submission, if there was one, is the last entry of the cache. */
  predicate NewestCached(s: State) {
    s.core.seqNo >= 1 ==> s.orders != [] && s.orders[|s.orders| - 1].id == s.core.seqNo
  }

  /**
   The newest order is in the cache after every run exactly when a trimmed
   batch is no larger than the cache. Otherwise the submission that overflows
   the cache empties it.
   */
  lemma NewestCachedIff(l: Limits, b: Startup)
    requires Clamped(l)
    ensures (forall events :: NewestCached(Run(l, Boot(b), events))) <==> l.trimBatch <= l.maxOrders
  {
    CacheNeverEmptyIff(l);
    if l.trimBatch <= l.maxOrders {
      forall events ensures NewestCached(Run(l, Boot(b), events)) {
        CacheAgrees(l, b, events);
        NewestIfNonEmpty(l, Run(l, Boot(b), events));
      }
    } else {
      BootCache(l, b);
      var events := OverflowRun(l, Boot(b), Request("", Buy, Market, 1.0, 0.0));
    }
  }

  lemma PlacedRun(l: Limits, s0: State, req: Request, n: nat) returns (events: seq<Event>)
    requires s0.grid.cfg.levels >= 2 && req.qty > 0.0
    ensures |events| == n && Run(l, s0, events).core.seqNo == s0.core.seqNo + n
  {
    PlacedCount(l, s0, req, n);
    events := PlaceMany(req, n);
  }

  /** Submitting one order more than the cache holds, with a batch larger than the cache. */
  lemma OverflowRun(l: Limits, s0: State, req: Request) returns (events: seq<Event>)
    requires Clamped(l) && l.trimBatch > l.maxOrders && req.qty > 0.0
    requires s0.grid.cfg.levels >= 2 && CacheInv(l, s0) && s0.core.seqNo == 0
    ensures |events| == l.maxOrders + 1 && !NewestCached(Run(l, s0, events))
  {
    events := PlacedRun(l, s0, req, l.maxOrders + 1);
    CountOverflows(l, s0, events);
  }

  lemma CountOverflows(l: Limits, s0: State, events: seq<Event>)
    requires Clamped(l) && l.trimBatch > l.maxOrders && s0.grid.cfg.levels >= 2 && CacheInv(l, s0)
    requires Run(l, s0, events).core.seqNo == l.maxOrders + 1
    ensures !NewestCached(Run(l, s0, events))
  {
    CacheKept(l, s0, events);
    OverflowEmpties(l, Run(l, s0, events));
  }

  lemma OverflowEmpties(l: Limits, s: State)
    requires Clamped(l) && l.trimBatch > l.maxOrders && CacheInv(l, s) && s.core.seqNo == l.maxOrders + 1
    ensures !NewestCached(s)
  {
    CacheNeverEmptyIff(l);
  }

  lemma NewestIfNonEmpty(l: Limits, s: State)
    requires Clamped(l) && CacheInv(l, s)
    requires s.core.seqNo >= 1 ==> CacheSize(l, s.core.seqNo) >= 1
    ensures NewestCached(s)
  {
    if s.core.seqNo >= 1 {
      var i := |s.orders| - 1;
      assert EntryShows(s.orders, s.core.book, s.core.seqNo, i);
    }
  }

  // ----- The event cache -----

  function AllNotes(l: Limits, s: State, events: seq<Event>): seq<Note>
    requires s.grid.cfg.levels >= 2
  {
    if events == [] then []
    else
      var n := |events| - 1;
      AllNotes(l, s, events[..n]) + NotesOf(Run(l, s, events[..n]), events[n])
  }

  function Recent(all: seq<Note>, max: nat): seq<Note> {
    if |all| <= max then all else all[|all| - max..]
  }

  lemma {:induction false} PushesKeepRecent(l: Limits, all: seq<Note>, more: seq<Note>)
    ensures PushNotes(l, Recent(all, l.maxEvents), more) == Recent(all + more, l.maxEvents)
  {
    if more == [] {
      assert all + more == all;
    } else {
      var n := |more| - 1;
      PushesKeepRecent(l, all, more[..n]);
      assert all + more == (all + more[..n]) + [more[n]];
      PushKeepsRecent(l, all + more[..n], more[n]);
    }
  }

  lemma PushKeepsRecent(l: Limits, all: seq<Note>, n: Note)
    ensures PushNote(l, Recent(all, l.maxEvents), n) == Recent(all + [n], l.maxEvents)
  {}

  /** The event cache is at all times the latest notes of the whole run, up to its maximum. */
  lemma {:induction false} EventsAreRecent(l: Limits, s0: State, events: seq<Event>)
    requires s0.grid.cfg.levels >= 2 && s0.notes == []
    ensures Run(l, s0, events).notes == Recent(AllNotes(l, s0, events), l.maxEvents)
  {
    if events == [] {
    } else {
      var n := |events| - 1;
      var s := Run(l, s0, events[..n]);
      EventsAreRecent(l, s0, events[..n]);
      PushesKeepRecent(l, AllNotes(l, s0, events[..n]), NotesOf(s, events[n]));
    }
  }

  // ----- The components run their own protocols -----

  /** What the core sees of the run. */
  function CoreEvents(l: Limits, s0: State, events: seq<Event>): seq<Trading.Event>
    requires s0.grid.cfg.levels >= 2
  {
    if events == [] then []
    else
      var n := |events| - 1;
      CoreEvents(l, s0, events[..n]) + CoreEvent(Run(l, s0, events[..n]), events[n])
  }

  function CoreEvent(s: State, e: Event): seq<Trading.Event> {
    if !Valid(s, e) then []
    else
      match e
      case Tick(price) => [Trading.Tick(price)]
      case PlaceOrder(req, now) => [Trading.Submit(req, now)]
      case CancelOrder(id) => [Trading.Cancel(id.value)]
      case SetRisk(c, _) => [Trading.SetRisk(Changed(s.risk, c))]
      case _ => []
  }

  /** What the grid sees of the run: the ticks while it is switched on, and the accepted configurations. */
  function GridEvents(l: Limits, s0: State, events: seq<Event>): seq<Grid.Event>
    requires s0.grid.cfg.levels >= 2
  {
    if events == [] then []
    else
      var n := |events| - 1;
      GridEvents(l, s0, events[..n]) + GridEvent(Run(l, s0, events[..n]), events[n])
  }

  function GridEvent(s: State, e: Event): seq<Grid.Event> {
    if !Valid(s, e) then []
    else
      match e
      case Tick(price) => if s.enabled then [Grid.Tick(price)] else []
      case SetGrid(c) => [Grid.Update(GridChanged(s.grid.cfg, c))]
      case _ => []
  }

  lemma GridExtend(c: Grid.Config, events: seq<Grid.Event>, more: seq<Grid.Event>)
    requires |more| <= 1
    ensures Grid.After(c, events + more) ==
            if more == [] then Grid.After(c, events) else Grid.Step(Grid.After(c, events), more[0]).state
  {
    if more == [] { assert events + more == events; }
    else { assert (events + more)[..|events|] == events; }
  }

  lemma CoreExtend(s: Trading.Core, events: seq<Trading.Event>, more: seq<Trading.Event>)
    requires |more| <= 1
    ensures Trading.RunFrom(s, events + more) ==
            if more == [] then Trading.RunFrom(s, events) else Trading.Step(Trading.RunFrom(s, events), more[0])
  {
    if more == [] { assert events + more == events; }
    else { assert (events + more)[..|events|] == events; }
  }

  lemma CoreFollows(l: Limits, s: State, e: Event)
    requires s.grid.cfg.levels >= 2
    ensures var more := CoreEvent(s, e);
            && |more| <= 1
            && Step(l, s, e).core == if more == [] then s.core else Trading.Step(s.core, more[0])
  {}

  lemma GridFollows(l: Limits, s: State, e: Event)
    requires s.grid.cfg.levels >= 2
    ensures var more := GridEvent(s, e);
            && |more| <= 1
            && Step(l, s, e).grid == if more == [] then s.grid else Grid.Step(s.grid, more[0]).state
  {}

  /**
   In every run of the service the core is in a state of its own run over the
   events that reach it, so that whatever holds of all its runs holds inside
   the service.
   */
  lemma {:induction false} CoreRuns(l: Limits, s0: State, events: seq<Event>)
    requires s0.grid.cfg.levels >= 2
    ensures Run(l, s0, events).core == Trading.RunFrom(s0.core, CoreEvents(l, s0, events))
  {
    if events == [] {
    } else {
      var n := |events| - 1;
      var s := Run(l, s0, events[..n]);
      CoreRuns(l, s0, events[..n]);
      CoreFollows(l, s, events[n]);
      CoreExtend(s0.core, CoreEvents(l, s0, events[..n]), CoreEvent(s, events[n]));
    }
  }

  /** The same for the grid, over the ticks it gets while switched on and the accepted configurations. */
  lemma {:induction false} GridRuns(l: Limits, s0: State, c: Grid.Config, events: seq<Event>)
    requires s0.grid == Grid.Initial(c)
    ensures Run(l, s0, events).grid == Grid.After(c, GridEvents(l, s0, events))
  {
    if events == [] {
    } else {
      var n := |events| - 1;
      var s := Run(l, s0, events[..n]);
      GridRuns(l, s0, c, events[..n]);
      GridFollows(l, s, events[n]);
      GridExtend(c, GridEvents(l, s0, events[..n]), GridEvent(s, events[n]));
    }
  }

  /** A started service has a fresh core, with the live limits and the given funds, and a fresh grid. */
  lemma BootFresh(b: Startup)
    ensures Boot(b).core == Trading.Initial(Boot(b).risk, b.funds)
    ensures Boot(b).grid == Grid.Initial(b.grid)
  {}

  // ----- Limits -----

  lemma RiskStep(l: Limits, s: State, e: Event)
    requires s.risk == s.core.risk && s.grid.cfg.levels >= 2
    ensures Step(l, s, e).risk == Step(l, s, e).core.risk
  {
    CoreFollows(l, s, e);
    if e.PlaceOrder? { SubmitKeepsRisk(s.core, e.req, e.now); }
  }

  lemma SubmitKeepsRisk(s: Trading.Core, req: Request, now: nat)
    ensures Trading.OnSubmit(s, req, now).risk == s.risk
  {}

  /** The limits the requests show and the limits the core applies never differ. */
  lemma {:induction false} RiskCopiesAgree(l: Limits, b: Startup, events: seq<Event>)
    ensures var s := Run(l, Boot(b), events); s.risk == s.core.risk
  {
    if events == [] {
    } else {
      var n := |events| - 1;
      RiskCopiesAgree(l, b, events[..n]);
      RiskStep(l, Run(l, Boot(b), events[..n]), events[n]);
    }
  }
}
