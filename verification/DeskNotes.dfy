/** The event notes of a run: what the strategy emitted and what requests were carried out, and nothing else. */
module DeskNotes {
  import opened Orders
  import opened Desk
  import opened DeskRuns
  import opened DeskRequests
  import Grid
  import GridPairing

  /** The levels named by the strategy's notes. */
  function IntentIds(notes: seq<Note>): seq<nat> {
    if notes == [] then []
    else
      var n := |notes| - 1;
      IntentIds(notes[..n]) + if notes[n].StrategyIntent? then [notes[n].gridId] else []
  }

  /** The notes about requests. */
  function Answers(notes: seq<Note>): seq<Note> {
    if notes == [] then []
    else
      var n := |notes| - 1;
      Answers(notes[..n]) + if notes[n].StrategyIntent? then [] else [notes[n]]
  }

  lemma {:induction false} IntentIdsAppend(a: seq<Note>, b: seq<Note>)
    ensures IntentIds(a + b) == IntentIds(a) + IntentIds(b)
  {
    if b == [] {
      assert a + b == a;
    } else {
      var n := |b| - 1;
      assert (a + b)[..|a| + n] == a + b[..n];
      IntentIdsAppend(a, b[..n]);
    }
  }

  lemma {:induction false} AnswersAppend(a: seq<Note>, b: seq<Note>)
    ensures Answers(a + b) == Answers(a) + Answers(b)
  {
    if b == [] {
      assert a + b == a;
    } else {
      var n := |b| - 1;
      assert (a + b)[..|a| + n] == a + b[..n];
      AnswersAppend(a, b[..n]);
    }
  }

  function LogIds(log: seq<GridPairing.Entry>): (ids: seq<nat>)
    ensures |ids| == |log| && forall i | 0 <= i < |log| :: ids[i] == log[i].intent.gridId
  {
    seq(|log|, i requires 0 <= i < |log| => log[i].intent.gridId)
  }

  lemma LogIdsAppend(a: seq<GridPairing.Entry>, b: seq<GridPairing.Entry>)
    ensures LogIds(a + b) == LogIds(a) + LogIds(b)
  {}

  lemma {:induction false} IntentNotesIds(out: seq<Grid.Intent>)
    ensures |IntentIds(IntentNotes(out))| == |out| && Answers(IntentNotes(out)) == []
    ensures forall i | 0 <= i < |out| :: IntentIds(IntentNotes(out))[i] == out[i].gridId
  {
    if out == [] {
    } else {
      var n := |out| - 1;
      assert IntentNotes(out)[..n] == IntentNotes(out[..n]);
      IntentNotesIds(out[..n]);
    }
  }

  // ----- The strategy's notes -----

  lemma SingleNote(n: Note)
    ensures IntentIds([n]) == if n.StrategyIntent? then [n.gridId] else []
    ensures Answers([n]) == if n.StrategyIntent? then [] else [n]
  {
    assert [n][..0] == [];
  }

  lemma StepIntents(s: State, e: Event)
    requires s.grid.cfg.levels >= 2
    ensures var more := GridEvent(s, e);
            && |more| <= 1
            && IntentIds(NotesOf(s, e)) ==
               if more == [] then [] else LogIds(GridPairing.Stamp(Grid.Step(s.grid, more[0])))
  {
    if e.Tick? && s.enabled {
      IntentNotesIds(Grid.OnTick(s.grid, e.price).out);
    } else if NotesOf(s, e) != [] {
      SingleNote(NotesOf(s, e)[0]);
    }
  }

  lemma LogExtend(c: Grid.Config, events: seq<Grid.Event>, more: seq<Grid.Event>)
    requires |more| <= 1
    ensures GridPairing.Log(c, events + more) ==
            GridPairing.Log(c, events) +
            if more == [] then [] else GridPairing.Stamp(Grid.Step(Grid.After(c, events), more[0]))
  {
    if more == [] { assert events + more == events; }
    else { assert (events + more)[..|events|] == events; }
  }

  /** One more event keeps notes and log in step. */
  lemma IntentsStep(c: Grid.Config, s: State, e: Event, notes: seq<Note>, events: seq<Grid.Event>)
    requires s.grid == Grid.After(c, events) && IntentIds(notes) == LogIds(GridPairing.Log(c, events))
    ensures IntentIds(notes + NotesOf(s, e)) == LogIds(GridPairing.Log(c, events + GridEvent(s, e)))
  {
    IntentIdsAppend(notes, NotesOf(s, e));
    StepIntents(s, e);
    LogExtend(c, events, GridEvent(s, e));
    if GridEvent(s, e) != [] {
      LogIdsAppend(GridPairing.Log(c, events), GridPairing.Stamp(Grid.Step(s.grid, GridEvent(s, e)[0])));
    }
  }

  /**
   The strategy's notes of every run name, in order, the levels of exactly the
   orders in the log that the grid has for the ticks it got.
   */
  lemma {:induction false} IntentsNoted(l: Limits, b: Startup, events: seq<Event>)
    ensures IntentIds(AllNotes(l, Boot(b), events)) ==
            LogIds(GridPairing.Log(b.grid, GridEvents(l, Boot(b), events)))
  {
    if events == [] {
    } else {
      var n := |events| - 1;
      IntentsNoted(l, b, events[..n]);
      GridRuns(l, Boot(b), b.grid, events[..n]);
      IntentsStep(b.grid, Run(l, Boot(b), events[..n]), events[n], AllNotes(l, Boot(b), events[..n]),
                  GridEvents(l, Boot(b), events[..n]));
    }
  }

  // ----- The notes about requests -----

  /** The orders with a positive quantity: those that reach the core. */
  function Placed(events: seq<Event>): nat {
    if events == [] then 0
    else
      var n := |events| - 1;
      Placed(events[..n]) + if events[n].PlaceOrder? && events[n].req.qty > 0.0 then 1 else 0
  }

  predicate GridAccepted(d: Grid.Config, c: GridChange) {
    && (if c.levels.Some? then 2 <= c.levels.value <= 200 else 2 <= d.levels <= 200)
    && (if c.orderQty.Some? then 0.0 < c.orderQty.value <= 1000.0 else 0.0 < d.orderQty <= 1000.0)
  }

  /** The note that a request is due, after these events: none if it is refused. */
  function Due(start: RiskConfig, events: seq<Event>, d: Grid.Config, e: Event): seq<Note> {
    match e
    case Tick(_) => []
    case PlaceOrder(req, _) => if req.qty > 0.0 then [ManualOrder(Placed(events) + 1)] else []
    case CancelOrder(id) => if id.Some? then [ManualCancel(id.value)] else []
    case SetRisk(c, _) => if Allowed(start, events, c) then [RiskUpdated] else []
    case Switch(on, _) => if on.Some? then [StrategySwitched(on.value)] else []
    case SetGrid(c) => if GridAccepted(d, c) then [GridUpdated] else []
  }

  function AllDue(l: Limits, b: Startup, events: seq<Event>): seq<Note> {
    if events == [] then []
    else
      var n := |events| - 1;
      AllDue(l, b, events[..n]) +
      Due(Boot(b).risk, events[..n], Run(l, Boot(b), events[..n]).grid.cfg, events[n])
  }

  lemma NextNumber(l: Limits, s: State, e: Event)
    requires s.grid.cfg.levels >= 2
    ensures Step(l, s, e).core.seqNo == s.core.seqNo + if e.PlaceOrder? && e.req.qty > 0.0 then 1 else 0
  {}

  lemma {:induction false} NumberIsPlaced(l: Limits, b: Startup, events: seq<Event>)
    ensures Run(l, Boot(b), events).core.seqNo == Placed(events)
  {
    if events == [] {
    } else {
      var n := |events| - 1;
      NumberIsPlaced(l, b, events[..n]);
      NextNumber(l, Run(l, Boot(b), events[..n]), events[n]);
    }
  }

  lemma StepAnswers(start: RiskConfig, events: seq<Event>, s: State, e: Event)
    requires s.grid.cfg.levels >= 2 && s.core.seqNo == Placed(events)
    requires e.SetRisk? ==> (Valid(s, e) <==> Allowed(start, events, e.risk))
    ensures Answers(NotesOf(s, e)) == Due(start, events, s.grid.cfg, e)
  {
    if e.Tick? {
      if s.enabled { IntentNotesIds(Grid.OnTick(s.grid, e.price).out); }
    } else if NotesOf(s, e) != [] {
      SingleNote(NotesOf(s, e)[0]);
    }
  }

  /** Every request that is carried out, and no other, leaves its one note, in order; orders are numbered 1, 2, 3. */
  lemma {:induction false} RequestsNoted(l: Limits, b: Startup, events: seq<Event>)
    ensures Answers(AllNotes(l, Boot(b), events)) == AllDue(l, b, events)
  {
    if events == [] {
    } else {
      var n := |events| - 1;
      var s := Run(l, Boot(b), events[..n]);
      RequestsNoted(l, b, events[..n]);
      NumberIsPlaced(l, b, events[..n]);
      LimitsAreLastNamed(l, b, events[..n]);
      AnswersAppend(AllNotes(l, Boot(b), events[..n]), NotesOf(s, events[n]));
      StepAnswers(Boot(b).risk, events[..n], s, events[n]);
    }
  }
}
