/**
 The asynchronous logger as interleaved steps of any number of producers, the
 single worker thread, and the thread that starts and stops it. The queue is a
 FIFO whose push may fail.
 */
module LogProtocol {
  import opened Prelude
  import opened JsonLines

  const BATCH := 256

  /** Where the worker is: no thread, opening the file, at the loop head, in a batch, in the final drain, or over. */
  datatype Worker = Idle | Opening | Head | Batch(processed: nat) | Draining | Ended | Failed

  datatype Item = Item(producer: nat, event: LogEvent)

  datatype State = State(
    running: bool,
    worker: Worker,
    stopping: bool,
    queue: seq<Item>,
    dropped: nat,
    written: seq<Item>)

  datatype Action =
    | Push(item: Item, ok: bool)
    | Start
    | Stop
    | Joined
    | Opened(ok: bool)
    | CheckRunning
    | PopBatch
    | EndBatch
    | PopRest
    | Finish

  const INITIAL := State(false, Idle, false, [], 0, [])

  predicate IsWorkerStep(a: Action) {
    a.Opened? || a.CheckRunning? || a.PopBatch? || a.EndBatch? || a.PopRest? || a.Finish?
  }

  /** Start and stop are called one after the other; a stop returns when the worker is over. */
  predicate Enabled(s: State, a: Action) {
    match a
    case Push(_, _) => true
    case Start => !s.stopping
    case Stop => !s.stopping
    case Joined => s.stopping && (s.worker.Ended? || s.worker.Failed?)
    case Opened(_) => s.worker.Opening?
    case CheckRunning => s.worker.Head?
    case PopBatch => s.worker.Batch? && s.worker.processed < BATCH && s.queue != []
    case EndBatch => s.worker.Batch? && (s.worker.processed >= BATCH || s.queue == [])
    case PopRest => s.worker.Draining? && s.queue != []
    case Finish => s.worker.Draining? && s.queue == []
  }

  function Written(s: State): State
    requires s.queue != []
  {
    s.(queue := s.queue[1..], written := s.written + [s.queue[0]])
  }

  function Step(s: State, a: Action): State
    requires Enabled(s, a)
  {
    match a
    case Push(item, ok) => if ok then s.(queue := s.queue + [item]) else s.(dropped := s.dropped + 1)
    case Start => if s.running then s else s.(running := true, worker := Opening)
    case Stop => if !s.running then s else s.(running := false, stopping := true)
    case Joined => s.(stopping := false, worker := Idle)
    case Opened(ok) => s.(worker := if ok then Head else Failed)
    case CheckRunning => s.(worker := if s.running then Batch(0) else Draining)
    case PopBatch => Written(s).(worker := Batch(s.worker.processed + 1))
    case EndBatch => s.(worker := Head)
    case PopRest => Written(s)
    case Finish => s.(worker := Ended)
  }

  /** The state after an interleaving, if every step of it was enabled when taken. */
  function Run(s: State, actions: seq<Action>): Option<State> {
    if actions == [] then Some(s)
    else
      var n := |actions| - 1;
      match Run(s, actions[..n])
      case None => None
      case Some(s1) => if Enabled(s1, actions[n]) then Some(Step(s1, actions[n])) else None
  }

  lemma {:induction false} RunAppend(s: State, a: seq<Action>, b: seq<Action>)
    requires Run(s, a).Some?
    ensures Run(s, a + b) == Run(Run(s, a).value, b)
  {
    if b == [] {
      assert a + b == a;
    } else {
      var n := |b| - 1;
      assert (a + b)[..|a| + n] == a + b[..n];
      RunAppend(s, a, b[..n]);
    }
  }

  // ----- Conservation and order -----

  /** The items whose push was answered with success, in push order. */
  function Accepted(actions: seq<Action>): seq<Item> {
    if actions == [] then []
    else
      var n := |actions| - 1;
      Accepted(actions[..n]) + if actions[n].Push? && actions[n].ok then [actions[n].item] else []
  }

  function Attempts(actions: seq<Action>): nat {
    if actions == [] then 0
    else
      var n := |actions| - 1;
      Attempts(actions[..n]) + if actions[n].Push? then 1 else 0
  }

  ghost predicate Inv(s: State, actions: seq<Action>) {
    && Accepted(actions) == s.written + s.queue
    && Attempts(actions) == |Accepted(actions)| + s.dropped
    && (s.running ==> !s.stopping && !s.worker.Idle? && !s.worker.Draining? && !s.worker.Ended?)
    && (!s.running && !s.stopping ==> s.worker.Idle?)
    && (s.worker.Batch? ==> s.worker.processed <= BATCH)
  }

  lemma StepInv(s: State, actions: seq<Action>, a: Action)
    requires Inv(s, actions) && Enabled(s, a)
    ensures Inv(Step(s, a), actions + [a])
  {
    assert (actions + [a])[..|actions|] == actions;
    var s1 := Step(s, a);
    if a.PopBatch? || a.PopRest? {
      assert s1.written + s1.queue == s.written + ([s.queue[0]] + s.queue[1..]);
    }
  }

  /**
   In every interleaving: what was accepted is what was written followed by
   what is queued, in push order; every attempt was accepted or counted as
   dropped; and the worker is only ever past its loop while a stop is waiting.
   */
  lemma {:induction false} NothingLostOrReordered(actions: seq<Action>)
    requires Run(INITIAL, actions).Some?
    ensures Inv(Run(INITIAL, actions).value, actions)
  {
    if actions == [] {
    } else {
      var n := |actions| - 1;
      NothingLostOrReordered(actions[..n]);
      StepInv(Run(INITIAL, actions[..n]).value, actions[..n], actions[n]);
      assert actions == actions[..n] + [actions[n]];
    }
  }

  // ----- Starting and stopping -----

  /** The last call was a start: what the running flag should say. */
  predicate LastCallStarts(actions: seq<Action>) {
    actions != [] &&
    var n := |actions| - 1;
    actions[n].Start? || (!actions[n].Stop? && LastCallStarts(actions[..n]))
  }

  /** The starts of a stopped logger: those that have an effect. */
  function Starts(actions: seq<Action>): nat {
    if actions == [] then 0
    else
      var n := |actions| - 1;
      Starts(actions[..n]) + if actions[n].Start? && !LastCallStarts(actions[..n]) then 1 else 0
  }

  /** The stops of a started logger. */
  function Stops(actions: seq<Action>): nat {
    if actions == [] then 0
    else
      var n := |actions| - 1;
      Stops(actions[..n]) + if actions[n].Stop? && LastCallStarts(actions[..n]) then 1 else 0
  }

  function Opens(actions: seq<Action>): nat {
    if actions == [] then 0
    else Opens(actions[..|actions| - 1]) + if actions[|actions| - 1].Opened? then 1 else 0
  }

  function Joins(actions: seq<Action>): nat {
    if actions == [] then 0
    else Joins(actions[..|actions| - 1]) + if actions[|actions| - 1].Joined? then 1 else 0
  }

  /**
   In every interleaving the flag says whether the last call was a start; each
   effective start, and no repeated one, gives exactly one worker that opens
   the file; each effective stop waits for exactly one worker, which there is.
   */
  lemma {:induction false} OneWorkerPerStart(actions: seq<Action>)
    requires Run(INITIAL, actions).Some?
    ensures var s := Run(INITIAL, actions).value;
            && s.running == LastCallStarts(actions)
            && Starts(actions) == Opens(actions) + (if s.worker.Opening? then 1 else 0)
            && Stops(actions) == Joins(actions) + (if s.stopping then 1 else 0)
            && (s.stopping ==> !s.running && !s.worker.Idle?)
  {
    if actions == [] {
    } else {
      var n := |actions| - 1;
      OneWorkerPerStart(actions[..n]);
      NothingLostOrReordered(actions[..n]);
    }
  }

  /** The pops since the worker last looked at the flag. */
  function PopsInBatch(actions: seq<Action>): nat {
    if actions == [] then 0
    else
      var n := |actions| - 1;
      if actions[n].CheckRunning? then 0 else PopsInBatch(actions[..n]) + if actions[n].PopBatch? then 1 else 0
  }

  /** After every interleaving a batch has taken what it has counted, at most 256, since the flag was last looked at. */
  lemma {:induction false} BatchCounts(actions: seq<Action>)
    requires Run(INITIAL, actions).Some? && Run(INITIAL, actions).value.worker.Batch?
    ensures Run(INITIAL, actions).value.worker.processed == PopsInBatch(actions) <= 256
  {
    var n := |actions| - 1;
    NothingLostOrReordered(actions);
    if !actions[n].CheckRunning? { BatchCounts(actions[..n]); }
  }

  /** From any state, an interleaving writes and queues what was there before and what it gets accepted, in order. */
  lemma {:induction false} RunConserves(s: State, actions: seq<Action>)
    requires Run(s, actions).Some?
    ensures var t := Run(s, actions).value; t.written + t.queue == s.written + s.queue + Accepted(actions)
  {
    if actions == [] {
    } else {
      var n := |actions| - 1;
      RunConserves(s, actions[..n]);
      StepConserves(Run(s, actions[..n]).value, actions[n]);
    }
  }

  lemma StepConserves(s: State, a: Action)
    requires Enabled(s, a)
    ensures var t := Step(s, a);
            t.written + t.queue == s.written + s.queue + if a.Push? && a.ok then [a.item] else []
  {
    if a.PopBatch? || a.PopRest? {
      assert Written(s).written + Written(s).queue == s.written + ([s.queue[0]] + s.queue[1..]);
    }
  }

  function Of(items: seq<Item>, producer: nat): seq<Item> {
    if items == [] then []
    else
      var n := |items| - 1;
      Of(items[..n], producer) + if items[n].producer == producer then [items[n]] else []
  }

  lemma {:induction false} OfAppend(a: seq<Item>, b: seq<Item>, producer: nat)
    ensures Of(a + b, producer) == Of(a, producer) + Of(b, producer)
  {
    if b == [] {
      assert a + b == a;
    } else {
      var n := |b| - 1;
      assert (a + b)[..|a| + n] == a + b[..n];
      OfAppend(a, b[..n], producer);
    }
  }

  /** What one producer got accepted, read off the interleaving. */
  function AcceptedFrom(actions: seq<Action>, producer: nat): seq<Item> {
    if actions == [] then []
    else
      var n := |actions| - 1;
      AcceptedFrom(actions[..n], producer) +
      if actions[n].Push? && actions[n].ok && actions[n].item.producer == producer then [actions[n].item] else []
  }

  lemma {:induction false} AcceptedOfProducer(actions: seq<Action>, producer: nat)
    ensures Of(Accepted(actions), producer) == AcceptedFrom(actions, producer)
  {
    if actions == [] {
    } else {
      var n := |actions| - 1;
      AcceptedOfProducer(actions[..n], producer);
      var more := if actions[n].Push? && actions[n].ok then [actions[n].item] else [];
      OfAppend(Accepted(actions[..n]), more, producer);
      if more != [] { assert more[..0] == []; }
    }
  }

  /** The file and the queue together hold each producer's accepted items in that producer's order. */
  lemma ProducerOrderKept(actions: seq<Action>, producer: nat)
    requires Run(INITIAL, actions).Some?
    ensures var s := Run(INITIAL, actions).value;
            Of(s.written, producer) + Of(s.queue, producer) == AcceptedFrom(actions, producer)
  {
    var s := Run(INITIAL, actions).value;
    NothingLostOrReordered(actions);
    OfAppend(s.written, s.queue, producer);
    AcceptedOfProducer(actions, producer);
  }

  // ----- Stopping -----

  function Phase(w: Worker): nat {
    match w
    case Opening => 4
    case Batch(_) => 3
    case Head => 2
    case Draining => 1
    case _ => 0
  }

  /** An upper bound on the worker's remaining steps once it has been told to stop. */
  function Remaining(s: State): nat {
    |s.queue| + Phase(s.worker)
  }

  /** A step of the worker, whose file opens if it has not yet, or a push that fails. */
  predicate Quiet(a: Action) {
    (IsWorkerStep(a) && a != Opened(false)) || (a.Push? && !a.ok)
  }

  function WorkerSteps(actions: seq<Action>): nat {
    if actions == [] then 0
    else WorkerSteps(actions[..|actions| - 1]) + if IsWorkerStep(actions[|actions| - 1]) then 1 else 0
  }

  predicate Live(w: Worker) {
    w.Opening? || w.Head? || w.Batch? || w.Draining?
  }

  /**
   Once the stop flag is set and no further push succeeds, a worker whose file
   opens can always take another step until it has ended; it takes at most
   Remaining(s) of them, whatever else happens in between; and when it ends the
   queue is empty, so that everything accepted has been written.
   */
  lemma StopDrains(before: seq<Action>, actions: seq<Action>)
    requires Run(INITIAL, before).Some? && Run(Run(INITIAL, before).value, actions).Some?
    requires var s := Run(INITIAL, before).value; s.stopping && Live(s.worker)
    requires forall a | a in actions :: Quiet(a)
    ensures var s, s1 := Run(INITIAL, before).value, Run(Run(INITIAL, before).value, actions).value;
            && WorkerSteps(actions) + Remaining(s1) <= Remaining(s)
            && (Live(s1.worker) || s1.worker.Ended?)
            && (Live(s1.worker) ==> exists a :: IsWorkerStep(a) && Enabled(s1, a))
            && (s1.worker.Ended? ==> s1.queue == [] && s1.written == Accepted(before))
  {
    NothingLostOrReordered(before);
    var s := Run(INITIAL, before).value;
    QuietRun(s, actions);
    var s1 := Run(s, actions).value;
    if s1.queue == [] { assert s1.written + s1.queue == s1.written; }
    if Live(s1.worker) {
      assert IsWorkerStep(NextStep(s1)) && Enabled(s1, NextStep(s1));
    }
  }

  function NextStep(s: State): Action
    requires Live(s.worker)
  {
    match s.worker
    case Opening => Opened(true)
    case Head => CheckRunning
    case Batch(k) => if k < BATCH && s.queue != [] then PopBatch else EndBatch
    case Draining => if s.queue != [] then PopRest else Finish
  }

  predicate Winding(s: State) {
    !s.running && (Live(s.worker) || (s.worker.Ended? && s.queue == []))
  }

  lemma QuietStep(s: State, a: Action)
    requires Winding(s) && Enabled(s, a) && Quiet(a)
    ensures var s1 := Step(s, a);
            && Winding(s1) && Remaining(s1) + (if IsWorkerStep(a) then 1 else 0) <= Remaining(s)
            && s1.written + s1.queue == s.written + s.queue
  {
    if a.PopBatch? || a.PopRest? {
      assert Written(s).written + Written(s).queue == s.written + ([s.queue[0]] + s.queue[1..]);
    }
  }

  lemma {:induction false} QuietRun(s: State, actions: seq<Action>)
    requires Run(s, actions).Some? && Winding(s)
    requires forall a | a in actions :: Quiet(a)
    ensures var s1 := Run(s, actions).value;
            && Winding(s1) && WorkerSteps(actions) + Remaining(s1) <= Remaining(s)
            && s1.written + s1.queue == s.written + s.queue
  {
    if actions == [] {
    } else {
      var n := |actions| - 1;
      assert actions[n] in actions;
      QuietRun(s, actions[..n]);
      QuietStep(Run(s, actions[..n]).value, actions[n]);
    }
  }

  // ----- What a stop can leave behind -----

  /** The items accepted since the worker found the queue empty for the last time. */
  function Late(actions: seq<Action>): seq<Item> {
    if actions == [] then []
    else
      var n := |actions| - 1;
      if actions[n].Finish? then []
      else Late(actions[..n]) + if actions[n].Push? && actions[n].ok then [actions[n].item] else []
  }

  /**
   A stop does not flush everything that was accepted: when the worker has
   ended, the items still queued are exactly those pushed after its final look
   at the queue. All accepted items are in the file iff there were none.
   */
  lemma LeftBehindIffLate(actions: seq<Action>)
    requires Run(INITIAL, actions).Some? && Run(INITIAL, actions).value.worker.Ended?
    ensures Run(INITIAL, actions).value.queue == Late(actions)
    ensures Run(INITIAL, actions).value.written == Accepted(actions) <==> Late(actions) == []
  {
    var s := Run(INITIAL, actions).value;
    LateIsQueue(actions);
    NothingLostOrReordered(actions);
    assert |s.written + s.queue| == |s.written| + |s.queue|;
    if s.queue == [] { assert s.written + s.queue == s.written; }
  }

  lemma {:induction false} LateIsQueue(actions: seq<Action>)
    requires Run(INITIAL, actions).Some? && Run(INITIAL, actions).value.worker.Ended?
    ensures Run(INITIAL, actions).value.queue == Late(actions)
  {
    var n := |actions| - 1;
    var a := actions[n];
    var s := Run(INITIAL, actions[..n]).value;
    NothingLostOrReordered(actions[..n]);
    if !a.Finish? { LateIsQueue(actions[..n]); }
  }

  /** One event, accepted between the worker's last look and the return of stop, never reaches the file. */
  lemma StopLosesLateEvent(item: Item)
    ensures var actions := [Start, Opened(true), Stop, CheckRunning, Finish, Push(item, true), Joined];
            Run(INITIAL, actions) == Some(State(false, Idle, false, [item], 0, []))
  {
    var a0 := [Start];
    var a1 := a0 + [Opened(true)];
    var a2 := a1 + [Stop];
    var a3 := a2 + [CheckRunning];
    var a4 := a3 + [Finish];
    var a5 := a4 + [Push(item, true)];
    var a6 := a5 + [Joined];
    assert [] + [Start] == a0;
    RunOne(INITIAL, [], Start);
    RunOne(INITIAL, a0, Opened(true));
    RunOne(INITIAL, a1, Stop);
    RunOne(INITIAL, a2, CheckRunning);
    RunOne(INITIAL, a3, Finish);
    RunOne(INITIAL, a4, Push(item, true));
    RunOne(INITIAL, a5, Joined);
    assert [] + [item] == [item];
    assert a6 == [Start, Opened(true), Stop, CheckRunning, Finish, Push(item, true), Joined];
  }

  lemma RunOne(s: State, actions: seq<Action>, a: Action)
    requires Run(s, actions).Some? && Enabled(Run(s, actions).value, a)
    ensures Run(s, actions + [a]) == Some(Step(Run(s, actions).value, a))
  {
    assert (actions + [a])[..|actions|] == actions;
  }

  // ----- The file -----

  function EventsOf(items: seq<Item>): (r: seq<LogEvent>)
    ensures |r| == |items| && forall i | 0 <= i < |r| :: r[i] == items[i].event
  {
    seq(|items|, i requires 0 <= i < |items| => items[i].event)
  }

  /**
   After a stop with no late push, the file has one line per accepted event, in
   push order, and reading the lines gives the events back, their values to six
   significant digits.
   */
  lemma CompleteLogReadsBack(actions: seq<Action>)
    requires Run(INITIAL, actions).Some? && Run(INITIAL, actions).value.worker.Ended?
    requires Late(actions) == []
    ensures var lines := Lines(FileText(EventsOf(Run(INITIAL, actions).value.written)));
            && |lines| == |Accepted(actions)|
            && forall i | 0 <= i < |lines| :: ReadRecord(lines[i]) == Some(Printed6(Accepted(actions)[i].event))
  {
    LeftBehindIffLate(actions);
    OneLinePerEvent(EventsOf(Accepted(actions)));
  }
}
