/** The logger object: queue, flags and file updated in place, each method proved to take protocol steps. */
module AsyncLogger {
  import opened Prelude
  import opened LogProtocol

  /** The pushes of an interleaving, in order. */
  function Pushes(actions: seq<Action>): seq<Action> {
    if actions == [] then []
    else
      var n := |actions| - 1;
      Pushes(actions[..n]) + if actions[n].Push? then [actions[n]] else []
  }

  /** The pops of an interleaving. */
  function Pops(actions: seq<Action>): nat {
    if actions == [] then 0
    else
      var n := |actions| - 1;
      Pops(actions[..n]) + if actions[n].PopBatch? || actions[n].PopRest? then 1 else 0
  }

  function Flat(arrivals: seq<seq<Action>>): seq<Action> {
    if arrivals == [] then [] else Flat(arrivals[..|arrivals| - 1]) + arrivals[|arrivals| - 1]
  }

  ghost predicate AllPushes(actions: seq<Action>) {
    forall i | 0 <= i < |actions| :: actions[i].Push?
  }

  lemma {:induction false} PushesAppend(a: seq<Action>, b: seq<Action>)
    requires AllPushes(b)
    ensures Pushes(a + b) == Pushes(a) + b && Pops(a + b) == Pops(a)
  {
    if b == [] {
      assert a + b == a;
    } else {
      var n := |b| - 1;
      assert (a + b)[..|a| + n] == a + b[..n];
      PushesAppend(a, b[..n]);
    }
  }

  lemma OwnStep(a: seq<Action>, x: Action)
    requires !x.Push?
    ensures Pushes(a + [x]) == Pushes(a)
    ensures Pops(a + [x]) == Pops(a) + if x.PopBatch? || x.PopRest? then 1 else 0
  {
    assert (a + [x])[..|a|] == a;
  }

  class AsyncJsonlLogger {
    var queue: seq<Item>
    var running: bool
    var dropped: nat
    var written: seq<Item> // the file; its text is FileText(EventsOf(written))

    // Where the worker and the stopping thread are.
    ghost var worker: Worker
    ghost var stopping: bool

    ghost function View(): State
      reads this
    {
      State(running, worker, stopping, queue, dropped, written)
    }

    constructor ()
      ensures View() == INITIAL
    {
      queue, running, dropped, written := [], false, 0, [];
      worker, stopping := Idle, false;
    }

    /** Never blocks: the event is queued, or counted as dropped. */
    method TryLog(item: Item, room: bool) returns (ok: bool)
      modifies this`queue, this`dropped
      ensures View() == Step(old(View()), Push(item, room)) && ok == room
    {
      if !room {
        dropped := dropped + 1;
        return false;
      }
      queue := queue + [item];
      return true;
    }

    method Start()
      requires Enabled(View(), Action.Start)
      modifies this
      ensures View() == Step(old(View()), Action.Start)
    {
      if running { return; }
      running := true;
      worker := Opening;
    }

    /** The flag half of stop; the worker is then waited for. */
    method SignalStop()
      requires Enabled(View(), Stop)
      modifies this
      ensures View() == Step(old(View()), Stop)
    {
      if !running { return; }
      running := false;
      stopping := true;
    }

    method WriteFirst()
      requires queue != []
      modifies this`queue, this`written
      ensures View() == Written(old(View()))
    {
      written := written + [queue[0]];
      queue := queue[1..];
    }

    /** One pop inside a batch. */
    method PopInBatch()
      requires Enabled(View(), PopBatch)
      modifies this`queue, this`written, this`worker
      ensures View() == Step(old(View()), PopBatch)
    {
      WriteFirst();
      worker := Batch(worker.processed + 1);
    }

    /** The pushes that other threads make at one point. */
    method Interfere(pushes: seq<Action>)
      requires AllPushes(pushes)
      modifies this`queue, this`dropped
      ensures Run(old(View()), pushes) == Some(View())
    {
      ghost var s0 := View();
      var i := 0;
      while i < |pushes|
        invariant 0 <= i <= |pushes|
        invariant Run(s0, pushes[..i]) == Some(View())
      {
        assert pushes[..i + 1] == pushes[..i] + [pushes[i]];
        RunOne(s0, pushes[..i], pushes[i]);
        var _ := TryLog(pushes[i].item, pushes[i].ok);
        i := i + 1;
      }
      assert pushes[..i] == pushes;
    }

    /**
     One turn of the worker's loop, with other threads pushing before each pop:
     up to a batch of events, then back to the loop head. The batch stops short
     only at an empty queue.
     */
    method WriteBatch(arrivals: seq<seq<Action>>) returns (processed: nat, turns: nat, ghost steps: seq<Action>)
      requires worker == Batch(0) && forall i | 0 <= i < |arrivals| :: AllPushes(arrivals[i])
      modifies this`queue, this`written, this`worker, this`dropped
      ensures Run(old(View()), steps) == Some(View())
      ensures turns <= |arrivals| && Pushes(steps) == Flat(arrivals[..turns])
      ensures processed == Pops(steps) <= 256 && (processed < 256 ==> queue == [])
      ensures worker == Head
      ensures written + queue == old(written) + old(queue) + Accepted(steps)
    {
      ghost var s0 := View();
      processed, turns, steps := 0, 0, [];
      while true
        invariant processed <= 256 && turns <= |arrivals| && worker == Batch(processed) && Pops(steps) == processed
        invariant Run(s0, steps) == Some(View()) && Pushes(steps) == Flat(arrivals[..turns])
        decreases 256 - processed
      {
        turns, steps := Arrive(s0, arrivals, turns, steps);
        if processed >= 256 || queue == [] { break; }
        RunOne(s0, steps, PopBatch);
        OwnStep(steps, PopBatch);
        PopInBatch();
        steps := steps + [PopBatch];
        processed := processed + 1;
      }
      RunOne(s0, steps, EndBatch);
      OwnStep(steps, EndBatch);
      steps := steps + [EndBatch];
      worker := Head;
      RunConserves(s0, steps);
    }

    /** The next arrivals, if there are any left. */
    method Arrive(ghost s0: State, arrivals: seq<seq<Action>>, at: nat, ghost before: seq<Action>)
      returns (turns: nat, ghost steps: seq<Action>)
      requires at <= |arrivals| && forall i | 0 <= i < |arrivals| :: AllPushes(arrivals[i])
      requires Run(s0, before) == Some(View()) && Pushes(before) == Flat(arrivals[..at])
      modifies this`queue, this`dropped
      ensures at <= turns <= |arrivals| && (at < |arrivals| ==> turns == at + 1)
      ensures Run(s0, steps) == Some(View()) && Pushes(steps) == Flat(arrivals[..turns]) && Pops(steps) == Pops(before)
      ensures turns == at ==> queue == old(queue)
    {
      turns, steps := at, before;
      if at < |arrivals| {
        Interfere(arrivals[at]);
        RunAppend(s0, before, arrivals[at]);
        PushesAppend(before, arrivals[at]);
        assert arrivals[..at + 1][..at] == arrivals[..at];
        turns, steps := at + 1, before + arrivals[at];
      }
    }

    /**
     The final drain, with other threads pushing before each pop, until a pop
     finds the queue empty: everything queued by then is written. Arrivals from
     `turns` on come too late.
     */
    method WriteRest(arrivals: seq<seq<Action>>) returns (turns: nat, ghost steps: seq<Action>)
      requires worker == Draining && forall i | 0 <= i < |arrivals| :: AllPushes(arrivals[i])
      modifies this`queue, this`written, this`worker, this`dropped
      ensures Run(old(View()), steps) == Some(View())
      ensures turns <= |arrivals| && Pushes(steps) == Flat(arrivals[..turns])
      ensures worker == Ended && queue == []
      ensures written == old(written) + old(queue) + Accepted(steps)
    {
      ghost var s0 := View();
      turns, steps := 0, [];
      while true
        invariant turns <= |arrivals| && worker == Draining
        invariant Run(s0, steps) == Some(View()) && Pushes(steps) == Flat(arrivals[..turns])
        decreases |arrivals| - turns, |queue|
      {
        turns, steps := Arrive(s0, arrivals, turns, steps);
        if queue == [] { break; }
        RunOne(s0, steps, PopRest);
        OwnStep(steps, PopRest);
        WriteFirst();
        steps := steps + [PopRest];
      }
      RunOne(s0, steps, Finish);
      OwnStep(steps, Finish);
      steps := steps + [Finish];
      worker := Ended;
      RunConserves(s0, steps);
      assert written + queue == written;
    }
  }
}
