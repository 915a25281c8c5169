/** What becomes of the settings: across a restart, and between a request and the live configuration. */
module DeskSettings {
  import opened Prelude
  import opened RuntimeState
  import opened Desk
  import DecimalText
  import Grid

  /** The settings at the last successful save, if there was one. */
  function LastSaved(l: Limits, s0: State, events: seq<Event>): Option<Loaded>
    requires s0.grid.cfg.levels >= 2
  {
    if events == [] then None
    else
      var n := |events| - 1;
      var s := Run(l, s0, events[..n]);
      if Saves(s, events[n]) then Some(Settings(Step(l, s, events[n]))) else LastSaved(l, s0, events[..n])
  }

  predicate Changes(s: State, e: Event) {
    (e.SetRisk? || e.Switch?) && Valid(s, e)
  }

  predicate Saves(s: State, e: Event) {
    Changes(s, e) && e.saveOk
  }

  function Settings(s: State): Loaded {
    Loaded(s.enabled, s.risk)
  }

  /** There was an accepted switch or limit change, and the latest one was written; earlier writes may have failed. */
  predicate LastChangeSaved(l: Limits, s0: State, events: seq<Event>)
    requires s0.grid.cfg.levels >= 2
  {
    events != [] &&
    var n := |events| - 1;
    if Changes(Run(l, s0, events[..n]), events[n]) then events[n].saveOk
    else LastChangeSaved(l, s0, events[..n])
  }

  lemma FileStep(l: Limits, s: State, e: Event)
    requires s.grid.cfg.levels >= 2
    ensures var s1 := Step(l, s, e);
            && s1.file == (if Saves(s, e) then Some(SaveText(STREAM, s1.enabled, s1.risk)) else s.file)
            && (!Changes(s, e) ==> Settings(s1) == Settings(s))
  {}

  lemma {:induction false} FileHoldsLastSave(l: Limits, s0: State, events: seq<Event>)
    requires s0.grid.cfg.levels >= 2
    ensures var saved := LastSaved(l, s0, events);
            Run(l, s0, events).file ==
            if saved.Some? then Some(SaveText(STREAM, saved.value.enabled, saved.value.risk)) else s0.file
  {
    if events == [] {
    } else {
      var n := |events| - 1;
      FileHoldsLastSave(l, s0, events[..n]);
      FileStep(l, Run(l, s0, events[..n]), events[n]);
    }
  }

  lemma {:induction false} LastSaveIsLive(l: Limits, s0: State, events: seq<Event>)
    requires s0.grid.cfg.levels >= 2 && LastChangeSaved(l, s0, events)
    ensures LastSaved(l, s0, events) == Some(Settings(Run(l, s0, events)))
  {
    var n := |events| - 1;
    var s := Run(l, s0, events[..n]);
    FileStep(l, s, events[n]);
    if !Changes(s, events[n]) { LastSaveIsLive(l, s0, events[..n]); }
  }

  /**
   A restart after any run with a successful save comes up with the switch of
   the last one and its limits to six significant digits, whatever the
   configuration says by then. Those are the saved settings iff the limits have
   no more digits, and the saved settings are the live ones whenever the latest
   accepted change was written.
   */
  lemma RestartRestores(l: Limits, s0: State, events: seq<Event>, b: Startup)
    requires s0.grid.cfg.levels >= 2 && LastSaved(l, s0, events).Some?
    requires b.file == Run(l, s0, events).file
    ensures var saved := LastSaved(l, s0, events).value;
            && Settings(Boot(b)) == Loaded(saved.enabled, RoundedRisk(saved.risk))
            && Boot(b).core.risk == Boot(b).risk
            && (Settings(Boot(b)) == saved <==> SixDigitRisk(saved.risk))
            && (LastChangeSaved(l, s0, events) ==> saved == Settings(Run(l, s0, events)))
  {
    var saved := LastSaved(l, s0, events).value;
    FileHoldsLastSave(l, s0, events);
    LoadRounds(saved.enabled, saved.risk, b.cfg);
    RoundedRiskExactIff(saved.risk);
    if LastChangeSaved(l, s0, events) { LastSaveIsLive(l, s0, events); }
  }

  /** With no successful save in between, a restart on the same configuration comes up as the last start did. */
  lemma RestartUnsaved(l: Limits, b: Startup, events: seq<Event>, next: Startup)
    requires LastSaved(l, Boot(b), events).None?
    requires next.cfg == b.cfg && next.file == Run(l, Boot(b), events).file
    ensures next.file == b.file && Settings(Boot(next)) == Settings(Boot(b))
  {
    FileHoldsLastSave(l, Boot(b), events);
  }

  /** A limit the service accepts and saves, but does not come up with again: 1234567 returns as 1234570. */
  lemma RestartLosesDigits(l: Limits, b: Startup, next: Startup)
    ensures Valid(Boot(b), ManyDigits())
    ensures var s := Run(l, Boot(b), [ManyDigits()]);
            && s.risk.maxSingleOrderNotional == 1234567.0
            && Boot(next.(file := s.file)).risk.maxSingleOrderNotional == 1234570.0
  {
    var events := [ManyDigits()];
    assert events[..0] == [];
    assert LastSaved(l, Boot(b), events).Some?;
    RestartRestores(l, Boot(b), events, next.(file := Run(l, Boot(b), events).file));
    DecimalText.MillionRounds();
  }

  function ManyDigits(): Event {
    SetRisk(RiskChange(Some(1234567.0), Some(0.5), Some(0.5)), true)
  }

  // ----- Grid requests -----

  /** A valid grid request takes effect as asked iff the parameters that are not range-checked are in range too. */
  lemma GridRequestTakenIff(l: Limits, s: State, c: GridChange)
    requires Valid(s, SetGrid(c)) && s.grid.cfg.levels >= 2
    ensures var asked := GridChanged(s.grid.cfg, c);
            Step(l, s, SetGrid(c)).grid.cfg == asked <==>
            asked.takeProfitRatio > 0.0 && asked.recenterThresholdRatio > 0.0 && asked.bandRatio > 0.002
  {}

  /** From any start-up, a request for a take-profit of zero is valid, and leaves the grid with the default instead. */
  lemma GridRequestReplaced(l: Limits, b: Startup)
    ensures var asked := SetGrid(GridChange(Some(8), Some(1.0), Some(0.0), None, None, None));
            && Valid(Boot(b), asked)
            && Run(l, Boot(b), [asked]).grid.cfg.takeProfitRatio == 0.002
  {
    var asked := SetGrid(GridChange(Some(8), Some(1.0), Some(0.0), None, None, None));
    assert [asked][..0] == [];
  }
}
