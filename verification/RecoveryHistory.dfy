/**
 What the dispatcher's history alone says about its state: for every flag the last step that decides it,
 and for the callbacks the list that each step calls for.
 */
module RecoveryHistory {
  import opened Encoding
  import opened SlowIoSections
  import opened RecoveryActions

  // ----- The history -----

  function Before(steps: seq<Step>): seq<Step>
    requires steps != []
  {
    steps[..|steps| - 1]
  }

  function LastOf(steps: seq<Step>): Step
    requires steps != []
  {
    steps[|steps| - 1]
  }

  predicate Pressure(step: Step) {
    step.Dispatch? && step.event.MemPressure?
  }

  predicate SlowIoSeen(step: Step) {
    step == Dispatch(DiskSlowIo)
  }

  /** How many pressure events there were. */
  function Pressures(steps: seq<Step>): nat {
    if steps == [] then 0 else Pressures(Before(steps)) + if Pressure(LastOf(steps)) then 1 else 0
  }

  /** The level of the last pressure event, or 0 once the timer that a medium one set has fired. */
  function Level(steps: seq<Step>): nat
    decreases |steps|, 0
  {
    if steps == [] then 0
    else if Pressure(LastOf(steps)) then LastOf(steps).event.level
    else if TimerEnds(Before(steps), LastOf(steps)) then 0
    else Level(Before(steps))
  }

  /** The timer set by the last pressure event fires while that event's medium level stands. */
  predicate TimerEnds(steps: seq<Step>, step: Step)
    decreases |steps|, 1
  {
    step.TimerFires? && step.birth == Pressures(steps) && Level(steps) == 1
  }

  /** Critical pressure was seen after the last level 0 and the last manual exit. */
  predicate MemoryCause(steps: seq<Step>) {
    steps != [] &&
    match LastOf(steps)
    case Exit => false
    case Dispatch(MemPressure(level)) => level == 2 || (level != 0 && MemoryCause(Before(steps)))
    case _ => MemoryCause(Before(steps))
  }

  /** How many slow operations and manual exits there were since the worker last looked. */
  function SinceLook(steps: seq<Step>): nat {
    if steps == [] || LastOf(steps).WorkerLooks? then 0
    else SinceLook(Before(steps)) + if LastOf(steps).Exit? || SlowIoSeen(LastOf(steps)) then 1 else 0
  }

  /** Slow I/O was seen after the last manual exit and the last quiet sleep of the worker. */
  predicate SlowCause(steps: seq<Step>) {
    steps != [] &&
    match LastOf(steps)
    case Exit => false
    case WorkerWakes => SlowCause(Before(steps)) && SinceLook(Before(steps)) % 0x1_0000_0000_0000_0000 != 0
    case Dispatch(DiskSlowIo) => true
    case _ => SlowCause(Before(steps))
  }

  /** The step asks for backpressure: an OOM kill, descriptors above 95 percent, medium or critical pressure. */
  predicate AsksForBackpressure(step: Step) {
    match step
    case Dispatch(ProcessExit(_, signal)) => signal == 9
    case Dispatch(FdLimitApproaching(current, softLimit)) => 100 * current > 95 * softLimit
    case Dispatch(MemPressure(level)) => level == 1 || level == 2
    case _ => false
  }

  /** The step ends backpressure: pressure falls to 0, its timer fires, or degraded mode is left by hand. */
  predicate EndsBackpressure(steps: seq<Step>, step: Step) {
    || (step == Dispatch(MemPressure(0)) && Level(steps) >= 1)
    || TimerEnds(steps, step)
    || (step.Exit? && (MemoryCause(steps) || SlowCause(steps)))
  }

  predicate Backpressure(steps: seq<Step>) {
    && steps != [] && !EndsBackpressure(Before(steps), LastOf(steps))
    && (AsksForBackpressure(LastOf(steps)) || Backpressure(Before(steps)))
  }

  /** The callbacks of a step that asks for backpressure, given whether it is on. */
  function Switched(first: Callback, on: bool): seq<Callback> {
    if on then [first] else [first, ActivateBackpressure]
  }

  /** The callbacks that a step after `steps` calls for, in order. */
  function Script(steps: seq<Step>, step: Step): seq<Callback> {
    var on := Backpressure(steps);
    var off := if on then [DeactivateBackpressure] else [];
    if TimerEnds(steps, step) then off + [PressureRecovered]
    else
      match step
      case Dispatch(ProcessExit(pid, signal)) =>
        if signal == 9 then Switched(RemoveFromUpstream(pid), on) else [RemoveFromUpstream(pid)]
      case Dispatch(TcpClose(tid, srcPort, dstPort)) => [TcpConnectionClosed(tid, srcPort, dstPort)]
      case Dispatch(TcpRetransmit(srcPort, dstPort)) =>
        if srcPort == 4222 || dstPort == 4222 then [MarkNatsDisconnected] else []
      case Dispatch(FdLimitApproaching(_, _)) =>
        if AsksForBackpressure(step) then Switched(PruneIdle, on) else [PruneIdle]
      case Dispatch(MemPressure(level)) =>
        if level == 0 then (if Level(steps) >= 1 then off + [PressureRecovered] else [])
        else if level <= 2 then Switched(PruneIdle, on) + [UnderPressure(level)]
        else []
      case Exit => if EndsBackpressure(steps, step) then off else []
      case _ => []
  }

  function Trace(steps: seq<Step>): seq<Callback> {
    if steps == [] then [] else Trace(Before(steps)) + Script(Before(steps), LastOf(steps))
  }

  // ----- The state is what the history says -----

  ghost predicate Tells(steps: seq<Step>, s: State) {
    && s.pressureEvents == Pressures(steps) && s.level == Level(steps)
    && s.memoryDegraded == MemoryCause(steps)
    && s.slow.active == SlowCause(steps)
    && s.degraded == (MemoryCause(steps) || SlowCause(steps))
    && s.backpressure == Backpressure(steps)
    && s.trace == Trace(steps)
  }

  /** How many slow operations and manual exits there were. */
  function Bumps(steps: seq<Step>): nat {
    if steps == [] then 0
    else Bumps(Before(steps)) + if LastOf(steps).Exit? || SlowIoSeen(LastOf(steps)) then 1 else 0
  }

  /** The worker's generation, in terms of the history. */
  ghost predicate Generations(steps: seq<Step>, s: State) {
    && s.slow.generation == Wrapped(Bumps(steps))
    && SinceLook(steps) <= Bumps(steps)
    && (s.worker.Asleep? ==> s.worker.observed == Wrapped(Bumps(steps) - SinceLook(steps)))
  }

  lemma SameGeneration(a: nat, b: nat)
    ensures Wrapped(a + b) == Wrapped(a) <==> b % 0x1_0000_0000_0000_0000 == 0
  {
  }

  lemma Snoc(steps: seq<Step>, step: Step)
    ensures Before(steps + [step]) == steps && LastOf(steps + [step]) == step
  {
  }

  lemma WrappedNext(a: nat)
    ensures Wrapped(Wrapped(a) + 1) == Wrapped(a + 1)
  {
  }

  lemma PressureLeavesSlow(s: State, level: nat)
    ensures OnMemPressure(s, level).slow == s.slow && OnMemPressure(s, level).worker == s.worker
  {
  }

  lemma EventLeavesSlow(s: State, event: Event)
    requires !event.DiskSlowIo?
    ensures OnEvent(s, event).slow == s.slow && OnEvent(s, event).worker == s.worker
  {
    if event.MemPressure? { PressureLeavesSlow(s, event.level); }
  }

  /** Only a slow operation and a manual exit change the generation, and only the worker its own state. */
  lemma GenerationOf(s: State, step: Step)
    requires DegradedInv(s) && Enabled(s, step)
    ensures var s' := Apply(s, step);
            var bump := step.Exit? || SlowIoSeen(step);
            && s'.slow.generation == (if bump then Wrapped(s.slow.generation + 1) else s.slow.generation)
            && (s'.worker.Asleep? ==>
                  if step.WorkerLooks? then s'.worker.observed == s.slow.generation else s'.worker == s.worker)
  {
    match step
    case Dispatch(event) => if !event.DiskSlowIo? { EventLeavesSlow(s, event); }
    case TimerFires(_) => assert Apply(s, step).slow == s.slow && Apply(s, step).worker == s.worker;
    case _ =>
  }

  lemma NextGeneration(steps: seq<Step>, s: State, step: Step)
    requires Generations(steps, s) && DegradedInv(s) && Enabled(s, step)
    ensures Generations(steps + [step], Apply(s, step))
  {
    Snoc(steps, step);
    GenerationOf(s, step);
    WrappedNext(Bumps(steps));
  }

  lemma WorkerTells(steps: seq<Step>, s: State, step: Step)
    requires Tells(steps, s) && Generations(steps, s) && Inv(s) && Enabled(s, step)
    requires step.WorkerLooks? || step.WorkerWakes?
    ensures Tells(steps + [step], Apply(s, step))
  {
    Snoc(steps, step);
    if step.WorkerWakes? {
      SameGeneration(Bumps(steps) - SinceLook(steps), SinceLook(steps));
    }
  }

  lemma TimerTells(steps: seq<Step>, s: State, birth: nat)
    requires Tells(steps, s) && Inv(s) && Enabled(s, TimerFires(birth))
    ensures Tells(steps + [TimerFires(birth)], OnTimer(s, birth))
  {
    Snoc(steps, TimerFires(birth));
    TimerEffect(s, birth);
    RecoveryCallbacks(s.(timers := s.timers - multiset{birth}, level := 0));
    TimerHistory(steps, birth);
  }

  lemma TimerHistory(steps: seq<Step>, birth: nat)
    ensures Script(steps, TimerFires(birth)) ==
      if birth == Pressures(steps) && Level(steps) == 1 then Recovery(Backpressure(steps)) else []
  {
    assert [DeactivateBackpressure] + [PressureRecovered] == [DeactivateBackpressure, PressureRecovered];
    assert [] + [PressureRecovered] == [PressureRecovered];
  }

  lemma ExitTells(steps: seq<Step>, s: State)
    requires Tells(steps, s) && Inv(s)
    ensures Tells(steps + [Exit], OnExit(s))
  {
    Snoc(steps, Exit);
  }

  /** Backpressure ended, if it was on, and the recovery published. */
  function Recovery(on: bool): seq<Callback> {
    if on then [DeactivateBackpressure, PressureRecovered] else [PressureRecovered]
  }

  lemma RecoveryCallbacks(s: State)
    ensures Call(Deactivate(s), PressureRecovered)
         == s.(backpressure := false, trace := s.trace + Recovery(s.backpressure))
  {
    assert s.trace + [DeactivateBackpressure] + [PressureRecovered]
        == s.trace + [DeactivateBackpressure, PressureRecovered];
  }

  lemma LowEffect(s: State)
    ensures var over := s.level >= 1;
            OnMemPressure(s, 0) ==
              s.(pressureEvents := s.pressureEvents + 1, level := 0, memoryDegraded := false, degraded := s.slow.active,
                 backpressure := s.backpressure && !over,
                 trace := s.trace + if over then Recovery(s.backpressure) else [])
  {
    RecoveryCallbacks(Received(s, 0));
    assert s.trace + [] == s.trace;
  }

  lemma LowTells(steps: seq<Step>, s: State)
    requires Tells(steps, s) && Inv(s)
    ensures Tells(steps + [Dispatch(MemPressure(0))], OnMemPressure(s, 0))
  {
    Snoc(steps, Dispatch(MemPressure(0)));
    LowEffect(s);
    LowHistory(steps);
  }

  lemma LowHistory(steps: seq<Step>)
    ensures Script(steps, Dispatch(MemPressure(0))) ==
      if Level(steps) >= 1 then Recovery(Backpressure(steps)) else []
  {
    assert [DeactivateBackpressure] + [PressureRecovered] == [DeactivateBackpressure, PressureRecovered];
    assert [] + [PressureRecovered] == [PressureRecovered];
  }

  /** The callbacks of medium and critical pressure. */
  lemma HighCallbacks(s: State, level: nat)
    ensures var s' := Call(Activate(Call(s, PruneIdle)), UnderPressure(level));
            && s'.backpressure && s' == s.(backpressure := true, trace := s'.trace)
            && s'.trace == s.trace + (Switched(PruneIdle, s.backpressure) + [UnderPressure(level)])
  {
    var t := s.trace + [PruneIdle];
    assert t + [UnderPressure(level)] == s.trace + ([PruneIdle] + [UnderPressure(level)]);
    assert t + [ActivateBackpressure] + [UnderPressure(level)]
        == s.trace + ([PruneIdle, ActivateBackpressure] + [UnderPressure(level)]);
  }

  lemma HighTells(steps: seq<Step>, s: State, level: nat)
    requires Tells(steps, s) && Inv(s) && (level == 1 || level == 2)
    ensures Tells(steps + [Dispatch(MemPressure(level))], OnMemPressure(s, level))
  {
    Snoc(steps, Dispatch(MemPressure(level)));
    HighEffect(s, level);
  }

  lemma HighEffect(s: State, level: nat)
    requires level == 1 || level == 2
    ensures var s' := OnMemPressure(s, level);
            && s'.pressureEvents == s.pressureEvents + 1 && s'.level == level && s'.backpressure && s'.slow == s.slow
            && s'.memoryDegraded == (level == 2 || s.memoryDegraded)
            && s'.degraded == (if level == 2 then true else s.degraded)
            && s'.trace == s.trace + (Switched(PruneIdle, s.backpressure) + [UnderPressure(level)])
  {
    HighCallbacks(Received(s, level), level);
  }

  lemma PressureTells(steps: seq<Step>, s: State, level: nat)
    requires Tells(steps, s) && Inv(s)
    ensures Tells(steps + [Dispatch(MemPressure(level))], OnMemPressure(s, level))
  {
    if level == 0 {
      LowTells(steps, s);
    } else if level <= 2 {
      HighTells(steps, s, level);
    } else {
      Snoc(steps, Dispatch(MemPressure(level)));
    }
  }

  /** A callback, followed by backpressure if that is asked for. */
  lemma SwitchedOn(s: State, first: Callback)
    ensures Activate(Call(s, first)) == s.(backpressure := true, trace := s.trace + Switched(first, s.backpressure))
  {
    assert s.trace + [first] + [ActivateBackpressure] == s.trace + [first, ActivateBackpressure];
  }

  lemma ExitEventTells(steps: seq<Step>, s: State, event: Event)
    requires Tells(steps, s) && event.ProcessExit?
    ensures Tells(steps + [Dispatch(event)], OnEvent(s, event))
  {
    Snoc(steps, Dispatch(event));
    SwitchedOn(s, RemoveFromUpstream(event.pid));
  }

  lemma FdEventTells(steps: seq<Step>, s: State, event: Event)
    requires Tells(steps, s) && event.FdLimitApproaching?
    ensures Tells(steps + [Dispatch(event)], OnEvent(s, event))
  {
    Snoc(steps, Dispatch(event));
    SwitchedOn(s, PruneIdle);
  }

  lemma EventTells(steps: seq<Step>, s: State, event: Event)
    requires Tells(steps, s) && Inv(s) && !event.MemPressure?
    ensures Tells(steps + [Dispatch(event)], OnEvent(s, event))
  {
    if event.ProcessExit? {
      ExitEventTells(steps, s, event);
    } else if event.FdLimitApproaching? {
      FdEventTells(steps, s, event);
    } else {
      Snoc(steps, Dispatch(event));
    }
  }

  lemma StepTells(steps: seq<Step>, s: State, step: Step)
    requires Tells(steps, s) && Generations(steps, s) && Inv(s) && Enabled(s, step)
    ensures Tells(steps + [step], Apply(s, step))
  {
    match step
    case Dispatch(event) =>
      if event.MemPressure? { PressureTells(steps, s, event.level); } else { EventTells(steps, s, event); }
    case TimerFires(birth) => TimerTells(steps, s, birth);
    case Exit => ExitTells(steps, s);
    case _ => WorkerTells(steps, s, step);
  }

  lemma {:induction false} RunSplits(s: State, steps: seq<Step>, step: Step)
    requires Legal(s, steps + [step])
    ensures Legal(s, steps) && Enabled(Run(s, steps), step) && Run(s, steps + [step]) == Apply(Run(s, steps), step)
    decreases |steps|
  {
    var longer := steps + [step];
    if steps == [] {
      assert longer[1..] == [];
    } else {
      assert longer[1..] == steps[1..] + [step];
      RunSplits(Apply(s, steps[0]), steps[1..], step);
    }
  }

  lemma InitialTells()
    ensures Tells([], INITIAL) && Generations([], INITIAL)
  {
  }

  ghost predicate AllTold(steps: seq<Step>, s: State) {
    Tells(steps, s) && Generations(steps, s) && Inv(s)
  }

  lemma NextTold(steps: seq<Step>, s: State, step: Step)
    requires AllTold(steps, s) && Enabled(s, step)
    ensures AllTold(steps + [step], Apply(s, step))
  {
    StepTells(steps, s, step);
    NextGeneration(steps, s, step);
    StepInv(s, step);
  }

  lemma {:induction false} RunTells(steps: seq<Step>)
    requires Legal(INITIAL, steps)
    ensures AllTold(steps, Run(INITIAL, steps))
    decreases |steps|
  {
    if steps == [] {
      InitialTells();
    } else {
      var before, step := Before(steps), LastOf(steps);
      assert steps == before + [step];
      RunSplits(INITIAL, before, step);
      RunTells(before);
      NextTold(before, Run(INITIAL, before), step);
    }
  }

  /**
   In every run, the flags, the level and the callbacks of the dispatcher are those that the history of its
   steps calls for: each flag is decided by the last step that asks for it or ends it.
   */
  lemma HistoryDecides(steps: seq<Step>)
    requires Legal(INITIAL, steps)
    ensures var s := Run(INITIAL, steps);
            && s.backpressure == Backpressure(steps) && s.level == Level(steps) && s.trace == Trace(steps)
            && s.memoryDegraded == MemoryCause(steps) && s.slow.active == SlowCause(steps)
            && s.degraded == (MemoryCause(steps) || SlowCause(steps))
  {
    RunTells(steps);
  }

  // ----- Pressure means backpressure -----

  /** No manual exit came after the last pressure event. */
  predicate NoExitSince(steps: seq<Step>) {
    steps == [] || Pressure(LastOf(steps)) || (!LastOf(steps).Exit? && NoExitSince(Before(steps)))
  }

  lemma {:induction false} PressedHistory(steps: seq<Step>)
    requires (Level(steps) == 1 || Level(steps) == 2) && NoExitSince(steps)
    ensures Backpressure(steps)
    decreases |steps|
  {
    if !Pressure(LastOf(steps)) { PressedHistory(Before(steps)); }
  }

  /**
   In every run, medium and critical pressure keep backpressure on, unless a manual exit came after the last
   pressure event; and pressure that falls to 0 leaves it off.
   */
  lemma PressureMeansBackpressure(steps: seq<Step>)
    requires Legal(INITIAL, steps)
    ensures var s := Run(INITIAL, steps);
            && ((s.level == 1 || s.level == 2) && NoExitSince(steps) ==> s.backpressure)
            && (s.level >= 1 ==> !OnEvent(s, MemPressure(0)).backpressure)
            && OnEvent(s, MemPressure(2)).memoryDegraded && !OnEvent(s, MemPressure(0)).memoryDegraded
  {
    RunTells(steps);
    if (Level(steps) == 1 || Level(steps) == 2) && NoExitSince(steps) { PressedHistory(steps); }
  }
}
