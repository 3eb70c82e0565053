/**
 The recovery actions of the monitor's dispatcher: backpressure, degraded mode and its two causes,
 and the timers that end a medium memory-pressure state.

 One dispatched event, one timer firing, one lock section of the slow-I/O worker and one call of
 `exit_degraded_mode` are taken as atomic steps here.
 */
module RecoveryActions {
  import opened Encoding
  import opened SlowIoSections

  datatype Callback =
    | ActivateBackpressure
    | DeactivateBackpressure
    | UnderPressure(level: nat)
    | PressureRecovered
    | PruneIdle
    | RemoveFromUpstream(pid: nat)
    | TcpConnectionClosed(tid: nat, srcPort: nat, dstPort: nat)
    | MarkNatsDisconnected

  /** The port of the messaging server. */
  const NATS_PORT: nat := 4222

  /**
   The process, connection, descriptor, memory and disk events that change state or make callbacks.  The
   system-call and namespace events, which stop instances or publish incidents, touch no state here.
   */
  datatype Event =
    | ProcessExit(pid: nat, signal: nat)
    | TcpClose(tid: nat, srcPort: nat, dstPort: nat)
    | TcpRetransmit(srcPort: nat, dstPort: nat)
    | FdLimitApproaching(current: nat, softLimit: nat)
    | MemPressure(level: nat)
    | DiskSlowIo

  /** The recovery worker: none, about to look at the generation, or asleep with what it saw. */
  datatype Worker = NoWorker | Looking | Asleep(observed: nat)

  /**
   `pressureEvents` counts the memory-pressure events; the 64-bit generation is its residue.
   `timers` holds the pending recovery timers, each by the value of `pressureEvents` when it was set.
   `trace` is the history of the callbacks made.
   */
  datatype State = State(
    backpressure: bool, degraded: bool, memoryDegraded: bool, level: nat, pressureEvents: nat,
    slow: SlowIo, worker: Worker, timers: multiset<nat>, trace: seq<Callback>)

  const INITIAL := State(false, false, false, 0, 0, CALM, NoWorker, multiset{}, [])

  function Call(s: State, c: Callback): State {
    s.(trace := s.trace + [c])
  }

  function Activate(s: State): State {
    if s.backpressure then s else Call(s.(backpressure := true), ActivateBackpressure)
  }

  function Deactivate(s: State): State {
    if s.backpressure then Call(s.(backpressure := false), DeactivateBackpressure) else s
  }

  function Refresh(s: State): State {
    s.(degraded := s.memoryDegraded || s.slow.active)
  }

  /**
   The ratio of open to allowed descriptors exceeds 0.95.  Both are 32-bit counts, so the rounded
   quotient compares with the rounded constant as the exact ratio does with 19/20; a limit of zero
   gives infinity, or not-a-number for 0/0, and agrees too.
   */
  predicate FdCritical(current: nat, softLimit: nat) {
    20 * current > 19 * softLimit
  }

  function Received(s: State, level: nat): State {
    s.(pressureEvents := s.pressureEvents + 1, level := level)
  }

  function LowPressure(s: State, previous: nat): State {
    var s0 := if previous >= 1 then Call(Deactivate(s), PressureRecovered) else s;
    Refresh(s0.(memoryDegraded := false))
  }

  function MediumPressure(s: State): State {
    var s0 := Call(Activate(Call(s, PruneIdle)), UnderPressure(1));
    s0.(timers := s0.timers + multiset{s0.pressureEvents})
  }

  function CriticalPressure(s: State): State {
    Refresh(Call(Activate(Call(s, PruneIdle)), UnderPressure(2)).(memoryDegraded := true))
  }

  /** A level other than 0, 1 and 2 is recorded and nothing else. */
  function OnMemPressure(s: State, level: nat): State {
    var s0 := Received(s, level);
    match level
    case 0 => LowPressure(s0, s.level)
    case 1 => MediumPressure(s0)
    case 2 => CriticalPressure(s0)
    case _ => s0
  }

  function OnSlowIo(s: State): State {
    var (slow, spawn) := MarkSection(s.slow);
    var s0 := Refresh(s.(slow := slow));
    if spawn then s0.(worker := Looking) else s0
  }

  function OnEvent(s: State, event: Event): State {
    match event
    case ProcessExit(pid, signal) =>
      var s0 := Call(s, RemoveFromUpstream(pid));
      if signal == 9 then Activate(s0) else s0
    case TcpClose(tid, srcPort, dstPort) => Call(s, TcpConnectionClosed(tid, srcPort, dstPort))
    case TcpRetransmit(srcPort, dstPort) =>
      if dstPort == NATS_PORT || srcPort == NATS_PORT then Call(s, MarkNatsDisconnected) else s
    case FdLimitApproaching(current, softLimit) =>
      var s0 := Call(s, PruneIdle);
      if FdCritical(current, softLimit) then Activate(s0) else s0
    case MemPressure(level) => OnMemPressure(s, level)
    case DiskSlowIo => OnSlowIo(s)
  }

  /** A recovery timer wakes up and compares its generation with the current one. */
  function OnTimer(s: State, birth: nat): State {
    var s0 := s.(timers := s.timers - multiset{birth});
    if Wrapped(birth) != Wrapped(s.pressureEvents) || s.level != 1 then s0
    else Call(Deactivate(s0.(level := 0)), PressureRecovered)
  }

  function OnLook(s: State): State {
    s.(worker := Asleep(s.slow.generation))
  }

  function OnWake(s: State, observed: nat): State {
    var (slow, outcome) := WakeSection(s.slow, observed);
    var s0 := s.(slow := slow);
    match outcome
    case Stopped => s0.(worker := NoWorker)
    case SleepAgain => s0.(worker := Looking)
    case Recovered => s0.(worker := NoWorker, degraded := s.memoryDegraded && s.degraded)
  }

  function OnExit(s: State): State {
    var s0 := s.(memoryDegraded := false, slow := ExitSection(s.slow), degraded := false);
    if s.degraded then Deactivate(s0) else s0
  }

  // ----- The dispatcher object -----

  class ActionDispatcher {
    var backpressureActive: bool
    var degradedMode: bool
    var memoryPressureDegraded: bool
    var lastPressureLevel: nat
    var pressureEvents: nat
    var slowIo: SlowIo
    var worker: Worker
    var timers: multiset<nat>
    var trace: seq<Callback>

    function View(): State
      reads this
    {
      State(backpressureActive, degradedMode, memoryPressureDegraded, lastPressureLevel, pressureEvents,
            slowIo, worker, timers, trace)
    }

    constructor ()
      ensures View() == INITIAL
    {
      backpressureActive, degradedMode, memoryPressureDegraded := false, false, false;
      lastPressureLevel, pressureEvents := 0, 0;
      slowIo, worker := CALM, NoWorker;
      timers, trace := multiset{}, [];
    }

    method Invoke(callback: Callback)
      modifies this`trace
      ensures View() == Call(old(View()), callback)
    {
      trace := trace + [callback];
    }

    method ActivateBackpressureIfNeeded()
      modifies this`backpressureActive, this`trace
      ensures View() == Activate(old(View()))
    {
      var was := backpressureActive;
      backpressureActive := true;
      if !was {
        Invoke(ActivateBackpressure);
      }
    }

    method DeactivateBackpressureIfNeeded()
      modifies this`backpressureActive, this`trace
      ensures View() == Deactivate(old(View()))
    {
      var was := backpressureActive;
      backpressureActive := false;
      if was {
        Invoke(DeactivateBackpressure);
      }
    }

    method RefreshDegradedMode()
      modifies this`degradedMode
      ensures View() == Refresh(old(View()))
    {
      degradedMode := memoryPressureDegraded || slowIo.active;
    }

    method MarkSlowIoDegraded()
      modifies this
      ensures View() == OnSlowIo(old(View()))
    {
      var start := !slowIo.workerRunning;
      slowIo := SlowIo(true, Wrapped(slowIo.generation + 1), true);
      RefreshDegradedMode();
      if !start {
        return;
      }
      worker := Looking;
    }

    method DispatchLow(previous: nat)
      modifies this
      ensures View() == LowPressure(old(View()), previous)
    {
      if previous >= 1 {
        DeactivateBackpressureIfNeeded();
        Invoke(PressureRecovered);
      }
      memoryPressureDegraded := false;
      RefreshDegradedMode();
    }

    method DispatchMedium()
      modifies this
      ensures View() == MediumPressure(old(View()))
    {
      Invoke(PruneIdle);
      ActivateBackpressureIfNeeded();
      Invoke(UnderPressure(1));
      timers := timers + multiset{pressureEvents};
    }

    method DispatchCritical()
      modifies this
      ensures View() == CriticalPressure(old(View()))
    {
      Invoke(PruneIdle);
      ActivateBackpressureIfNeeded();
      Invoke(UnderPressure(2));
      memoryPressureDegraded := true;
      RefreshDegradedMode();
    }

    method DispatchMemPressure(level: nat)
      modifies this
      ensures View() == OnMemPressure(old(View()), level)
    {
      pressureEvents := pressureEvents + 1;
      var previous := lastPressureLevel;
      lastPressureLevel := level;
      ghost var received := View();
      assert received == Received(old(View()), level);
      match level {
        case 0 => DispatchLow(previous);
        case 1 => DispatchMedium();
        case 2 => DispatchCritical();
        case _ =>
      }
    }

    method Dispatch(event: Event)
      modifies this
      ensures View() == OnEvent(old(View()), event)
    {
      match event {
        case ProcessExit(pid, signal) =>
          Invoke(RemoveFromUpstream(pid));
          if signal == 9 {
            ActivateBackpressureIfNeeded();
          }
        case TcpClose(tid, srcPort, dstPort) =>
          Invoke(TcpConnectionClosed(tid, srcPort, dstPort));
        case TcpRetransmit(srcPort, dstPort) =>
          if dstPort == NATS_PORT || srcPort == NATS_PORT {
            Invoke(MarkNatsDisconnected);
          }
        case FdLimitApproaching(current, softLimit) =>
          Invoke(PruneIdle);
          if FdCritical(current, softLimit) {
            ActivateBackpressureIfNeeded();
          }
        case MemPressure(level) =>
          DispatchMemPressure(level);
        case DiskSlowIo =>
          MarkSlowIoDegraded();
      }
    }

    /** The body of a recovery timer after its sleep. */
    method FireTimer(birth: nat)
      modifies this
      ensures View() == OnTimer(old(View()), birth)
    {
      timers := timers - multiset{birth};
      if Wrapped(birth) != Wrapped(pressureEvents) || lastPressureLevel != 1 {
        return;
      }
      lastPressureLevel := 0;
      DeactivateBackpressureIfNeeded();
      Invoke(PressureRecovered);
    }

    /** The worker takes the lock to look at the generation. */
    method WorkerLooks()
      modifies this`worker
      ensures View() == OnLook(old(View()))
    {
      worker := Asleep(slowIo.generation);
    }

    /** The worker after its sleep. */
    method WorkerWakes(observed: nat)
      modifies this
      ensures View() == OnWake(old(View()), observed)
    {
      if !slowIo.active {
        slowIo := slowIo.(workerRunning := false);
        worker := NoWorker;
        return;
      }
      if slowIo.generation != observed {
        worker := Looking;
        return;
      }
      slowIo := slowIo.(active := false, workerRunning := false);
      worker := NoWorker;
      if !memoryPressureDegraded {
        degradedMode := false;
      }
    }

    method ExitDegradedMode()
      modifies this
      ensures View() == OnExit(old(View()))
    {
      memoryPressureDegraded := false;
      slowIo := slowIo.(active := false, generation := Wrapped(slowIo.generation + 1));
      var was := degradedMode;
      degradedMode := false;
      if was {
        DeactivateBackpressureIfNeeded();
      }
    }
  }

  // ----- Runs -----

  datatype Step = Dispatch(event: Event) | TimerFires(birth: nat) | WorkerLooks | WorkerWakes | Exit

  /** A timer wakes up within 30 seconds: fewer than 2^64 pressure events after it was set. */
  predicate Enabled(s: State, step: Step) {
    match step
    case TimerFires(birth) => birth in s.timers && s.pressureEvents < birth + WRAP
    case WorkerLooks => s.worker.Looking?
    case WorkerWakes => s.worker.Asleep?
    case _ => true
  }

  function Apply(s: State, step: Step): State
    requires Enabled(s, step)
  {
    match step
    case Dispatch(event) => OnEvent(s, event)
    case TimerFires(birth) => OnTimer(s, birth)
    case WorkerLooks => OnLook(s)
    case WorkerWakes => OnWake(s, s.worker.observed)
    case Exit => OnExit(s)
  }

  predicate Legal(s: State, steps: seq<Step>)
    decreases |steps|
  {
    steps == [] || (Enabled(s, steps[0]) && Legal(Apply(s, steps[0]), steps[1..]))
  }

  function Run(s: State, steps: seq<Step>): State
    requires Legal(s, steps)
    decreases |steps|
  {
    if steps == [] then s else Run(Apply(s, steps[0]), steps[1..])
  }

  // ----- What the trace of every run looks like -----

  predicate IsSwitch(c: Callback) {
    c.ActivateBackpressure? || c.DeactivateBackpressure?
  }

  predicate IsPublication(c: Callback) {
    c.UnderPressure? || c.PressureRecovered?
  }

  function Switches(trace: seq<Callback>): seq<Callback> {
    if trace == [] then []
    else
      var last := trace[|trace| - 1];
      Switches(trace[..|trace| - 1]) + if IsSwitch(last) then [last] else []
  }

  function Publications(trace: seq<Callback>): seq<Callback> {
    if trace == [] then []
    else
      var last := trace[|trace| - 1];
      Publications(trace[..|trace| - 1]) + if IsPublication(last) then [last] else []
  }

  /** Activations and deactivations strictly alternate, starting with an activation. */
  ghost predicate Alternate(switches: seq<Callback>) {
    forall k :: 0 <= k < |switches| ==>
      switches[k] == if k % 2 == 0 then ActivateBackpressure else DeactivateBackpressure
  }

  /** Every recovery is published directly after an under-pressure publication. */
  ghost predicate Announced(publications: seq<Callback>) {
    forall k :: 0 <= k < |publications| ==> AnnouncedAt(publications, k)
  }

  ghost predicate AnnouncedAt(publications: seq<Callback>, k: nat)
    requires k < |publications|
  {
    publications[k].PressureRecovered? ==> k > 0 && publications[k - 1].UnderPressure?
  }

  /** The last publication told the cluster of pressure. */
  predicate PressureKnown(publications: seq<Callback>) {
    |publications| > 0 && publications[|publications| - 1].UnderPressure?
  }

  lemma CallTrace(trace: seq<Callback>, c: Callback)
    ensures Switches(trace + [c]) == Switches(trace) + if IsSwitch(c) then [c] else []
    ensures Publications(trace + [c]) == Publications(trace) + if IsPublication(c) then [c] else []
  {
    assert (trace + [c])[..|trace|] == trace;
  }

  /** A recovery publication keeps the order of publications exactly if pressure was the last thing published. */
  lemma AnnouncedAppend(p: seq<Callback>, c: Callback)
    requires IsPublication(c)
    ensures Announced(p + [c]) <==> Announced(p) && (c.PressureRecovered? ==> PressureKnown(p))
  {
    var q := p + [c];
    if Announced(q) {
      assert AnnouncedAt(q, |p|);
      forall k | 0 <= k < |p| ensures AnnouncedAt(p, k) { assert AnnouncedAt(q, k); }
    } else if Announced(p) && (c.PressureRecovered? ==> PressureKnown(p)) {
      forall k | 0 <= k < |q| ensures AnnouncedAt(q, k) {
        if k < |p| { assert AnnouncedAt(p, k); }
      }
    }
  }

  /** Backpressure is on exactly after an odd number of alternating switches. */
  ghost predicate SwitchInv(s: State) {
    Alternate(Switches(s.trace)) && (s.backpressure <==> |Switches(s.trace)| % 2 == 1)
  }

  lemma CallInv(s: State, c: Callback)
    requires SwitchInv(s) && !IsSwitch(c)
    ensures SwitchInv(Call(s, c))
    ensures Publications(Call(s, c).trace) == Publications(s.trace) + if IsPublication(c) then [c] else []
  {
    CallTrace(s.trace, c);
  }

  lemma ActivateInv(s: State)
    requires SwitchInv(s)
    ensures SwitchInv(Activate(s))
    ensures Publications(Activate(s).trace) == Publications(s.trace)
  {
    CallTrace(s.trace, ActivateBackpressure);
  }

  lemma DeactivateInv(s: State)
    requires SwitchInv(s)
    ensures SwitchInv(Deactivate(s))
    ensures Publications(Deactivate(s).trace) == Publications(s.trace)
  {
    CallTrace(s.trace, DeactivateBackpressure);
  }

  // ----- Invariants of every run -----

  /** Degraded mode is on exactly while one of its two causes is. */
  ghost predicate DegradedInv(s: State) {
    && s.degraded == (s.memoryDegraded || s.slow.active)
    && (s.slow.workerRunning <==> !s.worker.NoWorker?)
    && (s.slow.active ==> s.slow.workerRunning)
  }

  /** No two timers were set by the same event, and a medium level has a timer of the current generation. */
  ghost predicate TimerInv(s: State) {
    && (forall b :: b in s.timers ==> b <= s.pressureEvents && s.timers[b] == 1)
    && (s.level == 1 ==> s.pressureEvents in s.timers)
  }

  /** A known pressure level has been published. */
  ghost predicate LevelInv(s: State) {
    s.level == 1 || s.level == 2 ==> PressureKnown(Publications(s.trace))
  }

  ghost predicate Inv(s: State) {
    SwitchInv(s) && DegradedInv(s) && TimerInv(s) && LevelInv(s)
  }

  /** The level drops to 0 from an unknown level while the cluster has not been told of any pressure. */
  predicate Unannounced(s: State, step: Step) {
    step == Dispatch(MemPressure(0)) && s.level >= 3 && !PressureKnown(Publications(s.trace))
  }

  /** How one step extends the publications. */
  ghost predicate Publishes(p: seq<Callback>, p': seq<Callback>, unannounced: bool) {
    && (|| p' == p
        || p' == p + [UnderPressure(1)]
        || p' == p + [UnderPressure(2)]
        || (p' == p + [PressureRecovered] && (PressureKnown(p) <==> !unannounced)))
    && (unannounced ==> p' == p + [PressureRecovered] && !PressureKnown(p))
  }

  ghost predicate StepPublishes(s: State, step: Step, s': State) {
    Publishes(Publications(s.trace), Publications(s'.trace), Unannounced(s, step))
  }

  lemma LowInv(s: State, previous: nat)
    requires SwitchInv(s)
    ensures SwitchInv(LowPressure(s, previous))
    ensures Publications(LowPressure(s, previous).trace)
         == Publications(s.trace) + if previous >= 1 then [PressureRecovered] else []
  {
    if previous >= 1 {
      DeactivateInv(s);
      CallInv(Deactivate(s), PressureRecovered);
    }
  }

  lemma HighInv(s: State, level: nat)
    requires SwitchInv(s)
    ensures var s' := Call(Activate(Call(s, PruneIdle)), UnderPressure(level));
            && SwitchInv(s')
            && Publications(s'.trace) == Publications(s.trace) + [UnderPressure(level)]
  {
    CallInv(s, PruneIdle);
    ActivateInv(Call(s, PruneIdle));
    CallInv(Activate(Call(s, PruneIdle)), UnderPressure(level));
  }

  lemma LowStep(s: State)
    requires Inv(s)
    ensures Inv(OnMemPressure(s, 0)) && StepPublishes(s, Dispatch(MemPressure(0)), OnMemPressure(s, 0))
  {
    LowInv(Received(s, 0), s.level);
  }

  lemma MediumStep(s: State)
    requires Inv(s)
    ensures Inv(OnMemPressure(s, 1)) && StepPublishes(s, Dispatch(MemPressure(1)), OnMemPressure(s, 1))
  {
    HighInv(Received(s, 1), 1);
    HighKeeps(Received(s, 1), 1);
    TimerSet(s.timers, s.pressureEvents);
  }

  /** Medium and critical pressure change backpressure and make callbacks. */
  lemma HighKeeps(s: State, level: nat)
    ensures var s' := Call(Activate(Call(s, PruneIdle)), UnderPressure(level));
            s' == s.(backpressure := true, trace := s'.trace)
  {
  }

  lemma TimerSet(timers: multiset<nat>, events: nat)
    requires forall b :: b in timers ==> b <= events && timers[b] == 1
    ensures var timers' := timers + multiset{events + 1};
            events + 1 in timers' && forall b :: b in timers' ==> b <= events + 1 && timers'[b] == 1
  {
    assert events + 1 !in timers;
  }

  lemma CriticalStep(s: State)
    requires Inv(s)
    ensures Inv(OnMemPressure(s, 2)) && StepPublishes(s, Dispatch(MemPressure(2)), OnMemPressure(s, 2))
  {
    HighInv(Received(s, 2), 2);
  }

  lemma MemPressureInv(s: State, level: nat)
    requires Inv(s)
    ensures Inv(OnMemPressure(s, level))
    ensures StepPublishes(s, Dispatch(MemPressure(level)), OnMemPressure(s, level))
  {
    match level
    case 0 => LowStep(s);
    case 1 => MediumStep(s);
    case 2 => CriticalStep(s);
    case _ =>
  }

  /** Without a new publication, level or timer only the switches matter. */
  lemma SwitchOnlyInv(s: State, s': State)
    requires Inv(s) && SwitchInv(s') && Publications(s'.trace) == Publications(s.trace)
    requires s' == s.(backpressure := s'.backpressure, trace := s'.trace)
    ensures Inv(s')
  {
  }

  lemma TimerGone(s: State, birth: nat)
    requires Inv(s) && birth in s.timers && (s.level != 1 || birth != s.pressureEvents)
    ensures Inv(s.(timers := s.timers - multiset{birth}))
  {
  }

  /** The timer ends the medium level: backpressure off, recovery published. */
  lemma TimerActs(s: State, birth: nat)
    requires Inv(s) && birth in s.timers && s.level == 1
    ensures var s' := Call(Deactivate(s.(timers := s.timers - multiset{birth}, level := 0)), PressureRecovered);
            && Inv(s') && Publications(s'.trace) == Publications(s.trace) + [PressureRecovered]
  {
    var s0 := s.(timers := s.timers - multiset{birth}, level := 0);
    DeactivateInv(s0);
    CallInv(Deactivate(s0), PressureRecovered);
  }

  lemma TimerFiresInv(s: State, birth: nat)
    requires Inv(s) && Enabled(s, TimerFires(birth))
    ensures Inv(OnTimer(s, birth)) && StepPublishes(s, TimerFires(birth), OnTimer(s, birth))
  {
    if Wrapped(birth) == Wrapped(s.pressureEvents) && s.level == 1 {
      TimerActs(s, birth);
    } else {
      TimerGone(s, birth);
    }
  }

  lemma QuietInv(s: State, s': State)
    requires Inv(s) && DegradedInv(s') && TimerInv(s')
    requires s'.trace == s.trace && s'.backpressure == s.backpressure && s'.level == s.level
    ensures Inv(s')
  {
  }

  /** A callback that is neither switch nor publication, perhaps followed by backpressure. */
  lemma CallThenActivate(s: State, c: Callback, activate: bool)
    requires Inv(s) && !IsSwitch(c) && !IsPublication(c)
    ensures var s' := if activate then Activate(Call(s, c)) else Call(s, c);
            Inv(s') && Publications(s'.trace) == Publications(s.trace)
  {
    CallInv(s, c);
    var s' := if activate then Activate(Call(s, c)) else Call(s, c);
    if activate { ActivateInv(Call(s, c)); }
    SwitchOnlyInv(s, s');
  }

  lemma EventInv(s: State, event: Event)
    requires Inv(s) && !event.MemPressure?
    ensures Inv(OnEvent(s, event)) && Publications(OnEvent(s, event).trace) == Publications(s.trace)
  {
    match event
    case ProcessExit(pid, signal) => CallThenActivate(s, RemoveFromUpstream(pid), signal == 9);
    case TcpClose(tid, srcPort, dstPort) => CallThenActivate(s, TcpConnectionClosed(tid, srcPort, dstPort), false);
    case TcpRetransmit(_, _) => CallThenActivate(s, MarkNatsDisconnected, false);
    case FdLimitApproaching(current, softLimit) => CallThenActivate(s, PruneIdle, FdCritical(current, softLimit));
    case DiskSlowIo => QuietInv(s, OnSlowIo(s));
  }

  lemma ExitInv(s: State)
    requires Inv(s)
    ensures Inv(OnExit(s)) && Publications(OnExit(s).trace) == Publications(s.trace)
  {
    var s0 := s.(memoryDegraded := false, slow := ExitSection(s.slow), degraded := false);
    QuietInv(s, s0);
    DeactivateInv(s0);
  }

  lemma WorkerInv(s: State, step: Step)
    requires Inv(s) && Enabled(s, step) && (step.WorkerLooks? || step.WorkerWakes?)
    ensures Inv(Apply(s, step)) && Apply(s, step).trace == s.trace
  {
    QuietInv(s, Apply(s, step));
  }

  /** Every atomic step keeps the invariant, and publishes at most once and in order unless unannounced. */
  lemma StepInv(s: State, step: Step)
    requires Inv(s) && Enabled(s, step)
    ensures Inv(Apply(s, step)) && StepPublishes(s, step, Apply(s, step))
  {
    match step
    case Dispatch(event) =>
      if event.MemPressure? { MemPressureInv(s, event.level); } else { EventInv(s, event); }
    case TimerFires(birth) => TimerFiresInv(s, birth);
    case WorkerLooks => WorkerInv(s, step);
    case WorkerWakes => WorkerInv(s, step);
    case Exit => ExitInv(s);
  }

  lemma {:induction false} RunInv(s: State, steps: seq<Step>)
    requires Inv(s) && Legal(s, steps)
    ensures Inv(Run(s, steps))
    decreases |steps|
  {
    if steps != [] {
      StepInv(s, steps[0]);
      RunInv(Apply(s, steps[0]), steps[1..]);
    }
  }

  /** In every run, degraded mode is on exactly while memory pressure or slow I/O requires it. */
  lemma DegradedIsEitherCause(steps: seq<Step>)
    requires Legal(INITIAL, steps)
    ensures var s := Run(INITIAL, steps);
            && s.degraded == (s.memoryDegraded || s.slow.active)
            && (s.slow.active ==> !s.worker.NoWorker?)
  {
    RunInv(INITIAL, steps);
  }

  /** In every run, backpressure callbacks strictly alternate and the flag follows the last of them. */
  lemma BackpressureAlternates(steps: seq<Step>)
    requires Legal(INITIAL, steps)
    ensures var s := Run(INITIAL, steps);
            Alternate(Switches(s.trace)) && (s.backpressure <==> |Switches(s.trace)| % 2 == 1)
  {
    RunInv(INITIAL, steps);
  }

  /** The whole effect of a timer that acts; degraded mode and its causes are not among it. */
  ghost predicate PressureOver(s: State, s': State, birth: nat) {
    && s'.level == 0 && !s'.backpressure
    && Publications(s'.trace) == Publications(s.trace) + [PressureRecovered]
    && s' == s.(level := 0, backpressure := false, timers := s.timers - multiset{birth}, trace := s'.trace)
  }

  lemma TimerEffect(s: State, birth: nat)
    requires Inv(s) && Enabled(s, TimerFires(birth))
    ensures var s' := OnTimer(s, birth);
            if birth == s.pressureEvents && s.level == 1 then PressureOver(s, s', birth)
            else s' == s.(timers := s.timers - multiset{birth})
  {
    var s0 := s.(timers := s.timers - multiset{birth}, level := 0);
    DeactivateInv(s0);
    CallInv(Deactivate(s0), PressureRecovered);
  }

  /**
   In every run, a medium level has exactly one pending timer of the current generation, and a timer
   that fires acts if and only if it is that one: every older timer changes nothing but the timer set.
   */
  lemma OneLiveTimer(steps: seq<Step>)
    requires Legal(INITIAL, steps)
    ensures var s := Run(INITIAL, steps);
            && (s.level == 1 ==> s.timers[s.pressureEvents] == 1)
            && forall birth :: Enabled(s, TimerFires(birth)) ==>
                 var s' := Apply(s, TimerFires(birth));
                 if birth == s.pressureEvents && s.level == 1 then PressureOver(s, s', birth)
                 else s' == s.(timers := s.timers - multiset{birth})
  {
    RunInv(INITIAL, steps);
    var s := Run(INITIAL, steps);
    forall birth | Enabled(s, TimerFires(birth))
      ensures var s' := Apply(s, TimerFires(birth));
              if birth == s.pressureEvents && s.level == 1 then PressureOver(s, s', birth)
              else s' == s.(timers := s.timers - multiset{birth})
    {
      TimerEffect(s, birth);
    }
  }

  /** No step of the run is an unannounced recovery. */
  predicate NoneUnannounced(s: State, steps: seq<Step>)
    requires Legal(s, steps)
    decreases |steps|
  {
    steps == [] || (!Unannounced(s, steps[0]) && NoneUnannounced(Apply(s, steps[0]), steps[1..]))
  }

  lemma PublishesAnnounced(p: seq<Callback>, p': seq<Callback>, unannounced: bool)
    requires Publishes(p, p', unannounced)
    ensures Announced(p') <==> Announced(p) && !unannounced
  {
    AnnouncedAppend(p, UnderPressure(1));
    AnnouncedAppend(p, UnderPressure(2));
    AnnouncedAppend(p, PressureRecovered);
  }

  lemma StepAnnounced(s: State, step: Step)
    requires Inv(s) && Enabled(s, step)
    ensures Announced(Publications(Apply(s, step).trace)) <==>
              Announced(Publications(s.trace)) && !Unannounced(s, step)
  {
    StepInv(s, step);
    PublishesAnnounced(Publications(s.trace), Publications(Apply(s, step).trace), Unannounced(s, step));
  }

  lemma {:induction false} RunAnnounced(s: State, steps: seq<Step>)
    requires Inv(s) && Legal(s, steps)
    ensures Announced(Publications(Run(s, steps).trace)) <==>
              Announced(Publications(s.trace)) && NoneUnannounced(s, steps)
    decreases |steps|
  {
    if steps != [] {
      StepInv(s, steps[0]);
      StepAnnounced(s, steps[0]);
      RunAnnounced(Apply(s, steps[0]), steps[1..]);
    }
  }

  /**
   A run publishes every recovery directly after an under-pressure publication if and only if it never
   goes from an unknown level to 0 while the cluster has not been told of pressure.
   */
  lemma RecoveriesAnnounced(steps: seq<Step>)
    requires Legal(INITIAL, steps)
    ensures Announced(Publications(Run(INITIAL, steps).trace)) <==> NoneUnannounced(INITIAL, steps)
  {
    RunAnnounced(INITIAL, steps);
  }

  predicate KnownLevels(steps: seq<Step>) {
    forall step :: step in steps && step.Dispatch? && step.event.MemPressure? ==> step.event.level <= 2
  }

  lemma KnownLevelStep(s: State, step: Step)
    requires s.level <= 2 && Enabled(s, step) && KnownLevels([step])
    ensures Apply(s, step).level <= 2
  {
    assert step in [step];
  }

  /** With levels 0, 1 and 2 only, every run keeps the order. */
  lemma {:induction false} KnownLevelsAnnounce(s: State, steps: seq<Step>)
    requires s.level <= 2 && Legal(s, steps) && KnownLevels(steps)
    ensures NoneUnannounced(s, steps)
    decreases |steps|
  {
    if steps != [] {
      assert steps[0] in steps;
      KnownLevelStep(s, steps[0]);
      KnownLevelsAnnounce(Apply(s, steps[0]), steps[1..]);
    }
  }

  /** An unknown level followed by level 0 publishes a recovery that no pressure preceded. */
  lemma UnknownLevelBreaksOrder()
    ensures var steps := [Dispatch(MemPressure(3)), Dispatch(MemPressure(0))];
            Legal(INITIAL, steps) && !Announced(Publications(Run(INITIAL, steps).trace))
  {
    var s0, s1 := Dispatch(MemPressure(3)), Dispatch(MemPressure(0));
    var steps := [s0, s1];
    var next := Apply(INITIAL, s0);
    assert steps[1..] == [s1] && [s1][1..] == [];
    assert Legal(Apply(next, s1), []);
    assert Legal(next, [s1]);
    assert Unannounced(next, s1);
    RecoveriesAnnounced(steps);
  }

  /** The timer of a medium level that follows a critical one leaves the node degraded at level 0. */
  lemma TimerLeavesDegraded()
    ensures var steps := [Dispatch(MemPressure(2)), Dispatch(MemPressure(1)), TimerFires(2)];
            Legal(INITIAL, steps) && var s := Run(INITIAL, steps); s.level == 0 && s.memoryDegraded && s.degraded
  {
    var s0, s1, s2 := Dispatch(MemPressure(2)), Dispatch(MemPressure(1)), TimerFires(2);
    var steps := [s0, s1, s2];
    var t1 := Apply(INITIAL, s0);
    var t2 := Apply(t1, s1);
    var t3 := Apply(t2, s2);
    assert steps[1..] == [s1, s2] && [s1, s2][1..] == [s2] && [s2][1..] == [];
    assert Legal(t3, []) && Run(t3, []) == t3;
    assert Legal(t2, [s2]) && Run(t2, [s2]) == t3;
    assert Legal(t1, [s1, s2]) && Run(t1, [s1, s2]) == t3;
  }
}
