/**
 The slow-I/O half of degraded mode at the granularity of its lock sections and atomic accesses.

 Any number of threads run the bodies of `mark_slow_io_degraded_for`, of the memory-pressure stores,
 of `exit_degraded_mode` and of the recovery worker, interleaved between any two accesses of shared
 state.  The worker keeps the mutex from its wake-up until it returns, so while it is about to read
 `memory_pressure_degraded` or to swap `degraded_mode` no other thread is inside a lock section.
 */
module SlowIoWorker {

  import opened Encoding
  import opened SlowIoSections

  // ----- Threads -----

  datatype Pc =
    | MarkLock
    | RefreshLoad(spawn: bool)
    | RefreshLock(spawn: bool)
    | RefreshSwap(spawn: bool, should: bool)
    | Spawn
    | StoreMemory(value: bool)
    | ExitStore
    | ExitLock
    | ExitSwap
    | WorkerObserve
    | WorkerSleep(observed: nat, seen: nat, wakeAt: nat)
    | WorkerLoad
    | WorkerSwap
    | Done

  /**
   `bumps` counts the generation increments, `lastMark` is the time of the last mark; both are history.
   A sleeping worker's `seen` is the value of `bumps` when it observed the generation.
   */
  datatype State = State(
    cooldown: nat, now: nat, slow: SlowIo, memory: bool, degraded: bool,
    threads: map<nat, Pc>, bumps: nat, lastMark: nat)

  datatype Step = Start(t: nat, pc: Pc) | Move(t: nat) | Tick(dt: nat)

  predicate HoldsLock(pc: Pc) {
    pc.WorkerLoad? || pc.WorkerSwap?
  }

  predicate TakesLock(pc: Pc) {
    pc.MarkLock? || pc.RefreshLock? || pc.ExitLock? || pc.WorkerObserve? || pc.WorkerSleep?
  }

  /** The thread is the recovery worker or has undertaken to start it. */
  predicate Carries(pc: Pc) {
    match pc
    case RefreshLoad(spawn) => spawn
    case RefreshLock(spawn) => spawn
    case RefreshSwap(spawn, _) => spawn
    case Spawn => true
    case WorkerObserve => true
    case WorkerSleep(_, _, _) => true
    case _ => false
  }

  predicate LockFree(s: State) {
    forall t :: t in s.threads ==> !HoldsLock(s.threads[t])
  }

  /** A call from outside enters as a mark, a memory-pressure store followed by a refresh, or an exit. */
  predicate Entry(pc: Pc) {
    pc.MarkLock? || pc.StoreMemory? || pc.ExitStore?
  }

  predicate Enabled(s: State, step: Step) {
    match step
    case Start(t, pc) => t !in s.threads && Entry(pc)
    case Move(t) =>
      && t in s.threads && !s.threads[t].Done?
      && (TakesLock(s.threads[t]) ==> LockFree(s))
      && (s.threads[t].WorkerSleep? ==> s.threads[t].wakeAt <= s.now)
    case Tick(_) => true
  }

  function Apply(s: State, step: Step): State
    requires Enabled(s, step)
  {
    match step
    case Start(t, pc) => s.(threads := s.threads[t := pc])
    case Move(t) => MoveThread(s, t)
    case Tick(dt) => s.(now := s.now + dt)
  }

  function MoveThread(s: State, t: nat): State
    requires Enabled(s, Move(t))
  {
    match s.threads[t]
    case MarkLock =>
      var (slow, spawn) := MarkSection(s.slow);
      s.(slow := slow, bumps := s.bumps + 1, lastMark := s.now, threads := s.threads[t := RefreshLoad(spawn)])
    case RefreshLoad(spawn) =>
      s.(threads := s.threads[t := if s.memory then RefreshSwap(spawn, true) else RefreshLock(spawn)])
    case RefreshLock(spawn) =>
      s.(threads := s.threads[t := RefreshSwap(spawn, s.slow.active)])
    case RefreshSwap(spawn, should) =>
      s.(degraded := should, threads := s.threads[t := if spawn then Spawn else Done])
    case Spawn =>
      s.(threads := s.threads[t := WorkerObserve])
    case StoreMemory(value) =>
      s.(memory := value, threads := s.threads[t := RefreshLoad(false)])
    case ExitStore =>
      s.(memory := false, threads := s.threads[t := ExitLock])
    case ExitLock =>
      s.(slow := ExitSection(s.slow), bumps := s.bumps + 1, threads := s.threads[t := ExitSwap])
    case ExitSwap =>
      s.(degraded := false, threads := s.threads[t := Done])
    case WorkerObserve =>
      s.(threads := s.threads[t := WorkerSleep(s.slow.generation, s.bumps, s.now + s.cooldown)])
    case WorkerSleep(observed, _, _) =>
      var (slow, outcome) := WakeSection(s.slow, observed);
      var next := match outcome case Stopped => Done case SleepAgain => WorkerObserve case Recovered => WorkerLoad;
      s.(slow := slow, threads := s.threads[t := next])
    case WorkerLoad =>
      s.(threads := s.threads[t := if s.memory then Done else WorkerSwap])
    case WorkerSwap =>
      s.(degraded := false, threads := s.threads[t := Done])
  }

  function Init(cooldown: nat): State {
    State(cooldown, 0, CALM, false, false, map[], 0, 0)
  }

  predicate Legal(s: State, steps: seq<Step>)
    decreases |steps|
  {
    steps == [] || (Enabled(s, steps[0]) && Legal(Apply(s, steps[0]), steps[1..]))
  }

  function Run(s: State, steps: seq<Step>): State
    requires Legal(s, steps)
    decreases |steps|
  {
    if steps == [] then s else Run(Apply(s, steps[0]), steps[1..])
  }

  // ----- The invariant -----

  /** `worker_running` says exactly whether there is a worker, started or about to be, and there is one at most. */
  ghost predicate OneWorker(running: bool, threads: map<nat, Pc>) {
    && (forall t, u :: t in threads && u in threads && Carries(threads[t]) && Carries(threads[u]) ==> t == u)
    && (running <==> exists t :: t in threads && Carries(threads[t]))
  }

  /** What a sleeping worker knows; its alarm is a cooldown after the last mark if nothing happened since. */
  ghost predicate SleepInv(s: State, pc: Pc)
    requires pc.WorkerSleep?
  {
    && pc.observed == Wrapped(pc.seen)
    && pc.seen <= s.bumps
    && (pc.seen == s.bumps ==> s.lastMark + s.cooldown <= pc.wakeAt)
  }

  ghost predicate Inv(s: State) {
    && OneWorker(s.slow.workerRunning, s.threads)
    && (s.slow.active ==> s.slow.workerRunning)
    && s.slow.generation == Wrapped(s.bumps)
    && s.lastMark <= s.now
    && (forall t :: t in s.threads && s.threads[t].WorkerSleep? ==> SleepInv(s, s.threads[t]))
  }

  /** Thread `t` moves on to `pc`; the flag follows if that makes it a carrier or ends its being one. */
  lemma MoveKeepsOneWorker(running: bool, threads: map<nat, Pc>, t: nat, pc: Pc, running': bool)
    requires OneWorker(running, threads)
    requires var carried := t in threads && Carries(threads[t]);
             && (carried == Carries(pc) ==> running' == running)
             && (carried && !Carries(pc) ==> !running')
             && (!carried && Carries(pc) ==> !running && running')
    ensures OneWorker(running', threads[t := pc])
  {
    var threads' := threads[t := pc];
    if Carries(pc) {
      assert t in threads' && Carries(threads'[t]);
    } else if running' {
      var u :| u in threads && Carries(threads[u]);
      assert u in threads' && Carries(threads'[u]);
    }
  }

  /** A move changes one thread, and the flag as that thread's being a carrier. */
  lemma MoveEffect(s: State, t: nat)
    requires Enabled(s, Move(t)) && (Carries(s.threads[t]) ==> s.slow.workerRunning)
    ensures var s' := MoveThread(s, t);
            var carried, carries := Carries(s.threads[t]), Carries(s'.threads[t]);
            && s'.threads == s.threads[t := s'.threads[t]]
            && (carried == carries ==> s'.slow.workerRunning == s.slow.workerRunning)
            && (carried && !carries ==> !s'.slow.workerRunning)
            && (!carried && carries ==> !s.slow.workerRunning && s'.slow.workerRunning)
  {
  }

  lemma StepOneWorker(s: State, step: Step)
    requires OneWorker(s.slow.workerRunning, s.threads) && Enabled(s, step)
    ensures var s' := Apply(s, step); OneWorker(s'.slow.workerRunning, s'.threads)
  {
    match step
    case Start(t, pc) =>
      MoveKeepsOneWorker(s.slow.workerRunning, s.threads, t, pc, s.slow.workerRunning);
    case Move(t) =>
      MoveEffect(s, t);
      var s' := MoveThread(s, t);
      MoveKeepsOneWorker(s.slow.workerRunning, s.threads, t, s'.threads[t], s'.slow.workerRunning);
    case Tick(_) =>
  }

  /** Counters only grow, and a mark is at the present time. */
  lemma MoveCounters(s: State, t: nat)
    requires Enabled(s, Move(t)) && s.slow.generation == Wrapped(s.bumps) && s.lastMark <= s.now
    requires (s.slow.active ==> s.slow.workerRunning) && (Carries(s.threads[t]) ==> s.slow.workerRunning)
    ensures var s' := MoveThread(s, t);
            && s'.slow.generation == Wrapped(s'.bumps) && s'.now == s.now && s'.cooldown == s.cooldown
            && s.bumps <= s'.bumps && s'.lastMark <= s'.now
            && (s'.bumps == s.bumps ==> s'.lastMark == s.lastMark)
            && (s'.slow.active ==> s'.slow.workerRunning)
  {
  }

  lemma MoveSleeper(s: State, t: nat)
    requires Enabled(s, Move(t)) && s.slow.generation == Wrapped(s.bumps) && s.lastMark <= s.now
    ensures var s' := MoveThread(s, t);
            s'.threads[t].WorkerSleep? ==> s'.bumps == s.bumps && SleepInv(s', s'.threads[t])
  {
  }

  lemma StepSleepInv(s: State, step: Step)
    requires Inv(s) && Enabled(s, step)
    ensures var s' := Apply(s, step);
            forall t :: t in s'.threads && s'.threads[t].WorkerSleep? ==> SleepInv(s', s'.threads[t])
  {
    if step.Move? {
      MoveEffect(s, step.t);
      MoveCounters(s, step.t);
      MoveSleeper(s, step.t);
    }
  }

  lemma StepInv(s: State, step: Step)
    requires Inv(s) && Enabled(s, step)
    ensures Inv(Apply(s, step))
  {
    StepOneWorker(s, step);
    StepSleepInv(s, step);
    if step.Move? { MoveCounters(s, step.t); }
  }

  lemma {:induction false} RunInv(s: State, steps: seq<Step>)
    requires Inv(s) && Legal(s, steps)
    ensures Inv(Run(s, steps))
    decreases |steps|
  {
    if steps != [] {
      StepInv(s, steps[0]);
      RunInv(Apply(s, steps[0]), steps[1..]);
    }
  }

  /**
   In every interleaving: at most one worker exists, started or about to be; `worker_running` holds
   exactly when there is one; and slow-I/O degradation is never active without one.
   */
  lemma WorkerRunningIsExact(cooldown: nat, steps: seq<Step>)
    requires Legal(Init(cooldown), steps)
    ensures var s := Run(Init(cooldown), steps);
            && (forall t, u ::
                  t in s.threads && u in s.threads && Carries(s.threads[t]) && Carries(s.threads[u]) ==> t == u)
            && (s.slow.workerRunning <==> exists t :: t in s.threads && Carries(s.threads[t]))
            && (s.slow.active ==> s.slow.workerRunning)
  {
    RunInv(Init(cooldown), steps);
  }

  lemma SameResidue(a: nat, b: nat)
    requires a <= b < a + WRAP && Wrapped(a) == Wrapped(b)
    ensures a == b
  {
  }

  /**
   In every interleaving: if the worker `t` wakes up with fewer than 2^64 generation bumps since it
   looked, it ends the degradation exactly when it is still active and nothing marked or exited since
   it looked; and then the last mark is at least a full cooldown old.
   */
  lemma RecoversOnlyAfterQuietCooldown(cooldown: nat, steps: seq<Step>, t: nat)
    requires Legal(Init(cooldown), steps)
    requires var s := Run(Init(cooldown), steps);
             Enabled(s, Move(t)) && s.threads[t].WorkerSleep? && s.bumps < s.threads[t].seen + WRAP
    ensures var s := Run(Init(cooldown), steps);
            var s' := Apply(s, Move(t));
            && (s.slow.active && !s'.slow.active <==> s.slow.active && s.bumps == s.threads[t].seen)
            && (s.slow.active && !s'.slow.active ==> s.lastMark + cooldown <= s.now)
            && (s.slow.active && s'.slow.active ==> s'.threads[t].WorkerObserve? && s'.slow == s.slow)
  {
    RunInv(Init(cooldown), steps);
    CooldownKept(Init(cooldown), steps);
    var s := Run(Init(cooldown), steps);
    var pc := s.threads[t];
    assert SleepInv(s, pc);
    if pc.observed == s.slow.generation { SameResidue(pc.seen, s.bumps); }
  }

  lemma {:induction false} CooldownKept(s: State, steps: seq<Step>)
    requires Legal(s, steps)
    ensures Run(s, steps).cooldown == s.cooldown
    decreases |steps|
  {
    if steps != [] { CooldownKept(Apply(s, steps[0]), steps[1..]); }
  }

  /** No step except a worker's wake-up or a manual exit ends an active degradation. */
  lemma OnlyWorkerOrExitRecovers(s: State, step: Step)
    requires Enabled(s, step) && s.slow.active && !Apply(s, step).slow.active
    ensures step.Move? && (s.threads[step.t].WorkerSleep? || s.threads[step.t].ExitLock?)
  {
  }

  /**
   What changes the causes, and to what: a mark turns slow I/O on and restarts the cooldown, a manual exit
   turns both causes off, a memory event stores its value, and the worker only ends what it saw unchanged.
   */
  lemma CausesChange(s: State, step: Step)
    requires Inv(s) && Enabled(s, step)
    ensures var s' := Apply(s, step);
            var pc := if step.Move? then s.threads[step.t] else Done;
            && s'.memory == (if pc.StoreMemory? then pc.value else s.memory && !pc.ExitStore?)
            && s'.slow.active ==
                 (pc.MarkLock? || (s.slow.active && !pc.ExitLock?
                                   && (pc.WorkerSleep? ==> s.slow.generation != pc.observed)))
            && (pc.MarkLock? ==> s'.lastMark == s.now && s'.bumps == s.bumps + 1)
            && (pc.WorkerObserve? ==> s'.threads[step.t] == WorkerSleep(s.slow.generation, s.bumps, s.now + s.cooldown))
            && (s'.degraded != s.degraded ==> pc.RefreshSwap? || pc.ExitSwap? || pc.WorkerSwap?)
  {
  }

  // ----- When the degraded flag follows its causes -----

  /** The thread has yet to write the flag. */
  predicate Pending(pc: Pc) {
    match pc
    case RefreshLoad(_) => true
    case RefreshLock(_) => true
    case RefreshSwap(_, _) => true
    case ExitLock => true
    case ExitSwap => true
    case WorkerLoad => true
    case WorkerSwap => true
    case _ => false
  }

  /** What the thread has read of the causes, or done to them, does not make it write the flag wrongly. */
  predicate Informed(pc: Pc, memory: bool, active: bool) {
    match pc
    case RefreshLock(_) => memory ==> active
    case RefreshSwap(_, should) => should == (memory || active)
    case ExitLock => !memory
    case ExitSwap => !memory && !active
    case WorkerLoad => !active
    case WorkerSwap => !memory && !active
    case _ => true
  }

  /** No other thread loses its grounds by this step. */
  ghost predicate Undisturbed(s: State, step: Step)
    requires Enabled(s, step)
  {
    var s' := Apply(s, step);
    step.Move? ==>
      forall u :: u in s.threads && u != step.t && Informed(s.threads[u], s.memory, s.slow.active) ==>
        Informed(s.threads[u], s'.memory, s'.slow.active)
  }

  ghost predicate AllUndisturbed(s: State, steps: seq<Step>)
    requires Legal(s, steps)
    decreases |steps|
  {
    steps == [] || (Undisturbed(s, steps[0]) && AllUndisturbed(Apply(s, steps[0]), steps[1..]))
  }

  /** Nobody but a worker that may find nothing to do has yet to write the flag. */
  ghost predicate OnlyWorkerPending(threads: map<nat, Pc>) {
    forall t :: t in threads && Pending(threads[t]) ==> threads[t].WorkerLoad?
  }

  ghost predicate Settled(threads: map<nat, Pc>) {
    forall t :: t in threads ==> !Pending(threads[t])
  }

  ghost predicate FlagInv(s: State) {
    && (forall t :: t in s.threads ==> Informed(s.threads[t], s.memory, s.slow.active))
    && (OnlyWorkerPending(s.threads) && (s.memory || s.slow.active) ==> s.degraded)
    && (Settled(s.threads) && s.degraded ==> s.memory || s.slow.active)
  }

  lemma MoveKeepsInformed(s: State, t: nat)
    requires FlagInv(s) && Enabled(s, Move(t)) && Undisturbed(s, Move(t))
    ensures var s' := MoveThread(s, t);
            forall u :: u in s'.threads ==> Informed(s'.threads[u], s'.memory, s'.slow.active)
  {
    var s' := MoveThread(s, t);
    assert s'.threads == s.threads[t := s'.threads[t]];
    assert Informed(s.threads[t], s.memory, s.slow.active);
  }

  lemma MoveKeepsFlag(s: State, t: nat)
    requires FlagInv(s) && Enabled(s, Move(t))
    ensures var s' := MoveThread(s, t);
            && (OnlyWorkerPending(s'.threads) && (s'.memory || s'.slow.active) ==> s'.degraded)
            && (Settled(s'.threads) && s'.degraded ==> s'.memory || s'.slow.active)
  {
    var s' := MoveThread(s, t);
    assert s'.threads == s.threads[t := s'.threads[t]];
    assert Informed(s.threads[t], s.memory, s.slow.active);
    assert forall u :: u in s.threads && u != t ==> s'.threads[u] == s.threads[u];
  }

  lemma StepFlagInv(s: State, step: Step)
    requires FlagInv(s) && Enabled(s, step) && Undisturbed(s, step)
    ensures FlagInv(Apply(s, step))
  {
    match step
    case Start(t, pc) =>
      var s' := Apply(s, step);
      assert forall u :: u in s.threads ==> s'.threads[u] == s.threads[u];
    case Move(t) =>
      MoveKeepsInformed(s, t);
      MoveKeepsFlag(s, t);
    case Tick(_) =>
  }

  lemma {:induction false} RunFlagInv(s: State, steps: seq<Step>)
    requires FlagInv(s) && Legal(s, steps) && AllUndisturbed(s, steps)
    ensures FlagInv(Run(s, steps))
    decreases |steps|
  {
    if steps != [] {
      StepFlagInv(s, steps[0]);
      RunFlagInv(Apply(s, steps[0]), steps[1..]);
    }
  }

  /**
   In every interleaving in which no step takes away the grounds of another thread, the degraded flag is on
   exactly while memory pressure or slow I/O requires it, whenever no thread has yet to write it.
   */
  lemma FlagFollowsCauses(cooldown: nat, steps: seq<Step>)
    requires Legal(Init(cooldown), steps) && AllUndisturbed(Init(cooldown), steps)
    ensures var s := Run(Init(cooldown), steps);
            Settled(s.threads) ==> s.degraded == (s.memory || s.slow.active)
  {
    RunFlagInv(Init(cooldown), steps);
  }

  // ----- Where it does not -----

  lemma {:induction false} Extend(s: State, steps: seq<Step>, step: Step)
    requires Legal(s, steps) && Enabled(Run(s, steps), step)
    ensures Legal(s, steps + [step]) && Run(s, steps + [step]) == Apply(Run(s, steps), step)
    decreases |steps|
  {
    var longer := steps + [step];
    if steps == [] {
      assert longer[1..] == [];
    } else {
      Extend(Apply(s, steps[0]), steps[1..], step);
      assert longer[1..] == steps[1..] + [step];
    }
  }

  /** `path` leads from `s` to `end` without a disturbance. */
  ghost predicate Calm(s: State, path: seq<Step>, end: State) {
    Legal(s, path) && AllUndisturbed(s, path) && Run(s, path) == end
  }

  lemma {:induction false} ExtendCalm(s: State, path: seq<Step>, mid: State, step: Step) returns (longer: seq<Step>)
    requires Calm(s, path, mid) && Enabled(mid, step) && Undisturbed(mid, step)
    ensures Calm(s, longer, Apply(mid, step))
    decreases |path|
  {
    if path == [] {
      longer := [step];
      assert longer[1..] == [];
    } else {
      var rest := ExtendCalm(Apply(s, path[0]), path[1..], mid, step);
      longer := [path[0]] + rest;
      assert longer[1..] == rest;
    }
  }

  /** What slow I/O is after the thread is through. */
  predicate ActiveAfter(pc: Pc, active: bool) {
    active && !pc.ExitLock?
  }

  /** What the flag is after the thread is through, alone. */
  predicate FlagAfter(pc: Pc, memory: bool, active: bool, degraded: bool) {
    match pc
    case RefreshLoad(_) => memory || active
    case RefreshLock(_) => active
    case RefreshSwap(_, should) => should
    case WorkerLoad => memory && degraded
    case _ => false
  }

  /** Before it is through, the thread has to take the lock. */
  predicate NeedsLock(pc: Pc, memory: bool) {
    pc.RefreshLock? || pc.ExitLock? || (pc.RefreshLoad? && !memory)
  }

  /** Thread `t` can run to its end: its locks are free, and its clearing of slow I/O disturbs nobody. */
  ghost predicate CanFinish(s: State, t: nat) {
    && t in s.threads && Pending(s.threads[t])
    && (NeedsLock(s.threads[t], s.memory) ==> forall v :: v in s.threads && v != t ==> !HoldsLock(s.threads[v]))
    && (s.threads[t].ExitLock? && s.slow.active ==> forall v :: v in s.threads && v != t ==> !Pending(s.threads[v]))
  }

  /** Thread `t` is through, and nothing else has moved. */
  ghost predicate Finished(s: State, t: nat, end: State)
    requires t in s.threads
  {
    && t in end.threads && !Pending(end.threads[t]) && end.threads == s.threads[t := end.threads[t]]
    && end.memory == s.memory && end.slow.active == ActiveAfter(s.threads[t], s.slow.active)
    && end.degraded == FlagAfter(s.threads[t], s.memory, s.slow.active, s.degraded)
  }

  /** How many moves the thread has left before it is through. */
  function Left(pc: Pc): nat {
    match pc
    case RefreshLoad(_) => 3
    case RefreshLock(_) => 2
    case RefreshSwap(_, _) => 1
    case ExitLock => 2
    case ExitSwap => 1
    case WorkerLoad => 2
    case WorkerSwap => 1
    case _ => 0
  }

  lemma FinishEnabled(s: State, t: nat)
    requires CanFinish(s, t)
    ensures Enabled(s, Move(t)) && Undisturbed(s, Move(t))
  {
  }

  lemma FinishMove(s: State, t: nat)
    requires CanFinish(s, t) && Enabled(s, Move(t))
    ensures var s' := MoveThread(s, t);
            && Left(s'.threads[t]) < Left(s.threads[t])
            && (if Pending(s'.threads[t]) then CanFinish(s', t) else Finished(s, t, s'))
            && s'.threads == s.threads[t := s'.threads[t]]
            && s'.memory == s.memory
  {
  }

  lemma FinishLater(s: State, t: nat, end: State)
    requires CanFinish(s, t) && Enabled(s, Move(t))
    requires var s' := MoveThread(s, t);
             && Pending(s'.threads[t]) && Finished(s', t, end)
             && s'.threads == s.threads[t := s'.threads[t]] && s'.memory == s.memory
    ensures Finished(s, t, end)
  {
  }

  lemma {:induction false} Finish(s: State, path: seq<Step>, mid: State, t: nat) returns (longer: seq<Step>, end: State)
    requires Calm(s, path, mid) && CanFinish(mid, t)
    ensures Calm(s, longer, end) && Finished(mid, t, end)
    decreases Left(mid.threads[t])
  {
    FinishEnabled(mid, t);
    FinishMove(mid, t);
    end := MoveThread(mid, t);
    longer := ExtendCalm(s, path, mid, Move(t));
    if Pending(end.threads[t]) {
      longer, end := Finish(s, longer, end, t);
      FinishLater(mid, t, end);
    }
  }

  /** Every calm way on from `s` that leaves no thread with a write to do has the flag right. */
  ghost predicate EndsRight(s: State) {
    forall rest, end ::
      Calm(s, rest, end) && Settled(end.threads) ==> end.degraded == (end.memory || end.slow.active)
  }

  /** The move of `t` takes the grounds of `u` away. */
  predicate Disturbs(s: State, t: nat, u: nat)
    requires Enabled(s, Move(t)) && u in s.threads
  {
    var s' := MoveThread(s, t);
    u != t && Informed(s.threads[u], s.memory, s.slow.active) && !Informed(s.threads[u], s'.memory, s'.slow.active)
  }

  /** After a disturbing move of `t`, first `t` and then `u` can run to its end, and `u` writes the flag wrongly. */
  lemma DisturbedWritesLast(s: State, t: nat, u: nat)
    requires Enabled(s, Move(t)) && Informed(s.threads[t], s.memory, s.slow.active)
    requires u in s.threads && Disturbs(s, t, u)
    requires forall v :: v in s.threads && v != t && v != u ==> !Pending(s.threads[v])
    ensures var s' := MoveThread(s, t);
            && CanFinish(s', t)
            && (forall mid :: Finished(s', t, mid) ==> CanFinish(mid, u))
            && (forall mid, end :: Finished(s', t, mid) && Finished(mid, u, end) ==>
                  Settled(end.threads) && end.degraded != (end.memory || end.slow.active))
  {
    var s' := MoveThread(s, t);
    assert s'.threads == s.threads[t := s'.threads[t]];
  }

  /**
   After any undisturbed run, and while only one other thread has the flag to write, a move takes nobody's
   grounds away if and only if every calm way on from it has the flag right in the end.
   */
  lemma UndisturbedIffEndsRight(cooldown: nat, steps: seq<Step>, t: nat, u: nat)
    requires Legal(Init(cooldown), steps) && AllUndisturbed(Init(cooldown), steps)
    requires var s := Run(Init(cooldown), steps);
             && Enabled(s, Move(t)) && u in s.threads
             && forall v :: v in s.threads && v != t && v != u ==> !Pending(s.threads[v])
    ensures var s := Run(Init(cooldown), steps); Undisturbed(s, Move(t)) <==> EndsRight(MoveThread(s, t))
  {
    RunFlagInv(Init(cooldown), steps);
    var s := Run(Init(cooldown), steps);
    var s' := MoveThread(s, t);
    if Undisturbed(s, Move(t)) {
      StepFlagInv(s, Move(t));
      forall rest, end | Calm(s', rest, end) && Settled(end.threads)
        ensures end.degraded == (end.memory || end.slow.active)
      {
        RunFlagInv(s', rest);
      }
    } else {
      assert Disturbs(s, t, u);
      DisturbedWritesLast(s, t, u);
      assert Calm(s', [], s');
      var path, mid := Finish(s', [], s', t);
      var rest, end := Finish(s', path, mid, u);
      assert Calm(s', rest, end);
    }
  }

  /** A mark spawns its worker, which falls asleep ... */
  const MARKED: seq<Step> := [Start(0, MarkLock)] + [Move(0)] + [Move(0)] + [Move(0)]

  const ASLEEP: seq<Step> := MARKED + [Move(0)] + [Move(0)] + [Move(0)]

  /** ... wakes up after a full cooldown and sees no memory pressure ... */
  function WorkerAboutToClear(cooldown: nat): seq<Step> {
    ASLEEP + [Tick(cooldown)] + [Move(0)] + [Move(0)]
  }

  /** ... and then a critical memory event runs to its end ... */
  function Refreshed(cooldown: nat): seq<Step> {
    WorkerAboutToClear(cooldown) + [Start(1, StoreMemory(true))] + [Move(1)] + [Move(1)]
  }

  /** ... before the worker clears the flag. */
  function Race(cooldown: nat): seq<Step> {
    Refreshed(cooldown) + [Move(1)] + [Move(0)]
  }

  lemma MarkedRuns(cooldown: nat)
    ensures Legal(Init(cooldown), MARKED)
    ensures Run(Init(cooldown), MARKED)
         == State(cooldown, 0, SlowIo(true, 1, true), false, false, map[0 := RefreshSwap(true, true)], 1, 0)
  {
    var s := Init(cooldown);
    var path: seq<Step> := [];
    Extend(s, path, Start(0, MarkLock));
    path := path + [Start(0, MarkLock)];
    Extend(s, path, Move(0));
    path := path + [Move(0)];
    Extend(s, path, Move(0));
    path := path + [Move(0)];
    Extend(s, path, Move(0));
    assert path + [Move(0)] == MARKED;
  }

  lemma AsleepRuns(cooldown: nat)
    ensures Legal(Init(cooldown), ASLEEP)
    ensures Run(Init(cooldown), ASLEEP)
         == State(cooldown, 0, SlowIo(true, 1, true), false, true, map[0 := WorkerSleep(1, 1, cooldown)], 1, 0)
  {
    var s := Init(cooldown);
    MarkedRuns(cooldown);
    var path := MARKED;
    Extend(s, path, Move(0));
    path := path + [Move(0)];
    Extend(s, path, Move(0));
    path := path + [Move(0)];
    Extend(s, path, Move(0));
  }

  lemma WorkerAboutToClearRuns(cooldown: nat)
    ensures Legal(Init(cooldown), WorkerAboutToClear(cooldown))
    ensures Run(Init(cooldown), WorkerAboutToClear(cooldown)).threads == map[0 := WorkerSwap]
  {
    var s := Init(cooldown);
    AsleepRuns(cooldown);
    var path := ASLEEP;
    Extend(s, path, Tick(cooldown));
    path := path + [Tick(cooldown)];
    Extend(s, path, Move(0));
    path := path + [Move(0)];
    Extend(s, path, Move(0));
  }

  lemma RefreshedRuns(cooldown: nat)
    ensures Legal(Init(cooldown), Refreshed(cooldown))
    ensures var s := Run(Init(cooldown), Refreshed(cooldown));
            s.memory && s.threads == map[0 := WorkerSwap, 1 := RefreshSwap(false, true)]
  {
    var s := Init(cooldown);
    WorkerAboutToClearRuns(cooldown);
    var path := WorkerAboutToClear(cooldown);
    Extend(s, path, Start(1, StoreMemory(true)));
    path := path + [Start(1, StoreMemory(true))];
    Extend(s, path, Move(1));
    path := path + [Move(1)];
    Extend(s, path, Move(1));
  }

  /**
   The worker's load and swap share no lock with a memory-pressure store and its refresh.  This run
   ends with critical memory pressure recorded, every thread finished, and the degraded flag off.
   */
  lemma RaceLosesDegradedMode(cooldown: nat)
    ensures Legal(Init(cooldown), Race(cooldown))
    ensures var s := Run(Init(cooldown), Race(cooldown));
            s.memory && !s.degraded && forall t :: t in s.threads ==> s.threads[t].Done?
  {
    var s := Init(cooldown);
    RefreshedRuns(cooldown);
    var path := Refreshed(cooldown);
    Extend(s, path, Move(1));
    path := path + [Move(1)];
    Extend(s, path, Move(0));
  }

  /** That run breaks the condition of FlagFollowsCauses. */
  lemma RaceIsDisturbed(cooldown: nat)
    ensures Legal(Init(cooldown), Race(cooldown)) && !AllUndisturbed(Init(cooldown), Race(cooldown))
  {
    RaceLosesDegradedMode(cooldown);
    if AllUndisturbed(Init(cooldown), Race(cooldown)) {
      FlagFollowsCauses(cooldown, Race(cooldown));
    }
  }
}
