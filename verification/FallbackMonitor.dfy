/**
 The memory-pressure sampling of the userspace fallback monitor, as the only source of pressure
 events of a dispatcher.  It dispatches a level only when it differs from the last one it sampled.
 */
module FallbackMonitor {
  import opened Wrappers
  import opened RecoveryActions

  /** Free pages are classified by the two thresholds; the critical one is tested first. */
  function PressureLevel(availableKb: nat, critical: nat, low: nat): (level: nat)
    ensures level <= 2
  {
    var freePages := availableKb * 1024 / 4096;
    if freePages < critical then 2 else if freePages < low then 1 else 0
  }

  datatype System = System(state: State, sampled: nat)

  /** One tick; `None` is a failed read of the memory statistics. */
  function Sample(s: System, availableKb: Option<nat>, critical: nat, low: nat): System {
    match availableKb
    case None => s
    case Some(kb) =>
      var level := PressureLevel(kb, critical, low);
      if level == s.sampled then s else System(OnEvent(s.state, MemPressure(level)), level)
  }

  class Monitor {
    const critical: nat
    const low: nat
    var lastPressureLevel: nat

    constructor (critical: nat, low: nat)
      ensures lastPressureLevel == 0 && this.critical == critical && this.low == low
    {
      this.critical, this.low := critical, low;
      lastPressureLevel := 0;
    }

    method SampleMemory(dispatcher: ActionDispatcher, availableKb: Option<nat>)
      modifies this, dispatcher
      ensures System(dispatcher.View(), lastPressureLevel)
           == Sample(old(System(dispatcher.View(), lastPressureLevel)), availableKb, critical, low)
    {
      if availableKb.Some? {
        var level := PressureLevel(availableKb.value, critical, low);
        if level != lastPressureLevel {
          dispatcher.Dispatch(MemPressure(level));
          lastPressureLevel := level;
        }
      }
    }
  }

  /** A tick of the fallback, or any step of the dispatcher that is not a pressure event. */
  datatype Move = Tick(availableKb: Option<nat>) | Other(step: Step)

  predicate Enabled(s: System, move: Move) {
    move.Other? ==>
      RecoveryActions.Enabled(s.state, move.step) && !(move.step.Dispatch? && move.step.event.MemPressure?)
  }

  function Apply(s: System, move: Move, critical: nat, low: nat): System
    requires Enabled(s, move)
  {
    match move
    case Tick(availableKb) => Sample(s, availableKb, critical, low)
    case Other(step) => s.(state := RecoveryActions.Apply(s.state, step))
  }

  predicate Legal(s: System, moves: seq<Move>, critical: nat, low: nat)
    decreases |moves|
  {
    moves == [] || (Enabled(s, moves[0]) && Legal(Apply(s, moves[0], critical, low), moves[1..], critical, low))
  }

  function Run(s: System, moves: seq<Move>, critical: nat, low: nat): System
    requires Legal(s, moves, critical, low)
    decreases |moves|
  {
    if moves == [] then s else Run(Apply(s, moves[0], critical, low), moves[1..], critical, low)
  }

  /** The dispatcher's level is the sampled one, or 0 after the timer of a medium level elapsed. */
  ghost predicate Agree(s: System) {
    && (s.state.level == s.sampled || (s.state.level == 0 && s.sampled == 1))
    && (s.sampled == 0 ==> !s.state.memoryDegraded)
  }

  lemma SampleAgrees(s: System, availableKb: Option<nat>, critical: nat, low: nat)
    requires Agree(s)
    ensures Agree(Sample(s, availableKb, critical, low))
  {
    if availableKb.Some? { LevelTaken(s.state, PressureLevel(availableKb.value, critical, low)); }
  }

  lemma LevelTaken(s: State, level: nat)
    ensures OnMemPressure(s, level).level == level && (level == 0 ==> !OnMemPressure(s, level).memoryDegraded)
  {
  }

  /** No other event touches the level or brings memory pressure. */
  lemma EventAgrees(s: State, event: Event)
    requires !event.MemPressure?
    ensures OnEvent(s, event).level == s.level && OnEvent(s, event).memoryDegraded == s.memoryDegraded
  {
  }

  lemma MoveAgrees(s: System, move: Move, critical: nat, low: nat)
    requires Agree(s) && Enabled(s, move)
    ensures Agree(Apply(s, move, critical, low))
  {
    match move
    case Tick(availableKb) => SampleAgrees(s, availableKb, critical, low);
    case Other(step) => if step.Dispatch? { EventAgrees(s.state, step.event); }
  }

  lemma {:induction false} RunAgrees(s: System, moves: seq<Move>, critical: nat, low: nat)
    requires Agree(s) && Legal(s, moves, critical, low)
    ensures Agree(Run(s, moves, critical, low))
    decreases |moves|
  {
    if moves != [] {
      MoveAgrees(s, moves[0], critical, low);
      RunAgrees(Apply(s, moves[0], critical, low), moves[1..], critical, low);
    }
  }

  /**
   In every run with the fallback as only pressure source, the dispatcher's level is the last sampled
   level, or 0 while that is 1; and once the sampled level is 0 no memory pressure keeps the node degraded.
   */
  lemma FallbackAgreesWithDispatcher(moves: seq<Move>, critical: nat, low: nat)
    requires Legal(System(INITIAL, 0), moves, critical, low)
    ensures var s := Run(System(INITIAL, 0), moves, critical, low);
            && (s.state.level == s.sampled || (s.state.level == 0 && s.sampled == 1))
            && (s.sampled == 0 ==> !s.state.memoryDegraded)
  {
    RunAgrees(System(INITIAL, 0), moves, critical, low);
  }

  // ----- What is sampled and dispatched -----

  /** A page has 4096 bytes: four kilobytes. */
  lemma LevelByKilobytes(availableKb: nat, critical: nat, low: nat)
    ensures PressureLevel(availableKb, critical, low) ==
      if availableKb < 4 * critical then 2 else if availableKb < 4 * low then 1 else 0
  {
  }

  /** The level of the last sample that could be read, 0 before the first. */
  function LastSampled(moves: seq<Move>, critical: nat, low: nat): nat {
    if moves == [] then 0
    else
      match moves[|moves| - 1]
      case Tick(Some(kb)) => if kb < 4 * critical then 2 else if kb < 4 * low then 1 else 0
      case _ => LastSampled(moves[..|moves| - 1], critical, low)
  }

  /** How often the sampled level changed. */
  function Changes(moves: seq<Move>, critical: nat, low: nat): nat {
    if moves == [] then 0
    else
      var before := moves[..|moves| - 1];
      Changes(before, critical, low)
      + if LastSampled(moves, critical, low) != LastSampled(before, critical, low) then 1 else 0
  }

  lemma {:induction false} RunSplits(s: System, moves: seq<Move>, move: Move, critical: nat, low: nat)
    requires Legal(s, moves + [move], critical, low)
    ensures Legal(s, moves, critical, low)
    ensures var t := Run(s, moves, critical, low);
            Enabled(t, move) && Run(s, moves + [move], critical, low) == Apply(t, move, critical, low)
    decreases |moves|
  {
    var longer := moves + [move];
    if moves == [] {
      assert longer[1..] == [];
    } else {
      assert longer[1..] == moves[1..] + [move];
      RunSplits(Apply(s, moves[0], critical, low), moves[1..], move, critical, low);
    }
  }

  /** Only a pressure event counts as one. */
  lemma OtherCountsNothing(s: System, step: Step)
    requires Enabled(s, Other(step))
    ensures RecoveryActions.Apply(s.state, step).pressureEvents == s.state.pressureEvents
  {
  }

  lemma PressureCounts(s: State, level: nat)
    ensures OnEvent(s, MemPressure(level)).pressureEvents == s.pressureEvents + 1
  {
  }

  /** In every run, the monitor's level is that of the last readable sample, and only its changes are dispatched. */
  lemma {:induction false} ChangesAreDispatched(moves: seq<Move>, critical: nat, low: nat)
    requires Legal(System(INITIAL, 0), moves, critical, low)
    ensures var s := Run(System(INITIAL, 0), moves, critical, low);
            && s.sampled == LastSampled(moves, critical, low)
            && s.state.pressureEvents == Changes(moves, critical, low)
    decreases |moves|
  {
    if moves != [] {
      var before, move := moves[..|moves| - 1], moves[|moves| - 1];
      assert moves == before + [move];
      RunSplits(System(INITIAL, 0), before, move, critical, low);
      ChangesAreDispatched(before, critical, low);
      var s := Run(System(INITIAL, 0), before, critical, low);
      match move
      case Other(step) => OtherCountsNothing(s, step);
      case Tick(None) =>
      case Tick(Some(kb)) =>
        LevelByKilobytes(kb, critical, low);
        PressureCounts(s.state, PressureLevel(kb, critical, low));
    }
  }
}
