/** The mutex-guarded slow-I/O recovery state and the lock sections that change it. */
module SlowIoSections {
  import opened Encoding

  datatype SlowIo = SlowIo(active: bool, generation: nat, workerRunning: bool)

  datatype WakeOutcome = Stopped | SleepAgain | Recovered

  const CALM := SlowIo(false, 0, false)

  /** `mark_slow_io_degraded_for`: the second component says whether the caller has to start a worker. */
  function MarkSection(s: SlowIo): (SlowIo, bool) {
    (SlowIo(true, Wrapped(s.generation + 1), true), !s.workerRunning)
  }

  /** The worker after its cooldown. */
  function WakeSection(s: SlowIo, observed: nat): (SlowIo, WakeOutcome) {
    if !s.active then (s.(workerRunning := false), Stopped)
    else if s.generation != observed then (s, SleepAgain)
    else (s.(active := false, workerRunning := false), Recovered)
  }

  /** `exit_degraded_mode`: the worker is left to notice on its own. */
  function ExitSection(s: SlowIo): SlowIo {
    s.(active := false, generation := Wrapped(s.generation + 1))
  }
}
