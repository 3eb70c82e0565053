/** The handle that owns the live configuration, and every run of updates, resets, crashes and restarts. */
module HotConfigHandle {
  import opened Wrappers
  import opened Encoding
  import opened HotConfiguration

  /** A saved snapshot reads back unless its float was saved as null, as infinities and NaN are. */
  predicate Readable(c: HotConfig) {
    c.gc.diskWarning.Num?
  }

  /** The configuration a start comes up with, if it does; a failed read counts as nothing saved. */
  function Opened(cold: HotConfig, stored: Option<HotConfig>, readOk: bool): Option<HotConfig> {
    if !readOk || stored.None? then Some(cold)
    else if Readable(stored.value) then stored
    else None
  }

  // ----- The handle -----

  /** The one row of the metadata table that holds the snapshot. */
  class MetaStore {
    var snapshot: Option<HotConfig>

    constructor ()
      ensures snapshot == None
    {
      snapshot := None;
    }

    /** A write is one transaction: when it fails nothing changes. */
    method Write(value: Option<HotConfig>, succeeds: bool)
      modifies this
      ensures snapshot == if succeeds then value else old(snapshot)
    {
      if succeeds {
        snapshot := value;
      }
    }
  }

  datatype Failure = Rejected(rules: seq<Rule>) | StorageFailed

  class Handle {
    var live: HotConfig
    const cold: HotConfig
    const store: MetaStore

    constructor (cold: HotConfig, live: HotConfig, store: MetaStore)
      ensures this.cold == cold && this.live == live && this.store == store
    {
      this.cold, this.live, this.store := cold, live, store;
    }

    static method Open(cold: HotConfig, store: MetaStore, readOk: bool) returns (handle: Option<Handle>)
      ensures store.snapshot == old(store.snapshot)
      ensures handle.Some? <==> Opened(cold, store.snapshot, readOk).Some?
      ensures handle.Some? ==>
        && fresh(handle.value) && handle.value.cold == cold && handle.value.store == store
        && Some(handle.value.live) == Opened(cold, store.snapshot, readOk)
    {
      var config := cold;
      if readOk && store.snapshot.Some? {
        if !Readable(store.snapshot.value) {
          return None;
        }
        config := store.snapshot.value;
      }
      var h := new Handle(cold, config, store);
      return Some(h);
    }

    method ApplyUpdate(u: Update, saves: bool) returns (r: Result<(), Failure>)
      modifies this, store
      ensures (live, store.snapshot) == OnUpdate(old(live), old(store.snapshot), u, saves)
      ensures r.Ok? <==> Valid(Merged(old(live), u)) && saves
      ensures r.Ok? ==> Updated(live, old(live), u) && store.snapshot == Some(live)
      ensures r.Err? ==> live == old(live) && store.snapshot == old(store.snapshot)
      ensures !Valid(Merged(old(live), u)) ==> r == Err(Rejected(BrokenRules(Merged(old(live), u))))
      ensures Valid(Merged(old(live), u)) && !saves ==> r == Err(StorageFailed)
    {
      var updated := Merge(live, u);
      MergeIsUpdate(live, u, updated);
      var verdict := Validate(updated);
      if verdict.Err? {
        return Err(Rejected(verdict.error));
      }
      store.Write(Some(updated), saves);
      if !saves {
        return Err(StorageFailed);
      }
      live := updated;
      return Ok(());
    }

    method Reset(deletes: bool) returns (r: Result<(), Failure>)
      modifies this, store
      ensures (live, store.snapshot) == OnReset(cold, old(live), old(store.snapshot), deletes)
      ensures r.Ok? <==> deletes
    {
      store.Write(None, deletes);
      if !deletes {
        return Err(StorageFailed);
      }
      live := cold;
      return Ok(());
    }
  }

  ghost function OnUpdate(live: HotConfig, stored: Option<HotConfig>, u: Update, saves: bool)
    : (HotConfig, Option<HotConfig>)
  {
    var updated := Merged(live, u);
    if Valid(updated) && saves then (updated, Some(updated)) else (live, stored)
  }

  ghost function OnReset(cold: HotConfig, live: HotConfig, stored: Option<HotConfig>, deletes: bool)
    : (HotConfig, Option<HotConfig>)
  {
    if deletes then (cold, None) else (live, stored)
  }

  // ----- Runs -----

  /**
   No live configuration while the node is down.  `log` holds the updates saved since the last reset.  A
   session is `blind` if its start could not read the snapshot there was, until a reset removes that.
   */
  datatype World = World(live: Option<HotConfig>, stored: Option<HotConfig>, log: seq<Update>, blind: bool)

  datatype Step =
    | Apply(update: Update, saves: bool)
    | Reset(deletes: bool)
    | DieAfterSave(update: Update)
    | DieAfterDelete
    | Die
    | Start(readOk: bool)

  ghost predicate Enabled(w: World, s: Step) {
    match s
    case DieAfterSave(u) => w.live.Some? && Valid(Merged(w.live.value, u))
    case Start(_) => w.live.None?
    case _ => w.live.Some?
  }

  ghost function Next(cold: HotConfig, w: World, s: Step): World
    requires Enabled(w, s)
  {
    match s
    case Apply(u, saves) =>
      var (live, stored) := OnUpdate(w.live.value, w.stored, u, saves);
      World(Some(live), stored, if Saves(w, s) then w.log + [u] else w.log, w.blind)
    case Reset(deletes) =>
      var (live, stored) := OnReset(cold, w.live.value, w.stored, deletes);
      World(Some(live), stored, if deletes then [] else w.log, w.blind && !deletes)
    case DieAfterSave(u) => World(None, OnUpdate(w.live.value, w.stored, u, true).1, w.log + [u], false)
    case DieAfterDelete => World(None, None, [], false)
    case Die => w.(live := None, blind := false)
    case Start(readOk) => w.(live := Opened(cold, w.stored, readOk), blind := !readOk && w.stored.Some?)
  }

  /** The step writes a new snapshot. */
  ghost predicate Saves(w: World, s: Step)
    requires Enabled(w, s)
  {
    s.DieAfterSave? || (s.Apply? && s.saves && Valid(Merged(w.live.value, s.update)))
  }

  const FRESH := World(None, None, [], false)

  ghost predicate Legal(cold: HotConfig, w: World, steps: seq<Step>)
    decreases |steps|
  {
    steps != [] ==> Enabled(w, steps[0]) && Legal(cold, Next(cold, w, steps[0]), steps[1..])
  }

  ghost function Run(cold: HotConfig, w: World, steps: seq<Step>): World
    requires Legal(cold, w, steps)
    decreases |steps|
  {
    if steps == [] then w else Run(cold, Next(cold, w, steps[0]), steps[1..])
  }

  // ----- Validity, whatever fails -----

  ghost predicate AllValid(w: World) {
    && (w.live.Some? ==> Valid(w.live.value))
    && (w.stored.Some? ==> Valid(w.stored.value))
  }

  lemma StepValid(cold: HotConfig, w: World, s: Step)
    requires Valid(cold) && AllValid(w) && Enabled(w, s)
    ensures AllValid(Next(cold, w, s))
  {
  }

  /** From a valid cold configuration, no run makes an invalid configuration live or saves one. */
  lemma {:induction false} AlwaysValid(cold: HotConfig, w: World, steps: seq<Step>)
    requires Valid(cold) && AllValid(w) && Legal(cold, w, steps)
    ensures AllValid(Run(cold, w, steps))
    decreases |steps|
  {
    if steps != [] {
      StepValid(cold, w, steps[0]);
      AlwaysValid(cold, Next(cold, w, steps[0]), steps[1..]);
    }
  }

  // ----- What is saved and what is live -----

  /** No blind session saves an update. */
  ghost predicate NoBlindSave(cold: HotConfig, w: World, steps: seq<Step>)
    requires Legal(cold, w, steps)
    decreases |steps|
  {
    steps == [] ||
    ((w.blind ==> !Saves(w, steps[0])) && NoBlindSave(cold, Next(cold, w, steps[0]), steps[1..]))
  }

  /** The snapshot is the cold configuration with the updates saved since the last reset. */
  ghost predicate SnapshotRight(cold: HotConfig, w: World) {
    && (w.stored.None? ==> w.log == [])
    && (w.stored.Some? ==> w.stored.value == Merged(cold, Combined(w.log)))
  }

  /** What is live is the snapshot, or else the cold configuration; a blind session runs on the cold one. */
  ghost predicate Inv(cold: HotConfig, w: World) {
    && SnapshotRight(cold, w)
    && (w.live.Some? ==> w.live.value == if w.blind then cold else Or(w.stored, cold))
    && (w.blind ==> w.stored.Some?)
  }

  lemma LiveIsMerged(cold: HotConfig, w: World)
    requires SnapshotRight(cold, w)
    ensures Or(w.stored, cold) == Merged(cold, Combined(w.log))
  {
    MergeNothing(cold);
  }

  lemma CombinedAppend(log: seq<Update>, u: Update)
    ensures Combined(log + [u]) == Compose(Combined(log), u)
  {
    assert (log + [u])[..|log|] == log;
  }

  lemma SavedUpdate(cold: HotConfig, w: World, u: Update)
    requires SnapshotRight(cold, w)
    ensures Merged(Or(w.stored, cold), u) == Merged(cold, Combined(w.log + [u]))
  {
    LiveIsMerged(cold, w);
    MergeTwice(cold, Combined(w.log), u);
    CombinedAppend(w.log, u);
  }

  lemma ApplyInv(cold: HotConfig, w: World, u: Update, saves: bool)
    requires Inv(cold, w) && w.live.Some? && (w.blind ==> !Saves(w, Apply(u, saves)))
    ensures Inv(cold, Next(cold, w, Apply(u, saves)))
  {
    SavedUpdate(cold, w, u);
  }

  lemma DieAfterSaveInv(cold: HotConfig, w: World, u: Update)
    requires Inv(cold, w) && Enabled(w, DieAfterSave(u)) && !w.blind
    ensures Inv(cold, Next(cold, w, DieAfterSave(u)))
  {
    SavedUpdate(cold, w, u);
  }

  /** Steps that save nothing. */
  lemma RestInv(cold: HotConfig, w: World, s: Step)
    requires Inv(cold, w) && Enabled(w, s) && !s.Apply? && !s.DieAfterSave?
    ensures Inv(cold, Next(cold, w, s))
  {
  }

  lemma StepInv(cold: HotConfig, w: World, s: Step)
    requires Inv(cold, w) && Enabled(w, s) && (w.blind ==> !Saves(w, s))
    ensures Inv(cold, Next(cold, w, s))
  {
    match s
    case Apply(u, saves) => ApplyInv(cold, w, u, saves);
    case DieAfterSave(u) => DieAfterSaveInv(cold, w, u);
    case _ => RestInv(cold, w, s);
  }

  lemma {:induction false} RunInv(cold: HotConfig, w: World, steps: seq<Step>)
    requires Inv(cold, w) && Legal(cold, w, steps) && NoBlindSave(cold, w, steps)
    ensures Inv(cold, Run(cold, w, steps))
    decreases |steps|
  {
    if steps != [] {
      StepInv(cold, w, steps[0]);
      RunInv(cold, Next(cold, w, steps[0]), steps[1..]);
    }
  }

  /**
   After any run of updates, resets, failures, crashes and restarts in which no blind session saves an
   update: the snapshot is the cold configuration with all updates saved since the last reset; a live
   configuration is valid, and is that same one, or the cold one in a blind session.
   */
  lemma LiveConfiguration(cold: HotConfig, steps: seq<Step>)
    requires Valid(cold) && Legal(cold, FRESH, steps) && NoBlindSave(cold, FRESH, steps)
    ensures var w := Run(cold, FRESH, steps);
            && SnapshotRight(cold, w)
            && (w.live.Some? ==>
                  && Valid(w.live.value)
                  && (!w.blind ==> w.live.value == Or(w.stored, cold) == Merged(cold, Combined(w.log)))
                  && (w.blind ==> w.live.value == cold))
  {
    RunInv(cold, FRESH, steps);
    AlwaysValid(cold, FRESH, steps);
    LiveIsMerged(cold, Run(cold, FRESH, steps));
  }

  /**
   After any such run, every field of the live configuration outside a blind session has the value that the
   last update since the reset that asked for it gave it, or else the cold one; all else is as in the cold one.
   */
  lemma LastUpdateWins(cold: HotConfig, steps: seq<Step>, field: Field)
    requires Valid(cold) && Legal(cold, FRESH, steps) && NoBlindSave(cold, FRESH, steps)
    requires var w := Run(cold, FRESH, steps); w.live.Some? && !w.blind
    ensures var w := Run(cold, FRESH, steps);
            && Get(w.live.value, field) == Or(LastAsked(w.log, field), Get(cold, field))
            && SameRest(w.live.value, cold)
  {
    LiveConfiguration(cold, steps);
    var w := Run(cold, FRESH, steps);
    MergedField(cold, Combined(w.log), field);
    CombinedField(w.log, field);
  }

  /**
   A blind session that saves an update keeps the snapshot right if and only if the old snapshot and the
   cold configuration agree on every field that the update leaves alone.
   */
  lemma BlindSaveIsRight(cold: HotConfig, steps: seq<Step>, u: Update)
    requires Legal(cold, FRESH, steps) && NoBlindSave(cold, FRESH, steps)
    requires var w := Run(cold, FRESH, steps); w.live.Some? && w.blind && Valid(Merged(cold, u))
    ensures var w := Run(cold, FRESH, steps);
            && w.stored.Some? && Enabled(w, Apply(u, true))
            && (SnapshotRight(cold, Next(cold, w, Apply(u, true))) <==> Merged(w.stored.value, u) == Merged(cold, u))
  {
    RunInv(cold, FRESH, steps);
    SavedUpdate(cold, Run(cold, FRESH, steps), u);
  }

  // ----- Restarts that fail -----

  lemma {:induction false} CombinedWarning(log: seq<Update>)
    ensures Combined(log).diskWarning.None? <==> forall u :: u in log ==> u.diskWarning.None?
    ensures Combined(log).diskWarning.Some? ==> exists u :: u in log && u.diskWarning == Combined(log).diskWarning
  {
    if log != [] {
      var rest, last := log[..|log| - 1], log[|log| - 1];
      assert log == rest + [last] && last in log;
      CombinedWarning(rest);
      if last.diskWarning.None? && Combined(rest).diskWarning.Some? {
        var u :| u in rest && u.diskWarning == Combined(rest).diskWarning;
        assert u in log;
      }
    }
  }

  lemma ValidWarning(c: HotConfig)
    requires Valid(c)
    ensures Readable(c) <==> c.gc.diskWarning != NaN
  {
    assert !Broken(DiskWarningRange, c);
  }

  lemma RestartFailsAt(cold: HotConfig, w: World)
    requires Inv(cold, w) && AllValid(w) && w.live.None?
    requires forall u :: u in w.log ==> u.diskWarning != Some(NaN)
    ensures Opened(cold, w.stored, true).None?
      <==> w.stored.Some? && cold.gc.diskWarning == NaN && forall u :: u in w.log ==> u.diskWarning.None?
  {
    CombinedWarning(w.log);
    if w.stored.Some? { ValidWarning(w.stored.value); }
  }

  /**
   Updates arrive as JSON and cannot carry NaN; the cold configuration can, and NaN is valid.  After any
   run in which no blind session saves, a restart that reads the store fails if and only if the cold
   threshold is NaN and updates were saved since the last reset but none of them set the threshold;
   otherwise it comes up with the cold configuration and those updates.
   */
  lemma RestartOutcome(cold: HotConfig, steps: seq<Step>)
    requires Valid(cold) && Legal(cold, FRESH, steps) && NoBlindSave(cold, FRESH, steps)
    requires var w := Run(cold, FRESH, steps); w.live.None? && forall u :: u in w.log ==> u.diskWarning != Some(NaN)
    ensures var w := Run(cold, FRESH, steps);
            Next(cold, w, Start(true)).live ==
              if cold.gc.diskWarning == NaN && w.log != [] && (forall u :: u in w.log ==> u.diskWarning.None?) then None
              else Some(Merged(cold, Combined(w.log)))
  {
    RunInv(cold, FRESH, steps);
    AlwaysValid(cold, FRESH, steps);
    var w := Run(cold, FRESH, steps);
    SavedHasUpdates(cold, FRESH, steps);
    RestartFailsAt(cold, w);
    LiveIsMerged(cold, w);
  }

  lemma {:induction false} SavedHasUpdates(cold: HotConfig, w: World, steps: seq<Step>)
    requires (w.stored.Some? <==> w.log != []) && Legal(cold, w, steps)
    ensures var w' := Run(cold, w, steps); w'.stored.Some? <==> w'.log != []
    decreases |steps|
  {
    if steps != [] { SavedHasUpdates(cold, Next(cold, w, steps[0]), steps[1..]); }
  }

  function NanConfig(): HotConfig {
    HotConfig(
      RateLimit(100, 200, 10), Ebpf(1, 2, 2, 1, 0, 0, 0, []), Gc(5, 3600, NaN, []),
      Health(10, 300, 1, 1, 1, 1, 1, 65536, []), Logging(Ascii("info"), []))
  }

  function SetBurst(): Update {
    NoChange().(burst := Some(1))
  }

  const UPDATED_ONCE: seq<Step> := [Start(true), DieAfterSave(SetBurst())]

  /**
   A valid cold configuration, started and updated once.  From then on every start that reads the store
   fails and leaves all as it was; one that cannot read it comes up with the cold configuration.
   */
  lemma NanIsValidAndFatal()
    ensures Valid(NanConfig()) && Legal(NanConfig(), FRESH, UPDATED_ONCE)
    ensures var w := Run(NanConfig(), FRESH, UPDATED_ONCE);
            && w.live.None? && w.log == [SetBurst()]
            && Next(NanConfig(), w, Start(true)) == w
            && Next(NanConfig(), w, Start(false)).live == Some(NanConfig())
  {
    var cold, s0, s1 := NanConfig(), Start(true), DieAfterSave(SetBurst());
    assert Valid(cold) && Valid(Merged(cold, SetBurst()));
    var w1 := Next(cold, FRESH, s0);
    var w2 := Next(cold, w1, s1);
    assert UPDATED_ONCE[1..] == [s1] && [s1][1..] == [];
    assert Legal(cold, w2, []) && Run(cold, w2, []) == w2;
    assert Legal(cold, w1, [s1]) && Run(cold, w1, [s1]) == w2;
    assert [] + [SetBurst()] == [SetBurst()];
  }

  // ----- A read that fails -----

  function PlainConfig(): HotConfig {
    NanConfig().(gc := Gc(5, 3600, Num(0.9), []))
  }

  function SetPerIp(): Update {
    NoChange().(perIp := Some(5))
  }

  const BEFORE_BLIND: seq<Step> := [Start(true), Apply(SetBurst(), true), Die]

  lemma PlainIsValid()
    ensures Valid(PlainConfig()) && Valid(Merged(PlainConfig(), SetBurst())) && Valid(Merged(PlainConfig(), SetPerIp()))
  {
  }

  lemma BeforeBlindRuns()
    ensures var cold := PlainConfig();
            && Legal(cold, FRESH, BEFORE_BLIND)
            && Run(cold, FRESH, BEFORE_BLIND) == World(None, Some(Merged(cold, SetBurst())), [SetBurst()], false)
  {
    var cold := PlainConfig();
    PlainIsValid();
    var s0, s1, s2 := Start(true), Apply(SetBurst(), true), Die;
    var w1 := Next(cold, FRESH, s0);
    var w2 := Next(cold, w1, s1);
    var w3 := Next(cold, w2, s2);
    assert BEFORE_BLIND[1..] == [s1, s2] && [s1, s2][1..] == [s2] && [s2][1..] == [];
    assert Legal(cold, w3, []) && Run(cold, w3, []) == w3;
    assert Legal(cold, w2, [s2]) && Run(cold, w2, [s2]) == w3;
    assert Legal(cold, w1, [s1, s2]) && Run(cold, w1, [s1, s2]) == w3;
  }

  /** An update is saved, the next start cannot read it, and saving another one loses it. */
  lemma BlindSaveLosesUpdate()
    ensures var cold := PlainConfig();
            && Legal(cold, FRESH, BEFORE_BLIND)
            && var w := Run(cold, FRESH, BEFORE_BLIND);
            && Enabled(w, Start(false))
            && var w1 := Next(cold, w, Start(false));
            && Enabled(w1, Apply(SetPerIp(), true))
            && var w2 := Next(cold, w1, Apply(SetPerIp(), true));
            && w2.log == [SetBurst(), SetPerIp()] && w2.stored == Some(Merged(cold, SetPerIp()))
            && !SnapshotRight(cold, w2)
  {
    var cold := PlainConfig();
    PlainIsValid();
    BeforeBlindRuns();
    CombinedAppend([SetBurst()], SetPerIp());
    assert [SetBurst()] + [SetPerIp()] == [SetBurst(), SetPerIp()];
    CombinedAppend([], SetBurst());
    assert [] + [SetBurst()] == [SetBurst()];
    assert Merged(cold, Combined([SetBurst(), SetPerIp()])).rateLimit.burst == 1;
  }
}
