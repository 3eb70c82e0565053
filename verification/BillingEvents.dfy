/**
 What the billing writers bill: the records of a node against the history of the events that arrived there,
 over every run with crashes and restarts.
 */
module BillingEvents {
  import opened Wrappers
  import opened Encoding
  import opened BillingRecord
  import opened BillingChain
  import opened BillingWriter

  /** An event and the time at which the writer took it. */
  type Entry = (Input, u64)

  /** The record says of the event all that is billed, and when. */
  ghost predicate Carries(r: Record, e: Entry) {
    && r.tenantId == e.0.tenantId && r.appId == e.0.appId && r.instanceId == e.0.instanceId
    && r.fuelConsumed == e.0.fuelConsumed && r.fuelQuota == e.0.fuelQuota
    && r.ramBytes == e.0.ramBytes && r.wallClockMs == e.0.wallClockMs
    && r.statusCode == e.0.statusCode && r.isTrap == e.0.isTrap && r.timestampMs == e.1
  }

  ghost predicate AllCarry(records: seq<Record>, entries: seq<Entry>) {
    |records| == |entries| && forall k :: 0 <= k < |records| ==> Carries(records[k], entries[k])
  }

  // ----- The events behind the records -----

  /** The events of what a node has stored, by position, and of all that its writer stands behind. */
  datatype Log = Log(stored: seq<Entry>, line: seq<Entry>)

  /** A writer resumes at `k` stored records; an event extends its line; the line is stored one by one. */
  ghost function Next(log: Log, w: World, step: Step, n: Text): Log
    requires Enabled(w, step)
  {
    if step.n != n then log
    else
      match step
      case Start(_, newest) =>
        var k := if n in w.cursors then w.cursors[n].seqNo else newest;
        log.(line := if k <= |log.stored| then log.stored[..k] else [])
      case Arrive(_, input, timestampMs) => log.(line := log.line + [(input, timestampMs)])
      case WriteNext(_) =>
        var k := w.writers[n].seqNo - |w.writers[n].batch|;
        if !(0 <= k < |log.line|) then log
        else log.(stored := if k < |log.stored| then log.stored[k := log.line[k]] else log.stored + [log.line[k]])
      case _ => log
  }

  ghost function History(d: Digest, w: World, log: Log, steps: seq<Step>, n: Text): Log
    requires Legal(d, w, steps)
    decreases |steps|
  {
    if steps == [] then log else History(d, Apply(d, w, steps[0]), Next(log, w, steps[0], n), steps[1..], n)
  }

  const NOTHING := Log([], [])

  /** Stored records and the writer's line carry the events of the history, in order. */
  ghost predicate Billed(w: World, log: Log, n: Text) {
    && AllCarry(w.Chain(n), log.stored)
    && (n in w.writers ==>
          && 0 <= Flushed(w.writers[n]) <= |w.Chain(n)|
          && AllCarry(w.Chain(n)[..Flushed(w.writers[n])] + w.writers[n].batch, log.line))
  }

  lemma ArriveBilled(d: Digest, w: World, log: Log, n: Text, input: Input, timestampMs: u64)
    requires Inv(d, w) && Billed(w, log, n) && Enabled(w, Arrive(n, input, timestampMs))
    ensures Billed(Apply(d, w, Arrive(n, input, timestampMs)), Next(log, w, Arrive(n, input, timestampMs), n), n)
  {
    var writer, chain := w.writers[n], w.Chain(n);
    var writer' := Receive(d, n, writer, input, timestampMs);
    var r := writer'.batch[|writer.batch|];
    assert Carries(r, (input, timestampMs));
    assert chain[..Flushed(writer')] + writer'.batch == chain[..Flushed(writer)] + writer.batch + [r];
  }

  lemma CarryPut(chain: seq<Record>, stored: seq<Entry>, r: Record, e: Entry)
    requires AllCarry(chain, stored) && Carries(r, e) && 1 <= r.seqNo <= |chain| + 1
    ensures AllCarry(Put(chain, r), if r.seqNo <= |stored| then stored[r.seqNo - 1 := e] else stored + [e])
  {
  }

  /** Storing the next record of the batch leaves the line as it was. */
  lemma PutCarries(chain: seq<Record>, batch: seq<Record>, k: nat, stored: seq<Entry>, line: seq<Entry>)
    requires k <= |chain| && batch != [] && batch[0].seqNo == k + 1
    requires AllCarry(chain, stored) && AllCarry(chain[..k] + batch, line)
    ensures k < |line| && |Put(chain, batch[0])| >= k + 1
    ensures AllCarry(Put(chain, batch[0]), if k < |stored| then stored[k := line[k]] else stored + [line[k]])
    ensures AllCarry(Put(chain, batch[0])[..k + 1] + batch[1..], line)
  {
    LineAt(chain, batch, k, line);
    CarryPut(chain, stored, batch[0], line[k]);
    assert Put(chain, batch[0])[..k + 1] + batch[1..] == chain[..k] + batch;
  }

  lemma WriteBilled(d: Digest, w: World, log: Log, n: Text)
    requires Inv(d, w) && Billed(w, log, n) && Enabled(w, WriteNext(n))
    ensures Billed(Apply(d, w, WriteNext(n)), Next(log, w, WriteNext(n), n), n)
  {
    WriteNextEffect(d, w, n);
    WrittenBilled(w, log, n, Apply(d, w, WriteNext(n)));
  }

  lemma WrittenBilled(w: World, log: Log, n: Text, w': World)
    requires Billed(w, log, n) && Enabled(w, WriteNext(n)) && n in w'.writers
    requires var writer, writer' := w.writers[n], w'.writers[n];
             && writer.batch[0].seqNo == Flushed(writer) + 1 && Flushed(writer') == Flushed(writer) + 1
             && writer'.batch == writer.batch[1..] && w'.Chain(n) == Put(w.Chain(n), writer.batch[0])
    ensures Billed(w', Next(log, w, WriteNext(n), n), n)
  {
    PutCarries(w.Chain(n), w.writers[n].batch, Flushed(w.writers[n]), log.stored, log.line);
  }

  lemma LineAt(chain: seq<Record>, batch: seq<Record>, k: nat, line: seq<Entry>)
    requires k <= |chain| && batch != [] && AllCarry(chain[..k] + batch, line)
    ensures k < |line| && Carries(batch[0], line[k])
  {
    assert (chain[..k] + batch)[k] == batch[0];
  }

  lemma StartBilled(d: Digest, w: World, log: Log, n: Text, newest: nat)
    requires Inv(d, w) && Billed(w, log, n) && Enabled(w, Start(n, newest))
    ensures Billed(Apply(d, w, Start(n, newest)), Next(log, w, Start(n, newest), n), n)
  {
    assert NodeInv(d, w, n);
    var chain, w' := w.Chain(n), Apply(d, w, Start(n, newest));
    StepInv(d, w, Start(n, newest));
    assert NodeInv(d, w', n);
    var k := Flushed(w'.writers[n]);
    assert chain[..k] + w'.writers[n].batch == chain[..k];
  }

  lemma StepBilled(d: Digest, w: World, log: Log, step: Step, n: Text)
    requires Inv(d, w) && Billed(w, log, n) && Enabled(w, step)
    ensures Billed(Apply(d, w, step), Next(log, w, step, n), n)
  {
    if step.n == n {
      match step
      case Start(_, newest) => StartBilled(d, w, log, n, newest);
      case Arrive(_, input, timestampMs) => ArriveBilled(d, w, log, n, input, timestampMs);
      case WriteNext(_) => WriteBilled(d, w, log, n);
      case _ =>
    } else {
      assert Apply(d, w, step).Chain(n) == w.Chain(n);
    }
  }

  lemma {:induction false} RunBilled(d: Digest, w: World, log: Log, steps: seq<Step>, n: Text)
    requires Inv(d, w) && Billed(w, log, n) && Legal(d, w, steps)
    ensures Billed(Run(d, w, steps), History(d, w, log, steps, n), n)
    decreases |steps|
  {
    if steps != [] {
      StepInv(d, w, steps[0]);
      StepBilled(d, w, log, steps[0], n);
      RunBilled(d, Apply(d, w, steps[0]), Next(log, w, steps[0], n), steps[1..], n);
    }
  }

  /**
   In every run, with crashes at any point and restarts: what a node has stored, and what its writer has made,
   carries in order the tenant, application, instance, fuel, quota, memory, time, status and trap flag of the
   events that arrived there.
   */
  lemma RecordsCarryEvents(d: Digest, steps: seq<Step>, n: Text)
    requires Legal(d, EMPTY, steps)
    ensures var w := Run(d, EMPTY, steps);
            var log := History(d, EMPTY, NOTHING, steps, n);
            && AllCarry(w.Chain(n), log.stored)
            && (n in w.writers ==>
                  && 0 <= Flushed(w.writers[n]) <= |w.Chain(n)|
                  && AllCarry(w.Chain(n)[..Flushed(w.writers[n])] + w.writers[n].batch, log.line))
  {
    EmptyInv(d);
    RunBilled(d, EMPTY, NOTHING, steps, n);
  }

  /** The events that arrived at a node. */
  function Arrivals(steps: seq<Step>, n: Text): seq<Entry> {
    if steps == [] then []
    else
      (if steps[0].Arrive? && steps[0].n == n then [(steps[0].input, steps[0].timestampMs)] else [])
      + Arrivals(steps[1..], n)
  }

  lemma OneArrival(step: Step, n: Text)
    ensures Arrivals([step], n) == if step.Arrive? && step.n == n then [(step.input, step.timestampMs)] else []
  {
    assert Arrivals([step][1..], n) == [];
  }

  ghost predicate AllArrived(log: Log, arrived: set<Entry>) {
    (forall e :: e in log.stored ==> e in arrived) && (forall e :: e in log.line ==> e in arrived)
  }

  lemma StepArrived(w: World, log: Log, step: Step, n: Text, arrived: set<Entry>)
    requires Enabled(w, step) && AllArrived(log, arrived)
    requires step.Arrive? && step.n == n ==> (step.input, step.timestampMs) in arrived
    ensures AllArrived(Next(log, w, step, n), arrived)
  {
  }

  /** The history holds nothing but events that arrived: no record is made up. */
  lemma {:induction false} HistoryArrived(
    d: Digest, w: World, log: Log, steps: seq<Step>, n: Text, arrived: set<Entry>)
    requires Legal(d, w, steps) && AllArrived(log, arrived)
    requires forall e :: e in Arrivals(steps, n) ==> e in arrived
    ensures AllArrived(History(d, w, log, steps, n), arrived)
    decreases |steps|
  {
    if steps != [] {
      OneArrival(steps[0], n);
      assert forall e :: e in Arrivals(steps[1..], n) ==> e in Arrivals(steps, n);
      if steps[0].Arrive? && steps[0].n == n {
        assert Arrivals(steps, n)[0] == (steps[0].input, steps[0].timestampMs);
      }
      StepArrived(w, log, steps[0], n, arrived);
      HistoryArrived(d, Apply(d, w, steps[0]), Next(log, w, steps[0], n), steps[1..], n, arrived);
    }
  }

  /** In every run, every stored record carries an event that arrived at its node. */
  lemma NothingIsMadeUp(d: Digest, steps: seq<Step>, n: Text, k: nat)
    requires Legal(d, EMPTY, steps) && k < |Run(d, EMPTY, steps).Chain(n)|
    ensures exists e :: e in Arrivals(steps, n) && Carries(Run(d, EMPTY, steps).Chain(n)[k], e)
  {
    RecordsCarryEvents(d, steps, n);
    var arrived := set e | e in Arrivals(steps, n);
    HistoryArrived(d, EMPTY, NOTHING, steps, n, arrived);
    var e := History(d, EMPTY, NOTHING, steps, n).stored[k];
    assert e in arrived;
  }

  // ----- Runs without a crash of the node -----

  /** Before its only start a node has nothing; from then on its line is all that arrived. */
  ghost predicate Complete(w: World, log: Log, n: Text, arrived: seq<Entry>) {
    && (n !in w.writers ==> w.Chain(n) == [] && n !in w.cursors && log == NOTHING && arrived == [])
    && (n in w.writers ==> Flushed(w.writers[n]) == |w.Chain(n)| && log.line == arrived)
  }

  lemma OtherComplete(d: Digest, w: World, log: Log, step: Step, n: Text, arrived: seq<Entry>)
    requires Enabled(w, step) && Complete(w, log, n, arrived) && step.n != n
    ensures Complete(Apply(d, w, step), Next(log, w, step, n), n, arrived)
  {
    assert Apply(d, w, step).Chain(n) == w.Chain(n);
  }

  /** The first start finds nothing stored. */
  lemma StartComplete(d: Digest, w: World, log: Log, n: Text, newest: nat, arrived: seq<Entry>)
    requires Inv(d, w) && Enabled(w, Start(n, newest)) && Complete(w, log, n, arrived)
    ensures Complete(Apply(d, w, Start(n, newest)), Next(log, w, Start(n, newest), n), n, arrived)
  {
    assert NodeInv(d, w, n);
    assert newest == 0;
  }

  lemma OwnComplete(d: Digest, w: World, log: Log, step: Step, n: Text, arrived: seq<Entry>)
    requires Inv(d, w) && Enabled(w, step) && Complete(w, log, n, arrived) && step.n == n
    requires step.BeginFlush? || step.WriteNext? || step.SaveCursor?
    ensures Complete(Apply(d, w, step), Next(log, w, step, n), n, arrived)
  {
    if step.WriteNext? { WriteNextEffect(d, w, n); }
  }

  lemma ArriveComplete(d: Digest, w: World, log: Log, step: Step, n: Text, arrived: seq<Entry>)
    requires Enabled(w, step) && Complete(w, log, n, arrived) && step.Arrive? && step.n == n
    ensures Complete(Apply(d, w, step), Next(log, w, step, n), n, arrived + [(step.input, step.timestampMs)])
  {
  }

  lemma StepComplete(d: Digest, w: World, log: Log, step: Step, n: Text, arrived: seq<Entry>)
    requires Inv(d, w) && Enabled(w, step) && Complete(w, log, n, arrived) && step != Crash(n)
    ensures Complete(Apply(d, w, step), Next(log, w, step, n), n, arrived + Arrivals([step], n))
  {
    OneArrival(step, n);
    assert arrived + [] == arrived;
    if step.n != n {
      OtherComplete(d, w, log, step, n, arrived);
    } else {
      match step
      case Start(_, newest) => StartComplete(d, w, log, n, newest, arrived);
      case Arrive(_, _, _) => ArriveComplete(d, w, log, step, n, arrived);
      case _ => OwnComplete(d, w, log, step, n, arrived);
    }
  }

  lemma FirstArrival(steps: seq<Step>, n: Text, arrived: seq<Entry>)
    requires steps != []
    ensures arrived + Arrivals([steps[0]], n) + Arrivals(steps[1..], n) == arrived + Arrivals(steps, n)
  {
    OneArrival(steps[0], n);
  }

  lemma {:induction false} RunComplete(
    d: Digest, w: World, log: Log, steps: seq<Step>, n: Text, arrived: seq<Entry>)
    requires Inv(d, w) && Legal(d, w, steps) && Complete(w, log, n, arrived) && Crash(n) !in steps
    ensures Complete(Run(d, w, steps), History(d, w, log, steps, n), n, arrived + Arrivals(steps, n))
    decreases |steps|
  {
    if steps == [] {
      assert arrived + [] == arrived;
    } else {
      FirstArrival(steps, n, arrived);
      StepInv(d, w, steps[0]);
      StepComplete(d, w, log, steps[0], n, arrived);
      RunComplete(
        d, Apply(d, w, steps[0]), Next(log, w, steps[0], n), steps[1..], n, arrived + Arrivals([steps[0]], n));
    }
  }

  /** A quantity of the events or of the records. */
  function Fuel(entries: seq<Entry>): nat {
    if entries == [] then 0 else entries[0].0.fuelConsumed + Fuel(entries[1..])
  }

  function FuelBilled(records: seq<Record>): nat {
    if records == [] then 0 else records[0].fuelConsumed + FuelBilled(records[1..])
  }

  lemma {:induction false} FuelCarried(records: seq<Record>, entries: seq<Entry>)
    requires AllCarry(records, entries)
    ensures FuelBilled(records) == Fuel(entries)
    decreases |records|
  {
    if records != [] {
      assert Carries(records[0], entries[0]);
      FuelCarried(records[1..], entries[1..]);
    }
  }

  /**
   In every run in which the node's writer does not crash, whatever the other nodes do: stored records and
   batch are, one by one and in order, the events that arrived, and the fuel billed is the fuel consumed.
   */
  lemma EveryEventIsBilledOnce(d: Digest, steps: seq<Step>, n: Text)
    requires Legal(d, EMPTY, steps) && Crash(n) !in steps
    ensures var w := Run(d, EMPTY, steps);
            if n in w.writers then
              && AllCarry(w.Chain(n) + w.writers[n].batch, Arrivals(steps, n))
              && FuelBilled(w.Chain(n) + w.writers[n].batch) == Fuel(Arrivals(steps, n))
            else w.Chain(n) == [] && Arrivals(steps, n) == []
  {
    EmptyInv(d);
    RunBilled(d, EMPTY, NOTHING, steps, n);
    RunComplete(d, EMPTY, NOTHING, steps, n, []);
    assert [] + Arrivals(steps, n) == Arrivals(steps, n);
    var w := Run(d, EMPTY, steps);
    if n in w.writers {
      assert w.Chain(n)[..|w.Chain(n)|] == w.Chain(n);
      FuelCarried(w.Chain(n) + w.writers[n].batch, Arrivals(steps, n));
    }
  }

  // ----- Batches -----

  /** In every run, the event that makes a batch of 64 starts its flush, and no other does. */
  lemma SixtyFourthEventFlushes(d: Digest, steps: seq<Step>, n: Text, input: Input, timestampMs: u64)
    requires Legal(d, EMPTY, steps) && Enabled(Run(d, EMPTY, steps), Arrive(n, input, timestampMs))
    ensures var w := Run(d, EMPTY, steps);
            var w' := Apply(d, w, Arrive(n, input, timestampMs));
            && |w.writers[n].batch| <= 63
            && (w'.writers[n].phase.Draining? <==> |w.writers[n].batch| == 63)
  {
    EmptyInv(d);
    RunInv(d, EMPTY, steps);
    assert NodeInv(d, Run(d, EMPTY, steps), n);
  }

  function KeyOf(r: Record): (Text, nat) {
    (r.nodeId, r.seqNo)
  }

  ghost predicate DistinctNumbers(batch: seq<Record>) {
    forall i, j :: 0 <= i < j < |batch| ==> batch[i].seqNo != batch[j].seqNo
  }

  /** A flush stores every record of its batch that does not fail under its own key, and changes nothing else. */
  lemma {:induction false} FlushStores(table: Table, batch: seq<Record>, failing: set<nat>, key: (Text, nat))
    requires DistinctNumbers(batch)
    ensures var table' := WriteAll(table, batch, failing);
            && (forall i :: 0 <= i < |batch| && KeyOf(batch[i]) == key && batch[i].seqNo !in failing ==>
                  key in table' && table'[key] == batch[i])
            && ((forall i :: 0 <= i < |batch| && KeyOf(batch[i]) == key ==> batch[i].seqNo in failing) ==>
                  (key in table' <==> key in table) && (key in table ==> table'[key] == table[key]))
    decreases |batch|
  {
    if batch != [] {
      var rest := batch[1..];
      assert forall i :: 0 <= i < |rest| ==> rest[i] == batch[i + 1];
      var next := if batch[0].seqNo in failing then table
                  else table[(batch[0].nodeId, batch[0].seqNo) := batch[0]];
      FlushStores(next, rest, failing, key);
    }
  }

  /** A flush without failures is the flush of the runs: its records written one after the other. */
  lemma {:induction false} FlushIsDrain(d: Digest, w: World, n: Text)
    requires Inv(d, w) && n in w.writers && w.writers[n].phase.Draining?
    ensures var steps := Drain(n, |w.writers[n].batch|);
            Legal(d, w, steps) && Run(d, w, steps).table == WriteAll(w.table, w.writers[n].batch, {})
    decreases |w.writers[n].batch|
  {
    var batch := w.writers[n].batch;
    if batch != [] {
      WriteNextEffect(d, w, n);
      StepInv(d, w, WriteNext(n));
      var w' := Apply(d, w, WriteNext(n));
      FlushIsDrain(d, w', n);
      RunCons(d, w, WriteNext(n), Drain(n, |batch| - 1));
    }
  }
}
