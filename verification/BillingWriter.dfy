/**
 The billing writers of all nodes over one store: batching, record-by-record flushes followed by a
 cursor save, crashes at any point, and recovery from the cursor or, without one, from the table.
 In the runs of all writers record writes succeed and cursor saves may fail.
 */
module BillingWriter {
  import opened Wrappers
  import opened Encoding
  import opened BillingRecord
  import opened BillingChain

  const BATCH_SIZE: nat := 64

  /** One accounting event.  The writer records its own node id, not the one in the event. */
  datatype Input = Input(
    tenantId: Text, appId: Text, instanceId: Text, nodeId: Text,
    fuelConsumed: u64, fuelQuota: u64, ramBytes: u64, wallClockMs: u64, statusCode: u16, isTrap: bool)

  datatype Cursor = Cursor(seqNo: nat, hash: Text)

  /** The billing table, by node id and sequence number. */
  type Table = map<(Text, nat), Record>

  function MakeRecord(d: Digest, node: Text, seqNo: u64, prevHash: Text, input: Input, timestampMs: u64): (r: Record)
    ensures Sealed(d, r) && r.seqNo == seqNo && r.prevHash == prevHash && r.nodeId == node
  {
    var r := Record(seqNo, prevHash, input.tenantId, input.appId, input.instanceId, node, timestampMs,
                    input.fuelConsumed, input.fuelQuota, input.ramBytes, input.wallClockMs,
                    input.statusCode, input.isTrap, []);
    var hash := d(r);
    r.(recordHash := hash)
  }

  datatype Phase = Buffering | Draining

  datatype Writer = Writer(seqNo: nat, prevHash: Text, batch: seq<Record>, phase: Phase)

  /** `newest` is the highest sequence number stored for the node, 0 if there is none. */
  ghost predicate IsNewest(table: Table, node: Text, newest: nat) {
    && (newest > 0 ==> (node, newest) in table)
    && (forall k :: (node, k) in table ==> k <= newest)
  }

  /** A starting writer resumes from the cursor, or from the newest record if no cursor was ever saved. */
  function Resume(table: Table, cursors: map<Text, Cursor>, node: Text, newest: nat): Writer
    requires node !in cursors && newest > 0 ==> (node, newest) in table
  {
    if node in cursors then Writer(cursors[node].seqNo, cursors[node].hash, [], Buffering)
    else Writer(newest, if newest == 0 then [] else table[(node, newest)].recordHash, [], Buffering)
  }

  /** A received event becomes the next record; a full batch is flushed at once. */
  function Receive(d: Digest, node: Text, w: Writer, input: Input, timestampMs: u64): Writer
    requires w.seqNo < MAX_U64
  {
    var r := MakeRecord(d, node, w.seqNo + 1, w.prevHash, input, timestampMs);
    var batch := w.batch + [r];
    Writer(w.seqNo + 1, r.recordHash, batch, if |batch| >= BATCH_SIZE then Draining else Buffering)
  }

  /** The records of a batch written one by one; a failed write is skipped. */
  function WriteAll(table: Table, batch: seq<Record>, failing: set<nat>): Table
    decreases |batch|
  {
    if batch == [] then table
    else if batch[0].seqNo in failing then WriteAll(table, batch[1..], failing)
    else WriteAll(table[(batch[0].nodeId, batch[0].seqNo) := batch[0]], batch[1..], failing)
  }

  // ----- The writer object -----

  class Store {
    var table: Table
    var cursors: map<Text, Cursor>
  }

  class NodeWriter {
    const digest: Digest
    const nodeId: Text
    const store: Store
    var seqNo: nat
    var prevHash: Text
    var batch: seq<Record>

    /** A cursor that is missing or does not read back is replaced by the newest stored record. */
    constructor (digest: Digest, nodeId: Text, store: Store, newest: nat, cursorReads: bool)
      requires IsNewest(store.table, nodeId, newest)
      ensures this.digest == digest && this.nodeId == nodeId && this.store == store
      ensures Writer(seqNo, prevHash, batch, Buffering)
           == Resume(store.table, if cursorReads then store.cursors else map[], nodeId, newest)
    {
      this.digest, this.nodeId, this.store := digest, nodeId, store;
      batch := [];
      if cursorReads && nodeId in store.cursors {
        seqNo, prevHash := store.cursors[nodeId].seqNo, store.cursors[nodeId].hash;
      } else {
        seqNo := newest;
        prevHash := if newest == 0 then [] else store.table[(nodeId, newest)].recordHash;
      }
    }

    /** Write the batch record by record, then save the cursor; failures are only logged. */
    method FlushBatch(failing: set<nat>, saved: bool)
      modifies this`batch, store
      ensures batch == []
      ensures store.table == WriteAll(old(store.table), old(batch), failing)
      ensures store.cursors == if old(batch) != [] && saved then old(store.cursors)[nodeId := Cursor(seqNo, prevHash)]
                               else old(store.cursors)
    {
      if batch == [] {
        return;
      }
      while batch != []
        invariant WriteAll(store.table, batch, failing) == WriteAll(old(store.table), old(batch), failing)
        invariant store.cursors == old(store.cursors)
        decreases |batch|
      {
        var record := batch[0];
        if record.seqNo !in failing {
          store.table := store.table[(record.nodeId, record.seqNo) := record];
        }
        batch := batch[1..];
      }
      if saved {
        store.cursors := store.cursors[nodeId := Cursor(seqNo, prevHash)];
      }
    }

    /** One event from the channel; flushes if that fills the batch. */
    method OnInput(input: Input, timestampMs: u64, failing: set<nat>, saved: bool)
      requires seqNo < MAX_U64
      modifies this, store
      ensures var next := Receive(digest, nodeId, old(Writer(seqNo, prevHash, batch, Buffering)), input, timestampMs);
              && seqNo == next.seqNo && prevHash == next.prevHash
              && batch == (if next.phase.Draining? then [] else next.batch)
              && store.table == (if next.phase.Draining? then WriteAll(old(store.table), next.batch, failing)
                                 else old(store.table))
              && store.cursors == (if next.phase.Draining? && saved
                                   then old(store.cursors)[nodeId := Cursor(next.seqNo, next.prevHash)]
                                   else old(store.cursors))
    {
      seqNo := seqNo + 1;
      var record := MakeRecord(digest, nodeId, seqNo, prevHash, input, timestampMs);
      prevHash := record.recordHash;
      batch := batch + [record];
      if |batch| >= BATCH_SIZE {
        FlushBatch(failing, saved);
      }
    }
  }

  // ----- All writers over one store -----

  /** `chains` is history: what each node has stored, by position. */
  datatype World = World(
    table: Table, cursors: map<Text, Cursor>, writers: map<Text, Writer>, chains: map<Text, seq<Record>>)
  {
    function Chain(n: Text): seq<Record> {
      if n in chains then chains[n] else []
    }
  }

  datatype Step =
    | Start(n: Text, newest: nat)
    | Arrive(n: Text, input: Input, timestampMs: u64)
    | BeginFlush(n: Text)
    | WriteNext(n: Text)
    | SaveCursor(n: Text, saved: bool)
    | Crash(n: Text)

  const EMPTY := World(map[], map[], map[], map[])

  ghost predicate Enabled(w: World, step: Step) {
    if step.Start? then
      step.n !in w.writers && IsNewest(w.table, step.n, step.newest)
    else
      step.n in w.writers &&
      var writer := w.writers[step.n];
      match step
      case Arrive(_, _, _) => writer.phase.Buffering? && writer.seqNo < MAX_U64
      case BeginFlush(_) => writer.phase.Buffering? && writer.batch != []
      case WriteNext(_) => writer.phase.Draining? && writer.batch != []
      case SaveCursor(_, _) => writer.phase.Draining? && writer.batch == []
      case Crash(_) => true
  }

  /** The stored chain of a node after record `r` was written: overwritten in place, or longer by one. */
  function Put(chain: seq<Record>, r: Record): seq<Record> {
    if 1 <= r.seqNo <= |chain| then chain[r.seqNo - 1 := r] else chain + [r]
  }

  ghost function Apply(d: Digest, w: World, step: Step): World
    requires Enabled(w, step)
  {
    match step
    case Start(n, newest) => w.(writers := w.writers[n := Resume(w.table, w.cursors, n, newest)])
    case Arrive(n, input, timestampMs) =>
      w.(writers := w.writers[n := Receive(d, n, w.writers[n], input, timestampMs)])
    case BeginFlush(n) => w.(writers := w.writers[n := w.writers[n].(phase := Draining)])
    case WriteNext(n) =>
      var writer := w.writers[n];
      var r := writer.batch[0];
      w.(table := w.table[(r.nodeId, r.seqNo) := r],
         chains := w.chains[n := Put(w.Chain(n), r)],
         writers := w.writers[n := writer.(batch := writer.batch[1..])])
    case SaveCursor(n, saved) =>
      var writer := w.writers[n];
      w.(cursors := if saved then w.cursors[n := Cursor(writer.seqNo, writer.prevHash)] else w.cursors,
         writers := w.writers[n := writer.(phase := Buffering)])
    case Crash(n) => w.(writers := w.writers - {n})
  }

  ghost predicate Legal(d: Digest, w: World, steps: seq<Step>)
    decreases |steps|
  {
    steps == [] || (Enabled(w, steps[0]) && Legal(d, Apply(d, w, steps[0]), steps[1..]))
  }

  ghost function Run(d: Digest, w: World, steps: seq<Step>): World
    requires Legal(d, w, steps)
    decreases |steps|
  {
    if steps == [] then w else Run(d, Apply(d, w, steps[0]), steps[1..])
  }

  // ----- The invariant -----

  /** The table holds exactly the given chain for node `n`, under the sequence numbers 1, 2, ... */
  ghost predicate TableHolds(table: Table, n: Text, chain: seq<Record>) {
    && (forall k :: (n, k) in table <==> 1 <= k <= |chain|)
    && (forall k :: 1 <= k <= |chain| ==> table[(n, k)] == chain[k - 1])
  }

  /** Every record is the node's own, correctly numbered and sealed. */
  ghost predicate OwnRecords(d: Digest, n: Text, chain: seq<Record>) {
    forall i :: 0 <= i < |chain| ==> OwnAt(d, n, chain, i)
  }

  ghost predicate OwnAt(d: Digest, n: Text, chain: seq<Record>, i: nat)
    requires i < |chain|
  {
    chain[i].nodeId == n && chain[i].seqNo == i + 1 && Sealed(d, chain[i])
  }

  /** The cursor is the end of a good prefix of what is stored. */
  ghost predicate CursorInv(d: Digest, cursor: Cursor, chain: seq<Record>) {
    && 1 <= cursor.seqNo <= |chain|
    && cursor.hash == chain[cursor.seqNo - 1].recordHash
    && ChainOk(d, chain[..cursor.seqNo])
  }

  /** How many of the records that the writer made are stored. */
  function Flushed(w: Writer): int {
    w.seqNo - |w.batch|
  }

  /** A writer's stored records followed by its batch are a good chain, which ends where the writer stands. */
  ghost predicate WriterInv(d: Digest, n: Text, w: Writer, chain: seq<Record>) {
    && 0 <= Flushed(w) <= |chain|
    && w.seqNo <= MAX_U64
    && (w.phase.Buffering? ==> |w.batch| < BATCH_SIZE)
    && (w.phase.Draining? ==> w.seqNo >= 1 && |w.batch| <= BATCH_SIZE)
    && var line := chain[..Flushed(w)] + w.batch;
       ChainOk(d, line) && OwnRecords(d, n, line) && w.prevHash == ExpectedPrev(line, |line|)
  }

  ghost predicate NodeInv(d: Digest, w: World, n: Text) {
    var chain := w.Chain(n);
    && TableHolds(w.table, n, chain)
    && OwnRecords(d, n, chain)
    && (n in w.cursors ==> CursorInv(d, w.cursors[n], chain))
    && (n !in w.cursors ==> ChainOk(d, chain))
    && (n in w.writers ==> WriterInv(d, n, w.writers[n], chain))
    && (n in w.writers && n in w.cursors ==> w.cursors[n].seqNo <= Flushed(w.writers[n]))
    && (n in w.writers && n !in w.cursors ==> Flushed(w.writers[n]) == |chain|)
  }

  ghost predicate Inv(d: Digest, w: World) {
    forall n: Text :: NodeInv(d, w, n)
  }

  lemma ChainPrefix(d: Digest, chain: seq<Record>, k: nat)
    requires ChainOk(d, chain) && k <= |chain|
    ensures ChainOk(d, chain[..k])
  {
    forall i | 0 <= i < k ensures GoodAt(d, chain[..k], i) {
      assert GoodAt(d, chain, i);
    }
  }

  lemma ChainAppend(d: Digest, chain: seq<Record>, r: Record)
    requires ChainOk(d, chain) && r.prevHash == ExpectedPrev(chain, |chain|) && Sealed(d, r)
    ensures ChainOk(d, chain + [r])
  {
    forall i | 0 <= i <= |chain| ensures GoodAt(d, chain + [r], i) {
      if i < |chain| { assert GoodAt(d, chain, i); }
    }
  }

  lemma StartInv(d: Digest, w: World, n: Text, newest: nat)
    requires Inv(d, w) && Enabled(w, Start(n, newest))
    ensures NodeInv(d, Apply(d, w, Start(n, newest)), n)
  {
    assert NodeInv(d, w, n);
    var chain := w.Chain(n);
    assert |chain| > 0 ==> OwnAt(d, n, chain, |chain| - 1);
    var writer := Resume(w.table, w.cursors, n, newest);
    assert chain[..Flushed(writer)] + writer.batch == chain[..Flushed(writer)];
    if n !in w.cursors {
      assert |chain| > 0 ==> (n, |chain|) in w.table;
      assert chain[..|chain|] == chain;
    }
    forall i | 0 <= i < Flushed(writer) ensures OwnAt(d, n, chain[..Flushed(writer)], i) {
      assert OwnAt(d, n, chain, i);
    }
  }

  lemma OwnAppend(d: Digest, n: Text, line: seq<Record>, r: Record)
    requires OwnRecords(d, n, line) && r.nodeId == n && r.seqNo == |line| + 1 && Sealed(d, r)
    ensures OwnRecords(d, n, line + [r])
  {
    forall i | 0 <= i <= |line| ensures OwnAt(d, n, line + [r], i) {
      if i < |line| { assert OwnAt(d, n, line, i); }
    }
  }

  lemma ReceiveInv(d: Digest, n: Text, writer: Writer, chain: seq<Record>, input: Input, timestampMs: u64)
    requires WriterInv(d, n, writer, chain) && writer.phase.Buffering? && writer.seqNo < MAX_U64
    ensures WriterInv(d, n, Receive(d, n, writer, input, timestampMs), chain)
  {
    var r := MakeRecord(d, n, writer.seqNo + 1, writer.prevHash, input, timestampMs);
    var line := chain[..Flushed(writer)] + writer.batch;
    ChainAppend(d, line, r);
    OwnAppend(d, n, line, r);
    assert chain[..Flushed(writer)] + (writer.batch + [r]) == line + [r];
  }

  lemma ArriveInv(d: Digest, w: World, n: Text, input: Input, timestampMs: u64)
    requires Inv(d, w) && Enabled(w, Arrive(n, input, timestampMs))
    ensures NodeInv(d, Apply(d, w, Arrive(n, input, timestampMs)), n)
  {
    assert NodeInv(d, w, n);
    ReceiveInv(d, n, w.writers[n], w.Chain(n), input, timestampMs);
  }

  /** Writing the record that follows a prefix of the stored chain keeps the table and the chain in step. */
  lemma PutInv(d: Digest, n: Text, table: Table, chain: seq<Record>, r: Record)
    requires TableHolds(table, n, chain) && OwnRecords(d, n, chain)
    requires r.nodeId == n && 1 <= r.seqNo <= |chain| + 1 && Sealed(d, r)
    ensures TableHolds(table[(n, r.seqNo) := r], n, Put(chain, r)) && OwnRecords(d, n, Put(chain, r))
  {
    var chain' := Put(chain, r);
    forall i | 0 <= i < |chain'| ensures OwnAt(d, n, chain', i) {
      if i < |chain| { assert OwnAt(d, n, chain, i); }
    }
  }

  /** The writer's next record: where it belongs, and that writing it leaves the writer's line as it was. */
  lemma NextRecord(d: Digest, n: Text, writer: Writer, chain: seq<Record>)
    requires WriterInv(d, n, writer, chain) && writer.batch != []
    ensures var r := writer.batch[0];
            && r.nodeId == n && r.seqNo == Flushed(writer) + 1 && Sealed(d, r)
            && |chain| >= Flushed(writer) && |Put(chain, r)| >= Flushed(writer) + 1
            && Put(chain, r)[..Flushed(writer) + 1] + writer.batch[1..] == chain[..Flushed(writer)] + writer.batch
  {
    var line := chain[..Flushed(writer)] + writer.batch;
    assert line[Flushed(writer)] == writer.batch[0] && OwnAt(d, n, line, Flushed(writer));
  }

  lemma CursorKept(d: Digest, cursor: Cursor, chain: seq<Record>, r: Record)
    requires CursorInv(d, cursor, chain) && cursor.seqNo < r.seqNo
    ensures CursorInv(d, cursor, Put(chain, r))
  {
    assert Put(chain, r)[..cursor.seqNo] == chain[..cursor.seqNo];
  }

  lemma NextWriterInv(d: Digest, n: Text, writer: Writer, chain: seq<Record>)
    requires WriterInv(d, n, writer, chain) && writer.batch != []
    ensures WriterInv(d, n, writer.(batch := writer.batch[1..]), Put(chain, writer.batch[0]))
  {
    NextRecord(d, n, writer, chain);
  }

  /** Without a cursor nothing lies beyond the writer, so its next record extends the good chain. */
  lemma ChainExtended(d: Digest, n: Text, writer: Writer, chain: seq<Record>)
    requires WriterInv(d, n, writer, chain) && writer.batch != [] && Flushed(writer) == |chain|
    ensures ChainOk(d, Put(chain, writer.batch[0]))
  {
    NextRecord(d, n, writer, chain);
    var line := chain[..|chain|] + writer.batch;
    ChainPrefix(d, line, |chain| + 1);
    assert Put(chain, writer.batch[0]) == line[..|chain| + 1];
  }

  lemma WriteNextInv(d: Digest, w: World, n: Text)
    requires Inv(d, w) && Enabled(w, WriteNext(n))
    ensures NodeInv(d, Apply(d, w, WriteNext(n)), n)
    ensures w.writers[n].batch[0].nodeId == n
  {
    assert NodeInv(d, w, n);
    var writer, chain := w.writers[n], w.Chain(n);
    var r := writer.batch[0];
    NextRecord(d, n, writer, chain);
    PutInv(d, n, w.table, chain, r);
    NextWriterInv(d, n, writer, chain);
    if n in w.cursors { CursorKept(d, w.cursors[n], chain, r); } else { ChainExtended(d, n, writer, chain); }
    var w' := Apply(d, w, WriteNext(n));
    assert w'.Chain(n) == Put(chain, r);
  }

  lemma SaveCursorInv(d: Digest, w: World, n: Text, saved: bool)
    requires Inv(d, w) && Enabled(w, SaveCursor(n, saved))
    ensures NodeInv(d, Apply(d, w, SaveCursor(n, saved)), n)
  {
    assert NodeInv(d, w, n);
    var writer := w.writers[n];
    assert w.Chain(n)[..writer.seqNo] + writer.batch == w.Chain(n)[..writer.seqNo];
  }

  /** A step of one node leaves every other node as it was. */
  lemma OthersInv(d: Digest, w: World, step: Step, m: Text)
    requires Inv(d, w) && Enabled(w, step) && m != step.n
    requires step.WriteNext? ==> w.writers[step.n].batch[0].nodeId == step.n
    ensures NodeInv(d, Apply(d, w, step), m)
  {
    assert NodeInv(d, w, m);
  }

  lemma StepInv(d: Digest, w: World, step: Step)
    requires Inv(d, w) && Enabled(w, step)
    ensures Inv(d, Apply(d, w, step))
  {
    var n := step.n;
    assert NodeInv(d, w, n);
    match step {
      case Start(_, newest) => StartInv(d, w, n, newest);
      case Arrive(_, input, timestampMs) => ArriveInv(d, w, n, input, timestampMs);
      case BeginFlush(_) =>
      case WriteNext(_) => WriteNextInv(d, w, n);
      case SaveCursor(_, saved) => SaveCursorInv(d, w, n, saved);
      case Crash(_) =>
    }
    forall m: Text | m != n ensures NodeInv(d, Apply(d, w, step), m) {
      OthersInv(d, w, step, m);
    }
  }

  lemma {:induction false} RunInv(d: Digest, w: World, steps: seq<Step>)
    requires Inv(d, w) && Legal(d, w, steps)
    ensures Inv(d, Run(d, w, steps))
    decreases |steps|
  {
    if steps != [] {
      StepInv(d, w, steps[0]);
      RunInv(d, Apply(d, w, steps[0]), steps[1..]);
    }
  }

  lemma EmptyInv(d: Digest)
    ensures Inv(d, EMPTY)
  {
    forall n: Text ensures NodeInv(d, EMPTY, n) {
    }
  }

  // ----- Every run -----

  /**
   In every run, with crashes also inside a flush and with failed cursor saves: the records of a node
   are numbered 1, 2, ... without gaps, each correctly sealed, and those up to the saved cursor are a
   good chain that ends in the cursor's hash.
   */
  lemma CursorPrefixVerifies(d: Digest, steps: seq<Step>, n: Text)
    requires Legal(d, EMPTY, steps)
    ensures var w := Run(d, EMPTY, steps);
            && TableHolds(w.table, n, w.Chain(n)) && OwnRecords(d, n, w.Chain(n))
            && (n in w.cursors ==> CursorInv(d, w.cursors[n], w.Chain(n)))
            && (n !in w.cursors ==> ChainOk(d, w.Chain(n)))
  {
    EmptyInv(d);
    RunInv(d, EMPTY, steps);
    assert NodeInv(d, Run(d, EMPTY, steps), n);
  }

  /**
   In every run, a crash of a writer that waits for input loses its batch and nothing else: at most
   63 records.  What it had made before is stored as a good chain, and the batch would have extended it.
   */
  lemma CrashLosesOnlyTheBatch(d: Digest, steps: seq<Step>, n: Text)
    requires Legal(d, EMPTY, steps)
    requires var w := Run(d, EMPTY, steps); n in w.writers && w.writers[n].phase.Buffering?
    ensures var w := Run(d, EMPTY, steps);
            var writer := w.writers[n];
            && |writer.batch| <= 63
            && 0 <= Flushed(writer) <= |w.Chain(n)|
            && ChainOk(d, w.Chain(n)[..Flushed(writer)] + writer.batch)
            && |w.Chain(n)[..Flushed(writer)] + writer.batch| == writer.seqNo
            && TableHolds(w.table, n, w.Chain(n))
            && Apply(d, w, Crash(n)).table == w.table && Apply(d, w, Crash(n)).cursors == w.cursors
  {
    EmptyInv(d);
    RunInv(d, EMPTY, steps);
    assert NodeInv(d, Run(d, EMPTY, steps), n);
  }

  // ----- Runs whose flushes complete -----

  /** No crash inside a flush, and no failed cursor save. */
  ghost predicate Completes(w: World, step: Step)
    requires Enabled(w, step)
  {
    && (step.Crash? ==> w.writers[step.n].phase.Buffering?)
    && (step.SaveCursor? ==> step.saved)
  }

  ghost predicate AllComplete(d: Digest, w: World, steps: seq<Step>)
    requires Legal(d, w, steps)
    decreases |steps|
  {
    steps == [] || (Completes(w, steps[0]) && AllComplete(d, Apply(d, w, steps[0]), steps[1..]))
  }

  /** The cursor marks position `k`; before the first flush there is none. */
  ghost predicate CursorAt(w: World, n: Text, k: int) {
    if n in w.cursors then w.cursors[n].seqNo == k else k == 0
  }

  ghost predicate Settled(w: World, n: Text) {
    && (n in w.writers ==> Flushed(w.writers[n]) == |w.Chain(n)|)
    && (n in w.writers && w.writers[n].phase.Buffering? ==> CursorAt(w, n, |w.Chain(n)|))
    && (n !in w.writers ==> CursorAt(w, n, |w.Chain(n)|))
  }

  lemma WriteSettled(d: Digest, w: World, n: Text)
    requires Inv(d, w) && Enabled(w, WriteNext(n)) && Settled(w, n)
    ensures Settled(Apply(d, w, WriteNext(n)), n)
  {
    assert NodeInv(d, w, n);
    NextRecord(d, n, w.writers[n], w.Chain(n));
  }

  lemma StartSettled(d: Digest, w: World, n: Text, newest: nat)
    requires Inv(d, w) && Enabled(w, Start(n, newest)) && Settled(w, n)
    ensures Settled(Apply(d, w, Start(n, newest)), n)
  {
    assert NodeInv(d, w, n);
    StepInv(d, w, Start(n, newest));
    assert NodeInv(d, Apply(d, w, Start(n, newest)), n);
    if |w.Chain(n)| > 0 { assert (n, |w.Chain(n)|) in w.table; }
  }

  lemma StepSettled(d: Digest, w: World, step: Step, n: Text)
    requires Inv(d, w) && Enabled(w, step) && Completes(w, step) && Settled(w, n)
    ensures Settled(Apply(d, w, step), n)
  {
    if step == WriteNext(n) {
      WriteSettled(d, w, n);
    } else if step.Start? && step.n == n {
      StartSettled(d, w, n, step.newest);
    } else {
      assert NodeInv(d, w, n);
    }
  }

  lemma {:induction false} RunSettled(d: Digest, w: World, steps: seq<Step>, n: Text)
    requires Inv(d, w) && Settled(w, n) && Legal(d, w, steps) && AllComplete(d, w, steps)
    ensures Settled(Run(d, w, steps), n)
    decreases |steps|
  {
    if steps != [] {
      StepInv(d, w, steps[0]);
      StepSettled(d, w, steps[0], n);
      RunSettled(d, Apply(d, w, steps[0]), steps[1..], n);
    }
  }

  /**
   In every run whose flushes complete, however often the writers crash between flushes and restart:
   all that a node has stored is a good chain numbered from 1, and outside a flush the saved cursor is
   its last sequence number and hash.
   */
  lemma StoredChainVerifies(d: Digest, steps: seq<Step>, n: Text)
    requires Legal(d, EMPTY, steps) && AllComplete(d, EMPTY, steps)
    ensures var w := Run(d, EMPTY, steps);
            && TableHolds(w.table, n, w.Chain(n)) && OwnRecords(d, n, w.Chain(n)) && ChainOk(d, w.Chain(n))
            && ((n in w.writers ==> w.writers[n].phase.Buffering?) && w.Chain(n) != [] ==>
                  && n in w.cursors
                  && w.cursors[n] == Cursor(|w.Chain(n)|, w.Chain(n)[|w.Chain(n)| - 1].recordHash))
  {
    EmptyInv(d);
    RunInv(d, EMPTY, steps);
    RunSettled(d, EMPTY, steps, n);
    var w := Run(d, EMPTY, steps);
    assert NodeInv(d, w, n);
    var chain := w.Chain(n);
    assert chain[..|chain|] == chain;
    if n in w.writers {
      var line := chain[..|chain|] + w.writers[n].batch;
      ChainPrefix(d, line, |chain|);
      assert line[..|chain|] == chain;
    }
  }

  /** What a node has stored after such a run is accepted in part exactly if the part is a prefix. */
  lemma StoredAcceptedIffPrefix(h: Hasher, steps: seq<Step>, n: Text, picks: seq<nat>)
    requires Legal(DigestWith(h), EMPTY, steps) && AllComplete(DigestWith(h), EMPTY, steps)
    requires var chain := Run(DigestWith(h), EMPTY, steps).Chain(n);
             Ascending(picks, |chain|) && forall i, j :: 0 <= i < j < |chain| ==> !Collision(h, chain[i], chain[j])
    ensures var chain := Run(DigestWith(h), EMPTY, steps).Chain(n);
            ChainOk(DigestWith(h), Pick(chain, picks)) <==> |picks| <= |chain| && Pick(chain, picks) == chain[..|picks|]
  {
    var d := DigestWith(h);
    StoredChainVerifies(d, steps, n);
    var chain := Run(d, EMPTY, steps).Chain(n);
    forall i | 0 <= i < |chain| ensures chain[i].seqNo == i + 1 { assert OwnAt(d, n, chain, i); }
    AcceptedIffPrefix(h, chain, picks);
  }

  // ----- A flush that was interrupted -----

  /** The stored chain after a writer that resumed at `base` has written `batch`. */
  function Overlay(chain: seq<Record>, base: nat, batch: seq<Record>): seq<Record>
    requires base <= |chain|
  {
    chain[..base] + batch + if base + |batch| < |chain| then chain[base + |batch|..] else []
  }

  /**
   A crash inside a flush of an otherwise undisturbed node leaves a good chain.  If records beyond the
   cursor were stored, the restarted writer resumes below them.
   */
  lemma InterruptedFlush(d: Digest, steps: seq<Step>, n: Text, newest: nat)
    requires Legal(d, EMPTY, steps) && AllComplete(d, EMPTY, steps)
    requires var w := Run(d, EMPTY, steps);
             && n in w.writers && w.writers[n].phase.Draining? && Enabled(Apply(d, w, Crash(n)), Start(n, newest))
             && n in w.cursors && w.cursors[n].seqNo < |w.Chain(n)|
    ensures var w := Run(d, EMPTY, steps);
            var w' := Apply(d, Apply(d, w, Crash(n)), Start(n, newest));
            && w'.Chain(n) == w.Chain(n) && ChainOk(d, w.Chain(n))
            && w'.writers[n].batch == [] && Flushed(w'.writers[n]) == w.cursors[n].seqNo < |w.Chain(n)|
  {
    StoredChainVerifies(d, steps, n);
  }

  lemma OverlayPut(chain: seq<Record>, base: nat, batch: seq<Record>)
    requires base <= |chain| && batch != [] && batch[0].seqNo == base + 1
    ensures Overlay(Put(chain, batch[0]), base + 1, batch[1..]) == Overlay(chain, base, batch)
  {
    assert Put(chain, batch[0])[..base + 1] + batch[1..] == chain[..base] + batch;
  }

  /** Writing the next `k` records of the batch. */
  function Drain(n: Text, k: nat): seq<Step> {
    if k == 0 then [] else [WriteNext(n)] + Drain(n, k - 1)
  }

  lemma WriteNextEffect(d: Digest, w: World, n: Text)
    requires Inv(d, w) && n in w.writers && w.writers[n].phase.Draining? && w.writers[n].batch != []
    ensures Enabled(w, WriteNext(n))
    ensures var w' := Apply(d, w, WriteNext(n));
            && 0 <= Flushed(w.writers[n]) <= |w.Chain(n)| && w.writers[n].batch[0].seqNo == Flushed(w.writers[n]) + 1
            && n in w'.writers && w'.writers[n].phase.Draining? && w'.writers[n].batch == w.writers[n].batch[1..]
            && Flushed(w'.writers[n]) == Flushed(w.writers[n]) + 1
            && w'.Chain(n) == Put(w.Chain(n), w.writers[n].batch[0])
  {
    assert NodeInv(d, w, n);
    NextRecord(d, n, w.writers[n], w.Chain(n));
  }

  lemma RunCons(d: Digest, w: World, step: Step, rest: seq<Step>)
    requires Enabled(w, step) && Legal(d, Apply(d, w, step), rest)
    ensures Legal(d, w, [step] + rest) && Run(d, w, [step] + rest) == Run(d, Apply(d, w, step), rest)
  {
    assert ([step] + rest)[1..] == rest;
  }

  /** The writer of `n` flushes `batch` over a chain of which it has `base` records. */
  ghost predicate Flushing(w: World, n: Text, chain: seq<Record>, base: nat, batch: seq<Record>) {
    && n in w.writers && w.writers[n].phase.Draining? && w.writers[n].batch == batch
    && w.Chain(n) == chain && base <= |chain| && Flushed(w.writers[n]) == base
  }

  /** Draining a whole batch overlays the stored chain with it. */
  lemma {:induction false} DrainOverlays(
    d: Digest, w: World, n: Text, chain: seq<Record>, base: nat, batch: seq<Record>)
    requires Inv(d, w) && Flushing(w, n, chain, base, batch)
    ensures Legal(d, w, Drain(n, |batch|))
    ensures Run(d, w, Drain(n, |batch|)).Chain(n) == Overlay(chain, base, batch)
    decreases |batch|
  {
    if batch == [] {
      assert Overlay(chain, base, []) == chain;
    } else {
      WriteNextEffect(d, w, n);
      StepInv(d, w, WriteNext(n));
      DrainOverlays(d, Apply(d, w, WriteNext(n)), n, Put(chain, batch[0]), base + 1, batch[1..]);
      RunCons(d, w, WriteNext(n), Drain(n, |batch| - 1));
      OverlayPut(chain, base, batch);
    }
  }

  /** A flush always has its base inside the stored chain, so the above covers every flush. */
  lemma FlushingIsGeneral(d: Digest, w: World, n: Text)
    requires Inv(d, w) && n in w.writers && w.writers[n].phase.Draining?
    ensures Flushed(w.writers[n]) >= 0
    ensures Flushing(w, n, w.Chain(n), Flushed(w.writers[n]), w.writers[n].batch)
  {
    assert NodeInv(d, w, n);
  }

  ghost predicate AllSealed(d: Digest, records: seq<Record>) {
    forall i :: 0 <= i < |records| ==> Sealed(d, records[i])
  }

  /** Every record after position `k` links to the one before it. */
  ghost predicate LinkedAfter(records: seq<Record>, k: nat) {
    forall i :: k < i < |records| ==> LinkedAt(records, i)
  }

  /** Nothing is left of the old chain, or what is left links to the last new record and is itself linked. */
  ghost predicate Joins(chain: seq<Record>, base: nat, batch: seq<Record>)
    requires base <= |chain| && batch != []
  {
    var seam := base + |batch|;
    seam < |chain| ==> chain[seam].prevHash == batch[|batch| - 1].recordHash && LinkedAfter(chain, seam)
  }

  /**
   Overlaying any sealed records from `base` on gives a good chain if and only if the overlay joins: also
   over a chain that earlier interrupted flushes have broken.
   */
  lemma OverlayVerifies(d: Digest, chain: seq<Record>, base: nat, batch: seq<Record>)
    requires AllSealed(d, chain) && base <= |chain| && batch != [] && ChainOk(d, chain[..base] + batch)
    ensures ChainOk(d, Overlay(chain, base, batch)) <==> Joins(chain, base, batch)
  {
    var result, line, seam := Overlay(chain, base, batch), chain[..base] + batch, base + |batch|;
    if seam >= |chain| {
      assert result == line;
    } else {
      assert forall i :: 0 <= i < seam ==> result[i] == line[i];
      assert forall i :: seam <= i < |result| ==> result[i] == chain[i];
      if ChainOk(d, result) {
        assert GoodAt(d, result, seam);
        forall i | seam < i < |chain| ensures LinkedAt(chain, i) { assert GoodAt(d, result, i); }
      } else if Joins(chain, base, batch) {
        forall i | 0 <= i < |result| ensures GoodAt(d, result, i) {
          if i < seam { assert GoodAt(d, line, i); } else if i > seam { assert LinkedAt(chain, i); }
        }
      }
    }
  }

  /**
   In every run, with crashes inside flushes and failed cursor saves: draining a batch leaves the node a
   good chain in the table if and only if the batch joins what is stored beyond it.
   */
  lemma FlushVerdict(d: Digest, steps: seq<Step>, n: Text)
    requires Legal(d, EMPTY, steps)
    requires var w := Run(d, EMPTY, steps);
             n in w.writers && w.writers[n].phase.Draining? && w.writers[n].batch != []
    ensures var w := Run(d, EMPTY, steps);
            var base, batch := Flushed(w.writers[n]), w.writers[n].batch;
            && 0 <= base <= |w.Chain(n)| && Legal(d, w, Drain(n, |batch|))
            && var w' := Run(d, w, Drain(n, |batch|));
               TableHolds(w'.table, n, w'.Chain(n)) && (ChainOk(d, w'.Chain(n)) <==> Joins(w.Chain(n), base, batch))
  {
    EmptyInv(d);
    RunInv(d, EMPTY, steps);
    var w := Run(d, EMPTY, steps);
    var chain, batch := w.Chain(n), w.writers[n].batch;
    FlushingIsGeneral(d, w, n);
    DrainOverlays(d, w, n, chain, Flushed(w.writers[n]), batch);
    RunInv(d, w, Drain(n, |batch|));
    assert NodeInv(d, Run(d, w, Drain(n, |batch|)), n);
    StoredAreSealed(d, w, n);
    OverlayVerifies(d, chain, Flushed(w.writers[n]), batch);
  }

  lemma StoredAreSealed(d: Digest, w: World, n: Text)
    requires Inv(d, w)
    ensures AllSealed(d, w.Chain(n))
    ensures n in w.writers ==> 0 <= Flushed(w.writers[n]) <= |w.Chain(n)|
    ensures n in w.writers ==> ChainOk(d, w.Chain(n)[..Flushed(w.writers[n])] + w.writers[n].batch)
  {
    assert NodeInv(d, w, n);
    forall i | 0 <= i < |w.Chain(n)| ensures Sealed(d, w.Chain(n)[i]) { assert OwnAt(d, n, w.Chain(n), i); }
  }

  // ----- A run that breaks a chain -----

  lemma {:induction false} RunConcat(d: Digest, w: World, s: seq<Step>, t: seq<Step>)
    requires Legal(d, w, s) && Legal(d, Run(d, w, s), t)
    ensures Legal(d, w, s + t) && Run(d, w, s + t) == Run(d, Run(d, w, s), t)
    decreases |s|
  {
    if s == [] {
      assert s + t == t;
    } else {
      RunConcat(d, Apply(d, w, s[0]), s[1..], t);
      RunCons(d, w, s[0], s[1..] + t);
      assert [s[0]] + (s[1..] + t) == s + t;
    }
  }

  lemma RunThree(d: Digest, w: World, s0: Step, s1: Step, s2: Step)
    requires Enabled(w, s0) && Enabled(Apply(d, w, s0), s1) && Enabled(Apply(d, Apply(d, w, s0), s1), s2)
    ensures Legal(d, w, [s0, s1, s2])
    ensures Run(d, w, [s0, s1, s2]) == Apply(d, Apply(d, Apply(d, w, s0), s1), s2)
  {
    var w1 := Apply(d, w, s0);
    var w2 := Apply(d, w1, s1);
    assert Legal(d, Apply(d, w2, s2), []) && Run(d, Apply(d, w2, s2), []) == Apply(d, w2, s2);
    RunCons(d, w2, s2, []);
    RunCons(d, w1, s1, [s2]);
    RunCons(d, w, s0, [s1, s2]);
    assert [s0] + ([s1] + ([s2] + [])) == [s0, s1, s2];
  }

  /** The records of four events: the fourth takes the place of the second. */
  function First(d: Digest, n: Text, i: seq<Input>): Record
    requires |i| == 4
  {
    MakeRecord(d, n, 1, [], i[0], 0)
  }

  function Second(d: Digest, n: Text, i: seq<Input>): Record
    requires |i| == 4
  {
    MakeRecord(d, n, 2, First(d, n, i).recordHash, i[1], 0)
  }

  function Third(d: Digest, n: Text, i: seq<Input>): Record
    requires |i| == 4
  {
    MakeRecord(d, n, 3, Second(d, n, i).recordHash, i[2], 0)
  }

  function SecondAgain(d: Digest, n: Text, i: seq<Input>): Record
    requires |i| == 4
  {
    MakeRecord(d, n, 2, First(d, n, i).recordHash, i[3], 0)
  }

  /** A first record is flushed and the cursor saved. */
  function Opening(n: Text, i: seq<Input>): seq<Step>
    requires |i| == 4
  {
    [Start(n, 0), Arrive(n, i[0], 0), BeginFlush(n)] + [WriteNext(n), SaveCursor(n, true), Arrive(n, i[1], 0)]
  }

  lemma OpeningRuns(d: Digest, n: Text, i: seq<Input>)
    requires |i| == 4
    ensures Legal(d, EMPTY, Opening(n, i))
    ensures Run(d, EMPTY, Opening(n, i)) == Opened(d, n, i)
  {
    var r1, r2 := First(d, n, i), Second(d, n, i);
    RunThree(d, EMPTY, Start(n, 0), Arrive(n, i[0], 0), BeginFlush(n));
    var w := Run(d, EMPTY, [Start(n, 0), Arrive(n, i[0], 0), BeginFlush(n)]);
    assert [] + [r1] == [r1];
    assert w.writers[n] == Writer(1, r1.recordHash, [r1], Draining);
    RunThree(d, w, WriteNext(n), SaveCursor(n, true), Arrive(n, i[1], 0));
    assert [] + [r2] == [r2] && [r1][1..] == [];
    RunConcat(d, EMPTY, [Start(n, 0), Arrive(n, i[0], 0), BeginFlush(n)],
              [WriteNext(n), SaveCursor(n, true), Arrive(n, i[1], 0)]);
  }

  /** A second flush stores two records and is interrupted before the cursor is saved. */
  function Interruption(n: Text, i: seq<Input>): seq<Step>
    requires |i| == 4
  {
    [Arrive(n, i[2], 0), BeginFlush(n), WriteNext(n)] + [WriteNext(n), Crash(n), Start(n, 3)]
  }

  /** After the first record and its cursor, with a second record in the batch. */
  function Opened(d: Digest, n: Text, i: seq<Input>): World
    requires |i| == 4
  {
    var r1, r2 := First(d, n, i), Second(d, n, i);
    World(map[(n, 1) := r1], map[n := Cursor(1, r1.recordHash)],
          map[n := Writer(2, r2.recordHash, [r2], Buffering)], map[n := [r1]])
  }

  /** A third record has arrived, and the second has been written. */
  function HalfFlushed(d: Digest, n: Text, i: seq<Input>): World
    requires |i| == 4
  {
    var r1, r2, r3 := First(d, n, i), Second(d, n, i), Third(d, n, i);
    World(map[(n, 1) := r1, (n, 2) := r2], map[n := Cursor(1, r1.recordHash)],
          map[n := Writer(3, r3.recordHash, [r3], Draining)], map[n := [r1, r2]])
  }

  lemma HalfFlushedRuns(d: Digest, n: Text, i: seq<Input>)
    requires |i| == 4
    ensures var steps := [Arrive(n, i[2], 0), BeginFlush(n), WriteNext(n)];
            Legal(d, Opened(d, n, i), steps) && Run(d, Opened(d, n, i), steps) == HalfFlushed(d, n, i)
  {
    var r1, r2, r3 := First(d, n, i), Second(d, n, i), Third(d, n, i);
    RunThree(d, Opened(d, n, i), Arrive(n, i[2], 0), BeginFlush(n), WriteNext(n));
    assert [r2] + [r3] == [r2, r3] && [r2, r3][1..] == [r3] && [r1] + [r2] == [r1, r2];
  }

  lemma InterruptedRuns(d: Digest, n: Text, i: seq<Input>)
    requires |i| == 4
    ensures var r1, r2, r3 := First(d, n, i), Second(d, n, i), Third(d, n, i);
            var steps := [WriteNext(n), Crash(n), Start(n, 3)];
            && Legal(d, HalfFlushed(d, n, i), steps)
            && Run(d, HalfFlushed(d, n, i), steps)
                 == World(map[(n, 1) := r1, (n, 2) := r2, (n, 3) := r3], map[n := Cursor(1, r1.recordHash)],
                          map[n := Writer(1, r1.recordHash, [], Buffering)], map[n := [r1, r2, r3]])
  {
    var r1, r2, r3 := First(d, n, i), Second(d, n, i), Third(d, n, i);
    var w := Apply(d, HalfFlushed(d, n, i), WriteNext(n));
    assert [r3][1..] == [] && [r1, r2] + [r3] == [r1, r2, r3];
    assert IsNewest(w.table, n, 3);
    RunThree(d, HalfFlushed(d, n, i), WriteNext(n), Crash(n), Start(n, 3));
  }

  lemma InterruptionRuns(d: Digest, n: Text, i: seq<Input>)
    requires |i| == 4
    ensures var r1, r2, r3 := First(d, n, i), Second(d, n, i), Third(d, n, i);
            && Legal(d, Opened(d, n, i), Interruption(n, i))
            && Run(d, Opened(d, n, i), Interruption(n, i))
                 == World(map[(n, 1) := r1, (n, 2) := r2, (n, 3) := r3], map[n := Cursor(1, r1.recordHash)],
                          map[n := Writer(1, r1.recordHash, [], Buffering)], map[n := [r1, r2, r3]])
  {
    HalfFlushedRuns(d, n, i);
    InterruptedRuns(d, n, i);
    RunConcat(d, Opened(d, n, i), [Arrive(n, i[2], 0), BeginFlush(n), WriteNext(n)],
              [WriteNext(n), Crash(n), Start(n, 3)]);
  }

  /** The restarted writer flushes one record over the second. */
  function Replacement(n: Text, i: seq<Input>): seq<Step>
    requires |i| == 4
  {
    [Arrive(n, i[3], 0), BeginFlush(n), WriteNext(n)]
  }

  lemma ReplacementRuns(d: Digest, n: Text, i: seq<Input>, w: World)
    requires |i| == 4 && n in w.writers && w.writers[n] == Writer(1, First(d, n, i).recordHash, [], Buffering)
    requires w.Chain(n) == [First(d, n, i), Second(d, n, i), Third(d, n, i)]
    ensures Legal(d, w, Replacement(n, i))
    ensures Run(d, w, Replacement(n, i)).Chain(n) == [First(d, n, i), SecondAgain(d, n, i), Third(d, n, i)]
  {
    RunThree(d, w, Arrive(n, i[3], 0), BeginFlush(n), WriteNext(n));
    assert [] + [SecondAgain(d, n, i)] == [SecondAgain(d, n, i)];
  }

  lemma ThreeRecords(d: Digest, n: Text, i: seq<Input>)
    requires |i| == 4
    ensures ChainOk(d, [First(d, n, i), SecondAgain(d, n, i), Third(d, n, i)])
      <==> Second(d, n, i).recordHash == SecondAgain(d, n, i).recordHash
  {
    var chain := [First(d, n, i), SecondAgain(d, n, i), Third(d, n, i)];
    assert GoodAt(d, chain, 0) && GoodAt(d, chain, 1);
    assert GoodAt(d, chain, 2) <==> Second(d, n, i).recordHash == SecondAgain(d, n, i).recordHash;
  }

  /**
   A run of one node in which every write and save succeeds, but one crash falls between the records and
   the cursor of a flush.  Its stored chain is good only if the second record, written again, has the hash
   of the one it replaces: it is the same record, or their hashes collide.
   */
  lemma InterruptedFlushBreaksChain(d: Digest, n: Text, i: seq<Input>)
    requires |i| == 4
    ensures var steps := Opening(n, i) + Interruption(n, i) + Replacement(n, i);
            && Legal(d, EMPTY, steps)
            && var w := Run(d, EMPTY, steps);
               && TableHolds(w.table, n, w.Chain(n)) && |w.Chain(n)| == 3
               && (ChainOk(d, w.Chain(n)) <==> Second(d, n, i).recordHash == SecondAgain(d, n, i).recordHash)
  {
    OpeningRuns(d, n, i);
    InterruptionRuns(d, n, i);
    RunConcat(d, EMPTY, Opening(n, i), Interruption(n, i));
    var w := Run(d, EMPTY, Opening(n, i) + Interruption(n, i));
    ReplacementRuns(d, n, i, w);
    RunConcat(d, EMPTY, Opening(n, i) + Interruption(n, i), Replacement(n, i));
    var steps := Opening(n, i) + Interruption(n, i) + Replacement(n, i);
    EmptyInv(d);
    RunInv(d, EMPTY, steps);
    assert NodeInv(d, Run(d, EMPTY, steps), n);
    ThreeRecords(d, n, i);
  }
}
