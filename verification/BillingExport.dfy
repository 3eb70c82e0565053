/**
 The export loop over one watermark for the whole billing table.  It reads, in the order of the table's
 text keys, up to 10000 records above the watermark, exports them, and on success saves the number of
 the last one read as the new watermark.  Every node may write between these three operations.
 */
module BillingExport {
  import opened Encoding
  import opened BillingStorage
  import opened KeyOrder

  const LIMIT: nat := 10_000

  /** The records above the watermark, in table order. */
  function Unexported(listing: seq<Key>, watermark: nat): (r: seq<Key>)
    ensures forall k :: k in r <==> k in listing && k.1 > watermark
    ensures |r| <= |listing|
  {
    if listing == [] then []
    else
      assert listing == [listing[0]] + listing[1..];
      (if listing[0].1 > watermark then [listing[0]] else []) + Unexported(listing[1..], watermark)
  }

  function FirstBatch(pending: seq<Key>): seq<Key> {
    if |pending| <= LIMIT then pending else pending[..LIMIT]
  }

  function ToSet(keys: seq<Key>): set<Key> {
    set k | k in keys
  }

  /** Where the loop stands: waiting, exporting what it read, or saving the watermark of what it exported. */
  datatype Phase = Idle | Exporting(batch: seq<Key>) | Saving(batch: seq<Key>)

  /**
   `listing` is the table in key order.  `exported` is history: the keys whose present record was exported.
   `since` holds the keys written since the loop last read.
   */
  datatype State = State(listing: seq<Key>, watermark: nat, exported: set<Key>, phase: Phase, since: set<Key>)
  {
    function Pending(): seq<Key> {
      Unexported(listing, watermark)
    }

    function Batch(): seq<Key> {
      FirstBatch(Pending())
    }
  }

  const EMPTY := State([], 0, {}, Idle, {})

  /** A crash of the loop is a failed export or an unnoticed failed save. */
  datatype Step =
    | Write(key: Key)
    | Read(readOk: bool)
    | Export(exportOk: bool)
    | Save(saved: bool)

  predicate Enabled(s: State, step: Step) {
    match step
    case Write(_) => true
    case Read(_) => s.phase.Idle?
    case Export(_) => s.phase.Exporting?
    case Save(_) => s.phase.Saving? && s.phase.batch != []
  }

  /** A new record goes where its key belongs; a record written again replaces the old one. */
  function OnWrite(s: State, key: Key): State {
    s.(listing := if key in s.listing then s.listing else Insertion(s.listing, key),
       exported := s.exported - {key}, since := s.since + {key})
  }

  function OnRead(s: State, readOk: bool): State {
    if !readOk || s.Batch() == [] then s else s.(phase := Exporting(s.Batch()), since := {})
  }

  /** What was written again since the read is exported in its old form only. */
  function OnExport(s: State, exportOk: bool): State
    requires s.phase.Exporting?
  {
    if exportOk then s.(exported := s.exported + (ToSet(s.phase.batch) - s.since), phase := Saving(s.phase.batch))
    else s.(phase := Idle)
  }

  function Last(batch: seq<Key>): nat
    requires batch != []
  {
    batch[|batch| - 1].1
  }

  /** A failed save of the watermark goes unnoticed. */
  function OnSave(s: State, saved: bool): State
    requires s.phase.Saving? && s.phase.batch != []
  {
    s.(watermark := if saved then Last(s.phase.batch) else s.watermark, phase := Idle)
  }

  function Apply(s: State, step: Step): State
    requires Enabled(s, step)
  {
    match step
    case Write(key) => OnWrite(s, key)
    case Read(readOk) => OnRead(s, readOk)
    case Export(exportOk) => OnExport(s, exportOk)
    case Save(saved) => OnSave(s, saved)
  }

  /** The loop with the records it holds between its operations. */
  class Exporter {
    var listing: seq<Key>
    var watermark: nat
    var exported: set<Key>
    var phase: Phase
    var since: set<Key>

    function View(): State
      reads this
    {
      State(listing, watermark, exported, phase, since)
    }

    method ReadBatch(readOk: bool)
      requires phase.Idle?
      modifies this
      ensures View() == OnRead(old(View()), readOk)
    {
      if !readOk {
        return;
      }
      var records := FirstBatch(Unexported(listing, watermark));
      if records == [] {
        return;
      }
      phase, since := Exporting(records), {};
    }

    method ExportBatch(exportOk: bool)
      requires phase.Exporting?
      modifies this
      ensures View() == OnExport(old(View()), exportOk)
    {
      if exportOk {
        exported := exported + (ToSet(phase.batch) - since);
        phase := Saving(phase.batch);
      } else {
        phase := Idle;
      }
    }

    method SaveWatermark(saved: bool)
      requires phase.Saving? && phase.batch != []
      modifies this
      ensures View() == OnSave(old(View()), saved)
    {
      var lastSeq := phase.batch[|phase.batch| - 1].1;
      if saved {
        watermark := lastSeq;
      }
      phase := Idle;
    }
  }

  predicate Legal(s: State, steps: seq<Step>)
    decreases |steps|
  {
    steps == [] || (Enabled(s, steps[0]) && Legal(Apply(s, steps[0]), steps[1..]))
  }

  function Run(s: State, steps: seq<Step>): State
    requires Legal(s, steps)
    decreases |steps|
  {
    if steps == [] then s else Run(Apply(s, steps[0]), steps[1..])
  }

  /** Every record at or below the watermark has been exported as it is. */
  ghost predicate AtLeastOnce(s: State) {
    forall k :: k in s.listing && k.1 <= s.watermark ==> k in s.exported
  }

  // ----- What every step keeps -----

  /** What the loop holds lies in the table above the watermark; what was written since is not exported. */
  ghost predicate Inv(s: State) {
    && InKeyOrder(s.listing)
    && (!s.phase.Idle? ==>
          && s.phase.batch != []
          && (forall k :: k in s.phase.batch ==> k in s.listing && k.1 > s.watermark)
          && (forall k :: k in s.since ==> k in s.listing && k !in s.exported))
    && (s.phase.Saving? ==> forall k :: k in s.phase.batch && k !in s.since ==> k in s.exported)
  }

  lemma BatchIn(s: State)
    ensures forall k :: k in s.Batch() ==> k in s.listing && k.1 > s.watermark
  {
    var pending := s.Pending();
    assert forall k :: k in s.Batch() ==> k in pending;
  }

  lemma InsertionMembers(keys: seq<Key>, key: Key)
    ensures |Insertion(keys, key)| == |keys| + 1
    ensures forall k :: k in Insertion(keys, key) <==> k == key || k in keys
  {
    var p := Position(keys, key);
    assert keys == keys[..p] + keys[p..];
  }

  lemma WriteMembers(s: State, key: Key)
    ensures forall k :: k in OnWrite(s, key).listing <==> k == key || k in s.listing
  {
    InsertionMembers(s.listing, key);
  }

  lemma StepInv(s: State, step: Step)
    requires Inv(s) && Enabled(s, step)
    ensures Inv(Apply(s, step))
  {
    match step
    case Write(key) =>
      WriteMembers(s, key);
      if key !in s.listing { InsertionInOrder(s.listing, key); }
    case Read(_) => BatchIn(s);
    case _ =>
  }

  /** The watermark never decreases. */
  lemma WatermarkGrows(s: State, step: Step)
    requires Inv(s) && Enabled(s, step)
    ensures s.watermark <= Apply(s, step).watermark
  {
    if step.Save? { assert s.phase.batch[|s.phase.batch| - 1] in s.phase.batch; }
  }

  /** A record that the watermark has passed without an export is never exported. */
  lemma LostForever(s: State, step: Step, k: Key)
    requires Inv(s) && Enabled(s, step) && k in s.listing && k.1 <= s.watermark && k !in s.exported
    ensures var s' := Apply(s, step); k in s'.listing && k.1 <= s'.watermark && k !in s'.exported
  {
    WatermarkGrows(s, step);
    if step.Write? { WriteMembers(s, step.key); }
  }

  lemma {:induction false} LostAtEnd(s: State, steps: seq<Step>, k: Key)
    requires Inv(s) && Legal(s, steps) && k in s.listing && k.1 <= s.watermark && k !in s.exported
    ensures !AtLeastOnce(Run(s, steps))
    decreases |steps|
  {
    if steps != [] {
      StepInv(s, steps[0]);
      LostForever(s, steps[0], k);
      LostAtEnd(Apply(s, steps[0]), steps[1..], k);
    }
  }

  // ----- What a turn of the loop does -----

  lemma {:induction false} PendingInOrder(listing: seq<Key>, watermark: nat)
    requires InKeyOrder(listing)
    ensures InKeyOrder(Unexported(listing, watermark))
  {
    if listing != [] {
      var rest := Unexported(listing[1..], watermark);
      PendingInOrder(listing[1..], watermark);
      forall k | k in rest ensures KeyBefore(listing[0], k) {
        var i :| 0 <= i < |listing[1..]| && listing[1..][i] == k;
        assert listing[i + 1] == k;
      }
    }
  }

  /** A read takes pending records, all of them if they are at most 10000 and else 10000, the first in key order. */
  lemma BatchIsFirst(s: State, k: Key)
    requires InKeyOrder(s.listing) && k in s.listing && k.1 > s.watermark && k !in s.Batch()
    ensures |s.Batch()| == 10_000 && forall taken :: taken in s.Batch() ==> KeyBefore(taken, k)
  {
    var pending := s.Pending();
    PendingInOrder(s.listing, s.watermark);
    var i :| 0 <= i < |pending| && pending[i] == k;
    EarlyIsTaken(pending, i);
  }

  lemma EarlyIsTaken(pending: seq<Key>, i: nat)
    requires i < |pending|
    ensures i < LIMIT ==> pending[i] in FirstBatch(pending)
  {
    if i < LIMIT { assert FirstBatch(pending)[i] == pending[i]; }
  }

  /** One whole turn of the loop in which everything succeeds. */
  function Turned(s: State): State
    requires s.phase.Idle? && s.Batch() != []
  {
    OnSave(OnExport(OnRead(s, true), true), true)
  }

  /**
   A turn without failures exports what was read and nothing else, and moves the watermark to the number of the
   record read last in key order; a turn whose read or export fails, or that finds nothing, changes neither.
   */
  lemma TurnExports(s: State, last: Key)
    requires Inv(s) && s.phase.Idle? && s.Batch() != []
    requires last in s.Batch() && forall k :: k in s.Batch() && k != last ==> KeyBefore(k, last)
    ensures var s' := Turned(s);
            && s'.watermark == last.1 && s'.phase.Idle? && s'.listing == s.listing
            && forall k :: k in s'.exported <==> k in s.exported || k in s.Batch()
    ensures OnRead(s, false) == s
    ensures var failed := OnExport(OnRead(s, true), false);
            failed.watermark == s.watermark && failed.exported == s.exported && failed.phase.Idle?
  {
    var batch, end := s.Batch(), s.Batch()[|s.Batch()| - 1];
    assert end in batch;
    if end != last {
      PendingInOrder(s.listing, s.watermark);
      var i :| 0 <= i < |batch| && batch[i] == last;
      assert s.Pending()[i] == last && s.Pending()[|batch| - 1] == end;
      OneKeyBefore(last, end);
    }
  }

  // ----- Any number of nodes -----

  /** What is pending is in the loop's hands or was written since it read. */
  ghost predicate HoldsPending(s: State) {
    !s.phase.Idle? ==> forall k :: k in s.listing && k.1 > s.watermark && k !in s.since ==> k in s.phase.batch
  }

  /** The step passes over no record: nothing is written at a number that the watermark has passed or now passes. */
  ghost predicate Above(s: State, step: Step)
    requires Enabled(s, step)
  {
    match step
    case Write(key) => key.1 > s.watermark
    case Save(saved) => saved ==> forall k :: k in s.since ==> k.1 > Last(s.phase.batch)
    case _ => true
  }

  ghost predicate AllAbove(s: State, steps: seq<Step>)
    requires Legal(s, steps)
    decreases |steps|
  {
    steps == [] || (Above(s, steps[0]) && AllAbove(Apply(s, steps[0]), steps[1..]))
  }

  /** No read finds more records than it can take. */
  predicate AllShort(s: State, steps: seq<Step>)
    requires Legal(s, steps)
    decreases |steps|
  {
    steps == [] ||
    ((steps[0].Read? ==> |s.Pending()| <= LIMIT) && AllShort(Apply(s, steps[0]), steps[1..]))
  }

  lemma StepHoldsPending(s: State, step: Step)
    requires Inv(s) && HoldsPending(s) && Enabled(s, step) && (step.Read? ==> |s.Pending()| <= LIMIT)
    ensures HoldsPending(Apply(s, step))
  {
    if step.Write? { WriteMembers(s, step.key); }
  }

  lemma WriteKeepsIffAbove(s: State, key: Key)
    requires AtLeastOnce(s)
    ensures AtLeastOnce(OnWrite(s, key)) <==> key.1 > s.watermark
  {
    WriteMembers(s, key);
    assert key in OnWrite(s, key).listing;
  }

  lemma SaveKeepsIffAbove(s: State, saved: bool)
    requires Inv(s) && HoldsPending(s) && AtLeastOnce(s) && Enabled(s, Save(saved))
    ensures AtLeastOnce(OnSave(s, saved)) <==> Above(s, Save(saved))
  {
  }

  lemma StepKeepsIffAbove(s: State, step: Step)
    requires Inv(s) && HoldsPending(s) && AtLeastOnce(s) && Enabled(s, step)
    ensures AtLeastOnce(Apply(s, step)) <==> Above(s, step)
  {
    match step
    case Write(key) => WriteKeepsIffAbove(s, key);
    case Save(saved) => SaveKeepsIffAbove(s, saved);
    case _ =>
  }

  /**
   A run of writes by any nodes, failed reads and exports, failed saves and crashes, in which every read can
   take all that is pending, keeps every record at or below the watermark exported if and only if no record
   is written at a number that the watermark has passed, and no save passes the number of a record written
   since the read.
   */
  lemma {:induction false} AtLeastOnceIffAbove(s: State, steps: seq<Step>)
    requires Inv(s) && HoldsPending(s) && AtLeastOnce(s) && Legal(s, steps) && AllShort(s, steps)
    ensures AtLeastOnce(Run(s, steps)) <==> AllAbove(s, steps)
    decreases |steps|
  {
    if steps != [] {
      var s' := Apply(s, steps[0]);
      StepInv(s, steps[0]);
      StepHoldsPending(s, steps[0]);
      StepKeepsIffAbove(s, steps[0]);
      if AtLeastOnce(s') {
        AtLeastOnceIffAbove(s', steps[1..]);
      } else {
        var k :| k in s'.listing && k.1 <= s'.watermark && k !in s'.exported;
        LostAtEnd(s', steps[1..], k);
      }
    }
  }

  // ----- Explicit runs -----

  lemma {:induction false} Extend(s: State, steps: seq<Step>, step: Step)
    requires Legal(s, steps) && Enabled(Run(s, steps), step)
    ensures Legal(s, steps + [step]) && Run(s, steps + [step]) == Apply(Run(s, steps), step)
    decreases |steps|
  {
    var longer := steps + [step];
    if steps == [] {
      assert longer[1..] == [];
    } else {
      Extend(Apply(s, steps[0]), steps[1..], step);
      assert longer[1..] == steps[1..] + [step];
    }
  }

  /** One node's first record is exported. */
  function OneExport(a: Text): seq<Step> {
    [Write((a, 1))] + [Read(true)] + [Export(true)] + [Save(true)]
  }

  lemma OneExportRuns(a: Text)
    ensures Legal(EMPTY, OneExport(a))
    ensures var s := Run(EMPTY, OneExport(a)); s.listing == [(a, 1)] && s.watermark == 1 && s.phase.Idle?
  {
    var path: seq<Step> := [];
    Extend(EMPTY, path, Write((a, 1)));
    path := path + [Write((a, 1))];
    assert Run(EMPTY, path) == State([(a, 1)], 0, {}, Idle, {(a, 1)});
    assert Run(EMPTY, path).Pending() == [(a, 1)];
    Extend(EMPTY, path, Read(true));
    path := path + [Read(true)];
    Extend(EMPTY, path, Export(true));
    path := path + [Export(true)];
    Extend(EMPTY, path, Save(true));
    assert path + [Save(true)] == OneExport(a);
  }

  /**
   One shared watermark: after the first export of one node, the first record of another is never exported.
   Nor is, with `b == a`, the node's own first record when it writes it again.
   */
  lemma SecondNodeIsLost(a: Text, b: Text)
    ensures var steps := OneExport(a) + [Write((b, 1))]; Legal(EMPTY, steps) && !AtLeastOnce(Run(EMPTY, steps))
  {
    OneExportRuns(a);
    var s := Run(EMPTY, OneExport(a));
    Extend(EMPTY, OneExport(a), Write((b, 1)));
    WriteMembers(s, (b, 1));
    assert (b, 1) in OnWrite(s, (b, 1)).listing;
  }

  /** Two records of one node are read, and another node writes its first before they are exported. */
  function WriteDuringExport(a: Text, b: Text): seq<Step> {
    [Write((a, 1))] + [Write((a, 2))] + [Read(true)] + [Write((b, 1))] + [Export(true)] + [Save(true)]
  }

  lemma TwoWritten(a: Text)
    ensures Insertion([(a, 1)], (a, 2)) == [(a, 1), (a, 2)]
  {
    DecimalLess(1, 2);
    NodeKeys(a, 1, 2);
  }

  /** Every write is above the watermark of its time, and yet the record of the other node is lost. */
  lemma WriteDuringExportIsLost(a: Text, b: Text)
    requires a != b
    ensures var steps := WriteDuringExport(a, b);
            && Legal(EMPTY, steps) && !AtLeastOnce(Run(EMPTY, steps)) && Run(EMPTY, steps).watermark == 2
            && Legal(EMPTY, steps[..5]) && Run(EMPTY, steps[..5]).watermark == 0
  {
    var path: seq<Step> := [];
    Extend(EMPTY, path, Write((a, 1)));
    path := path + [Write((a, 1))];
    assert Run(EMPTY, path) == State([(a, 1)], 0, {}, Idle, {(a, 1)});
    TwoWritten(a);
    Extend(EMPTY, path, Write((a, 2)));
    path := path + [Write((a, 2))];
    assert Run(EMPTY, path).listing == [(a, 1), (a, 2)];
    assert Run(EMPTY, path).Pending() == [(a, 1), (a, 2)];
    Extend(EMPTY, path, Read(true));
    path := path + [Read(true)];
    ExportAfterWrite(a, b, path);
  }

  lemma ExportAfterWrite(a: Text, b: Text, path: seq<Step>)
    requires a != b && path == [Write((a, 1))] + [Write((a, 2))] + [Read(true)] && Legal(EMPTY, path)
    requires var s := Run(EMPTY, path);
             s.phase == Exporting([(a, 1), (a, 2)]) && s.watermark == 0 && s.since == {} && s.exported == {}
    ensures var steps := WriteDuringExport(a, b);
            && Legal(EMPTY, steps) && !AtLeastOnce(Run(EMPTY, steps)) && Run(EMPTY, steps).watermark == 2
            && Legal(EMPTY, steps[..5]) && Run(EMPTY, steps[..5]).watermark == 0
  {
    var s := Run(EMPTY, path);
    Extend(EMPTY, path, Write((b, 1)));
    WriteMembers(s, (b, 1));
    var longer := path + [Write((b, 1))];
    Extend(EMPTY, longer, Export(true));
    longer := longer + [Export(true)];
    Extend(EMPTY, longer, Save(true));
    assert longer + [Save(true)] == WriteDuringExport(a, b);
    assert WriteDuringExport(a, b)[..5] == longer;
    assert (b, 1) in Run(EMPTY, longer).listing;
  }

  // ----- One node -----

  /** The keys 1 to `top` of a node. */
  ghost predicate Holds(keys: seq<Key>, n: Text, top: nat) {
    forall k :: k in keys <==> k.0 == n && 1 <= k.1 <= top
  }

  /** The records are those of one node, numbered from 1 without gaps. */
  ghost predicate OneNode(s: State, n: Text) {
    Inv(s) && Holds(s.listing, n, |s.listing|) && s.watermark <= |s.listing|
  }

  /** What the loop holds covers all that its save passes, and nothing of that was written again. */
  ghost predicate Covers(s: State) {
    !s.phase.Idle? && s.phase.batch != [] ==>
      forall k :: k in s.listing && s.watermark < k.1 <= Last(s.phase.batch) ==> k in s.phase.batch && k !in s.since
  }

  /** The node writes its next record. */
  predicate Own(s: State, step: Step, n: Text) {
    step.Write? ==> step.key == (n, |s.listing| + 1)
  }

  /** A read can take all that is pending, or the oldest and the newest pending numbers have equally many digits. */
  predicate InReach(s: State) {
    |s.Pending()| <= LIMIT || |Decimal(s.watermark + 1)| == |Decimal(|s.listing|)|
  }

  /** A run of one node, every read of which finds the state in reach. */
  predicate OwnInReach(s: State, steps: seq<Step>, n: Text)
    requires Legal(s, steps)
    decreases |steps|
  {
    steps == [] ||
    (Own(s, steps[0], n) && (steps[0].Read? ==> InReach(s)) && OwnInReach(Apply(s, steps[0]), steps[1..], n))
  }

  lemma HoldsNext(keys: seq<Key>, more: seq<Key>, n: Text, top: nat)
    requires Holds(keys, n, top) && forall k :: k in more <==> k == (n, top + 1) || k in keys
    ensures Holds(more, n, top + 1)
  {
  }

  lemma WriteOwn(s: State, n: Text)
    requires OneNode(s, n) && Covers(s)
    ensures var s' := OnWrite(s, (n, |s.listing| + 1));
            OneNode(s', n) && Covers(s') && s'.listing == Insertion(s.listing, (n, |s.listing| + 1))
  {
    var key := (n, |s.listing| + 1);
    assert key !in s.listing;
    StepInv(s, Write(key));
    InsertionMembers(s.listing, key);
    HoldsNext(s.listing, Insertion(s.listing, key), n, |s.listing|);
    if !s.phase.Idle? { assert s.phase.batch[|s.phase.batch| - 1] in s.phase.batch; }
  }

  /** Numerals of one length are listed in the order of their numbers. */
  lemma SameDigitsAscend(s: State, n: Text)
    requires OneNode(s, n) && |Decimal(s.watermark + 1)| == |Decimal(|s.listing|)|
    ensures SortedBySeq(s.Pending())
  {
    var pending := s.Pending();
    PendingInOrder(s.listing, s.watermark);
    forall i, j | 0 <= i < j < |pending| ensures pending[i].1 <= pending[j].1 {
      var a, b := pending[i].1, pending[j].1;
      assert pending[i] in pending && pending[j] in pending;
      if b < a {
        DecimalGrows(s.watermark + 1, b);
        DecimalGrows(b, a);
        DecimalGrows(a, |s.listing|);
        DecimalLess(b, a);
        NodeKeys(n, b, a);
        OneKeyBefore(pending[i], pending[j]);
      }
    }
  }

  lemma ShortReadCovers(s: State, readOk: bool)
    requires s.phase.Idle? && |s.Pending()| <= LIMIT
    ensures Covers(OnRead(s, readOk))
  {
  }

  /** Ascending numbers of one node are strictly so. */
  lemma LaterIsGreater(s: State, n: Text, i: nat, j: nat)
    requires OneNode(s, n) && SortedBySeq(s.Pending()) && i < j < |s.Pending()|
    ensures s.Pending()[i].1 < s.Pending()[j].1
  {
    var a, b := s.Pending()[i], s.Pending()[j];
    PendingInOrder(s.listing, s.watermark);
    assert a in s.Pending() && b in s.Pending();
    OneKeyBefore(a, b);
  }

  lemma AscendingReadCovers(s: State, readOk: bool, n: Text)
    requires s.phase.Idle? && OneNode(s, n) && SortedBySeq(s.Pending()) && |s.Pending()| > LIMIT
    ensures Covers(OnRead(s, readOk))
  {
    var pending, batch := s.Pending(), s.Batch();
    assert Last(batch) == pending[LIMIT - 1].1;
    forall k | k in s.listing && s.watermark < k.1 <= Last(batch) ensures k in batch {
      var i :| 0 <= i < |pending| && pending[i] == k;
      if i >= LIMIT { LaterIsGreater(s, n, LIMIT - 1, i); }
      EarlyIsTaken(pending, i);
    }
  }

  /** A read of all that is pending, or of numbers of one length, holds all that its save passes. */
  lemma ReadCovers(s: State, readOk: bool, n: Text)
    requires s.phase.Idle? && OneNode(s, n) && InReach(s)
    ensures Covers(OnRead(s, readOk))
  {
    if |s.Pending()| <= LIMIT {
      ShortReadCovers(s, readOk);
    } else {
      SameDigitsAscend(s, n);
      AscendingReadCovers(s, readOk, n);
    }
  }

  lemma StepOwn(s: State, step: Step, n: Text)
    requires OneNode(s, n) && Covers(s) && Enabled(s, step) && Own(s, step, n) && (step.Read? ==> InReach(s))
    ensures OneNode(Apply(s, step), n) && Covers(Apply(s, step))
  {
    match step
    case Write(_) => WriteOwn(s, n);
    case Read(readOk) =>
      StepInv(s, step);
      ReadCovers(s, readOk, n);
    case Export(_) => StepInv(s, step);
    case Save(_) =>
      StepInv(s, step);
      assert s.phase.batch[|s.phase.batch| - 1] in s.phase.batch;
  }

  lemma StepOwnKeeps(s: State, step: Step, n: Text)
    requires OneNode(s, n) && Covers(s) && Enabled(s, step) && Own(s, step, n) && AtLeastOnce(s)
    ensures AtLeastOnce(Apply(s, step))
  {
    if step.Write? { WriteKeepsIffAbove(s, step.key); }
  }

  /**
   For a single node every run is at least once in which each read finds at most 10000 pending records, or
   pending numbers that all have equally many digits, whatever the node writes before the watermark is saved.
   */
  lemma {:induction false} SingleNodeAtLeastOnce(s: State, steps: seq<Step>, n: Text)
    requires OneNode(s, n) && Covers(s) && AtLeastOnce(s) && Legal(s, steps) && OwnInReach(s, steps, n)
    ensures AtLeastOnce(Run(s, steps))
    decreases |steps|
  {
    if steps != [] {
      StepOwn(s, steps[0], n);
      StepOwnKeeps(s, steps[0], n);
      SingleNodeAtLeastOnce(Apply(s, steps[0]), steps[1..], n);
    }
  }

  // ----- A single node that loses a record -----

  /** A run of one node, no read of which finds more than `bound` records. */
  predicate OwnWithin(s: State, steps: seq<Step>, n: Text, bound: nat)
    requires Legal(s, steps)
    decreases |steps|
  {
    steps == [] ||
    (Own(s, steps[0], n) && (steps[0].Read? ==> |s.Pending()| <= bound)
     && OwnWithin(Apply(s, steps[0]), steps[1..], n, bound))
  }

  lemma {:induction false} ExtendOwn(s: State, steps: seq<Step>, step: Step, n: Text, bound: nat)
    requires Legal(s, steps) && OwnWithin(s, steps, n, bound)
    requires var t := Run(s, steps);
             Enabled(t, step) && Own(t, step, n) && (step.Read? ==> |t.Pending()| <= bound)
    ensures Legal(s, steps + [step]) && OwnWithin(s, steps + [step], n, bound)
    ensures Run(s, steps + [step]) == Apply(Run(s, steps), step)
    decreases |steps|
  {
    var longer := steps + [step];
    if steps == [] {
      assert longer[1..] == [];
    } else {
      ExtendOwn(Apply(s, steps[0]), steps[1..], step, n, bound);
      assert longer[1..] == steps[1..] + [step];
    }
  }

  lemma TurnOwn(s: State, steps: seq<Step>, n: Text, bound: nat) returns (longer: seq<Step>)
    requires Legal(s, steps) && OwnWithin(s, steps, n, bound)
    requires var t := Run(s, steps); t.phase.Idle? && t.Batch() != [] && |t.Pending()| <= bound
    ensures Legal(s, longer) && OwnWithin(s, longer, n, bound) && Run(s, longer) == Turned(Run(s, steps))
  {
    ExtendOwn(s, steps, Read(true), n, bound);
    longer := steps + [Read(true)];
    ExtendOwn(s, longer, Export(true), n, bound);
    longer := longer + [Export(true)];
    ExtendOwn(s, longer, Save(true), n, bound);
    longer := longer + [Save(true)];
  }

  /** The node has written `written` records and exported the first `exported` of them. */
  ghost predicate At(s: State, n: Text, written: nat, exported: nat) {
    && OneNode(s, n) && |s.listing| == written && s.watermark == exported && s.phase.Idle?
    && CountAbove(s.listing, exported) == written - exported
    && forall k :: k in s.exported ==> k.1 <= exported
  }

  function CountAbove(listing: seq<Key>, watermark: nat): nat {
    if listing == [] then 0
    else (if listing[0].1 > watermark then 1 else 0) + CountAbove(listing[1..], watermark)
  }

  lemma {:induction false} CountsPending(listing: seq<Key>, watermark: nat)
    ensures |Unexported(listing, watermark)| == CountAbove(listing, watermark)
  {
    if listing != [] { CountsPending(listing[1..], watermark); }
  }

  lemma {:induction false} CountJoins(a: seq<Key>, b: seq<Key>, watermark: nat)
    ensures CountAbove(a + b, watermark) == CountAbove(a, watermark) + CountAbove(b, watermark)
  {
    if a == [] {
      assert a + b == b;
    } else {
      CountJoins(a[1..], b, watermark);
      assert (a + b)[1..] == a[1..] + b;
    }
  }

  lemma CountInsertion(listing: seq<Key>, key: Key, watermark: nat)
    requires key.1 > watermark
    ensures CountAbove(Insertion(listing, key), watermark) == CountAbove(listing, watermark) + 1
  {
    var p := Position(listing, key);
    CountMiddle(listing[..p], key, listing[p..], watermark);
    assert listing[..p] + listing[p..] == listing;
  }

  lemma CountMiddle(front: seq<Key>, key: Key, back: seq<Key>, watermark: nat)
    requires key.1 > watermark
    ensures CountAbove(front + [key] + back, watermark) == CountAbove(front + back, watermark) + 1
  {
    CountJoins(front + [key], back, watermark);
    CountJoins(front, [key], watermark);
    CountJoins(front, back, watermark);
  }

  lemma {:induction false} NothingAbove(listing: seq<Key>, watermark: nat)
    requires forall k :: k in listing ==> k.1 <= watermark
    ensures Unexported(listing, watermark) == []
  {
    if listing != [] {
      assert listing[0] in listing && forall k :: k in listing[1..] ==> k in listing;
      NothingAbove(listing[1..], watermark);
    }
  }

  lemma WriteAt(s: State, n: Text, written: nat, exported: nat)
    requires At(s, n, written, exported)
    ensures At(OnWrite(s, (n, written + 1)), n, written + 1, exported)
  {
    WriteOwn(s, n);
    CountInsertion(s.listing, (n, written + 1), s.watermark);
    InsertionMembers(s.listing, (n, written + 1));
  }

  lemma OnePending(s: State, n: Text, exported: nat)
    requires At(s, n, exported + 1, exported)
    ensures s.Pending() == s.Batch() == [(n, exported + 1)]
  {
    var key := (n, exported + 1);
    CountsPending(s.listing, exported);
    assert key in s.listing && key in s.Pending();
    assert s.Pending() == [key];
  }

  lemma TurnAt(s: State, n: Text, exported: nat)
    requires At(s, n, exported + 1, exported)
    ensures s.Pending() == s.Batch() == [(n, exported + 1)] && At(Turned(s), n, exported + 1, exported + 1)
  {
    OnePending(s, n, exported);
    NothingAbove(s.listing, exported + 1);
    CountsPending(s.listing, exported + 1);
  }

  lemma WriteOne(before: seq<Step>, n: Text, written: nat, exported: nat) returns (steps: seq<Step>)
    requires Legal(EMPTY, before) && OwnWithin(EMPTY, before, n, 1) && At(Run(EMPTY, before), n, written, exported)
    ensures Legal(EMPTY, steps) && OwnWithin(EMPTY, steps, n, 1) && At(Run(EMPTY, steps), n, written + 1, exported)
  {
    WriteAt(Run(EMPTY, before), n, written, exported);
    ExtendOwn(EMPTY, before, Write((n, written + 1)), n, 1);
    steps := before + [Write((n, written + 1))];
  }

  lemma ExportOne(before: seq<Step>, n: Text, exported: nat) returns (steps: seq<Step>)
    requires Legal(EMPTY, before) && OwnWithin(EMPTY, before, n, 1) && At(Run(EMPTY, before), n, exported + 1, exported)
    ensures Legal(EMPTY, steps) && OwnWithin(EMPTY, steps, n, 1)
    ensures At(Run(EMPTY, steps), n, exported + 1, exported + 1)
  {
    TurnAt(Run(EMPTY, before), n, exported);
    steps := TurnOwn(EMPTY, before, n, 1);
  }

  /** Exporting every record at once, and from some record on none, reaches any backlog. */
  lemma {:induction false} Reach(n: Text, written: nat, exported: nat) returns (steps: seq<Step>)
    requires exported <= written
    ensures Legal(EMPTY, steps) && OwnWithin(EMPTY, steps, n, 1) && At(Run(EMPTY, steps), n, written, exported)
    decreases written + exported
  {
    if exported < written {
      steps := Reach(n, written - 1, exported);
      steps := WriteOne(steps, n, written - 1, exported);
    } else if exported > 0 {
      steps := Reach(n, written, exported - 1);
      steps := ExportOne(steps, n, exported - 1);
    } else {
      steps := [];
    }
  }

  lemma NinesAreLast(s: State, n: Text, i: nat)
    requires At(s, n, 19_999, 9_998) && i < |s.Pending()| && s.Pending()[i] == (n, 9_999)
    ensures i == LIMIT == |s.Pending()| - 1
  {
    var pending := s.Pending();
    CountsPending(s.listing, s.watermark);
    var last := pending[LIMIT];
    PendingInOrder(s.listing, s.watermark);
    assert last in pending;
    OneKeyBefore(last, (n, 9_999));
    if last.1 != 9_999 { NinesComeLast(n, last.1); }
  }

  lemma BacklogLength(s: State, n: Text)
    requires At(s, n, 19_999, 9_998)
    ensures |s.Pending()| == LIMIT + 1
  {
    CountsPending(s.listing, s.watermark);
  }

  lemma LeftOut(s: State, n: Text)
    requires At(s, n, 19_999, 9_998)
    ensures (n, 9_999) in s.listing && (n, 9_999) !in s.Batch()
  {
    BacklogLength(s, n);
    var pending := s.Pending();
    forall i | 0 <= i < LIMIT ensures pending[i] != (n, 9_999) {
      if pending[i] == (n, 9_999) { NinesAreLast(s, n, i); }
    }
  }

  /** With records 9999 to 19999 pending, the loop reads 10000 to 19999 and moves the watermark past record 9999. */
  lemma BacklogLosesRecord(s: State, n: Text)
    requires At(s, n, 19_999, 9_998)
    ensures s.Batch() != []
    ensures var s' := Turned(s);
            (n, 9_999) in s'.listing && s'.watermark >= 10_000 && (n, 9_999) !in s'.exported
  {
    BacklogLength(s, n);
    LeftOut(s, n);
    BatchIn(s);
    var last := s.Batch()[LIMIT - 1];
    assert last in s.Batch() && last != (n, 9_999);
  }

  /** A run of one node in which every operation succeeds and a record is never exported. */
  lemma SingleNodeLosesRecord(n: Text) returns (steps: seq<Step>)
    ensures Legal(EMPTY, steps) && OwnWithin(EMPTY, steps, n, LIMIT + 1) && !AtLeastOnce(Run(EMPTY, steps))
  {
    var before := Reach(n, 19_999, 9_998);
    var s := Run(EMPTY, before);
    BacklogLength(s, n);
    Wider(EMPTY, before, n, 1, LIMIT + 1);
    BacklogLosesRecord(s, n);
    steps := TurnOwn(EMPTY, before, n, LIMIT + 1);
  }

  lemma {:induction false} Wider(s: State, steps: seq<Step>, n: Text, bound: nat, wider: nat)
    requires Legal(s, steps) && OwnWithin(s, steps, n, bound) && bound <= wider
    ensures OwnWithin(s, steps, n, wider)
    decreases |steps|
  {
    if steps != [] { Wider(Apply(s, steps[0]), steps[1..], n, bound, wider); }
  }

  lemma {:induction false} ShortIsInReach(s: State, steps: seq<Step>, n: Text, bound: nat)
    requires Legal(s, steps) && OwnWithin(s, steps, n, bound) && bound <= LIMIT
    ensures OwnInReach(s, steps, n)
    decreases |steps|
  {
    if steps != [] { ShortIsInReach(Apply(s, steps[0]), steps[1..], n, bound); }
  }

  /** All runs of one node with at most `bound` records pending at a read are at least once. */
  ghost predicate BoundSuffices(n: Text, bound: nat) {
    forall steps :: Legal(EMPTY, steps) && OwnWithin(EMPTY, steps, n, bound) ==> AtLeastOnce(Run(EMPTY, steps))
  }

  /** A bound on the pending records guarantees at-least-once export of a node if and only if it is at most 10000. */
  lemma BoundIsExact(n: Text, bound: nat)
    ensures BoundSuffices(n, bound) <==> bound <= LIMIT
  {
    if bound <= LIMIT {
      forall steps | Legal(EMPTY, steps) && OwnWithin(EMPTY, steps, n, bound) ensures AtLeastOnce(Run(EMPTY, steps)) {
        ShortIsInReach(EMPTY, steps, n, bound);
        SingleNodeAtLeastOnce(EMPTY, steps, n);
      }
    } else {
      var steps := SingleNodeLosesRecord(n);
      Wider(EMPTY, steps, n, LIMIT + 1, bound);
    }
  }
}
