/**
 How the chain of one node is read back from the billing table, whose keys are the texts
 `node:seq`: a scan for the keys that start with `node:`, sorted by sequence number, verified.
 */
module BillingStorage {
  import opened Wrappers
  import opened Encoding
  import opened BillingRecord
  import opened BillingChain
  import opened BillingWriter

  const COLON: byte := 58

  type Key = (Text, nat)

  function KeyText(key: Key): Text {
    key.0 + [COLON] + Decimal(key.1)
  }

  predicate StartsWith(t: Text, prefix: Text) {
    |prefix| <= |t| && t[..|prefix|] == prefix
  }

  /** The scan for node `n` reads the records of node `m`. */
  predicate Scanned(n: Text, m: Text) {
    m == n || StartsWith(m, n + [COLON])
  }

  /** A key is the node id, a colon and the number without leading zeros. */
  lemma KeyTextReads(key: Key)
    ensures var t, k := KeyText(key), |key.0|;
            && t[..k] == key.0 && t[k..k + 1] == Ascii(":") && FromDecimal(t[k + 1..]) == key.1
            && (t[k + 1] == 48 <==> key.1 == 0)
  {
    var t := KeyText(key);
    assert t[|key.0| + 1..] == Decimal(key.1) && t[..|key.0|] == key.0;
    assert t[|key.0|] == COLON && Ascii(":")[0] == 58;
    DecimalReads(key.1);
  }

  /** The sequence number after the last colon of a key has no colon in it. */
  lemma LastColon(key: Key)
    ensures KeyText(key)[|key.0|] == COLON
    ensures forall p :: |key.0| < p < |KeyText(key)| ==> KeyText(key)[p] != COLON
  {
    forall p | |key.0| < p < |KeyText(key)| ensures KeyText(key)[p] != COLON {
      assert IsDigit(Decimal(key.1)[p - |key.0| - 1]);
    }
  }

  /** Different records have different keys. */
  lemma KeyTextInjective(a: Key, b: Key)
    requires KeyText(a) == KeyText(b)
    ensures a == b
  {
    var s := KeyText(a);
    LastColon(a);
    LastColon(b);
    assert |a.0| == |b.0|;
    assert a.0 == s[..|a.0|] && b.0 == s[..|b.0|];
    assert Decimal(a.1) == s[|a.0| + 1..] && Decimal(b.1) == s[|b.0| + 1..];
    DecimalInjective(a.1, b.1);
  }

  /** A scan for `n:` finds the keys of `n` and of every node whose own id starts with `n:`. */
  lemma ScanFinds(n: Text, key: Key)
    ensures StartsWith(KeyText(key), n + [COLON]) <==> Scanned(n, key.0)
  {
    var s, m, prefix := KeyText(key), key.0, n + [COLON];
    LastColon(key);
    if StartsWith(s, prefix) {
      assert s[|n|] == prefix[|n|];
      assert s[..|prefix|][..|n|] == n;
      if |m| == |n| { assert m == s[..|n|]; } else { assert s[..|prefix|] == m[..|prefix|]; }
    }
    if m == n {
      assert s[..|prefix|] == prefix;
    } else if StartsWith(m, prefix) {
      assert s[..|prefix|] == m[..|prefix|];
    }
  }

  // ----- The scan, sorted -----

  ghost predicate SortedBySeq(keys: seq<Key>) {
    forall i, j :: 0 <= i < j < |keys| ==> keys[i].1 <= keys[j].1
  }

  ghost predicate Distinct(keys: seq<Key>) {
    forall i, j :: 0 <= i < j < |keys| ==> keys[i] != keys[j]
  }

  /** Stable insertion: after the keys with the same sequence number. */
  function Insert(key: Key, keys: seq<Key>): (r: seq<Key>)
    ensures |r| == |keys| + 1
    ensures forall k :: k in r <==> k == key || k in keys
  {
    if keys == [] then [key]
    else if key.1 < keys[0].1 then [key] + keys
    else
      var rest := Insert(key, keys[1..]);
      assert keys == [keys[0]] + keys[1..];
      [keys[0]] + rest
  }

  lemma {:induction false} InsertSorts(key: Key, keys: seq<Key>)
    requires SortedBySeq(keys) && Distinct(keys) && key !in keys
    ensures SortedBySeq(Insert(key, keys)) && Distinct(Insert(key, keys))
  {
    if keys != [] && key.1 >= keys[0].1 {
      InsertSorts(key, keys[1..]);
      var rest := Insert(key, keys[1..]);
      forall k | k in rest ensures keys[0].1 <= k.1 && k != keys[0] {
        if k != key {
          var i :| 0 <= i < |keys[1..]| && keys[1..][i] == k;
          assert keys[i + 1] == k;
        }
      }
    }
  }

  /** The keys of a listing that the scan for `n` finds, sorted by sequence number. */
  function Scan(listing: seq<Key>, n: Text): (r: seq<Key>)
    decreases |listing|
  {
    if listing == [] then []
    else
      var last := |listing| - 1;
      var r := Scan(listing[..last], n);
      if StartsWith(KeyText(listing[last]), n + [COLON]) then Insert(listing[last], r) else r
  }

  lemma {:induction false} ScanIsSorted(listing: seq<Key>, n: Text)
    requires Distinct(listing)
    ensures var r := Scan(listing, n);
            && SortedBySeq(r) && Distinct(r)
            && forall k :: k in r <==> k in listing && Scanned(n, k.0)
    decreases |listing|
  {
    if listing != [] {
      var last := |listing| - 1;
      var rest := listing[..last];
      ScanIsSorted(rest, n);
      ScanFinds(n, listing[last]);
      assert listing == rest + [listing[last]];
      assert listing[last] !in rest;
      if Scanned(n, listing[last].0) { InsertSorts(listing[last], Scan(rest, n)); }
    }
  }

  function RecordsAt(table: Table, keys: seq<Key>): (r: seq<Record>)
    requires forall k :: k in keys ==> k in table
    ensures |r| == |keys| && forall i :: 0 <= i < |keys| ==> r[i] == table[keys[i]]
  {
    seq(|keys|, i requires 0 <= i < |keys| => table[keys[i]])
  }

  /** `listing` enumerates the keys of the table, in any order. */
  ghost predicate Lists(table: Table, listing: seq<Key>) {
    Distinct(listing) && forall k :: k in listing <==> k in table
  }

  lemma ScanInTable(table: Table, listing: seq<Key>, n: Text)
    requires Lists(table, listing)
    ensures forall k :: k in Scan(listing, n) ==> k in table
  {
    ScanIsSorted(listing, n);
  }

  /** Collect the scanned keys, sort them, verify their records. */
  method VerifyNode(d: Digest, table: Table, listing: seq<Key>, n: Text) returns (result: Result<nat, ChainError>)
    requires Lists(table, listing)
    ensures (forall k :: k in Scan(listing, n) ==> k in table)
    ensures result.Ok? <==> ChainOk(d, RecordsAt(table, Scan(listing, n)))
    ensures result.Ok? ==> result.value == |Scan(listing, n)|
  {
    var keys: seq<Key> := [];
    var i := 0;
    while i < |listing|
      invariant 0 <= i <= |listing|
      invariant keys == Scan(listing[..i], n)
    {
      assert listing[..i + 1][..i] == listing[..i];
      if StartsWith(KeyText(listing[i]), n + [COLON]) {
        keys := Insert(listing[i], keys);
      }
      i := i + 1;
    }
    assert listing[..i] == listing;
    ScanInTable(table, listing, n);
    if keys == [] {
      return Ok(0);
    }
    result := VerifyChain(d, RecordsAt(table, keys));
  }

  // ----- When the verdict is right -----

  lemma {:induction false} SortedKeysGrow(keys: seq<Key>, n: Text, i: nat)
    requires SortedBySeq(keys) && Distinct(keys) && i < |keys|
    requires forall k :: k in keys ==> k.0 == n && 1 <= k.1
    ensures keys[i].1 >= i + 1
  {
    assert keys[i] in keys;
    if i > 0 {
      SortedKeysGrow(keys, n, i - 1);
      assert keys[i - 1] in keys && keys[i - 1] != keys[i];
    }
  }

  /** A sorted list of exactly the keys (n, 1), ..., (n, top) is that enumeration. */
  lemma {:induction false} SortedKeysEnumerate(keys: seq<Key>, n: Text, top: nat, i: nat)
    requires SortedBySeq(keys) && Distinct(keys)
    requires forall k :: k in keys <==> k.0 == n && 1 <= k.1 <= top
    requires i < top
    ensures i < |keys| && keys[i] == (n, i + 1)
  {
    var key := (n, i + 1);
    assert key in keys;
    var p :| 0 <= p < |keys| && keys[p] == key;
    SortedKeysGrow(keys, n, p);
    forall j | 0 <= j < i ensures j < |keys| && keys[j] == (n, j + 1) {
      SortedKeysEnumerate(keys, n, top, j);
    }
    assert p == i;
  }

  lemma EnumerationLength(keys: seq<Key>, n: Text, top: nat)
    requires SortedBySeq(keys) && Distinct(keys)
    requires forall k :: k in keys <==> k.0 == n && 1 <= k.1 <= top
    ensures |keys| == top
  {
    if top > 0 { SortedKeysEnumerate(keys, n, top, top - 1); }
    if |keys| > 0 {
      SortedKeysGrow(keys, n, |keys| - 1);
      assert keys[|keys| - 1] in keys;
    }
  }

  /** If the scan finds the records of node `n` alone, it reads back exactly the node's chain. */
  lemma ScanReadsChain(table: Table, listing: seq<Key>, n: Text, chain: seq<Record>)
    requires Lists(table, listing) && TableHolds(table, n, chain)
    requires forall k :: k in table && Scanned(n, k.0) ==> k.0 == n
    ensures (forall k :: k in Scan(listing, n) ==> k in table) && RecordsAt(table, Scan(listing, n)) == chain
  {
    ScanIsSorted(listing, n);
    var keys := Scan(listing, n);
    forall k: Key ensures k in keys <==> k.0 == n && 1 <= k.1 <= |chain| {
      assert (n, k.1) in table <==> 1 <= k.1 <= |chain|;
    }
    EnumerationLength(keys, n, |chain|);
    forall i | 0 <= i < |chain| ensures table[keys[i]] == chain[i] {
      SortedKeysEnumerate(keys, n, |chain|, i);
    }
  }

  /** The first records of two nodes cannot both be in one good chain. */
  lemma TwoFirstRecords(d: Digest, table: Table, keys: seq<Key>, n: Text, m: Text)
    requires SortedBySeq(keys) && Distinct(keys) && n != m && (n, 1) in keys && (m, 1) in keys
    requires forall k :: k in keys ==> k in table && k.1 >= 1
    requires forall k :: k in keys && k.1 == 1 ==> table[k].prevHash == []
    ensures !ChainOk(d, RecordsAt(table, keys))
  {
    var p :| 0 <= p < |keys| && keys[p] == (n, 1);
    var q :| 0 <= q < |keys| && keys[q] == (m, 1);
    assert keys[0] in keys && keys[1] in keys;
    assert keys[0].1 == 1 && keys[1].1 == 1;
    var records := RecordsAt(table, keys);
    assert !(GoodAt(d, records, 0) && GoodAt(d, records, 1));
  }

  /** A node has records, and the scan for `n` takes them for records of `n`. */
  ghost predicate Intrudes(w: World, n: Text, m: Text) {
    m != n && w.Chain(m) != [] && StartsWith(m, n + [COLON])
  }

  /** Every record in the table belongs to the chain of its node, and a first record has no link. */
  ghost predicate Stored(d: Digest, w: World) {
    forall m: Text :: TableHolds(w.table, m, w.Chain(m)) && ChainOk(d, w.Chain(m))
  }

  lemma FirstRecords(d: Digest, w: World, k: Key)
    requires Stored(d, w) && k in w.table
    ensures k.1 >= 1 && (k.0, 1) in w.table && w.Chain(k.0) != []
    ensures k.1 == 1 ==> w.table[k].prevHash == []
  {
    var chain := w.Chain(k.0);
    assert TableHolds(w.table, k.0, chain) && (k.0, k.1) in w.table;
    assert GoodAt(d, chain, 0);
  }

  lemma Verdict(d: Digest, w: World, listing: seq<Key>, n: Text)
    requires Stored(d, w) && Lists(w.table, listing)
    ensures forall k :: k in Scan(listing, n) ==> k in w.table
    ensures ChainOk(d, RecordsAt(w.table, Scan(listing, n))) && |Scan(listing, n)| == |w.Chain(n)| <==>
              forall m: Text :: !Intrudes(w, n, m)
  {
    ScanIsSorted(listing, n);
    var keys := Scan(listing, n);
    assert TableHolds(w.table, n, w.Chain(n));
    forall k | k in w.table ensures k.1 >= 1 && w.Chain(k.0) != [] && (k.1 == 1 ==> w.table[k].prevHash == []) {
      FirstRecords(d, w, k);
    }
    if m: Text :| Intrudes(w, n, m) {
      assert TableHolds(w.table, m, w.Chain(m)) && (m, 1) in w.table;
      assert (m, 1) in keys;
      if w.Chain(n) != [] {
        assert (n, 1) in w.table;
        TwoFirstRecords(d, w.table, keys, n, m);
      }
    } else {
      forall k | k in w.table && Scanned(n, k.0) ensures k.0 == n {
        assert !Intrudes(w, n, k.0);
      }
      ScanReadsChain(w.table, listing, n, w.Chain(n));
    }
  }

  /**
   After every run whose flushes complete, interleaved with other nodes' writers: the verification of a
   node reports exactly the number of its records if and only if no other node with records has an id
   that starts with this node's id and a colon.
   */
  lemma NodeVerdictIsRight(d: Digest, steps: seq<Step>, listing: seq<Key>, n: Text)
    requires Legal(d, EMPTY, steps) && AllComplete(d, EMPTY, steps)
    requires Lists(Run(d, EMPTY, steps).table, listing)
    ensures var w := Run(d, EMPTY, steps);
            && (forall k :: k in Scan(listing, n) ==> k in w.table)
            && (ChainOk(d, RecordsAt(w.table, Scan(listing, n))) && |Scan(listing, n)| == |w.Chain(n)| <==>
                  forall m: Text :: !Intrudes(w, n, m))
  {
    var w := Run(d, EMPTY, steps);
    forall m: Text ensures TableHolds(w.table, m, w.Chain(m)) && ChainOk(d, w.Chain(m)) {
      StoredChainVerifies(d, steps, m);
    }
    Verdict(d, w, listing, n);
  }

  // ----- A run with an intruder -----

  /** A node writes one record, saves its cursor and stops. */
  function OneRecord(n: Text, i: Input): seq<Step> {
    [Start(n, 0), Arrive(n, i, 0), BeginFlush(n)] + [WriteNext(n), SaveCursor(n, true), Crash(n)]
  }

  lemma {:induction false} CompleteConcat(d: Digest, w: World, s: seq<Step>, t: seq<Step>)
    requires Legal(d, w, s) && Legal(d, Run(d, w, s), t) && Legal(d, w, s + t)
    requires AllComplete(d, w, s) && AllComplete(d, Run(d, w, s), t)
    ensures AllComplete(d, w, s + t)
    decreases |s|
  {
    if s == [] {
      assert s + t == t;
    } else {
      assert (s + t)[1..] == s[1..] + t;
      CompleteConcat(d, Apply(d, w, s[0]), s[1..], t);
    }
  }

  lemma CompleteThree(d: Digest, w: World, s0: Step, s1: Step, s2: Step)
    requires Enabled(w, s0) && Completes(w, s0)
    requires var w1 := Apply(d, w, s0); Enabled(w1, s1) && Completes(w1, s1)
    requires var w2 := Apply(d, Apply(d, w, s0), s1); Enabled(w2, s2) && Completes(w2, s2)
    ensures Legal(d, w, [s0, s1, s2]) && AllComplete(d, w, [s0, s1, s2])
    ensures Run(d, w, [s0, s1, s2]) == Apply(d, Apply(d, Apply(d, w, s0), s1), s2)
  {
    RunThree(d, w, s0, s1, s2);
    var w1 := Apply(d, w, s0);
    var w2 := Apply(d, w1, s1);
    assert [s0, s1, s2][1..] == [s1, s2] && [s1, s2][1..] == [s2] && [s2][1..] == [];
    assert Legal(d, w2, [s2]) && AllComplete(d, w2, [s2]);
    assert Legal(d, w1, [s1, s2]) && AllComplete(d, w1, [s1, s2]);
  }

  lemma RecordMade(d: Digest, w: World, n: Text, i: Input)
    requires IsNewest(w.table, n, 0) && n !in w.writers && n !in w.cursors
    ensures var steps := [Start(n, 0), Arrive(n, i, 0), BeginFlush(n)];
            var r := MakeRecord(d, n, 1, [], i, 0);
            && Legal(d, w, steps) && AllComplete(d, w, steps)
            && Run(d, w, steps) == w.(writers := w.writers[n := Writer(1, r.recordHash, [r], Draining)])
  {
    CompleteThree(d, w, Start(n, 0), Arrive(n, i, 0), BeginFlush(n));
    var r := MakeRecord(d, n, 1, [], i, 0);
    assert [] + [r] == [r];
  }

  lemma RecordStored(d: Digest, w: World, n: Text, r: Record)
    requires n in w.writers && w.writers[n] == Writer(1, r.recordHash, [r], Draining)
    requires w.Chain(n) == [] && r.nodeId == n && r.seqNo == 1
    ensures var steps := [WriteNext(n), SaveCursor(n, true), Crash(n)];
            && Legal(d, w, steps) && AllComplete(d, w, steps)
            && Run(d, w, steps) == World(w.table[(n, 1) := r], w.cursors[n := Cursor(1, r.recordHash)],
                                         w.writers - {n}, w.chains[n := [r]])
  {
    CompleteThree(d, w, WriteNext(n), SaveCursor(n, true), Crash(n));
    assert [] + [r] == [r];
    assert w.writers[n := Writer(1, r.recordHash, [], Draining)] - {n} == w.writers - {n};
  }

  lemma OneRecordRuns(d: Digest, w: World, n: Text, i: Input)
    requires IsNewest(w.table, n, 0) && n !in w.writers && n !in w.cursors && w.Chain(n) == []
    ensures Legal(d, w, OneRecord(n, i)) && AllComplete(d, w, OneRecord(n, i))
    ensures var r := MakeRecord(d, n, 1, [], i, 0);
            Run(d, w, OneRecord(n, i))
              == World(w.table[(n, 1) := r], w.cursors[n := Cursor(1, r.recordHash)], w.writers, w.chains[n := [r]])
  {
    var r := MakeRecord(d, n, 1, [], i, 0);
    var make, store := [Start(n, 0), Arrive(n, i, 0), BeginFlush(n)], [WriteNext(n), SaveCursor(n, true), Crash(n)];
    RecordMade(d, w, n, i);
    var w1 := Run(d, w, make);
    RecordStored(d, w1, n, r);
    RunConcat(d, w, make, store);
    CompleteConcat(d, w, make, store);
    assert w1.writers - {n} == w.writers;
  }

  /** Two nodes with one record each, one id continuing the other after a colon: the shorter one does not verify. */
  lemma IntruderRun(d: Digest, n: Text, i: Input, listing: seq<Key>)
    ensures var steps := OneRecord(n, i) + OneRecord(n + [COLON], i);
            && Legal(d, EMPTY, steps) && AllComplete(d, EMPTY, steps)
            && var w := Run(d, EMPTY, steps);
               && |w.Chain(n)| == 1
               && (Lists(w.table, listing) ==>
                     && (forall k :: k in Scan(listing, n) ==> k in w.table)
                     && !(ChainOk(d, RecordsAt(w.table, Scan(listing, n))) && |Scan(listing, n)| == 1))
  {
    var m := n + [COLON];
    OneRecordRuns(d, EMPTY, n, i);
    var w1 := Run(d, EMPTY, OneRecord(n, i));
    OneRecordRuns(d, w1, m, i);
    RunConcat(d, EMPTY, OneRecord(n, i), OneRecord(m, i));
    CompleteConcat(d, EMPTY, OneRecord(n, i), OneRecord(m, i));
    var steps := OneRecord(n, i) + OneRecord(m, i);
    var w := Run(d, EMPTY, steps);
    assert m[..|m|] == m && Intrudes(w, n, m);
    if Lists(w.table, listing) { NodeVerdictIsRight(d, steps, listing, n); }
  }
}
