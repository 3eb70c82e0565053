/** A billing record, the exact preimage of its hash, and what that preimage determines. */
module BillingRecord {
  import opened Encoding

  /** SHA-256 in hex, as far as the chain depends on it. */
  type Hasher = h: Text -> Text | forall b :: |h(b)| == 64 witness ((b: Text) => seq(64, i => 48))

  /** A way to compute the hash of a record; the stored hash itself is not part of what is hashed. */
  type Digest = d: Record -> Text |
    (forall r: Record :: |d(r)| == 64) && (forall r: Record, t: Text :: d(r.(recordHash := t)) == d(r))
    witness ((r: Record) => seq(64, i => 48))

  datatype Record = Record(
    seqNo: u64, prevHash: Text,
    tenantId: Text, appId: Text, instanceId: Text, nodeId: Text,
    timestampMs: u64, fuelConsumed: u64, fuelQuota: u64, ramBytes: u64, wallClockMs: u64,
    statusCode: u16, isTrap: bool, recordHash: Text)

  /** The four identifying texts, run together as the hash sees them. */
  function Identity(r: Record): Text {
    r.tenantId + r.appId + r.instanceId + r.nodeId
  }

  /** The fixed-width fields that follow the texts. */
  function Measures(r: Record): (t: Text)
    ensures |t| == 43
  {
    Le(r.timestampMs, 8) + Le(r.fuelConsumed, 8) + Le(r.fuelQuota, 8) + Le(r.ramBytes, 8) + Le(r.wallClockMs, 8)
    + Le(r.statusCode, 2) + [if r.isTrap then 1 else 0]
  }

  function Preimage(r: Record): Text {
    Le(r.seqNo, 8) + r.prevHash + Identity(r) + Measures(r)
  }

  function HashOf(h: Hasher, r: Record): (t: Text)
    ensures |t| == 64
  {
    h(Preimage(r))
  }

  /** `BillingRecord::compute_hash` for a given hash function. */
  function DigestWith(h: Hasher): Digest {
    (r: Record) => HashOf(h, r)
  }

  method FeedMeasures(start: Text, r: Record) returns (fed: Text)
    ensures fed == start + Measures(r)
  {
    fed := start + Le(r.timestampMs, 8);
    fed := fed + Le(r.fuelConsumed, 8);
    fed := fed + Le(r.fuelQuota, 8);
    fed := fed + Le(r.ramBytes, 8);
    fed := fed + Le(r.wallClockMs, 8);
    fed := fed + Le(r.statusCode, 2);
    fed := fed + [if r.isTrap then 1 else 0];
  }

  /** The hasher is fed field by field. */
  method ComputeHash(h: Hasher, r: Record) returns (hash: Text)
    ensures hash == DigestWith(h)(r) == h(Preimage(r))
  {
    var fed := Le(r.seqNo, 8);
    fed := fed + r.prevHash;
    ghost var head := fed;
    fed := fed + r.tenantId;
    fed := fed + r.appId;
    fed := fed + r.instanceId;
    fed := fed + r.nodeId;
    assert fed == head + Identity(r);
    fed := FeedMeasures(fed, r);
    hash := h(fed);
  }

  /** Everything the hash of a record binds, given the length of its link. */
  ghost predicate SameCommitment(a: Record, b: Record) {
    && a.seqNo == b.seqNo && a.prevHash == b.prevHash && Identity(a) == Identity(b)
    && a.timestampMs == b.timestampMs && a.fuelConsumed == b.fuelConsumed && a.fuelQuota == b.fuelQuota
    && a.ramBytes == b.ramBytes && a.wallClockMs == b.wallClockMs
    && a.statusCode == b.statusCode && a.isTrap == b.isTrap
  }

  lemma SameU64(x: u64, y: u64)
    requires Le(x, 8) == Le(y, 8)
    ensures x == y
  {
    U64Fits(x);
    U64Fits(y);
    LeInjective(x, y, 8);
  }

  /** The last of several fixed-width fields is bound, and so is what comes before it. */
  lemma SameLast(p: Text, x: u64, q: Text, y: u64)
    requires p + Le(x, 8) == q + Le(y, 8)
    ensures p == q && x == y
  {
    assert |p + Le(x, 8)| == |p| + 8 && |q + Le(y, 8)| == |q| + 8;
    SameParts(p, Le(x, 8), q, Le(y, 8));
    SameU64(x, y);
  }

  lemma SameStatus(p: Text, x: u16, s: Text, q: Text, y: u16, t: Text)
    requires p + Le(x, 2) + s == q + Le(y, 2) + t && |s| == |t|
    ensures p == q && x == y && s == t
  {
    assert |p + Le(x, 2) + s| == |p| + 2 + |s| && |q + Le(y, 2) + t| == |q| + 2 + |t|;
    SameParts(p + Le(x, 2), s, q + Le(y, 2), t);
    SameParts(p, Le(x, 2), q, Le(y, 2));
    U16Fits(x);
    U16Fits(y);
    LeInjective(x, y, 2);
  }

  lemma SameMeasures(a: Record, b: Record)
    requires Measures(a) == Measures(b)
    ensures a.timestampMs == b.timestampMs && a.fuelConsumed == b.fuelConsumed && a.fuelQuota == b.fuelQuota
    ensures a.ramBytes == b.ramBytes && a.wallClockMs == b.wallClockMs
    ensures a.statusCode == b.statusCode && a.isTrap == b.isTrap
  {
    var a1, b1 := Le(a.timestampMs, 8), Le(b.timestampMs, 8);
    var a2, b2 := a1 + Le(a.fuelConsumed, 8), b1 + Le(b.fuelConsumed, 8);
    var a3, b3 := a2 + Le(a.fuelQuota, 8), b2 + Le(b.fuelQuota, 8);
    var a4, b4 := a3 + Le(a.ramBytes, 8), b3 + Le(b.ramBytes, 8);
    var a5, b5 := a4 + Le(a.wallClockMs, 8), b4 + Le(b.wallClockMs, 8);
    SameStatus(a5, a.statusCode, [if a.isTrap then 1 else 0], b5, b.statusCode, [if b.isTrap then 1 else 0]);
    SameLast(a4, a.wallClockMs, b4, b.wallClockMs);
    SameLast(a3, a.ramBytes, b3, b.ramBytes);
    SameLast(a2, a.fuelQuota, b2, b.fuelQuota);
    SameLast(a1, a.fuelConsumed, b1, b.fuelConsumed);
    SameU64(a.timestampMs, b.timestampMs);
  }

  lemma PreimageParts(a: Record, b: Record)
    requires Preimage(a) == Preimage(b) && |a.prevHash| == |b.prevHash|
    ensures SameCommitment(a, b)
  {
    var restA, restB := a.prevHash + Identity(a) + Measures(a), b.prevHash + Identity(b) + Measures(b);
    assert Preimage(a) == Le(a.seqNo, 8) + restA && Preimage(b) == Le(b.seqNo, 8) + restB;
    SameParts(Le(a.seqNo, 8), restA, Le(b.seqNo, 8), restB);
    SameU64(a.seqNo, b.seqNo);
    assert restA == a.prevHash + (Identity(a) + Measures(a)) && restB == b.prevHash + (Identity(b) + Measures(b));
    SameParts(a.prevHash, Identity(a) + Measures(a), b.prevHash, Identity(b) + Measures(b));
    assert |Identity(a)| == |Identity(b)|;
    SameParts(Identity(a), Measures(a), Identity(b), Measures(b));
    SameMeasures(a, b);
  }

  /** With equally long links, preimages are equal exactly if all is equal but the borders between the texts. */
  lemma PreimageBinds(a: Record, b: Record)
    requires |a.prevHash| == |b.prevHash|
    ensures Preimage(a) == Preimage(b) <==> SameCommitment(a, b)
  {
    if Preimage(a) == Preimage(b) { PreimageParts(a, b); }
  }

  lemma SameTexts(a: Record, b: Record)
    requires Identity(a) == Identity(b)
    requires |a.tenantId| == |b.tenantId| && |a.appId| == |b.appId| && |a.instanceId| == |b.instanceId|
    ensures a.tenantId == b.tenantId && a.appId == b.appId && a.instanceId == b.instanceId && a.nodeId == b.nodeId
  {
    SameParts(a.tenantId + a.appId + a.instanceId, a.nodeId, b.tenantId + b.appId + b.instanceId, b.nodeId);
    SameParts(a.tenantId + a.appId, a.instanceId, b.tenantId + b.appId, b.instanceId);
    SameParts(a.tenantId, a.appId, b.tenantId, b.appId);
  }

  /** Records with one preimage and equally long links are the same exactly if their texts are equally long. */
  lemma SameRecordIffSameBorders(a: Record, b: Record)
    requires Preimage(a) == Preimage(b) && |a.prevHash| == |b.prevHash| && a.recordHash == b.recordHash
    ensures a == b <==>
      |a.tenantId| == |b.tenantId| && |a.appId| == |b.appId| && |a.instanceId| == |b.instanceId|
  {
    PreimageParts(a, b);
    if |a.tenantId| == |b.tenantId| && |a.appId| == |b.appId| && |a.instanceId| == |b.instanceId| { SameTexts(a, b); }
  }

  lemma PreimageBindsSeq(a: Record, b: Record)
    requires Preimage(a) == Preimage(b)
    ensures a.seqNo == b.seqNo
  {
    assert Preimage(a)[..8] == Le(a.seqNo, 8) && Preimage(b)[..8] == Le(b.seqNo, 8);
    SameU64(a.seqNo, b.seqNo);
  }

  /** The border between two texts is not bound: moving a byte across it keeps every hash. */
  lemma TextBordersNotBound(r: Record)
    requires r.appId != []
    ensures var moved := r.(tenantId := r.tenantId + r.appId[..1], appId := r.appId[1..]);
            moved != r && Preimage(moved) == Preimage(r)
  {
    var moved := r.(tenantId := r.tenantId + r.appId[..1], appId := r.appId[1..]);
    assert |moved.tenantId| != |r.tenantId|;
    assert moved.tenantId + moved.appId == r.tenantId + r.appId;
  }

  // ----- Reading a preimage back -----

  /** The bytes from `k` on, so many of them. */
  function Piece(t: Text, k: nat, n: nat): Text {
    if k + n <= |t| then t[k..k + n] else []
  }

  /** The next part of a text, and the text cut after it. */
  lemma NextPiece(front: Text, x: Text, rest: Text, t: Text)
    requires t == front + (x + rest)
    ensures Piece(t, |front|, |x|) == x && t == (front + x) + rest
  {
  }

  /** Where the four texts end and the fixed-width fields begin. */
  function FixedAt(r: Record): nat {
    8 + |r.prevHash| + |r.tenantId| + |r.appId| + |r.instanceId| + |r.nodeId|
  }

  /** The texts stand in a row after the number and the link. */
  lemma TextsRead(r: Record)
    ensures var p, k := Preimage(r), 8 + |r.prevHash|;
            && Piece(p, 8, |r.prevHash|) == r.prevHash
            && Piece(p, k, |r.tenantId|) == r.tenantId
            && Piece(p, k + |r.tenantId|, |r.appId|) == r.appId
            && Piece(p, k + |r.tenantId| + |r.appId|, |r.instanceId|) == r.instanceId
            && Piece(p, k + |r.tenantId| + |r.appId| + |r.instanceId|, |r.nodeId|) == r.nodeId
  {
    var p, n, m := Preimage(r), Le(r.seqNo, 8), Measures(r);
    PreimageNested(n, r.prevHash, r.tenantId, r.appId, r.instanceId, r.nodeId, m);
    NextPiece(n, r.prevHash, r.tenantId + (r.appId + (r.instanceId + (r.nodeId + m))), p);
    NextPiece(n + r.prevHash, r.tenantId, r.appId + (r.instanceId + (r.nodeId + m)), p);
    NextPiece(n + r.prevHash + r.tenantId, r.appId, r.instanceId + (r.nodeId + m), p);
    NextPiece(n + r.prevHash + r.tenantId + r.appId, r.instanceId, r.nodeId + m, p);
    NextPiece(n + r.prevHash + r.tenantId + r.appId + r.instanceId, r.nodeId, m, p);
  }

  lemma PreimageNested(n: Text, h: Text, a: Text, b: Text, c: Text, d: Text, m: Text)
    ensures n + h + (a + b + c + d) + m == n + (h + (a + (b + (c + (d + m)))))
  {
    assert a + b + c + d + m == a + (b + (c + (d + m)));
    assert n + h + (a + b + c + d) + m == n + (h + (a + b + c + d + m));
  }

  lemma U64Reads(x: u64)
    ensures FromLe(Le(x, 8)) == x
  {
    U64Fits(x);
    LeReads(x, 8);
  }

  lemma U16Reads(x: u16)
    ensures FromLe(Le(x, 2)) == x
  {
    U16Fits(x);
    LeReads(x, 2);
  }

  lemma MeasurePieces(r: Record)
    ensures var m := Measures(r);
            && Piece(m, 0, 8) == Le(r.timestampMs, 8) && Piece(m, 8, 8) == Le(r.fuelConsumed, 8)
            && Piece(m, 16, 8) == Le(r.fuelQuota, 8) && Piece(m, 24, 8) == Le(r.ramBytes, 8)
            && Piece(m, 32, 8) == Le(r.wallClockMs, 8) && Piece(m, 40, 2) == Le(r.statusCode, 2)
            && Piece(m, 42, 1) == [if r.isTrap then 1 else 0]
  {
    var a1 := Le(r.timestampMs, 8);
    var a2 := a1 + Le(r.fuelConsumed, 8);
    var a3 := a2 + Le(r.fuelQuota, 8);
    var a4 := a3 + Le(r.ramBytes, 8);
    var a5 := a4 + Le(r.wallClockMs, 8);
    var a6 := a5 + Le(r.statusCode, 2);
    var m := Measures(r);
    assert m[..42] == a6 && m[..40] == a5 && m[..32] == a4 && m[..24] == a3 && m[..16] == a2 && m[..8] == a1;
    assert m[40..42] == a6[40..42] && m[32..40] == a5[32..40] && m[24..32] == a4[24..32];
    assert m[16..24] == a3[16..24] && m[8..16] == a2[8..16] && m[0..8] == a1;
  }

  lemma MeasuresRead(r: Record)
    ensures var m := Measures(r);
            && FromLe(Piece(m, 0, 8)) == r.timestampMs && FromLe(Piece(m, 8, 8)) == r.fuelConsumed
            && FromLe(Piece(m, 16, 8)) == r.fuelQuota && FromLe(Piece(m, 24, 8)) == r.ramBytes
            && FromLe(Piece(m, 32, 8)) == r.wallClockMs && FromLe(Piece(m, 40, 2)) == r.statusCode
            && Piece(m, 42, 1) == (if r.isTrap then [1] else [0])
  {
    MeasurePieces(r);
    U64Reads(r.timestampMs);
    U64Reads(r.fuelConsumed);
    U64Reads(r.fuelQuota);
    U64Reads(r.ramBytes);
    U64Reads(r.wallClockMs);
    U16Reads(r.statusCode);
  }

  lemma PieceAfter(head: Text, m: Text, k: nat, n: nat)
    requires k + n <= |m|
    ensures Piece(head + m, |head| + k, n) == Piece(m, k, n)
  {
    assert (head + m)[|head| + k..|head| + k + n] == m[k..k + n];
  }

  /**
   The preimage read from the outside: eight bytes of number, the link, the four texts, then timestamp, fuel,
   quota, memory and wall clock of eight bytes each, two bytes of status and one for a trap, all numbers with
   their least significant byte first.
   */
  lemma PreimageReads(r: Record)
    ensures var p, k := Preimage(r), FixedAt(r);
            && |p| == k + 43 && FromLe(Piece(p, 0, 8)) == r.seqNo
            && FromLe(Piece(p, k, 8)) == r.timestampMs && FromLe(Piece(p, k + 8, 8)) == r.fuelConsumed
            && FromLe(Piece(p, k + 16, 8)) == r.fuelQuota && FromLe(Piece(p, k + 24, 8)) == r.ramBytes
            && FromLe(Piece(p, k + 32, 8)) == r.wallClockMs && FromLe(Piece(p, k + 40, 2)) == r.statusCode
            && Piece(p, k + 42, 1) == (if r.isTrap then [1] else [0])
  {
    var head, m := Le(r.seqNo, 8) + r.prevHash + Identity(r), Measures(r);
    MeasuresRead(r);
    FixedPieces(head, m, Preimage(r));
    FirstEight(Le(r.seqNo, 8), r.prevHash, Identity(r), m);
    U64Reads(r.seqNo);
  }

  lemma FirstEight(n: Text, h: Text, i: Text, m: Text)
    requires |n| == 8
    ensures Piece(n + h + i + m, 0, 8) == n
  {
  }

  lemma FixedPieces(head: Text, m: Text, p: Text)
    requires p == head + m && |m| == 43
    ensures var k := |head|;
            && Piece(p, k, 8) == Piece(m, 0, 8) && Piece(p, k + 8, 8) == Piece(m, 8, 8)
            && Piece(p, k + 16, 8) == Piece(m, 16, 8) && Piece(p, k + 24, 8) == Piece(m, 24, 8)
            && Piece(p, k + 32, 8) == Piece(m, 32, 8) && Piece(p, k + 40, 2) == Piece(m, 40, 2)
            && Piece(p, k + 42, 1) == Piece(m, 42, 1)
  {
    PieceAfter(head, m, 0, 8);
    PieceAfter(head, m, 8, 8);
    PieceAfter(head, m, 16, 8);
    PieceAfter(head, m, 24, 8);
    PieceAfter(head, m, 32, 8);
    PieceAfter(head, m, 40, 2);
    PieceAfter(head, m, 42, 1);
  }
}
