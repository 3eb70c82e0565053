/**
 The billing hash chain: its verifier, and what an accepted chain commits to.  The hash is any
 function to 64-byte texts; where two different preimages would have to collide for a claim to
 fail, the claim names them.
 */
module BillingChain {
  import opened Wrappers
  import opened Encoding
  import opened BillingRecord

  datatype ChainError =
    | BrokenLink(seqNo: u64, expected: Text, actual: Text)
    | TamperedRecord(seqNo: u64, expected: Text, actual: Text)

  /** The hash that the record at position `i` has to link to. */
  function ExpectedPrev(records: seq<Record>, i: nat): Text
    requires i <= |records|
  {
    if i == 0 then [] else records[i - 1].recordHash
  }

  ghost predicate LinkedAt(records: seq<Record>, i: nat)
    requires i < |records|
  {
    records[i].prevHash == ExpectedPrev(records, i)
  }

  ghost predicate Sealed(d: Digest, r: Record) {
    r.recordHash == d(r)
  }

  ghost predicate GoodAt(d: Digest, records: seq<Record>, i: nat)
    requires i < |records|
  {
    LinkedAt(records, i) && Sealed(d, records[i])
  }

  ghost predicate ChainOk(d: Digest, records: seq<Record>) {
    forall i :: 0 <= i < |records| ==> GoodAt(d, records, i)
  }

  /** A good chain begins with an empty link, links every other record to the hash before it, and seals each. */
  lemma ChainIs(d: Digest, records: seq<Record>)
    ensures ChainOk(d, records) <==>
      && (records != [] ==> records[0].prevHash == [])
      && (forall i, j :: 0 <= i < j < |records| && j == i + 1 ==> records[j].prevHash == records[i].recordHash)
      && (forall i :: 0 <= i < |records| ==> records[i].recordHash == d(records[i]))
  {
    if ChainOk(d, records) {
      forall i | 0 <= i < |records|
        ensures records[i].recordHash == d(records[i]) && records[i].prevHash == ExpectedPrev(records, i)
      {
        assert GoodAt(d, records, i);
      }
    }
  }

  /** `error` is the fault of the record at position `i`; a broken link hides a tampered record. */
  ghost predicate FaultAt(d: Digest, records: seq<Record>, i: nat, error: ChainError)
    requires i < |records|
  {
    var r := records[i];
    if !LinkedAt(records, i) then error == BrokenLink(r.seqNo, ExpectedPrev(records, i), r.prevHash)
    else !Sealed(d, r) && error == TamperedRecord(r.seqNo, d(r), r.recordHash)
  }

  /** The verifier accepts exactly the good chains and otherwise reports the first fault. */
  method VerifyChain(d: Digest, records: seq<Record>) returns (result: Result<nat, ChainError>)
    ensures result.Ok? <==> ChainOk(d, records)
    ensures result.Ok? ==> result.value == |records|
    ensures result.Err? ==>
      exists i :: 0 <= i < |records| && ChainOk(d, records[..i]) && FaultAt(d, records, i, result.error)
  {
    var expectedPrev: Text := [];
    var i := 0;
    while i < |records|
      invariant 0 <= i <= |records|
      invariant expectedPrev == ExpectedPrev(records, i)
      invariant forall k :: 0 <= k < i ==> GoodAt(d, records, k)
    {
      assert ChainOk(d, records[..i]) by {
        forall k | 0 <= k < i ensures GoodAt(d, records[..i], k) { assert GoodAt(d, records, k); }
      }
      var record := records[i];
      if record.prevHash != expectedPrev {
        result := Err(BrokenLink(record.seqNo, expectedPrev, record.prevHash));
        assert !GoodAt(d, records, i) && FaultAt(d, records, i, result.error);
        return;
      }
      var computed := d(record);
      if computed != record.recordHash {
        result := Err(TamperedRecord(record.seqNo, computed, record.recordHash));
        assert !GoodAt(d, records, i) && FaultAt(d, records, i, result.error);
        return;
      }
      expectedPrev := record.recordHash;
      i := i + 1;
    }
    return Ok(|records|);
  }

  /** A reported fault names the record, what it should have held and what it holds. */
  lemma FaultNames(d: Digest, records: seq<Record>, i: nat, error: ChainError)
    requires i < |records|
    ensures FaultAt(d, records, i, error) <==>
      && error.seqNo == records[i].seqNo && error.expected != error.actual
      && (error.BrokenLink? ==>
            && error.actual == records[i].prevHash
            && error.expected == if i == 0 then [] else records[i - 1].recordHash)
      && (error.TamperedRecord? ==>
            && error.actual == records[i].recordHash && error.expected == d(records[i])
            && records[i].prevHash == if i == 0 then [] else records[i - 1].recordHash)
  {
  }

  // ----- What a chain commits to -----

  /** Records at the same position with the same digest that differ in something a preimage binds. */
  ghost predicate Clash(d: Digest, a: Record, b: Record) {
    d(a) == d(b) && |a.prevHash| == |b.prevHash| && !SameCommitment(a, b)
  }

  lemma {:induction false} ChainBindsFrom(d: Digest, a: seq<Record>, b: seq<Record>, i: nat)
    requires ChainOk(d, a) && ChainOk(d, b) && |a| == |b| && i < |a|
    requires a[i].recordHash == b[i].recordHash
    requires forall k :: 0 <= k < |a| ==> !Clash(d, a[k], b[k])
    ensures forall k :: 0 <= k <= i ==> a[k].recordHash == b[k].recordHash && SameCommitment(a[k], b[k])
  {
    assert GoodAt(d, a, i) && GoodAt(d, b, i);
    if i > 0 { assert GoodAt(d, a, i - 1) && GoodAt(d, b, i - 1); }
    assert !Clash(d, a[i], b[i]);
    if i > 0 { ChainBindsFrom(d, a, b, i - 1); }
  }

  /** Two chains agree at every position on all that a preimage binds. */
  ghost predicate Agree(a: seq<Record>, b: seq<Record>)
    requires |a| == |b|
  {
    forall k :: 0 <= k < |a| ==> a[k].recordHash == b[k].recordHash && SameCommitment(a[k], b[k])
  }

  lemma AgreeOrClash(d: Digest, a: seq<Record>, b: seq<Record>)
    requires ChainOk(d, a) && ChainOk(d, b) && |a| == |b| > 0
    requires a[|a| - 1].recordHash == b[|b| - 1].recordHash
    ensures Agree(a, b) || exists k :: 0 <= k < |a| && Clash(d, a[k], b[k])
  {
    if forall k :: 0 <= k < |a| ==> !Clash(d, a[k], b[k]) {
      ChainBindsFrom(d, a, b, |a| - 1);
    }
  }

  /** Two different preimages with the same hash. */
  ghost predicate Collision(h: Hasher, a: Record, b: Record) {
    Preimage(a) != Preimage(b) && h(Preimage(a)) == h(Preimage(b))
  }

  lemma ClashCollides(h: Hasher, a: Record, b: Record)
    requires Clash(DigestWith(h), a, b)
    ensures Collision(h, a, b)
  {
    if Preimage(a) == Preimage(b) { PreimageBinds(a, b); }
  }

  /**
   Two accepted chains of the same length with the same last hash agree at every position on the
   hash, the link, the sequence number, every fixed-width field and the run-together identity; the
   only other possibility is a hash collision between records at the same position.
   */
  lemma ChainBinding(h: Hasher, a: seq<Record>, b: seq<Record>)
    requires ChainOk(DigestWith(h), a) && ChainOk(DigestWith(h), b) && |a| == |b| > 0
    requires a[|a| - 1].recordHash == b[|b| - 1].recordHash
    ensures Agree(a, b) || exists k :: 0 <= k < |a| && Collision(h, a[k], b[k])
  {
    AgreeOrClash(DigestWith(h), a, b);
    if !Agree(a, b) {
      var k :| 0 <= k < |a| && Clash(DigestWith(h), a[k], b[k]);
      ClashCollides(h, a[k], b[k]);
    }
  }

  // ----- Deletions from a chain -----

  /** The chains that the writer produces are numbered from 1. */
  ghost predicate Numbered(records: seq<Record>) {
    forall i :: 0 <= i < |records| ==> records[i].seqNo == i + 1
  }

  /** Different records of the list have different digests. */
  ghost predicate DistinctDigests(d: Digest, records: seq<Record>) {
    forall i, j :: 0 <= i < j < |records| ==> d(records[i]) != d(records[j])
  }

  /** `picks` selects positions of a list in ascending order. */
  ghost predicate Ascending(picks: seq<nat>, n: nat) {
    && (forall i :: 0 <= i < |picks| ==> picks[i] < n)
    && (forall i, j :: 0 <= i < j < |picks| ==> picks[i] < picks[j])
  }

  function Pick(records: seq<Record>, picks: seq<nat>): (s: seq<Record>)
    requires forall i :: 0 <= i < |picks| ==> picks[i] < |records|
    ensures |s| == |picks| && forall i :: 0 <= i < |picks| ==> s[i] == records[picks[i]]
  {
    seq(|picks|, i requires 0 <= i < |picks| => records[picks[i]])
  }

  lemma {:induction false} AcceptedPicksArePrefix(d: Digest, records: seq<Record>, picks: seq<nat>, i: nat)
    requires ChainOk(d, records) && DistinctDigests(d, records)
    requires Ascending(picks, |records|) && ChainOk(d, Pick(records, picks)) && i < |picks|
    ensures picks[i] == i
  {
    var chosen := Pick(records, picks);
    assert GoodAt(d, chosen, i) && GoodAt(d, records, picks[i]);
    assert picks[i] > 0 ==> GoodAt(d, records, picks[i] - 1);
    if i > 0 {
      AcceptedPicksArePrefix(d, records, picks, i - 1);
      assert GoodAt(d, records, i - 1);
    }
  }

  lemma SelectionAccepted(d: Digest, records: seq<Record>, picks: seq<nat>)
    requires ChainOk(d, records) && DistinctDigests(d, records) && Ascending(picks, |records|)
    ensures ChainOk(d, Pick(records, picks)) <==> |picks| <= |records| && Pick(records, picks) == records[..|picks|]
  {
    var chosen := Pick(records, picks);
    if ChainOk(d, chosen) {
      forall i | 0 <= i < |picks| ensures picks[i] == i {
        AcceptedPicksArePrefix(d, records, picks, i);
      }
      assert |picks| > 0 ==> picks[|picks| - 1] == |picks| - 1;
    } else if |picks| <= |records| && chosen == records[..|picks|] {
      forall i | 0 <= i < |chosen| ensures GoodAt(d, chosen, i) {
        assert GoodAt(d, records, i);
      }
    }
  }

  /**
   Deleting records from a numbered chain goes unnoticed exactly if the last ones are deleted: an
   in-order selection of its records is accepted if and only if it is a prefix, unless two records
   of the chain collide.
   */
  lemma AcceptedIffPrefix(h: Hasher, records: seq<Record>, picks: seq<nat>)
    requires ChainOk(DigestWith(h), records) && Numbered(records) && Ascending(picks, |records|)
    requires forall i, j :: 0 <= i < j < |records| ==> !Collision(h, records[i], records[j])
    ensures ChainOk(DigestWith(h), Pick(records, picks)) <==>
              |picks| <= |records| && Pick(records, picks) == records[..|picks|]
  {
    var d := DigestWith(h);
    forall i, j | 0 <= i < j < |records| ensures d(records[i]) != d(records[j]) {
      assert !Collision(h, records[i], records[j]);
      if Preimage(records[i]) == Preimage(records[j]) { PreimageBindsSeq(records[i], records[j]); }
    }
    SelectionAccepted(d, records, picks);
  }
}
