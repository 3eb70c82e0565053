/**
 Release provenance: a root key delegates to a release key, and the release key signs which binary is
 to be installed.  Both are checked before an upgrade.
 */
module ReleaseProvenance {
  import opened Wrappers
  import opened Encoding
  import opened CanonicalPayload
  import opened Signatures
  import opened ReleaseText
  import ManifestText

  datatype SignedDelegation = SignedDelegation(delegation: Delegation, signature: Text)

  datatype SignedProvenance = SignedProvenance(provenance: Provenance, delegation: SignedDelegation, signature: Text)

  function Scope(): Text {
    Ascii("node-binary-upgrade")
  }

  // ----- One key, several kinds of statement -----

  datatype Statement =
    | Delegates(delegation: Delegation)
    | Releases(provenance: Provenance)
    | Grants(manifest: ManifestText.Manifest)

  function StatementPayload(s: Statement): Text {
    match s
    case Delegates(d) => DelegationPayload(d)
    case Releases(p) => ProvenancePayload(p)
    case Grants(m) => ManifestText.ManifestPayload(m)
  }

  lemma SecondLabelsTell()
    ensures DelegationLabels()[0] == ProvenanceLabels()[0] == ManifestText.Labels()[0]
    ensures Apart(DelegationLabels()[1], ProvenanceLabels()[1])
    ensures Apart(DelegationLabels()[1], ManifestText.Labels()[1])
    ensures Apart(ProvenanceLabels()[1], ManifestText.Labels()[1])
  {
    assert DelegationLabels()[1][0] == 107 && ProvenanceLabels()[1][0] == 100 && ManifestText.Labels()[1][0] == 97;
  }

  lemma DelegationIsNoProvenance(d: Delegation, p: Provenance)
    ensures DelegationPayload(d) != ProvenancePayload(p)
  {
    SecondLabelsTell();
    SecondLabelTells(DelegationLabels()[0], DelegationLabels(), DelegationValues(d),
                     ProvenanceLabels(), ProvenanceValues(p));
  }

  lemma DelegationIsNoManifest(d: Delegation, m: ManifestText.Manifest)
    ensures DelegationPayload(d) != ManifestText.ManifestPayload(m)
  {
    SecondLabelsTell();
    SecondLabelTells(DelegationLabels()[0], DelegationLabels(), DelegationValues(d),
                     ManifestText.Labels(), ManifestText.Values(m));
  }

  lemma ProvenanceIsNoManifest(p: Provenance, m: ManifestText.Manifest)
    ensures ProvenancePayload(p) != ManifestText.ManifestPayload(m)
  {
    SecondLabelsTell();
    SecondLabelTells(ProvenanceLabels()[0], ProvenanceLabels(), ProvenanceValues(p),
                     ManifestText.Labels(), ManifestText.Values(m));
  }

  /** The text of one kind of statement is never the text of another, newlines or not. */
  lemma OnlyDelegations(s: Statement, d: Delegation)
    requires StatementPayload(s) == DelegationPayload(d)
    ensures s.Delegates?
  {
    if s.Releases? {
      DelegationIsNoProvenance(d, s.provenance);
    } else if s.Grants? {
      DelegationIsNoManifest(d, s.manifest);
    }
  }

  lemma OnlyReleases(s: Statement, p: Provenance)
    requires StatementPayload(s) == ProvenancePayload(p)
    ensures s.Releases?
  {
    if s.Delegates? {
      DelegationIsNoProvenance(s.delegation, p);
    } else if s.Grants? {
      ProvenanceIsNoManifest(p, s.manifest);
    }
  }

  // ----- Signing and verifying -----

  function SignDelegation(scheme: Scheme, d: Delegation, rootSeed: Text): SignedDelegation {
    SignedDelegation(d, SignText(scheme, rootSeed, DelegationPayload(d)))
  }

  function SignRelease(scheme: Scheme, p: Provenance, d: SignedDelegation, releaseSeed: Text): SignedProvenance {
    SignedProvenance(p, d, SignText(scheme, releaseSeed, ProvenancePayload(p)))
  }

  /** The upgrade that a node is asked to make. */
  datatype Upgrade = Upgrade(url: Text, sha256: Text, protocolVersion: u32, binaryVersion: Text)

  datatype Refusal =
    | BadRootKey | BadDelegationSignature(error: SignatureError) | DelegationVersion | ScopeMismatch
    | DelegationWindow | DelegationExpired | KeyMismatch
    | BadReleaseKey | BadReleaseSignature(error: SignatureError) | ReleaseVersion
    | UrlMismatch | DigestMismatch | ProtocolMismatch | BinaryVersionMismatch | ReleaseWindow | ReleaseExpired

  function ScreenDelegation(d: Delegation, p: Provenance, nowMs: u64): Result<(), Refusal> {
    if d.version != 1 then Err(DelegationVersion)
    else if d.scope != Scope() then Err(ScopeMismatch)
    else if d.expiresAtMs <= d.issuedAtMs then Err(DelegationWindow)
    else if nowMs >= d.expiresAtMs then Err(DelegationExpired)
    else if p.delegationKeyId != d.keyId then Err(KeyMismatch)
    else Ok(())
  }

  function ScreenRelease(p: Provenance, upgrade: Upgrade, nowMs: u64): Result<(), Refusal> {
    if p.version != 1 then Err(ReleaseVersion)
    else if p.binaryUrl != upgrade.url then Err(UrlMismatch)
    else if p.binarySha256 != upgrade.sha256 then Err(DigestMismatch)
    else if p.protocolVersion != upgrade.protocolVersion then Err(ProtocolMismatch)
    else if p.binaryVersion != upgrade.binaryVersion then Err(BinaryVersionMismatch)
    else if p.expiresAtMs <= p.issuedAtMs then Err(ReleaseWindow)
    else if nowMs >= p.expiresAtMs then Err(ReleaseExpired)
    else Ok(())
  }

  function CheckDelegation(scheme: Scheme, rootKey: Text, d: SignedDelegation): Result<(), Refusal> {
    var r := CheckText(scheme, rootKey, DelegationPayload(d.delegation), d.signature);
    if r.Err? then Err(BadDelegationSignature(r.error)) else Ok(())
  }

  function CheckRelease(scheme: Scheme, s: SignedProvenance): Result<(), Refusal> {
    var key := ParseKey(scheme, s.delegation.delegation.publicKey);
    if key.None? then Err(BadReleaseKey)
    else
      var r := CheckText(scheme, key.value, ProvenancePayload(s.provenance), s.signature);
      if r.Err? then Err(BadReleaseSignature(r.error)) else Ok(())
  }

  function Then(first: Result<(), Refusal>, second: Result<(), Refusal>): Result<(), Refusal> {
    if first.Err? then first else second
  }

  function Verify(scheme: Scheme, s: SignedProvenance, rootKeyHex: Text, upgrade: Upgrade, nowMs: u64)
    : Result<(), Refusal>
  {
    var rootKey := ParseKey(scheme, rootKeyHex);
    if rootKey.None? then Err(BadRootKey)
    else
      Then(CheckDelegation(scheme, rootKey.value, s.delegation),
      Then(ScreenDelegation(s.delegation.delegation, s.provenance, nowMs),
      Then(CheckRelease(scheme, s),
           ScreenRelease(s.provenance, upgrade, nowMs))))
  }

  // ----- Every refusal -----

  /** What each refusal complains of. */
  ghost predicate Fault(
    refusal: Refusal, scheme: Scheme, s: SignedProvenance, rootKeyHex: Text, upgrade: Upgrade, nowMs: u64)
  {
    var d, p := s.delegation.delegation, s.provenance;
    var rootKey, releaseKey := ParseKey(scheme, rootKeyHex), ParseKey(scheme, d.publicKey);
    match refusal
    case BadRootKey => rootKey.None?
    case BadDelegationSignature(e) =>
      rootKey.Some? && CheckText(scheme, rootKey.value, DelegationPayload(d), s.delegation.signature) == Err(e)
    case DelegationVersion => d.version != 1
    case ScopeMismatch => d.scope != Ascii("node-binary-upgrade")
    case DelegationWindow => d.issuedAtMs >= d.expiresAtMs
    case DelegationExpired => d.expiresAtMs <= nowMs
    case KeyMismatch => d.keyId != p.delegationKeyId
    case BadReleaseKey => releaseKey.None?
    case BadReleaseSignature(e) =>
      releaseKey.Some? && CheckText(scheme, releaseKey.value, ProvenancePayload(p), s.signature) == Err(e)
    case ReleaseVersion => p.version != 1
    case UrlMismatch => upgrade.url != p.binaryUrl
    case DigestMismatch => upgrade.sha256 != p.binarySha256
    case ProtocolMismatch => upgrade.protocolVersion != p.protocolVersion
    case BinaryVersionMismatch => upgrade.binaryVersion != p.binaryVersion
    case ReleaseWindow => p.issuedAtMs >= p.expiresAtMs
    case ReleaseExpired => p.expiresAtMs <= nowMs
  }

  /** The order in which they are looked for. */
  function Rank(refusal: Refusal): nat {
    match refusal
    case BadRootKey => 0
    case BadDelegationSignature(_) => 1
    case DelegationVersion => 2
    case ScopeMismatch => 3
    case DelegationWindow => 4
    case DelegationExpired => 5
    case KeyMismatch => 6
    case BadReleaseKey => 7
    case BadReleaseSignature(_) => 8
    case ReleaseVersion => 9
    case UrlMismatch => 10
    case DigestMismatch => 11
    case ProtocolMismatch => 12
    case BinaryVersionMismatch => 13
    case ReleaseWindow => 14
    case ReleaseExpired => 15
  }

  /** The result is the first fault among those of a range of ranks, or there is none in the range. */
  ghost predicate FirstIn(
    result: Result<(), Refusal>, low: nat, high: nat,
    scheme: Scheme, s: SignedProvenance, rootKeyHex: Text, upgrade: Upgrade, nowMs: u64)
  {
    && (result.Err? ==>
          low <= Rank(result.error) < high && Fault(result.error, scheme, s, rootKeyHex, upgrade, nowMs))
    && (forall other :: low <= Rank(other) < (if result.Err? then Rank(result.error) else high) ==>
          !Fault(other, scheme, s, rootKeyHex, upgrade, nowMs))
  }

  lemma ThenFirst(
    a: Result<(), Refusal>, b: Result<(), Refusal>, low: nat, mid: nat, high: nat,
    scheme: Scheme, s: SignedProvenance, rootKeyHex: Text, upgrade: Upgrade, nowMs: u64)
    requires low <= mid <= high
    requires FirstIn(a, low, mid, scheme, s, rootKeyHex, upgrade, nowMs)
    requires a.Ok? ==> FirstIn(b, mid, high, scheme, s, rootKeyHex, upgrade, nowMs)
    ensures FirstIn(Then(a, b), low, high, scheme, s, rootKeyHex, upgrade, nowMs)
  {
  }

  lemma DelegationScreened(scheme: Scheme, s: SignedProvenance, rootKeyHex: Text, upgrade: Upgrade, nowMs: u64)
    ensures FirstIn(ScreenDelegation(s.delegation.delegation, s.provenance, nowMs), 2, 7,
                    scheme, s, rootKeyHex, upgrade, nowMs)
  {
  }

  lemma ReleaseScreened(scheme: Scheme, s: SignedProvenance, rootKeyHex: Text, upgrade: Upgrade, nowMs: u64)
    ensures FirstIn(ScreenRelease(s.provenance, upgrade, nowMs), 9, 16, scheme, s, rootKeyHex, upgrade, nowMs)
  {
  }

  lemma DelegationChecked(scheme: Scheme, s: SignedProvenance, rootKeyHex: Text, upgrade: Upgrade, nowMs: u64)
    requires ParseKey(scheme, rootKeyHex).Some?
    ensures FirstIn(CheckDelegation(scheme, ParseKey(scheme, rootKeyHex).value, s.delegation), 0, 2,
                    scheme, s, rootKeyHex, upgrade, nowMs)
  {
  }

  lemma ReleaseChecked(scheme: Scheme, s: SignedProvenance, rootKeyHex: Text, upgrade: Upgrade, nowMs: u64)
    ensures FirstIn(CheckRelease(scheme, s), 7, 9, scheme, s, rootKeyHex, upgrade, nowMs)
  {
  }

  /** The refusal of a bundle is a fault of it, and none comes before it. */
  lemma RefusalIsFirst(scheme: Scheme, s: SignedProvenance, rootKeyHex: Text, upgrade: Upgrade, nowMs: u64)
    ensures FirstIn(Verify(scheme, s, rootKeyHex, upgrade, nowMs), 0, 16, scheme, s, rootKeyHex, upgrade, nowMs)
  {
    var rootKey := ParseKey(scheme, rootKeyHex);
    if rootKey.Some? {
      var signed := CheckDelegation(scheme, rootKey.value, s.delegation);
      var screened := ScreenDelegation(s.delegation.delegation, s.provenance, nowMs);
      var released, covers := CheckRelease(scheme, s), ScreenRelease(s.provenance, upgrade, nowMs);
      DelegationChecked(scheme, s, rootKeyHex, upgrade, nowMs);
      ReleaseChecked(scheme, s, rootKeyHex, upgrade, nowMs);
      DelegationScreened(scheme, s, rootKeyHex, upgrade, nowMs);
      ReleaseScreened(scheme, s, rootKeyHex, upgrade, nowMs);
      ThenFirst(released, covers, 7, 9, 16, scheme, s, rootKeyHex, upgrade, nowMs);
      ThenFirst(screened, Then(released, covers), 2, 7, 16, scheme, s, rootKeyHex, upgrade, nowMs);
      ThenFirst(signed, Then(screened, Then(released, covers)), 0, 2, 16, scheme, s, rootKeyHex, upgrade, nowMs);
    }
  }

  /** A bundle is refused for its first fault in the order of the checks, and accepted if it has none. */
  lemma VerifyReports(
    scheme: Scheme, s: SignedProvenance, rootKeyHex: Text, upgrade: Upgrade, nowMs: u64, refusal: Refusal)
    ensures Verify(scheme, s, rootKeyHex, upgrade, nowMs) == Err(refusal) <==>
      && Fault(refusal, scheme, s, rootKeyHex, upgrade, nowMs)
      && forall other :: Rank(other) < Rank(refusal) ==> !Fault(other, scheme, s, rootKeyHex, upgrade, nowMs)
    ensures Verify(scheme, s, rootKeyHex, upgrade, nowMs).Ok? ==>
      !Fault(refusal, scheme, s, rootKeyHex, upgrade, nowMs)
  {
    RefusalIsFirst(scheme, s, rootKeyHex, upgrade, nowMs);
    if Fault(refusal, scheme, s, rootKeyHex, upgrade, nowMs) {
      SameRank(scheme, s, rootKeyHex, upgrade, nowMs, refusal);
    }
  }

  /** No two faults of a bundle have one rank. */
  lemma SameRank(
    scheme: Scheme, s: SignedProvenance, rootKeyHex: Text, upgrade: Upgrade, nowMs: u64, refusal: Refusal)
    requires Fault(refusal, scheme, s, rootKeyHex, upgrade, nowMs)
    ensures forall other :: Fault(other, scheme, s, rootKeyHex, upgrade, nowMs) && Rank(other) == Rank(refusal) ==>
      other == refusal
  {
  }

  /** The statements name the upgrade, belong together, and are both in force. */
  ghost predicate Covers(d: Delegation, p: Provenance, upgrade: Upgrade, nowMs: u64) {
    && d.version == 1 && d.scope == Scope() && d.issuedAtMs < d.expiresAtMs && nowMs < d.expiresAtMs
    && p.delegationKeyId == d.keyId
    && p.version == 1 && p.issuedAtMs < p.expiresAtMs && nowMs < p.expiresAtMs
    && upgrade == Upgrade(p.binaryUrl, p.binarySha256, p.protocolVersion, p.binaryVersion)
  }

  lemma ScreensCover(d: Delegation, p: Provenance, upgrade: Upgrade, nowMs: u64)
    ensures ScreenDelegation(d, p, nowMs).Ok? && ScreenRelease(p, upgrade, nowMs).Ok? <==> Covers(d, p, upgrade, nowMs)
  {
  }

  /**
   A bundle signed by the root and by the release key is accepted exactly for the upgrade it covers, in
   whatever case and with whatever padding the two public keys are written.
   */
  lemma SignedBundleAccepted(
    scheme: Scheme, d: Delegation, p: Provenance, rootSeed: Text, releaseSeed: Text, rootKeyHex: Text,
    upgrade: Upgrade, nowMs: u64)
    requires Sound(scheme)
    requires ParseKey(scheme, rootKeyHex) == Some(scheme.public(rootSeed))
    requires ParseKey(scheme, d.publicKey) == Some(scheme.public(releaseSeed))
    ensures var s := SignRelease(scheme, p, SignDelegation(scheme, d, rootSeed), releaseSeed);
            Verify(scheme, s, rootKeyHex, upgrade, nowMs) == Ok(()) <==> Covers(d, p, upgrade, nowMs)
  {
    SignedPasses(scheme, rootSeed, DelegationPayload(d));
    SignedPasses(scheme, releaseSeed, ProvenancePayload(p));
    ScreensCover(d, p, upgrade, nowMs);
  }

  // ----- Acceptance -----

  /** A statement and the public key it was signed under. */
  datatype Signing = Signing(key: Text, statement: Statement)

  ghost predicate Signed(signings: seq<Signing>, key: Text, payload: Text, k: nat) {
    k < |signings| && signings[k].key == key && StatementPayload(signings[k].statement) == payload
  }

  /** If the signature passes, its text was signed under that key. */
  ghost predicate Unforged(scheme: Scheme, signings: seq<Signing>, key: Text, payload: Text, signature: Text) {
    CheckText(scheme, key, payload, signature).Ok? ==> exists k :: Signed(signings, key, payload, k)
  }

  /** No free text of the statement hides a mark: exactly then no other statement of its kind has its text. */
  ghost predicate BoundStatement(s: Statement) {
    match s
    case Delegates(d) => !DelegationHides(DelegationLabels(), d)
    case Releases(p) => !ProvenanceHides(ProvenanceLabels(), p)
    case Grants(_) => true
  }

  /** Text fields without newlines are enough. */
  lemma PlainDelegationIsBound(d: Delegation)
    requires NewlineFree(d.keyId) && NewlineFree(d.publicKey) && NewlineFree(d.scope) && NewlineFree(d.issuer)
    ensures BoundStatement(Delegates(d))
  {
    PlainDelegationHidesNothing(d);
  }

  lemma PlainReleaseIsBound(p: Provenance)
    requires NewlineFree(p.delegationKeyId) && NewlineFree(p.binaryUrl) && NewlineFree(p.binarySha256)
    requires NewlineFree(p.binaryVersion) && NewlineFree(OptionText(p.sourceRepository))
    requires NewlineFree(OptionText(p.sourceCommit)) && NewlineFree(OptionText(p.buildWorkflow))
    requires NewlineFree(OptionText(p.buildRun))
    ensures BoundStatement(Releases(p))
  {
    PlainProvenanceHidesNothing(p);
  }

  lemma SignedDelegationIs(signings: seq<Signing>, key: Text, d: Delegation, k: nat)
    requires Signed(signings, key, DelegationPayload(d), k) && BoundStatement(signings[k].statement)
    ensures signings[k] == Signing(key, Delegates(d))
  {
    OnlyDelegations(signings[k].statement, d);
    DelegationBinds(signings[k].statement.delegation, d);
  }

  lemma SignedReleaseIs(signings: seq<Signing>, key: Text, p: Provenance, k: nat)
    requires Signed(signings, key, ProvenancePayload(p), k) && BoundStatement(signings[k].statement)
    ensures signings[k].key == key && signings[k].statement.Releases?
    ensures SameRelease(signings[k].statement.provenance, p)
  {
    OnlyReleases(signings[k].statement, p);
    ProvenanceBinds(signings[k].statement.provenance, p);
  }

  /** The root key signed this very delegation, and the key it names signed this release. */
  ghost predicate Authorised(
    scheme: Scheme, signings: seq<Signing>, rootKey: Text, upgrade: Upgrade, nowMs: u64, i: nat, j: nat)
  {
    && i < |signings| && signings[i].key == rootKey && signings[i].statement.Delegates?
    && j < |signings| && signings[j].statement.Releases?
    && ParseKey(scheme, signings[i].statement.delegation.publicKey) == Some(signings[j].key)
    && Covers(signings[i].statement.delegation, signings[j].statement.provenance, upgrade, nowMs)
  }

  /** What acceptance says, check by check. */
  lemma AcceptedParts(scheme: Scheme, s: SignedProvenance, rootKeyHex: Text, upgrade: Upgrade, nowMs: u64)
    requires Verify(scheme, s, rootKeyHex, upgrade, nowMs).Ok?
    ensures ParseKey(scheme, rootKeyHex).Some?
    ensures CheckDelegation(scheme, ParseKey(scheme, rootKeyHex).value, s.delegation).Ok?
    ensures CheckRelease(scheme, s).Ok?
    ensures Covers(s.delegation.delegation, s.provenance, upgrade, nowMs)
  {
    ScreensCover(s.delegation.delegation, s.provenance, upgrade, nowMs);
  }

  lemma SignedPair(
    scheme: Scheme, signings: seq<Signing>, d: Delegation, p: Provenance, rootKey: Text, releaseKey: Text,
    upgrade: Upgrade, nowMs: u64, i: nat, j: nat)
    requires ParseKey(scheme, d.publicKey) == Some(releaseKey) && Covers(d, p, upgrade, nowMs)
    requires i < |signings| && signings[i] == Signing(rootKey, Delegates(d))
    requires j < |signings| && signings[j].key == releaseKey && signings[j].statement.Releases?
    requires SameRelease(signings[j].statement.provenance, p)
    ensures Authorised(scheme, signings, rootKey, upgrade, nowMs, i, j)
  {
  }

  /** The signature on the delegation, if it passes under the root key, was made. */
  ghost predicate UnforgedDelegation(scheme: Scheme, signings: seq<Signing>, s: SignedProvenance, rootKeyHex: Text) {
    forall key :: ParseKey(scheme, rootKeyHex) == Some(key) ==>
      Unforged(scheme, signings, key, DelegationPayload(s.delegation.delegation), s.delegation.signature)
  }

  /** The signature on the release, if it passes under the delegated key, was made. */
  ghost predicate UnforgedRelease(scheme: Scheme, signings: seq<Signing>, s: SignedProvenance) {
    forall key :: ParseKey(scheme, s.delegation.delegation.publicKey) == Some(key) ==>
      Unforged(scheme, signings, key, ProvenancePayload(s.provenance), s.signature)
  }

  lemma FindDelegation(scheme: Scheme, signings: seq<Signing>, s: SignedProvenance, rootKeyHex: Text) returns (i: nat)
    requires UnforgedDelegation(scheme, signings, s, rootKeyHex)
    requires ParseKey(scheme, rootKeyHex).Some?
    requires CheckDelegation(scheme, ParseKey(scheme, rootKeyHex).value, s.delegation).Ok?
    requires forall k :: 0 <= k < |signings| ==> BoundStatement(signings[k].statement)
    ensures i < |signings|
    ensures signings[i] == Signing(ParseKey(scheme, rootKeyHex).value, Delegates(s.delegation.delegation))
  {
    var key, d := ParseKey(scheme, rootKeyHex).value, s.delegation.delegation;
    var payload := DelegationPayload(d);
    i :| Signed(signings, key, payload, i);
    SignedDelegationIs(signings, key, d, i);
  }

  lemma FindRelease(scheme: Scheme, signings: seq<Signing>, s: SignedProvenance) returns (j: nat)
    requires UnforgedRelease(scheme, signings, s) && CheckRelease(scheme, s).Ok?
    requires forall k :: 0 <= k < |signings| ==> BoundStatement(signings[k].statement)
    ensures j < |signings| && ParseKey(scheme, s.delegation.delegation.publicKey) == Some(signings[j].key)
    ensures signings[j].statement.Releases? && SameRelease(signings[j].statement.provenance, s.provenance)
  {
    var key, p := ParseKey(scheme, s.delegation.delegation.publicKey).value, s.provenance;
    var payload := ProvenancePayload(p);
    j :| Signed(signings, key, payload, j);
    SignedReleaseIs(signings, key, p, j);
  }

  /** Every accepted upgrade was authorised: no other signings, however many, make up for it. */
  lemma AcceptanceIsAuthorised(
    scheme: Scheme, signings: seq<Signing>, s: SignedProvenance, rootKeyHex: Text, upgrade: Upgrade, nowMs: u64)
    requires Verify(scheme, s, rootKeyHex, upgrade, nowMs).Ok?
    requires UnforgedDelegation(scheme, signings, s, rootKeyHex) && UnforgedRelease(scheme, signings, s)
    requires forall k :: 0 <= k < |signings| ==> BoundStatement(signings[k].statement)
    ensures exists rootKey, i, j ::
      ParseKey(scheme, rootKeyHex) == Some(rootKey) && Authorised(scheme, signings, rootKey, upgrade, nowMs, i, j)
  {
    AcceptedParts(scheme, s, rootKeyHex, upgrade, nowMs);
    var i := FindDelegation(scheme, signings, s, rootKeyHex);
    var j := FindRelease(scheme, signings, s);
    var rootKey := ParseKey(scheme, rootKeyHex).value;
    SignedPair(scheme, signings, s.delegation.delegation, s.provenance, rootKey, signings[j].key, upgrade, nowMs, i, j);
  }

  /** Statements that were signed are unforged; SignedBundleAccepted says when a bundle of them is accepted. */
  lemma HonestDelegation(scheme: Scheme, signings: seq<Signing>, s: SignedProvenance, rootKeyHex: Text, i: nat)
    requires i < |signings| && signings[i].statement == Delegates(s.delegation.delegation)
    requires ParseKey(scheme, rootKeyHex) == Some(signings[i].key)
    ensures UnforgedDelegation(scheme, signings, s, rootKeyHex)
  {
    assert Signed(signings, signings[i].key, DelegationPayload(s.delegation.delegation), i);
  }

  lemma HonestRelease(scheme: Scheme, signings: seq<Signing>, s: SignedProvenance, j: nat)
    requires j < |signings| && signings[j].statement == Releases(s.provenance)
    requires ParseKey(scheme, s.delegation.delegation.publicKey) == Some(signings[j].key)
    ensures UnforgedRelease(scheme, signings, s)
  {
    assert Signed(signings, signings[j].key, ProvenancePayload(s.provenance), j);
  }
}
