/** Artifact transfer manifests: what a node issues, and what it accepts when the manifest comes back. */
module ArtifactManifest {
  import opened Wrappers
  import opened Encoding
  import opened CanonicalPayload
  import opened Signatures
  import opened ManifestText

  datatype SignedManifest = SignedManifest(manifest: Manifest, signature: Text)

  // ----- Issuing and verifying -----

  datatype Authority = Authority(nodeId: Text, seed: Text)

  function SaturatingAdd(a: u64, b: u64): u64 {
    if a + b > MAX_U64 then MAX_U64 else a + b
  }

  function SaturatingMul(a: u64, b: u64): u64 {
    if a * b > MAX_U64 then MAX_U64 else a * b
  }

  function Expiry(nowMs: u64, ttlSecs: u64): u64 {
    SaturatingAdd(nowMs, SaturatingMul(ttlSecs, 1000))
  }

  /** What a caller asks to be issued, with the clock and the fresh transfer id. */
  datatype Grant = Grant(
    nowMs: u64, sha256: Text, verb: Method, ttlSecs: u64, singleUse: bool, audience: Option<Text>, transferId: Text)

  function ArtifactPath(sha256: Text): Text {
    Ascii("/artifacts/") + sha256
  }

  function Granted(nodeId: Text, g: Grant): Manifest {
    Manifest(1, g.sha256, ArtifactPath(g.sha256), g.verb, nodeId, g.audience,
             g.nowMs, Expiry(g.nowMs, g.ttlSecs), g.transferId, g.singleUse)
  }

  function Issue(scheme: Scheme, authority: Authority, g: Grant): SignedManifest {
    var m := Granted(authority.nodeId, g);
    SignedManifest(m, SignText(scheme, authority.seed, ManifestPayload(m)))
  }

  datatype Refusal =
    | BadSignature(error: SignatureError) | UnsupportedVersion | MethodMismatch | DigestMismatch | PathMismatch
    | IssuerMismatch | AudienceMismatch | RequesterMissing | EmptyWindow | Expired

  /** The checks after the signature, in order. */
  function Screen(nodeId: Text, m: Manifest, sha256: Text, verb: Method, requester: Option<Text>, nowMs: u64)
    : Result<(), Refusal>
  {
    if m.version != 1 then Err(UnsupportedVersion)
    else if m.verb != verb then Err(MethodMismatch)
    else if m.sha256 != sha256 then Err(DigestMismatch)
    else if m.path != ArtifactPath(sha256) then Err(PathMismatch)
    else if m.issuer != nodeId then Err(IssuerMismatch)
    else if requester.Some? && m.audience != requester then Err(AudienceMismatch)
    else if requester.None? && m.audience.Some? then Err(RequesterMissing)
    else if m.expiresAtMs <= m.issuedAtMs then Err(EmptyWindow)
    else if nowMs >= m.expiresAtMs then Err(Expired)
    else Ok(())
  }

  function Verify(
    scheme: Scheme, authority: Authority, signed: SignedManifest,
    sha256: Text, verb: Method, requester: Option<Text>, nowMs: u64): Result<(), Refusal>
  {
    var key := scheme.public(authority.seed);
    var signature := CheckText(scheme, key, ManifestPayload(signed.manifest), signed.signature);
    if signature.Err? then Err(BadSignature(signature.error))
    else Screen(authority.nodeId, signed.manifest, sha256, verb, requester, nowMs)
  }

  /** Issued at `issuedMs` for so many seconds, a manifest is in force at `t`; clocks end at 2^64 - 1. */
  ghost predicate InForce(issuedMs: nat, ttlSecs: nat, t: nat) {
    && ttlSecs > 0 && t < issuedMs + 1000 * ttlSecs
    && issuedMs < 0xFFFF_FFFF_FFFF_FFFF && t < 0xFFFF_FFFF_FFFF_FFFF
  }

  lemma ExpiryIs(issuedMs: u64, ttlSecs: u64, t: u64)
    ensures issuedMs < Expiry(issuedMs, ttlSecs) && t < Expiry(issuedMs, ttlSecs) <==> InForce(issuedMs, ttlSecs, t)
  {
  }

  /**
   A manifest just issued is accepted exactly for what was granted, and until the granted seconds have
   passed or, if their end is past the last millisecond, until then.
   */
  lemma IssuedAccepted(
    scheme: Scheme, authority: Authority, g: Grant, sha256: Text, verb: Method, requester: Option<Text>, nowMs: u64)
    requires Sound(scheme)
    ensures Verify(scheme, authority, Issue(scheme, authority, g), sha256, verb, requester, nowMs) == Ok(())
      <==> sha256 == g.sha256 && verb == g.verb && requester == g.audience && InForce(g.nowMs, g.ttlSecs, nowMs)
  {
    SignedPasses(scheme, authority.seed, ManifestPayload(Granted(authority.nodeId, g)));
    GrantedScreens(authority.nodeId, g, sha256, verb, requester, nowMs);
  }

  lemma GrantedScreens(nodeId: Text, g: Grant, sha256: Text, verb: Method, requester: Option<Text>, nowMs: u64)
    ensures Screen(nodeId, Granted(nodeId, g), sha256, verb, requester, nowMs) == Ok(())
      <==> sha256 == g.sha256 && verb == g.verb && requester == g.audience && InForce(g.nowMs, g.ttlSecs, nowMs)
  {
    ExpiryIs(g.nowMs, g.ttlSecs, nowMs);
  }

  /** When the granted seconds end within the range of the clock, they end it; otherwise the range does. */
  lemma AcceptedUntil(scheme: Scheme, authority: Authority, g: Grant, t: u64)
    requires Sound(scheme) && g.ttlSecs > 0
    ensures var accepted :=
              Verify(scheme, authority, Issue(scheme, authority, g), g.sha256, g.verb, g.audience, t) == Ok(());
            if g.nowMs + 1000 * g.ttlSecs <= 0xFFFF_FFFF_FFFF_FFFF then accepted <==> t < g.nowMs + 1000 * g.ttlSecs
            else accepted <==> g.nowMs < 0xFFFF_FFFF_FFFF_FFFF && t < 0xFFFF_FFFF_FFFF_FFFF
  {
    IssuedAccepted(scheme, authority, g, g.sha256, g.verb, g.audience, t);
  }

  // ----- Every refusal -----

  /** What each refusal complains of. */
  ghost predicate Fault(
    refusal: Refusal, nodeId: Text, m: Manifest, sha256: Text, verb: Method, requester: Option<Text>, nowMs: u64)
  {
    match refusal
    case BadSignature(_) => false
    case UnsupportedVersion => m.version != 1
    case MethodMismatch => m.verb != verb
    case DigestMismatch => m.sha256 != sha256
    case PathMismatch => m.path != Ascii("/artifacts/") + sha256
    case IssuerMismatch => m.issuer != nodeId
    case AudienceMismatch => requester.Some? && m.audience != Some(requester.value)
    case RequesterMissing => requester.None? && m.audience.Some?
    case EmptyWindow => m.issuedAtMs >= m.expiresAtMs
    case Expired => m.expiresAtMs <= nowMs
  }

  /** The order in which they are looked for. */
  function Rank(refusal: Refusal): nat {
    match refusal
    case BadSignature(_) => 0
    case UnsupportedVersion => 1
    case MethodMismatch => 2
    case DigestMismatch => 3
    case PathMismatch => 4
    case IssuerMismatch => 5
    case AudienceMismatch => 6
    case RequesterMissing => 7
    case EmptyWindow => 8
    case Expired => 9
  }

  lemma ScreenReports(
    nodeId: Text, m: Manifest, sha256: Text, verb: Method, requester: Option<Text>, nowMs: u64, refusal: Refusal)
    ensures Screen(nodeId, m, sha256, verb, requester, nowMs) == Err(refusal) <==>
      && Fault(refusal, nodeId, m, sha256, verb, requester, nowMs)
      && forall other :: Rank(other) < Rank(refusal) ==> !Fault(other, nodeId, m, sha256, verb, requester, nowMs)
  {
    if Fault(refusal, nodeId, m, sha256, verb, requester, nowMs)
       && Screen(nodeId, m, sha256, verb, requester, nowMs) != Err(refusal) {
      var first := Screen(nodeId, m, sha256, verb, requester, nowMs);
      assert first.Err? && Fault(first.error, nodeId, m, sha256, verb, requester, nowMs);
    }
  }

  /**
   A manifest with a bad signature is refused for that; otherwise for its first fault in the order of the
   checks; and a manifest with neither is accepted.
   */
  lemma VerifyReports(
    scheme: Scheme, authority: Authority, signed: SignedManifest,
    sha256: Text, verb: Method, requester: Option<Text>, nowMs: u64, refusal: Refusal)
    ensures var check := CheckText(scheme, scheme.public(authority.seed), ManifestPayload(signed.manifest),
                                   signed.signature);
            var result := Verify(scheme, authority, signed, sha256, verb, requester, nowMs);
            && (check.Err? ==> result == Err(BadSignature(check.error)))
            && (check.Ok? ==>
                  (result == Err(refusal) <==>
                     && Fault(refusal, authority.nodeId, signed.manifest, sha256, verb, requester, nowMs)
                     && forall other :: Rank(other) < Rank(refusal) ==>
                          !Fault(other, authority.nodeId, signed.manifest, sha256, verb, requester, nowMs)))
  {
    ScreenReports(authority.nodeId, signed.manifest, sha256, verb, requester, nowMs, refusal);
  }

  // ----- Acceptance over a history -----

  /** What happens at one authority: it issues, or it is shown a manifest. */
  datatype Event =
    | Issued(grant: Grant)
    | Shown(signed: SignedManifest, sha256: Text, verb: Method, requester: Option<Text>, nowMs: u64)

  predicate Accepts(scheme: Scheme, authority: Authority, e: Event) {
    e.Shown? && Verify(scheme, authority, e.signed, e.sha256, e.verb, e.requester, e.nowMs).Ok?
  }

  ghost predicate IssuedAs(authority: Authority, history: seq<Event>, k: nat, payload: Text) {
    k < |history| && history[k].Issued? && ManifestPayload(Granted(authority.nodeId, history[k].grant)) == payload
  }

  /** No signature passes for a text that the authority has not signed by then. */
  ghost predicate Unforged(scheme: Scheme, authority: Authority, history: seq<Event>, n: nat)
    requires n < |history|
  {
    history[n].Shown? ==>
      var payload := ManifestPayload(history[n].signed.manifest);
      CheckText(scheme, scheme.public(authority.seed), payload, history[n].signed.signature).Ok? ==>
        exists k: nat :: k < n && IssuedAs(authority, history, k, payload)
  }

  /** The grant allows what was accepted, at that time. */
  ghost predicate Allows(g: Grant, e: Event)
    requires e.Shown?
  {
    && g.sha256 == e.sha256 && g.verb == e.verb
    && OptionText(g.audience) == OptionText(e.requester)
    && InForce(g.nowMs, g.ttlSecs, e.nowMs)
    && g.transferId == e.signed.manifest.transferId && g.singleUse == e.signed.manifest.singleUse
  }

  lemma ScreenedAsGranted(nodeId: Text, g: Grant, e: Event)
    requires e.Shown? && SameFields(Granted(nodeId, g), e.signed.manifest)
    requires Screen(nodeId, e.signed.manifest, e.sha256, e.verb, e.requester, e.nowMs).Ok?
    ensures Allows(g, e)
  {
    ExpiryIs(g.nowMs, g.ttlSecs, e.nowMs);
  }

  /** No free text of the granted manifest hides a mark: exactly then no other manifest has its text. */
  ghost predicate BoundGrant(nodeId: Text, g: Grant) {
    !HidesMark(Labels(), Granted(nodeId, g))
  }

  /** The grant cannot be shown for the digest against its terms. */
  ghost predicate SafeFor(nodeId: Text, g: Grant, sha256: Text) {
    if sha256 == g.sha256 then OneWindow(Labels(), Granted(nodeId, g))
    else BoundGrant(nodeId, g) || (NewlineFree(sha256) && NewlineFree(g.sha256))
  }

  /** Digests, node ids, audiences and transfer ids without newlines are enough. */
  lemma PlainGrantIsBound(nodeId: Text, g: Grant)
    requires NewlineFree(nodeId) && NewlineFree(g.sha256) && NewlineFree(g.transferId)
    requires NewlineFree(OptionText(g.audience))
    ensures BoundGrant(nodeId, g)
  {
    assert NewlineFree(ArtifactPath(g.sha256));
    PlainTextIsBound(Granted(nodeId, g));
  }

  lemma BoundGrantBinds(nodeId: Text, g: Grant, m: Manifest)
    requires BoundGrant(nodeId, g) && ManifestPayload(Granted(nodeId, g)) == ManifestPayload(m)
    ensures SameFields(Granted(nodeId, g), m)
  {
    PayloadBinds(Granted(nodeId, g), m);
  }

  lemma OwnDigest(nodeId: Text, g: Grant, m: Manifest)
    requires SafeFor(nodeId, g, m.sha256) && ManifestPayload(Granted(nodeId, g)) == ManifestPayload(m)
    ensures m.sha256 == g.sha256
  {
    if m.sha256 != g.sha256 {
      if BoundGrant(nodeId, g) {
        BoundGrantBinds(nodeId, g, m);
      } else {
        DigestsTell(Labels(), Granted(nodeId, g), m);
      }
    }
  }

  /** What passes the checks names the path of its digest, the issuing node, and a window. */
  lemma ScreenedShape(nodeId: Text, m: Manifest, sha256: Text, verb: Method, requester: Option<Text>, nowMs: u64)
    requires Screen(nodeId, m, sha256, verb, requester, nowMs).Ok?
    ensures m.sha256 == sha256 && m.path == ArtifactPath(sha256) && m.issuer == nodeId && m.issuedAtMs < m.expiresAtMs
  {
  }

  /** A safe grant binds whatever has its text and passes the checks. */
  lemma SafeGrantBinds(nodeId: Text, g: Grant, m: Manifest)
    requires SafeFor(nodeId, g, m.sha256) && ManifestPayload(Granted(nodeId, g)) == ManifestPayload(m)
    requires m.path == ArtifactPath(m.sha256) && m.issuer == nodeId && m.issuedAtMs < m.expiresAtMs
    ensures SameFields(Granted(nodeId, g), m)
  {
    OwnDigest(nodeId, g, m);
    OneWindowBinds(Granted(nodeId, g), m);
  }

  lemma SafeGrantAllows(nodeId: Text, g: Grant, e: Event)
    requires e.Shown? && Screen(nodeId, e.signed.manifest, e.sha256, e.verb, e.requester, e.nowMs).Ok?
    requires SafeFor(nodeId, g, e.sha256) && ManifestPayload(Granted(nodeId, g)) == ManifestPayload(e.signed.manifest)
    ensures Allows(g, e)
  {
    ScreenedShape(nodeId, e.signed.manifest, e.sha256, e.verb, e.requester, e.nowMs);
    SafeGrantBinds(nodeId, g, e.signed.manifest);
    ScreenedAsGranted(nodeId, g, e);
  }

  /** Every acceptance goes back to an earlier grant that allows it. */
  lemma AcceptanceGoesBack(scheme: Scheme, authority: Authority, history: seq<Event>, n: nat)
    requires n < |history| && Accepts(scheme, authority, history[n]) && Unforged(scheme, authority, history, n)
    requires forall k :: 0 <= k < n && history[k].Issued? ==>
               SafeFor(authority.nodeId, history[k].grant, history[n].sha256)
    ensures exists k :: 0 <= k < n && history[k].Issued? && Allows(history[k].grant, history[n])
  {
    var e := history[n];
    var payload := ManifestPayload(e.signed.manifest);
    var k: nat :| k < n && IssuedAs(authority, history, k, payload);
    SafeGrantAllows(authority.nodeId, history[k].grant, e);
  }

  // ----- Which grants can be misused -----

  /** A manifest with the grant's text is accepted for the grant's digest against its terms. */
  ghost predicate Misuses(scheme: Scheme, authority: Authority, g: Grant, e: Event) {
    && Accepts(scheme, authority, e)
    && ManifestPayload(Granted(authority.nodeId, g)) == ManifestPayload(e.signed.manifest)
    && e.sha256 == g.sha256 && !Allows(g, e)
  }

  /** The manifest `m` shown with the signature of the grant, at the beginning of its window. */
  function ShownAs(scheme: Scheme, authority: Authority, g: Grant, m: Manifest): Event {
    Shown(SignedManifest(m, Issue(scheme, authority, g).signature), m.sha256, m.verb, m.audience, m.issuedAtMs)
  }

  lemma ShownScreens(nodeId: Text, m: Manifest)
    requires m.version == 1 && m.path == ArtifactPath(m.sha256) && m.issuer == nodeId && m.issuedAtMs < m.expiresAtMs
    ensures Screen(nodeId, m, m.sha256, m.verb, m.audience, m.issuedAtMs).Ok?
  {
  }

  lemma ShownPasses(scheme: Scheme, authority: Authority, g: Grant, payload: Text)
    requires Sound(scheme) && ManifestPayload(Granted(authority.nodeId, g)) == payload
    ensures CheckText(scheme, scheme.public(authority.seed), payload, Issue(scheme, authority, g).signature).Ok?
  {
    SignedPasses(scheme, authority.seed, payload);
  }

  lemma ShownIsAccepted(scheme: Scheme, authority: Authority, g: Grant, m: Manifest)
    requires Screen(authority.nodeId, m, m.sha256, m.verb, m.audience, m.issuedAtMs).Ok?
    requires CheckText(scheme, scheme.public(authority.seed), ManifestPayload(m),
                       Issue(scheme, authority, g).signature).Ok?
    ensures Accepts(scheme, authority, ShownAs(scheme, authority, g, m))
  {
  }

  lemma DifferentIsDisallowed(scheme: Scheme, authority: Authority, g: Grant, m: Manifest)
    requires OptionText(g.audience) != OptionText(m.audience) || g.transferId != m.transferId
    ensures !Allows(g, ShownAs(scheme, authority, g, m))
  {
  }

  lemma DifferentMisuses(scheme: Scheme, authority: Authority, g: Grant, m: Manifest)
    requires Sound(scheme) && ManifestPayload(Granted(authority.nodeId, g)) == ManifestPayload(m)
    requires m.version == 1 && m.sha256 == g.sha256 && m.path == ArtifactPath(g.sha256)
    requires m.issuer == authority.nodeId && m.issuedAtMs < m.expiresAtMs
    requires OptionText(g.audience) != OptionText(m.audience) || g.transferId != m.transferId
    ensures Misuses(scheme, authority, g, ShownAs(scheme, authority, g, m))
  {
    ShownScreens(authority.nodeId, m);
    ShownPasses(scheme, authority, g, ManifestPayload(m));
    ShownIsAccepted(scheme, authority, g, m);
    DifferentIsDisallowed(scheme, authority, g, m);
  }

  lemma SecondWindowIsMisused(scheme: Scheme, authority: Authority, g: Grant) returns (m: Manifest)
    requires Sound(scheme) && !OneWindow(Labels(), Granted(authority.nodeId, g))
    ensures Misuses(scheme, authority, g, ShownAs(scheme, authority, g, m))
  {
    m := SecondWindow(Labels(), Granted(authority.nodeId, g));
    DifferentMisuses(scheme, authority, g, m);
  }

  /** Lines of a window in the audience: whom its first part names can use the grant in that window. */
  lemma AudienceIsMisused(scheme: Scheme, authority: Authority, g: Grant, x: Text, i: u64, e: u64, y: Text)
    requires Sound(scheme) && i < e && g.audience == Some(x + TimesMark(Labels(), i, e) + y)
    ensures var m := EndsAudience(Labels(), Granted(authority.nodeId, g), x, i, e, y);
            && m.audience == Some(x) && m.expiresAtMs == e
            && Misuses(scheme, authority, g, ShownAs(scheme, authority, g, m))
  {
    AudienceEndsEarlier(Labels(), Granted(authority.nodeId, g), x, i, e, y);
    DifferentMisuses(scheme, authority, g, EndsAudience(Labels(), Granted(authority.nodeId, g), x, i, e, y));
  }

  lemma MisusedHasSecondWindow(scheme: Scheme, authority: Authority, g: Grant, e: Event)
    requires Misuses(scheme, authority, g, e)
    ensures !OneWindow(Labels(), Granted(authority.nodeId, g))
  {
    var m := e.signed.manifest;
    ScreenedShape(authority.nodeId, m, e.sha256, e.verb, e.requester, e.nowMs);
    if OneWindow(Labels(), Granted(authority.nodeId, g)) {
      OneWindowBinds(Granted(authority.nodeId, g), m);
      ScreenedAsGranted(authority.nodeId, g, e);
    }
  }

  /**
   A grant can be used for its digest against its terms if and only if its audience or its transfer id
   contains the lines of a time window.
   */
  lemma MisusedIffSecondWindow(scheme: Scheme, authority: Authority, g: Grant)
    requires Sound(scheme)
    ensures (exists e :: Misuses(scheme, authority, g, e)) <==> !OneWindow(Labels(), Granted(authority.nodeId, g))
  {
    if e :| Misuses(scheme, authority, g, e) {
      MisusedHasSecondWindow(scheme, authority, g, e);
    }
    if !OneWindow(Labels(), Granted(authority.nodeId, g)) {
      var m := SecondWindowIsMisused(scheme, authority, g);
    }
  }

  /** Granting and showing the manifest to its requester in time is such a history. */
  lemma HonestShowing(scheme: Scheme, authority: Authority, g: Grant, nowMs: u64)
    requires Sound(scheme) && InForce(g.nowMs, g.ttlSecs, nowMs)
    ensures var history := [Issued(g), Shown(Issue(scheme, authority, g), g.sha256, g.verb, g.audience, nowMs)];
            Accepts(scheme, authority, history[1]) && Unforged(scheme, authority, history, 1)
  {
    var shown := Shown(Issue(scheme, authority, g), g.sha256, g.verb, g.audience, nowMs);
    IssuedAccepted(scheme, authority, g, g.sha256, g.verb, g.audience, nowMs);
    assert IssuedAs(authority, [Issued(g), shown], 0, ManifestPayload(shown.signed.manifest));
  }
}
