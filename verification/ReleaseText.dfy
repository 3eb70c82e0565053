/**
 The signed texts of a release delegation and of a release provenance, and exactly which of them share
 their text with another one.
 */
module ReleaseText {
  import opened Wrappers
  import opened Encoding
  import opened CanonicalPayload
  import opened Readings

  datatype Delegation = Delegation(
    version: byte, keyId: Text, publicKey: Text, scope: Text, issuer: Text, issuedAtMs: u64, expiresAtMs: u64)

  datatype Provenance = Provenance(
    version: byte, delegationKeyId: Text, binaryUrl: Text, binarySha256: Text,
    protocolVersion: u32, binaryVersion: Text,
    sourceRepository: Option<Text>, sourceCommit: Option<Text>, buildWorkflow: Option<Text>, buildRun: Option<Text>,
    issuedAtMs: u64, expiresAtMs: u64)

  function DelegationLabels(): (labels: seq<Text>)
    ensures |labels| == 7
  {
    [Ascii("version="), Ascii("key_id="), Ascii("public_key_ed25519="), Ascii("scope="), Ascii("issuer="),
     Ascii("issued_at_ms="), Ascii("expires_at_ms=")]
  }

  function DelegationValues(d: Delegation): (values: seq<Text>)
    ensures |values| == 7
  {
    [Decimal(d.version), d.keyId, d.publicKey, d.scope, d.issuer, Decimal(d.issuedAtMs), Decimal(d.expiresAtMs)]
  }

  function DelegationPayload(d: Delegation): Text {
    Payload(DelegationLabels(), DelegationValues(d))
  }

  function ProvenanceLabels(): (labels: seq<Text>)
    ensures |labels| == 12
  {
    [Ascii("version="), Ascii("delegation_key_id="), Ascii("binary_url="), Ascii("binary_sha256="),
     Ascii("new_protocol_version="), Ascii("new_binary_version="), Ascii("source_repository="),
     Ascii("source_commit_sha="), Ascii("build_workflow_ref="), Ascii("build_run_id="), Ascii("issued_at_ms="),
     Ascii("expires_at_ms=")]
  }

  function ProvenanceValues(p: Provenance): (values: seq<Text>)
    ensures |values| == 12
  {
    [Decimal(p.version), p.delegationKeyId, p.binaryUrl, p.binarySha256, Decimal(p.protocolVersion), p.binaryVersion,
     OptionText(p.sourceRepository), OptionText(p.sourceCommit), OptionText(p.buildWorkflow), OptionText(p.buildRun),
     Decimal(p.issuedAtMs), Decimal(p.expiresAtMs)]
  }

  function ProvenancePayload(p: Provenance): Text {
    Payload(ProvenanceLabels(), ProvenanceValues(p))
  }

  /** The signed lines of a delegation whose texts have no newlines. */
  lemma DelegationLines(d: Delegation)
    requires NewlineFree(d.keyId) && NewlineFree(d.publicKey) && NewlineFree(d.scope) && NewlineFree(d.issuer)
    ensures var lines := Lines(DelegationPayload(d));
            && |lines| == 7
            && lines[0] == Ascii("version=") + Decimal(d.version) && lines[1] == Ascii("key_id=") + d.keyId
            && lines[2] == Ascii("public_key_ed25519=") + d.publicKey && lines[3] == Ascii("scope=") + d.scope
            && lines[4] == Ascii("issuer=") + d.issuer
            && lines[5] == Ascii("issued_at_ms=") + Decimal(d.issuedAtMs)
            && lines[6] == Ascii("expires_at_ms=") + Decimal(d.expiresAtMs)
  {
    PayloadLines(DelegationLabels(), DelegationValues(d));
  }

  /** The same for a provenance. */
  lemma ProvenanceLines(p: Provenance)
    requires NewlineFree(p.delegationKeyId) && NewlineFree(p.binaryUrl) && NewlineFree(p.binarySha256)
    requires NewlineFree(p.binaryVersion) && NewlineFree(OptionText(p.sourceRepository))
    requires NewlineFree(OptionText(p.sourceCommit)) && NewlineFree(OptionText(p.buildWorkflow))
    requires NewlineFree(OptionText(p.buildRun))
    ensures var lines := Lines(ProvenancePayload(p));
            && |lines| == 12
            && lines[0] == Ascii("version=") + Decimal(p.version)
            && lines[1] == Ascii("delegation_key_id=") + p.delegationKeyId
            && lines[2] == Ascii("binary_url=") + p.binaryUrl && lines[3] == Ascii("binary_sha256=") + p.binarySha256
            && lines[4] == Ascii("new_protocol_version=") + Decimal(p.protocolVersion)
            && lines[5] == Ascii("new_binary_version=") + p.binaryVersion
            && lines[6] == Ascii("source_repository=") + OptionText(p.sourceRepository)
            && lines[7] == Ascii("source_commit_sha=") + OptionText(p.sourceCommit)
            && lines[8] == Ascii("build_workflow_ref=") + OptionText(p.buildWorkflow)
            && lines[9] == Ascii("build_run_id=") + OptionText(p.buildRun)
            && lines[10] == Ascii("issued_at_ms=") + Decimal(p.issuedAtMs)
            && lines[11] == Ascii("expires_at_ms=") + Decimal(p.expiresAtMs)
  {
    PayloadLines(ProvenanceLabels(), ProvenanceValues(p));
  }

  /** Equal up to absent build details reading like empty ones. */
  ghost predicate SameRelease(p: Provenance, q: Provenance) {
    && p.version == q.version && p.delegationKeyId == q.delegationKeyId
    && p.binaryUrl == q.binaryUrl && p.binarySha256 == q.binarySha256
    && p.protocolVersion == q.protocolVersion && p.binaryVersion == q.binaryVersion
    && OptionText(p.sourceRepository) == OptionText(q.sourceRepository)
    && OptionText(p.sourceCommit) == OptionText(q.sourceCommit)
    && OptionText(p.buildWorkflow) == OptionText(q.buildWorkflow)
    && OptionText(p.buildRun) == OptionText(q.buildRun)
    && p.issuedAtMs == q.issuedAtMs && p.expiresAtMs == q.expiresAtMs
  }

  // ----- Free texts and the marks between them -----

  /** What comes between two free texts: the label of line `line`, or that whole line, a number, and the next label. */
  datatype Gap = Plain(line: nat) | Numbered(line: nat) {
    /** The line of the free text after the gap. */
    function Next(): nat {
      if Plain? then line else line + 1
    }
  }

  function NumberMark(l: seq<Text>, k: nat, n: u32): Text
    requires k + 1 < |l|
  {
    [NEWLINE] + (l[k] + Decimal(n)) + ([NEWLINE] + l[k + 1])
  }

  ghost predicate GapMark(l: seq<Text>, gap: Gap, q: Text) {
    && gap.Next() < |l|
    && match gap
       case Plain(k) => q == LineMark(l[k])
       case Numbered(k) => exists n: u32 :: q == NumberMark(l, k, n)
  }

  ghost predicate Mark(l: seq<Text>, gaps: seq<Gap>, place: nat, q: Text) {
    1 <= place <= |gaps| && GapMark(l, gaps[place - 1], q)
  }

  ghost function Family(l: seq<Text>, gaps: seq<Gap>): Readings.Family {
    (place: nat, q: Text) => Mark(l, gaps, place, q)
  }

  /** Labels told apart, and gaps in the order of their lines. */
  ghost predicate Telling(l: seq<Text>, gaps: seq<Gap>) {
    && (forall i, j :: 0 <= i < j < |l| ==> Apart(l[i], l[j]))
    && (forall t :: t in l ==> NewlineFree(t))
    && (forall i, j :: 0 <= i < j < |gaps| ==> gaps[i].Next() < gaps[j].line)
  }

  lemma LineMarksApart(l: seq<Text>, gaps: seq<Gap>, i: nat, u: Text, j: nat, v: Text)
    requires Telling(l, gaps) && i < |l| && j < |l| && i != j
    ensures Apart([NEWLINE] + l[i] + u, [NEWLINE] + l[j] + v)
  {
    if i < j {
      ApartAfter([NEWLINE], l[i], u, l[j], v);
    } else {
      ApartAfter([NEWLINE], l[j], v, l[i], u);
    }
  }

  /** A mark begins with a newline and the label of its line. */
  lemma MarkHead(l: seq<Text>, gaps: seq<Gap>, place: nat, q: Text) returns (rest: Text)
    requires Mark(l, gaps, place, q)
    ensures var k := gaps[place - 1].line; k < |l| && q == [NEWLINE] + l[k] + rest
  {
    var gap := gaps[place - 1];
    if gap.Plain? {
      rest := [];
      assert [NEWLINE] + l[gap.line] + [] == LineMark(l[gap.line]);
    } else {
      var n: u32 :| q == NumberMark(l, gap.line, n);
      rest := NumberHead(l[gap.line], Decimal(n), l[gap.line + 1]);
    }
  }

  lemma NumberHead(x: Text, n: Text, y: Text) returns (rest: Text)
    ensures [NEWLINE] + (x + n) + ([NEWLINE] + y) == [NEWLINE] + x + rest
  {
    rest := n + ([NEWLINE] + y);
  }

  lemma PlacesApart(l: seq<Text>, gaps: seq<Gap>, i: nat, p: Text, j: nat, q: Text)
    requires Telling(l, gaps) && Mark(l, gaps, i, p) && Mark(l, gaps, j, q) && i != j
    ensures Apart(p, q)
  {
    var u := MarkHead(l, gaps, i, p);
    var v := MarkHead(l, gaps, j, q);
    LineMarksApart(l, gaps, gaps[i - 1].line, u, gaps[j - 1].line, v);
  }

  lemma NumbersApart(l: seq<Text>, k: nat, m: u32, n: u32)
    requires k + 1 < |l| && m != n
    ensures Apart(NumberMark(l, k, m), NumberMark(l, k, n))
  {
    NumeralsApart(m, n);
    ApartAfter([NEWLINE] + l[k], Decimal(m) + [NEWLINE], l[k + 1], Decimal(n) + [NEWLINE], l[k + 1]);
    NumberParts(l[k], Decimal(m), l[k + 1]);
    NumberParts(l[k], Decimal(n), l[k + 1]);
  }

  lemma NumberParts(x: Text, n: Text, y: Text)
    ensures [NEWLINE] + (x + n) + ([NEWLINE] + y) == [NEWLINE] + x + (n + [NEWLINE]) + y
  {
  }

  /** The second label of a numbered gap begins no mark. */
  lemma NextLabelApart(l: seq<Text>, gaps: seq<Gap>, i: nat, j: nat, p: Text)
    requires Telling(l, gaps) && Mark(l, gaps, j, p) && 1 <= i <= |gaps|
    requires gaps[i - 1].Numbered? && gaps[i - 1].Next() < |l|
    ensures Apart([NEWLINE] + l[gaps[i - 1].Next()], p)
  {
    var next := gaps[i - 1].Next();
    var rest := MarkHead(l, gaps, j, p);
    LineMarksApart(l, gaps, next, [], gaps[j - 1].line, rest);
    assert [NEWLINE] + l[next] + [] == [NEWLINE] + l[next];
  }

  lemma MarkInner(l: seq<Text>, gaps: seq<Gap>, i: nat, q: Text, j: nat, p: Text)
    requires Telling(l, gaps) && Mark(l, gaps, i, q) && Mark(l, gaps, j, p)
    ensures InnerApart(q, p)
  {
    var gap := gaps[i - 1];
    assert l[gap.line] in l && l[gap.Next()] in l;
    if gap.Plain? {
      InnerOfOne(l[gap.line], p);
    } else {
      var n: u32 :| q == NumberMark(l, gap.line, n);
      NextLabelApart(l, gaps, i, j, p);
      Joined(l[gap.line], Decimal(n));
      InnerOfTwo(l[gap.line] + Decimal(n), l[gap.line + 1], p);
    }
  }

  lemma SamePlaceApart(l: seq<Text>, gaps: seq<Gap>, i: nat, p: Text, q: Text)
    requires Mark(l, gaps, i, p) && Mark(l, gaps, i, q) && p != q
    ensures Apart(p, q)
  {
    var k := gaps[i - 1].line;
    var m: u32 :| p == NumberMark(l, k, m);
    var n: u32 :| q == NumberMark(l, k, n);
    NumbersApart(l, k, m, n);
  }

  lemma FamilyIsGood(l: seq<Text>, gaps: seq<Gap>)
    requires Telling(l, gaps)
    ensures GoodFamily(Family(l, gaps))
  {
    forall i, p, j, q | Mark(l, gaps, i, p) && Mark(l, gaps, j, q) ensures TellApart(i, p, j, q) {
      var rest := MarkHead(l, gaps, i, p);
      MarkInner(l, gaps, i, p, j, q);
      if i != j { PlacesApart(l, gaps, i, p, j, q); } else if p != q { SamePlaceApart(l, gaps, i, p, q); }
    }
  }

  // ----- Numbers around the free texts -----

  /** The lines of the version, of the free texts with what is between them, and of the two times. */
  function Framed(l: (Text, Text, Text, Text), version: Text, core: Text, issued: Text, expires: Text): Text {
    var times := [NEWLINE] + (l.2 + issued) + ([NEWLINE] + (l.3 + expires) + [NEWLINE]);
    l.0 + (version + [NEWLINE] + (l.1 + core + times))
  }

  lemma SameLastLine(x: Text, v: Text, y: Text, w: Text)
    requires x + ([NEWLINE] + v) == y + ([NEWLINE] + w) && NewlineFree(v) && NewlineFree(w)
    ensures x == y && v == w
  {
    var s, t := x + ([NEWLINE] + v), y + ([NEWLINE] + w);
    assert s[|x|] == NEWLINE && t[|y|] == NEWLINE;
    assert forall k :: |x| < k < |s| ==> s[k] == v[k - |x| - 1];
    assert forall k :: |y| < k < |t| ==> t[k] == w[k - |y| - 1];
    assert |x| == |y|;
    SameParts(x, [NEWLINE] + v, y, [NEWLINE] + w);
    SameParts([NEWLINE], v, [NEWLINE], w);
  }

  lemma SameTwoLast(x: Text, a: Text, b: Text, y: Text, c: Text, d: Text)
    requires x + ([NEWLINE] + a + ([NEWLINE] + b + [NEWLINE])) == y + ([NEWLINE] + c + ([NEWLINE] + d + [NEWLINE]))
    requires NewlineFree(a) && NewlineFree(b) && NewlineFree(c) && NewlineFree(d)
    ensures x == y && a == c && b == d
  {
    var s, t := x + ([NEWLINE] + a) + ([NEWLINE] + b), y + ([NEWLINE] + c) + ([NEWLINE] + d);
    assert s + [NEWLINE] == x + ([NEWLINE] + a + ([NEWLINE] + b + [NEWLINE]));
    assert t + [NEWLINE] == y + ([NEWLINE] + c + ([NEWLINE] + d + [NEWLINE]));
    assert |s| == |t|;
    SameParts(s, [NEWLINE], t, [NEWLINE]);
    SameLastLine(x + ([NEWLINE] + a), b, y + ([NEWLINE] + c), d);
    SameLastLine(x, a, y, c);
  }

  /** Framed texts with the same text are framed by the same numbers and have the same core. */
  lemma FramedParts(
    l: (Text, Text, Text, Text), v: Text, core: Text, i: Text, e: Text, v': Text, core': Text, i': Text, e': Text)
    requires NewlineFree(l.2) && NewlineFree(l.3) && NewlineFree(v) && NewlineFree(v')
    requires NewlineFree(i) && NewlineFree(e) && NewlineFree(i') && NewlineFree(e')
    requires Framed(l, v, core, i, e) == Framed(l, v', core', i', e')
    ensures v == v' && core == core' && i == i' && e == e'
  {
    var a, b, c, d := l.2 + i, l.3 + e, l.2 + i', l.3 + e';
    var s := l.1 + core + ([NEWLINE] + a + ([NEWLINE] + b + [NEWLINE]));
    var t := l.1 + core' + ([NEWLINE] + c + ([NEWLINE] + d + [NEWLINE]));
    SameParts(l.0, v + [NEWLINE] + s, l.0, v' + [NEWLINE] + t);
    SameFirstLine(v, s, v', t);
    SameTwoLast(l.1 + core, a, b, l.1 + core', c, d);
    SameParts(l.1, core, l.1, core');
    SameParts(l.2, i, l.2, i');
    SameParts(l.3, e, l.3, e');
  }

  // ----- Delegations -----

  /** The four fields that are free text. */
  function DelegationTexts(d: Delegation): (texts: seq<Text>)
    ensures |texts| == 4
  {
    [d.keyId, d.publicKey, d.scope, d.issuer]
  }

  const DELEGATION_GAPS := [Plain(2), Plain(3), Plain(4)]

  function DelegationCore(l: seq<Text>, d: Delegation): Text
    requires |l| == 7
  {
    Flat(DelegationTexts(d), LineMarks(l[2..5]))
  }

  lemma TwoLines(l: seq<Text>, v: seq<Text>)
    requires |l| == |v| == 2
    ensures Payload(l, v) == l[0] + v[0] + [NEWLINE] + (l[1] + v[1] + [NEWLINE])
  {
    assert Payload(l[1..][1..], v[1..][1..]) == [];
    assert Payload(l[1..], v[1..]) == l[1] + (v[1] + [NEWLINE] + []) == l[1] + v[1] + [NEWLINE];
    assert l[0] + (v[0] + [NEWLINE] + (l[1] + v[1] + [NEWLINE])) == l[0] + v[0] + [NEWLINE] + (l[1] + v[1] + [NEWLINE]);
  }

  lemma OneLine(l: seq<Text>, v: seq<Text>)
    requires |l| == |v| == 1
    ensures Payload(l, v) == l[0] + v[0] + [NEWLINE]
  {
    assert Payload(l[1..], v[1..]) == [];
    assert l[0] + (v[0] + [NEWLINE] + []) == l[0] + v[0] + [NEWLINE];
  }

  /** A first line, a middle that ends with a newline, and two last lines. */
  lemma FramedPayload(l: seq<Text>, v: seq<Text>, n: nat, core: Text)
    requires |l| == |v| == n + 3 && n > 0 && Payload(l[1..n + 1], v[1..n + 1]) == l[1] + core + [NEWLINE]
    ensures Payload(l, v) == Framed((l[0], l[1], l[n + 1], l[n + 2]), v[0], core, v[n + 1], v[n + 2])
  {
    PayloadJoins(l, v, 1);
    OneLine(l[..1], v[..1]);
    PayloadJoins(l[1..], v[1..], n);
    assert l[1..][..n] == l[1..n + 1] && v[1..][..n] == v[1..n + 1];
    assert l[1..][n..] == l[n + 1..] && v[1..][n..] == v[n + 1..];
    TwoLines(l[n + 1..], v[n + 1..]);
    FramedLines(l[0], v[0], l[1], core, l[n + 1], v[n + 1], l[n + 2], v[n + 2]);
  }

  lemma FramedLines(l0: Text, v0: Text, l1: Text, core: Text, l2: Text, i: Text, l3: Text, e: Text)
    ensures l0 + v0 + [NEWLINE] + (l1 + core + [NEWLINE] + (l2 + i + [NEWLINE] + (l3 + e + [NEWLINE])))
         == Framed((l0, l1, l2, l3), v0, core, i, e)
  {
    var times := [NEWLINE] + (l2 + i) + ([NEWLINE] + (l3 + e) + [NEWLINE]);
    assert l1 + core + [NEWLINE] + (l2 + i + [NEWLINE] + (l3 + e + [NEWLINE])) == l1 + core + times;
    assert l0 + v0 + [NEWLINE] + (l1 + core + times) == l0 + (v0 + [NEWLINE] + (l1 + core + times));
  }

  lemma DelegationIsFramed(l: seq<Text>, d: Delegation)
    requires |l| == 7
    ensures Payload(l, DelegationValues(d)) ==
      Framed((l[0], l[1], l[5], l[6]), Decimal(d.version), DelegationCore(l, d),
             Decimal(d.issuedAtMs), Decimal(d.expiresAtMs))
  {
    var v := DelegationValues(d);
    assert v[1..5] == DelegationTexts(d);
    assert l[1..5][1..] == l[2..5];
    PayloadIsFlat(l[1..5], v[1..5]);
    FramedPayload(l, v, 4, DelegationCore(l, d));
  }

  lemma SameNumbers(a: nat, b: nat, c: nat, d: nat, e: nat, f: nat)
    requires Decimal(a) == Decimal(b) && Decimal(c) == Decimal(d) && Decimal(e) == Decimal(f)
    ensures a == b && c == d && e == f
  {
    DecimalInjective(a, b);
    DecimalInjective(c, d);
    DecimalInjective(e, f);
  }

  lemma SameDelegationText(l: seq<Text>, d: Delegation, e: Delegation)
    requires |l| == 7 && NewlineFree(l[5]) && NewlineFree(l[6])
    ensures Payload(l, DelegationValues(d)) == Payload(l, DelegationValues(e)) <==>
      && d.version == e.version && d.issuedAtMs == e.issuedAtMs && d.expiresAtMs == e.expiresAtMs
      && DelegationCore(l, d) == DelegationCore(l, e)
  {
    DelegationIsFramed(l, d);
    DelegationIsFramed(l, e);
    if Payload(l, DelegationValues(d)) == Payload(l, DelegationValues(e)) {
      FramedParts((l[0], l[1], l[5], l[6]),
                  Decimal(d.version), DelegationCore(l, d), Decimal(d.issuedAtMs), Decimal(d.expiresAtMs),
                  Decimal(e.version), DelegationCore(l, e), Decimal(e.issuedAtMs), Decimal(e.expiresAtMs));
      SameNumbers(d.version, e.version, d.issuedAtMs, e.issuedAtMs, d.expiresAtMs, e.expiresAtMs);
    }
  }

  /** The marks of a delegation are fixed. */
  lemma DelegationMarks(l: seq<Text>, q: seq<Text>)
    requires |l| == 7 && |q| == 3
    ensures Fitting(Family(l, DELEGATION_GAPS), 1, q) <==> q == LineMarks(l[2..5])
  {
    var fam := Family(l, DELEGATION_GAPS);
    FittingIff(fam, 1, q);
    assert forall i :: 0 <= i < 3 ==> DELEGATION_GAPS[i] == Plain(i + 2);
    assert forall i :: 0 <= i < 3 ==> (fam(1 + i, q[i]) <==> q[i] == LineMark(l[2..5][i]));
  }

  /** A different delegation has the same text. */
  ghost predicate SharesDelegation(l: seq<Text>, d: Delegation, e: Delegation)
    requires |l| == 7
  {
    d != e && Payload(l, DelegationValues(d)) == Payload(l, DelegationValues(e))
  }

  /** A free text of the delegation contains a newline and the label of a neighbouring free text. */
  ghost predicate DelegationHides(l: seq<Text>, d: Delegation)
    requires |l| == 7
  {
    exists i :: HoldsNear(Family(l, DELEGATION_GAPS), 1, DelegationTexts(d), i)
  }

  lemma SharedDelegationReads(l: seq<Text>, d: Delegation, e: Delegation)
    requires |l| == 7 && NewlineFree(l[5]) && NewlineFree(l[6]) && SharesDelegation(l, d, e)
    ensures var marks := LineMarks(l[2..5]);
            OtherReadingOf(Family(l, DELEGATION_GAPS), 1, DelegationTexts(d), marks, DelegationTexts(e), marks)
  {
    SameDelegationText(l, d, e);
    DelegationMarks(l, LineMarks(l[2..5]));
  }

  lemma ReadAsDelegation(l: seq<Text>, d: Delegation, a: seq<Text>, q: seq<Text>) returns (e: Delegation)
    requires |l| == 7 && NewlineFree(l[5]) && NewlineFree(l[6])
    requires OtherReadingOf(Family(l, DELEGATION_GAPS), 1, DelegationTexts(d), LineMarks(l[2..5]), a, q)
    ensures SharesDelegation(l, d, e)
  {
    DelegationMarks(l, q);
    e := d.(keyId := a[0], publicKey := a[1], scope := a[2], issuer := a[3]);
    assert DelegationTexts(e) == a;
    SameDelegationText(l, d, e);
  }

  lemma DelegationSharing(l: seq<Text>, d: Delegation)
    requires Telling(l, DELEGATION_GAPS) && |l| == 7
    ensures (exists e :: SharesDelegation(l, d, e)) <==> DelegationHides(l, d)
  {
    var fam, marks := Family(l, DELEGATION_GAPS), LineMarks(l[2..5]);
    FamilyIsGood(l, DELEGATION_GAPS);
    DelegationMarks(l, marks);
    ReadingIffMark(fam, 1, DelegationTexts(d), marks);
    assert l[5] in l && l[6] in l;
    if e :| SharesDelegation(l, d, e) {
      SharedDelegationReads(l, d, e);
    }
    if a, q :| OtherReadingOf(fam, 1, DelegationTexts(d), marks, a, q) {
      var e := ReadAsDelegation(l, d, a, q);
    }
  }

  // ----- Provenances -----

  /** The eight fields that are free text. */
  function ProvenanceTexts(p: Provenance): (texts: seq<Text>)
    ensures |texts| == 8
  {
    [p.delegationKeyId, p.binaryUrl, p.binarySha256, p.binaryVersion, OptionText(p.sourceRepository),
     OptionText(p.sourceCommit), OptionText(p.buildWorkflow), OptionText(p.buildRun)]
  }

  const PROVENANCE_GAPS := [Plain(2), Plain(3), Numbered(4), Plain(6), Plain(7), Plain(8), Plain(9)]

  function ProvenanceMarks(l: seq<Text>, protocolVersion: u32): (marks: seq<Text>)
    requires |l| == 12
    ensures |marks| == 7
  {
    LineMarks(l[2..4]) + [NumberMark(l, 4, protocolVersion)] + LineMarks(l[6..10])
  }

  function ProvenanceCore(l: seq<Text>, p: Provenance): Text
    requires |l| == 12
  {
    Flat(ProvenanceTexts(p), ProvenanceMarks(l, p.protocolVersion))
  }

  /** Free lines, a numbered line, and free lines again. */
  lemma MiddleIsFlat(l: seq<Text>, v: seq<Text>, n: u32)
    requires |l| == |v| == 12 && v[4] == Decimal(n)
    ensures Payload(l[1..10], v[1..10]) == l[1] + Flat(v[1..4] + v[5..10], ProvenanceMarks(l, n)) + [NEWLINE]
  {
    PayloadJoins(l[1..10], v[1..10], 3);
    assert l[1..10][..3] == l[1..4] && v[1..10][..3] == v[1..4];
    assert l[1..10][3..] == l[4..10] && v[1..10][3..] == v[4..10];
    PayloadJoins(l[4..10], v[4..10], 1);
    assert l[4..10][..1] == l[4..5] && v[4..10][..1] == v[4..5];
    assert l[4..10][1..] == l[5..10] && v[4..10][1..] == v[5..10];
    OneLine(l[4..5], v[4..5]);
    PayloadIsFlat(l[1..4], v[1..4]);
    PayloadIsFlat(l[5..10], v[5..10]);
    assert l[1..4][1..] == l[2..4] && l[5..10][1..] == l[6..10];
    FlatJoins(v[1..4], LineMarks(l[2..4]), NumberMark(l, 4, n), v[5..10], LineMarks(l[6..10]));
    MiddleParts(l[1], Flat(v[1..4], LineMarks(l[2..4])), l[4], v[4], l[5], Flat(v[5..10], LineMarks(l[6..10])));
  }

  lemma MiddleParts(l1: Text, x: Text, l4: Text, n: Text, l5: Text, y: Text)
    ensures l1 + x + [NEWLINE] + (l4 + n + [NEWLINE] + (l5 + y + [NEWLINE]))
         == l1 + (x + ([NEWLINE] + (l4 + n) + ([NEWLINE] + l5)) + y) + [NEWLINE]
  {
    var mark := [NEWLINE] + (l4 + n) + ([NEWLINE] + l5);
    assert [NEWLINE] + (l4 + n + [NEWLINE] + (l5 + y + [NEWLINE])) == mark + y + [NEWLINE];
    assert l1 + x + (mark + y + [NEWLINE]) == l1 + (x + mark + y) + [NEWLINE];
    assert l1 + x + [NEWLINE] + (l4 + n + [NEWLINE] + (l5 + y + [NEWLINE]))
        == l1 + x + ([NEWLINE] + (l4 + n + [NEWLINE] + (l5 + y + [NEWLINE])));
  }

  lemma ProvenanceIsFramed(l: seq<Text>, p: Provenance)
    requires |l| == 12
    ensures Payload(l, ProvenanceValues(p)) ==
      Framed((l[0], l[1], l[10], l[11]), Decimal(p.version), ProvenanceCore(l, p),
             Decimal(p.issuedAtMs), Decimal(p.expiresAtMs))
  {
    var v := ProvenanceValues(p);
    assert v[1..4] + v[5..10] == ProvenanceTexts(p);
    MiddleIsFlat(l, v, p.protocolVersion);
    FramedPayload(l, v, 9, ProvenanceCore(l, p));
  }

  lemma SameProvenanceText(l: seq<Text>, p: Provenance, q: Provenance)
    requires |l| == 12 && NewlineFree(l[10]) && NewlineFree(l[11])
    ensures Payload(l, ProvenanceValues(p)) == Payload(l, ProvenanceValues(q)) <==>
      && p.version == q.version && p.issuedAtMs == q.issuedAtMs && p.expiresAtMs == q.expiresAtMs
      && ProvenanceCore(l, p) == ProvenanceCore(l, q)
  {
    ProvenanceIsFramed(l, p);
    ProvenanceIsFramed(l, q);
    if Payload(l, ProvenanceValues(p)) == Payload(l, ProvenanceValues(q)) {
      FramedParts((l[0], l[1], l[10], l[11]),
                  Decimal(p.version), ProvenanceCore(l, p), Decimal(p.issuedAtMs), Decimal(p.expiresAtMs),
                  Decimal(q.version), ProvenanceCore(l, q), Decimal(q.issuedAtMs), Decimal(q.expiresAtMs));
      SameNumbers(p.version, q.version, p.issuedAtMs, q.issuedAtMs, p.expiresAtMs, q.expiresAtMs);
    }
  }

  lemma ProvenanceMarksAre(l: seq<Text>, n: u32)
    requires |l| == 12
    ensures var q := ProvenanceMarks(l, n);
            && q[0] == LineMark(l[2]) && q[1] == LineMark(l[3]) && q[2] == NumberMark(l, 4, n)
            && q[3] == LineMark(l[6]) && q[4] == LineMark(l[7]) && q[5] == LineMark(l[8]) && q[6] == LineMark(l[9])
  {
  }

  lemma ProvenanceMarksFit(l: seq<Text>, n: u32)
    requires |l| == 12
    ensures Fitting(Family(l, PROVENANCE_GAPS), 1, ProvenanceMarks(l, n))
  {
    var q, gaps := ProvenanceMarks(l, n), PROVENANCE_GAPS;
    ProvenanceMarksAre(l, n);
    FittingIff(Family(l, gaps), 1, q);
    assert GapMark(l, gaps[0], q[0]) && GapMark(l, gaps[1], q[1]) && GapMark(l, gaps[2], q[2]);
    assert GapMark(l, gaps[3], q[3]) && GapMark(l, gaps[4], q[4]) && GapMark(l, gaps[5], q[5]);
    assert GapMark(l, gaps[6], q[6]);
    assert forall i :: 0 <= i < 7 ==> GapMark(l, gaps[i], q[i]);
    forall i | 0 <= i < 7 ensures Family(l, gaps)(1 + i, q[i]) {
      assert Mark(l, gaps, 1 + i, q[i]);
    }
  }

  lemma FittingGaps(l: seq<Text>, gaps: seq<Gap>, q: seq<Text>, i: nat)
    requires Fitting(Family(l, gaps), 1, q) && i < |q| == |gaps|
    ensures GapMark(l, gaps[i], q[i])
  {
    FittingIff(Family(l, gaps), 1, q);
    assert Family(l, gaps)(1 + i, q[i]);
  }

  /** Marks of a provenance are those of some protocol version. */
  lemma FittingMarks(l: seq<Text>, q: seq<Text>) returns (n: u32)
    requires |l| == 12 && |q| == 7 && Fitting(Family(l, PROVENANCE_GAPS), 1, q)
    ensures q == ProvenanceMarks(l, n)
  {
    FittingGaps(l, PROVENANCE_GAPS, q, 0);
    FittingGaps(l, PROVENANCE_GAPS, q, 1);
    FittingGaps(l, PROVENANCE_GAPS, q, 2);
    FittingGaps(l, PROVENANCE_GAPS, q, 3);
    FittingGaps(l, PROVENANCE_GAPS, q, 4);
    FittingGaps(l, PROVENANCE_GAPS, q, 5);
    FittingGaps(l, PROVENANCE_GAPS, q, 6);
    n :| q[2] == NumberMark(l, 4, n);
    ProvenanceMarksAre(l, n);
  }

  /** A provenance of another release has the same text. */
  ghost predicate SharesProvenance(l: seq<Text>, p: Provenance, q: Provenance)
    requires |l| == 12
  {
    !SameRelease(p, q) && Payload(l, ProvenanceValues(p)) == Payload(l, ProvenanceValues(q))
  }

  /** A free text of the provenance contains what may stand between it and a neighbouring free text. */
  ghost predicate ProvenanceHides(l: seq<Text>, p: Provenance)
    requires |l| == 12
  {
    exists i :: HoldsNear(Family(l, PROVENANCE_GAPS), 1, ProvenanceTexts(p), i)
  }

  lemma SameReleaseIff(l: seq<Text>, p: Provenance, q: Provenance)
    requires |l| == 12
    ensures SameRelease(p, q) <==>
      && p.version == q.version && p.issuedAtMs == q.issuedAtMs && p.expiresAtMs == q.expiresAtMs
      && ProvenanceTexts(p) == ProvenanceTexts(q)
      && ProvenanceMarks(l, p.protocolVersion) == ProvenanceMarks(l, q.protocolVersion)
  {
    if ProvenanceTexts(p) == ProvenanceTexts(q) {
      assert forall i :: 0 <= i < 8 ==> ProvenanceTexts(p)[i] == ProvenanceTexts(q)[i];
      SameTexts(p, q);
    }
    if ProvenanceMarks(l, p.protocolVersion) == ProvenanceMarks(l, q.protocolVersion) {
      ProvenanceMarksAre(l, p.protocolVersion);
      ProvenanceMarksAre(l, q.protocolVersion);
      if p.protocolVersion != q.protocolVersion { NumbersApart(l, 4, p.protocolVersion, q.protocolVersion); }
    }
  }

  lemma SameTexts(p: Provenance, q: Provenance)
    requires forall i :: 0 <= i < 8 ==> ProvenanceTexts(p)[i] == ProvenanceTexts(q)[i]
    ensures p.delegationKeyId == q.delegationKeyId && p.binaryUrl == q.binaryUrl && p.binarySha256 == q.binarySha256
    ensures p.binaryVersion == q.binaryVersion && OptionText(p.sourceRepository) == OptionText(q.sourceRepository)
    ensures OptionText(p.sourceCommit) == OptionText(q.sourceCommit)
    ensures OptionText(p.buildWorkflow) == OptionText(q.buildWorkflow)
    ensures OptionText(p.buildRun) == OptionText(q.buildRun)
  {
    var a, b := ProvenanceTexts(p), ProvenanceTexts(q);
    assert a[0] == b[0] && a[1] == b[1] && a[2] == b[2] && a[3] == b[3];
    assert a[4] == b[4] && a[5] == b[5] && a[6] == b[6] && a[7] == b[7];
  }

  lemma SharedProvenanceReads(l: seq<Text>, p: Provenance, q: Provenance)
    requires |l| == 12 && NewlineFree(l[10]) && NewlineFree(l[11]) && SharesProvenance(l, p, q)
    ensures OtherReadingOf(Family(l, PROVENANCE_GAPS), 1, ProvenanceTexts(p), ProvenanceMarks(l, p.protocolVersion),
                           ProvenanceTexts(q), ProvenanceMarks(l, q.protocolVersion))
  {
    SameProvenanceText(l, p, q);
    SameReleaseIff(l, p, q);
    ProvenanceMarksFit(l, q.protocolVersion);
  }

  lemma ReadAsProvenance(l: seq<Text>, p: Provenance, a: seq<Text>, marks: seq<Text>) returns (q: Provenance)
    requires |l| == 12 && NewlineFree(l[10]) && NewlineFree(l[11])
    requires OtherReadingOf(Family(l, PROVENANCE_GAPS), 1, ProvenanceTexts(p), ProvenanceMarks(l, p.protocolVersion),
                            a, marks)
    ensures SharesProvenance(l, p, q)
  {
    var n := FittingMarks(l, marks);
    q := Provenance(p.version, a[0], a[1], a[2], n, a[3], Some(a[4]), Some(a[5]), Some(a[6]), Some(a[7]),
                    p.issuedAtMs, p.expiresAtMs);
    assert ProvenanceTexts(q) == a;
    SameProvenanceText(l, p, q);
    SameReleaseIff(l, p, q);
  }

  lemma ProvenanceSharing(l: seq<Text>, p: Provenance)
    requires Telling(l, PROVENANCE_GAPS) && |l| == 12
    ensures (exists q :: SharesProvenance(l, p, q)) <==> ProvenanceHides(l, p)
  {
    var fam, marks := Family(l, PROVENANCE_GAPS), ProvenanceMarks(l, p.protocolVersion);
    FamilyIsGood(l, PROVENANCE_GAPS);
    ProvenanceMarksFit(l, p.protocolVersion);
    ReadingIffMark(fam, 1, ProvenanceTexts(p), marks);
    assert l[10] in l && l[11] in l;
    if q :| SharesProvenance(l, p, q) {
      SharedProvenanceReads(l, p, q);
    }
    if a, aMarks :| OtherReadingOf(fam, 1, ProvenanceTexts(p), marks, a, aMarks) {
      var q := ReadAsProvenance(l, p, a, aMarks);
    }
  }

  // ----- The labels -----

  lemma DelegationLabelsAt()
    ensures var l := DelegationLabels();
            && (forall i :: 0 <= i < 7 ==> |l[i]| > 5 && NewlineFree(l[i]))
            && l[0][0] == 118 && l[1][0] == 107 && l[2][0] == 112 && l[3][0] == 115 && l[4][0] == 105
            && l[4][5] == 114 && l[5][5] == 100 && l[5][0] == 105 && l[6][0] == 101
  {
  }

  lemma DelegationLabelsTell()
    ensures Telling(DelegationLabels(), DELEGATION_GAPS)
  {
    DelegationLabelsAt();
    DelegationCodesTell(DelegationLabels());
  }

  lemma DelegationCodesTell(l: seq<Text>)
    requires |l| == 7 && forall i :: 0 <= i < 7 ==> |l[i]| > 5 && NewlineFree(l[i])
    requires l[0][0] == 118 && l[1][0] == 107 && l[2][0] == 112 && l[3][0] == 115 && l[4][0] == 105
    requires l[4][5] == 114 && l[5][5] == 100 && l[5][0] == 105 && l[6][0] == 101
    ensures Telling(l, DELEGATION_GAPS)
  {
    forall i, j | 0 <= i < j < 7 ensures Apart(l[i], l[j]) {
      ApartAt(l[i], l[j], if l[i][0] != l[j][0] then 0 else 5);
    }
  }

  lemma ProvenanceLabelsAt()
    ensures var l := ProvenanceLabels();
            && (forall i :: 0 <= i < 12 ==> |l[i]| > 7 && NewlineFree(l[i]))
            && l[0][0] == 118 && l[1][0] == 100
            && l[2][0] == 98 && l[2][4] == 114 && l[2][7] == 117
            && l[3][0] == 98 && l[3][4] == 114 && l[3][7] == 115
            && l[4][0] == 110 && l[4][4] == 112 && l[5][0] == 110 && l[5][4] == 98
            && l[6][0] == 115 && l[6][4] == 99 && l[6][7] == 114
            && l[7][0] == 115 && l[7][4] == 99 && l[7][7] == 99
            && l[8][0] == 98 && l[8][4] == 100 && l[8][7] == 111
            && l[9][0] == 98 && l[9][4] == 100 && l[9][7] == 117
            && l[10][0] == 105 && l[11][0] == 101
  {
  }

  lemma ProvenanceLabelsTell()
    ensures Telling(ProvenanceLabels(), PROVENANCE_GAPS)
  {
    ProvenanceLabelsAt();
    ProvenanceCodesTell(ProvenanceLabels());
  }

  lemma ProvenanceCodesTell(l: seq<Text>)
    requires |l| == 12 && forall i :: 0 <= i < 12 ==> |l[i]| > 7 && NewlineFree(l[i])
    requires l[0][0] == 118 && l[1][0] == 100
    requires l[2][0] == 98 && l[2][4] == 114 && l[2][7] == 117
    requires l[3][0] == 98 && l[3][4] == 114 && l[3][7] == 115
    requires l[4][0] == 110 && l[4][4] == 112 && l[5][0] == 110 && l[5][4] == 98
    requires l[6][0] == 115 && l[6][4] == 99 && l[6][7] == 114
    requires l[7][0] == 115 && l[7][4] == 99 && l[7][7] == 99
    requires l[8][0] == 98 && l[8][4] == 100 && l[8][7] == 111
    requires l[9][0] == 98 && l[9][4] == 100 && l[9][7] == 117
    requires l[10][0] == 105 && l[11][0] == 101
    ensures Telling(l, PROVENANCE_GAPS)
  {
    forall i, j | 0 <= i < j < 12 ensures Apart(l[i], l[j]) {
      ApartAt(l[i], l[j], if l[i][0] != l[j][0] then 0 else if l[i][4] != l[j][4] then 4 else 7);
    }
  }

  // ----- Which statements share a text -----

  /** A delegation shares its text with a different one if and only if a free text hides a neighbour's label. */
  lemma DelegationSharedIffHidden(d: Delegation)
    ensures (exists e :: SharesDelegation(DelegationLabels(), d, e)) <==> DelegationHides(DelegationLabels(), d)
  {
    DelegationLabelsTell();
    DelegationSharing(DelegationLabels(), d);
  }

  lemma DelegationBinds(d: Delegation, e: Delegation)
    requires !DelegationHides(DelegationLabels(), d)
    ensures DelegationPayload(d) == DelegationPayload(e) <==> d == e
  {
    DelegationSharedIffHidden(d);
    assert !SharesDelegation(DelegationLabels(), d, e);
  }

  /** A provenance shares its text with another release's if and only if one of its free texts hides a mark. */
  lemma ProvenanceSharedIffHidden(p: Provenance)
    ensures (exists q :: SharesProvenance(ProvenanceLabels(), p, q)) <==> ProvenanceHides(ProvenanceLabels(), p)
  {
    ProvenanceLabelsTell();
    ProvenanceSharing(ProvenanceLabels(), p);
  }

  lemma ProvenanceBinds(p: Provenance, q: Provenance)
    requires !ProvenanceHides(ProvenanceLabels(), p)
    ensures ProvenancePayload(p) == ProvenancePayload(q) <==> SameRelease(p, q)
  {
    ProvenanceSharedIffHidden(p);
    assert !SharesProvenance(ProvenanceLabels(), p, q);
    if SameRelease(p, q) { SameReleaseText(p, q); }
  }

  lemma SameReleaseText(p: Provenance, q: Provenance)
    requires SameRelease(p, q)
    ensures ProvenancePayload(p) == ProvenancePayload(q)
  {
    assert ProvenanceValues(p) == ProvenanceValues(q);
  }

  /** Texts without newlines hide nothing. */
  lemma PlainHidesNothing(l: seq<Text>, gaps: seq<Gap>, texts: seq<Text>, i: nat)
    requires forall t :: t in texts ==> NewlineFree(t)
    ensures !HoldsNear(Family(l, gaps), 1, texts, i)
  {
    if i < |texts| {
      assert texts[i] in texts;
      forall place: nat, q | Mark(l, gaps, place, q) ensures !Contains(texts[i], q) {
        var rest := MarkHead(l, gaps, place, q);
        assert q == [NEWLINE] + q[1..];
        MarkHasNewline(texts[i], q[1..]);
      }
    }
  }

  lemma PlainDelegationHidesNothing(d: Delegation)
    requires NewlineFree(d.keyId) && NewlineFree(d.publicKey) && NewlineFree(d.scope) && NewlineFree(d.issuer)
    ensures !DelegationHides(DelegationLabels(), d)
  {
    forall i: nat ensures !HoldsNear(Family(DelegationLabels(), DELEGATION_GAPS), 1, DelegationTexts(d), i) {
      PlainHidesNothing(DelegationLabels(), DELEGATION_GAPS, DelegationTexts(d), i);
    }
  }

  lemma PlainProvenanceHidesNothing(p: Provenance)
    requires NewlineFree(p.delegationKeyId) && NewlineFree(p.binaryUrl) && NewlineFree(p.binarySha256)
    requires NewlineFree(p.binaryVersion) && NewlineFree(OptionText(p.sourceRepository))
    requires NewlineFree(OptionText(p.sourceCommit)) && NewlineFree(OptionText(p.buildWorkflow))
    requires NewlineFree(OptionText(p.buildRun))
    ensures !ProvenanceHides(ProvenanceLabels(), p)
  {
    forall i: nat ensures !HoldsNear(Family(ProvenanceLabels(), PROVENANCE_GAPS), 1, ProvenanceTexts(p), i) {
      PlainHidesNothing(ProvenanceLabels(), PROVENANCE_GAPS, ProvenanceTexts(p), i);
    }
  }
}
