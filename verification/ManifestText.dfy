/**
 The signed text of an artifact transfer manifest, and exactly which manifests share their text with
 another one.
 */
module ManifestText {
  import opened Wrappers
  import opened Encoding
  import opened CanonicalPayload
  import opened Readings

  datatype Method = Get | Put

  datatype Manifest = Manifest(
    version: byte, sha256: Text, path: Text, verb: Method, issuer: Text, audience: Option<Text>,
    issuedAtMs: u64, expiresAtMs: u64, transferId: Text, singleUse: bool)

  function MethodText(m: Method): Text {
    match m
    case Get => Ascii("GET")
    case Put => Ascii("PUT")
  }

  function BoolText(b: bool): Text {
    if b then Ascii("true") else Ascii("false")
  }

  function Labels(): (labels: seq<Text>)
    ensures |labels| == 10
  {
    [Ascii("version="), Ascii("artifact_sha256="), Ascii("artifact_path="), Ascii("method="), Ascii("issuer="),
     Ascii("audience="), Ascii("issued_at_ms="), Ascii("expires_at_ms="), Ascii("transfer_id="), Ascii("single_use=")]
  }

  function Values(m: Manifest): (values: seq<Text>)
    ensures |values| == 10
  {
    [Decimal(m.version), m.sha256, m.path, MethodText(m.verb), m.issuer,
     OptionText(m.audience), Decimal(m.issuedAtMs), Decimal(m.expiresAtMs), m.transferId, BoolText(m.singleUse)]
  }

  function ManifestPayload(m: Manifest): Text {
    Payload(Labels(), Values(m))
  }

  /** The signed lines of a manifest whose texts have no newlines. */
  lemma ManifestLines(m: Manifest)
    requires NewlineFree(m.sha256) && NewlineFree(m.path) && NewlineFree(m.issuer) && NewlineFree(m.transferId)
    requires NewlineFree(OptionText(m.audience))
    ensures var lines := Lines(ManifestPayload(m));
            && |lines| == 10
            && lines[0] == Ascii("version=") + Decimal(m.version)
            && lines[1] == Ascii("artifact_sha256=") + m.sha256
            && lines[2] == Ascii("artifact_path=") + m.path
            && lines[3] == (if m.verb.Get? then Ascii("method=") + Ascii("GET") else Ascii("method=") + Ascii("PUT"))
            && lines[4] == Ascii("issuer=") + m.issuer
            && lines[5] == Ascii("audience=") + OptionText(m.audience)
            && lines[6] == Ascii("issued_at_ms=") + Decimal(m.issuedAtMs)
            && lines[7] == Ascii("expires_at_ms=") + Decimal(m.expiresAtMs)
            && lines[8] == Ascii("transfer_id=") + m.transferId
            && lines[9] == Ascii("single_use=") + (if m.singleUse then Ascii("true") else Ascii("false"))
  {
    PayloadLines(Labels(), Values(m));
  }

  /** Equal up to an absent audience reading like an empty one. */
  ghost predicate SameFields(m: Manifest, n: Manifest) {
    m.(audience := None) == n.(audience := None) && OptionText(m.audience) == OptionText(n.audience)
  }

  // ----- Free texts and the marks between them -----

  /** The five fields that are free text. */
  function Texts(m: Manifest): (texts: seq<Text>)
    ensures |texts| == 5
  {
    [m.sha256, m.path, m.issuer, OptionText(m.audience), m.transferId]
  }

  function VerbMark(l: seq<Text>, verb: Method): Text
    requires |l| == 10
  {
    [NEWLINE] + l[3] + MethodText(verb) + [NEWLINE] + l[4]
  }

  function TimesMark(l: seq<Text>, issuedAtMs: u64, expiresAtMs: u64): Text
    requires |l| == 10
  {
    [NEWLINE] + l[6] + Decimal(issuedAtMs) + [NEWLINE] + l[7] + Decimal(expiresAtMs) + [NEWLINE] + l[8]
  }

  /** What may stand between two free texts: a label, or the lines of the fields between them and a label. */
  ghost predicate Mark(l: seq<Text>, place: nat, q: Text)
    requires |l| == 10
  {
    match place
    case 1 => q == LineMark(l[2])
    case 2 => exists verb :: q == VerbMark(l, verb)
    case 3 => q == LineMark(l[5])
    case 4 => exists i: u64, e: u64 :: q == TimesMark(l, i, e)
    case _ => false
  }

  ghost function Family(l: seq<Text>): Readings.Family
    requires |l| == 10
  {
    (place: nat, q: Text) => Mark(l, place, q)
  }

  function Marks(l: seq<Text>, m: Manifest): (marks: seq<Text>)
    requires |l| == 10
    ensures |marks| == 4
  {
    [LineMark(l[2]), VerbMark(l, m.verb), LineMark(l[5]), TimesMark(l, m.issuedAtMs, m.expiresAtMs)]
  }

  // ----- The marks are told apart -----

  /** What the proofs need to know of the labels. */
  ghost predicate TellingLabels(l: seq<Text>) {
    && |l| == 10 && (forall t :: t in l ==> NewlineFree(t))
    && |l[2]| > 1 && l[2][0] == 97 && l[2][1] == 114
    && |l[3]| > 1 && l[3][0] == 109
    && |l[4]| > 5 && l[4][0] == 105 && l[4][5] == 114
    && |l[5]| > 1 && l[5][0] == 97 && l[5][1] == 117
    && |l[6]| > 5 && l[6][0] == 105 && l[6][5] == 100
    && |l[7]| > 0 && l[7][0] == 101
    && |l[8]| > 0 && l[8][0] == 116
  }

  /** How a mark begins tells its place. */
  lemma MarkBegins(l: seq<Text>, place: nat, q: Text)
    requires TellingLabels(l) && Mark(l, place, q)
    ensures 1 <= place <= 4 && |q| > 2 && q[0] == NEWLINE
    ensures place == 1 ==> q[1] == 97 && q[2] == 114
    ensures place == 2 ==> q[1] == 109
    ensures place == 3 ==> q[1] == 97 && q[2] == 117
    ensures place == 4 ==> |q| > 6 && q[1] == 105 && q[6] == 100
  {
    if place == 2 {
      var verb :| q == VerbMark(l, verb);
      assert q[1] == l[3][0];
    } else if place == 4 {
      var i: u64, e: u64 :| q == TimesMark(l, i, e);
      assert q[1] == l[6][0] && q[6] == l[6][5];
    }
  }

  lemma PlacesApart(l: seq<Text>, i: nat, p: Text, j: nat, q: Text)
    requires TellingLabels(l) && Mark(l, i, p) && Mark(l, j, q) && i != j
    ensures Apart(p, q)
  {
    MarkBegins(l, i, p);
    MarkBegins(l, j, q);
    ApartAt(p, q, if p[1] != q[1] then 1 else 2);
  }

  lemma VerbParts(x: Text, verb: Text, y: Text)
    ensures [NEWLINE] + x + verb + [NEWLINE] + y == [NEWLINE] + (x + verb) + ([NEWLINE] + y)
    ensures [NEWLINE] + x + verb + [NEWLINE] + y == [NEWLINE] + x + verb + ([NEWLINE] + y)
  {
  }

  lemma VerbsApart(l: seq<Text>, v: Method, w: Method)
    requires |l| == 10 && v != w
    ensures Apart(VerbMark(l, v), VerbMark(l, w))
  {
    assert MethodText(Get)[0] == 71 && MethodText(Put)[0] == 80;
    ApartAt(MethodText(v), MethodText(w), 0);
    var z, u := [NEWLINE] + l[3], [NEWLINE] + l[4];
    ApartAfter(z, MethodText(v), u, MethodText(w), u);
    VerbParts(l[3], MethodText(v), l[4]);
    VerbParts(l[3], MethodText(w), l[4]);
  }

  /** The lines of the two times, cut at the first or the second number, or line by line. */
  lemma TimesParts(x: Text, i: Text, y: Text, e: Text, z: Text)
    ensures var q := [NEWLINE] + x + i + [NEWLINE] + y + e + [NEWLINE] + z;
            && q == [NEWLINE] + x + (i + [NEWLINE]) + (y + e + [NEWLINE] + z)
            && q == [NEWLINE] + x + i + [NEWLINE] + y + (e + [NEWLINE]) + z
            && q == [NEWLINE] + (x + i) + ([NEWLINE] + (y + e) + ([NEWLINE] + z))
  {
    var q := [NEWLINE] + x + i + [NEWLINE] + y + e + [NEWLINE] + z;
    assert q == [NEWLINE] + x + (i + [NEWLINE]) + (y + e + [NEWLINE] + z);
    assert q == [NEWLINE] + x + i + [NEWLINE] + y + (e + [NEWLINE]) + z;
    assert q == [NEWLINE] + (x + i) + ([NEWLINE] + (y + e) + ([NEWLINE] + z));
  }

  lemma TimesApart(l: seq<Text>, i: u64, e: u64, i': u64, e': u64)
    requires |l| == 10 && (i != i' || e != e')
    ensures Apart(TimesMark(l, i, e), TimesMark(l, i', e'))
  {
    TimesParts(l[6], Decimal(i), l[7], Decimal(e), l[8]);
    TimesParts(l[6], Decimal(i'), l[7], Decimal(e'), l[8]);
    if i != i' {
      NumeralsApart(i, i');
      ApartAfter([NEWLINE] + l[6], Decimal(i) + [NEWLINE], l[7] + Decimal(e) + [NEWLINE] + l[8],
                 Decimal(i') + [NEWLINE], l[7] + Decimal(e') + [NEWLINE] + l[8]);
    } else {
      NumeralsApart(e, e');
      ApartAfter([NEWLINE] + l[6] + Decimal(i) + [NEWLINE] + l[7], Decimal(e) + [NEWLINE], l[8],
                 Decimal(e') + [NEWLINE], l[8]);
    }
  }

  lemma SamePlaceApart(l: seq<Text>, i: nat, p: Text, q: Text)
    requires |l| == 10 && Mark(l, i, p) && Mark(l, i, q) && p != q
    ensures Apart(p, q)
  {
    if i == 2 {
      var v :| p == VerbMark(l, v);
      var w :| q == VerbMark(l, w);
      VerbsApart(l, v, w);
    } else {
      var x: u64, y: u64 :| p == TimesMark(l, x, y);
      var x': u64, y': u64 :| q == TimesMark(l, x', y');
      TimesApart(l, x, y, x', y');
    }
  }

  lemma VerbInner(l: seq<Text>, verb: Method, j: nat, p: Text)
    requires TellingLabels(l) && Mark(l, j, p)
    ensures InnerApart(VerbMark(l, verb), p)
  {
    MarkBegins(l, j, p);
    assert l[3] in l && l[4] in l;
    ApartAt([NEWLINE] + l[4], p, if p[1] != 105 then 1 else 6);
    Joined(l[3], MethodText(verb));
    InnerOfTwo(l[3] + MethodText(verb), l[4], p);
    VerbParts(l[3], MethodText(verb), l[4]);
  }

  lemma TimesInner(l: seq<Text>, i: u64, e: u64, j: nat, p: Text)
    requires TellingLabels(l) && Mark(l, j, p)
    ensures InnerApart(TimesMark(l, i, e), p)
  {
    MarkBegins(l, j, p);
    assert l[6] in l && l[7] in l && l[8] in l;
    var y := l[7] + Decimal(e);
    assert ([NEWLINE] + y + ([NEWLINE] + l[8]))[1] == l[7][0];
    ApartAt([NEWLINE] + y + ([NEWLINE] + l[8]), p, 1);
    ApartAt([NEWLINE] + l[8], p, 1);
    Joined(l[6], Decimal(i));
    Joined(l[7], Decimal(e));
    TimesParts(l[6], Decimal(i), l[7], Decimal(e), l[8]);
    InnerOfThree(l[6] + Decimal(i), y, l[8], p);
  }

  lemma MarkInner(l: seq<Text>, i: nat, q: Text, j: nat, p: Text)
    requires TellingLabels(l) && Mark(l, i, q) && Mark(l, j, p)
    ensures InnerApart(q, p)
  {
    assert l[2] in l && l[5] in l;
    if i == 2 {
      var verb :| q == VerbMark(l, verb);
      VerbInner(l, verb, j, p);
    } else if i == 4 {
      var a: u64, e: u64 :| q == TimesMark(l, a, e);
      TimesInner(l, a, e, j, p);
    } else {
      InnerOfOne(if i == 1 then l[2] else l[5], p);
    }
  }

  lemma FamilyIsGood(l: seq<Text>)
    requires TellingLabels(l)
    ensures GoodFamily(Family(l))
  {
    forall i, p, j, q | Mark(l, i, p) && Mark(l, j, q) ensures TellApart(i, p, j, q) {
      MarkBegins(l, i, p);
      MarkInner(l, i, p, j, q);
      if i != j { PlacesApart(l, i, p, j, q); } else if p != q { SamePlaceApart(l, i, p, q); }
    }
  }

  // ----- The payload as texts and marks -----

  function Opening(l: seq<Text>, m: Manifest): Text
    requires |l| == 10
  {
    l[0] + (Decimal(m.version) + [NEWLINE] + l[1])
  }

  function Closing(l: seq<Text>, singleUse: bool): Text
    requires |l| == 10
  {
    [NEWLINE] + l[9] + BoolText(singleUse) + [NEWLINE]
  }

  /** The last two lines. */
  lemma LinesFrom8(l: seq<Text>, v: seq<Text>)
    requires |l| == |v| == 10
    ensures Payload(l[8..], v[8..]) == l[8] + (v[8] + ([NEWLINE] + l[9] + v[9] + [NEWLINE]))
  {
    LineAt(l, v, 8);
    LineAt(l, v, 9);
    assert Payload(l[10..], v[10..]) == [];
    var last := l[9] + v[9] + [NEWLINE];
    assert last + [] == last;
    assert l[8] + v[8] + [NEWLINE] + last == l[8] + (v[8] + ([NEWLINE] + l[9] + v[9] + [NEWLINE]));
  }

  /** From the audience on. */
  lemma LinesFrom5(l: seq<Text>, v: seq<Text>, times: Text, end: Text)
    requires |l| == |v| == 10 && end == [NEWLINE] + l[9] + v[9] + [NEWLINE]
    requires times == [NEWLINE] + l[6] + v[6] + [NEWLINE] + l[7] + v[7] + [NEWLINE] + l[8]
    ensures Payload(l[5..], v[5..]) == l[5] + (v[5] + times + v[8] + end)
  {
    LinesFrom8(l, v);
    LineAt(l, v, 7);
    LineAt(l, v, 6);
    LineAt(l, v, 5);
    var p7 := l[7] + v[7] + [NEWLINE] + (l[8] + (v[8] + end));
    var p6 := l[6] + v[6] + [NEWLINE] + p7;
    assert l[5] + v[5] + [NEWLINE] + p6 == l[5] + (v[5] + times + v[8] + end);
  }

  lemma LinesFrom2(l: seq<Text>, v: seq<Text>, verb: Text, end: Text)
    requires |l| == |v| == 10 && verb == [NEWLINE] + l[3] + v[3] + [NEWLINE] + l[4]
    requires Payload(l[5..], v[5..]) == l[5] + end
    ensures Payload(l[2..], v[2..]) == l[2] + (v[2] + verb + v[4] + ([NEWLINE] + l[5]) + end)
  {
    LineAt(l, v, 4);
    LineAt(l, v, 3);
    LineAt(l, v, 2);
    var p4 := l[4] + v[4] + [NEWLINE] + (l[5] + end);
    var p3 := l[3] + v[3] + [NEWLINE] + p4;
    assert l[2] + v[2] + [NEWLINE] + p3 == l[2] + (v[2] + verb + v[4] + ([NEWLINE] + l[5]) + end);
  }

  lemma FlatFive(t: seq<Text>, q: seq<Text>)
    requires |t| == 5 && |q| == 4
    ensures Flat(t, q) == t[0] + q[0] + (t[1] + q[1] + (t[2] + q[2] + (t[3] + q[3] + t[4])))
  {
    assert t[1..][1..] == t[2..] && t[2..][1..] == t[3..] && t[3..][1..] == t[4..];
    assert q[1..][1..] == q[2..] && q[2..][1..] == q[3..] && q[3..][1..] == [];
    assert Flat(t[4..], []) == t[4];
    assert Flat(t[3..], q[3..]) == t[3] + q[3] + t[4];
    assert Flat(t[2..], q[2..]) == t[2] + q[2] + Flat(t[3..], q[3..]);
    assert Flat(t[1..], q[1..]) == t[1] + q[1] + Flat(t[2..], q[2..]);
  }

  lemma FlatLines(l: seq<Text>, v: seq<Text>, verb: Text, times: Text, end: Text)
    requires |l| == |v| == 10 && verb == [NEWLINE] + l[3] + v[3] + [NEWLINE] + l[4]
    requires times == [NEWLINE] + l[6] + v[6] + [NEWLINE] + l[7] + v[7] + [NEWLINE] + l[8]
    requires end == [NEWLINE] + l[9] + v[9] + [NEWLINE]
    ensures Payload(l, v) == l[0] + (v[0] + [NEWLINE] + l[1])
      + Flat([v[1], v[2], v[4], v[5], v[8]], [LineMark(l[2]), verb, LineMark(l[5]), times]) + end
  {
    var t, q := [v[1], v[2], v[4], v[5], v[8]], [LineMark(l[2]), verb, LineMark(l[5]), times];
    LinesFrom5(l, v, times, end);
    LinesFrom2(l, v, verb, v[5] + times + v[8] + end);
    LineAt(l, v, 1);
    LineAt(l, v, 0);
    assert l[0..] == l && v[0..] == v;
    FlatFive(t, q);
    Assembled(l[0], v[0], l[1], t, q, l[2], end);
  }

  lemma FlatManifest(l: seq<Text>, m: Manifest)
    requires |l| == 10
    ensures Payload(l, Values(m)) == Opening(l, m) + Flat(Texts(m), Marks(l, m)) + Closing(l, m.singleUse)
  {
    FlatParts(l, Values(m), m, Texts(m), Marks(l, m));
  }

  lemma FlatParts(l: seq<Text>, v: seq<Text>, m: Manifest, t: seq<Text>, q: seq<Text>)
    requires |l| == |v| == 10 && v[0] == Decimal(m.version) && v[3] == MethodText(m.verb)
    requires v[6] == Decimal(m.issuedAtMs) && v[7] == Decimal(m.expiresAtMs) && v[9] == BoolText(m.singleUse)
    requires t == [v[1], v[2], v[4], v[5], v[8]]
    requires q == [LineMark(l[2]), VerbMark(l, m.verb), LineMark(l[5]), TimesMark(l, m.issuedAtMs, m.expiresAtMs)]
    ensures Payload(l, v) == Opening(l, m) + Flat(t, q) + Closing(l, m.singleUse)
  {
    FlatLines(l, v, q[1], q[3], Closing(l, m.singleUse));
  }

  lemma Assembled(l0: Text, v0: Text, l1: Text, t: seq<Text>, q: seq<Text>, l2: Text, end: Text)
    requires |t| == 5 && |q| == 4 && q[0] == [NEWLINE] + l2
    ensures l0 + v0 + [NEWLINE]
            + (l1 + t[0] + [NEWLINE] + (l2 + (t[1] + q[1] + t[2] + q[2] + (t[3] + q[3] + t[4] + end))))
         == l0 + (v0 + [NEWLINE] + l1)
            + (t[0] + q[0] + (t[1] + q[1] + (t[2] + q[2] + (t[3] + q[3] + t[4])))) + end
  {
    var back := t[3] + q[3] + t[4];
    var mid := t[1] + q[1] + t[2] + q[2];
    assert mid + (back + end) == t[1] + q[1] + (t[2] + q[2] + back) + end;
    var body := t[1] + q[1] + (t[2] + q[2] + back);
    assert l1 + t[0] + [NEWLINE] + (l2 + (body + end)) == l1 + (t[0] + q[0] + body) + end;
    var all := t[0] + q[0] + body;
    assert l0 + v0 + [NEWLINE] + (l1 + all + end) == l0 + (v0 + [NEWLINE] + l1) + all + end;
  }

  // ----- Which manifests share a text -----

  lemma BoolEnds(x: Text, y: Text)
    ensures x + BoolText(true) + [NEWLINE] != y + BoolText(false) + [NEWLINE]
  {
    var s, t := x + BoolText(true) + [NEWLINE], y + BoolText(false) + [NEWLINE];
    assert BoolText(true)[0] == 116 && BoolText(true)[1] == 114 && BoolText(false)[2] == 108;
    assert s[|s| - 5] == BoolText(true)[0] && t[|t| - 5] == BoolText(false)[1];
    assert s[|s| - 4] == BoolText(true)[1] && t[|t| - 4] == BoolText(false)[2];
  }

  lemma SameClosing(l: seq<Text>, x: Text, b: bool, y: Text, c: bool)
    requires |l| == 10 && x + Closing(l, b) == y + Closing(l, c)
    ensures b == c && x == y
  {
    var z := [NEWLINE] + l[9];
    assert forall t: Text, d: bool :: t + Closing(l, d) == t + z + BoolText(d) + [NEWLINE];
    if b && !c { BoolEnds(x + z, y + z); }
    if c && !b { BoolEnds(y + z, x + z); }
    assert |x| == |y|;
    SameParts(x, Closing(l, b), y, Closing(l, c));
  }

  lemma SameOpening(l: seq<Text>, m: Manifest, x: Text, n: Manifest, y: Text)
    requires |l| == 10 && Opening(l, m) + x == Opening(l, n) + y
    ensures m.version == n.version && x == y
  {
    var a, b := Decimal(m.version), Decimal(n.version);
    assert Opening(l, m) + x == l[0] + (a + [NEWLINE] + (l[1] + x));
    assert Opening(l, n) + y == l[0] + (b + [NEWLINE] + (l[1] + y));
    SameParts(l[0], a + [NEWLINE] + (l[1] + x), l[0], b + [NEWLINE] + (l[1] + y));
    SameFirstLine(a, l[1] + x, b, l[1] + y);
    SameParts(l[1], x, l[1], y);
    DecimalInjective(m.version, n.version);
  }

  /** Two manifests share their text exactly if version, use, and texts run together with marks agree. */
  lemma SameText(l: seq<Text>, m: Manifest, n: Manifest)
    requires |l| == 10
    ensures Payload(l, Values(m)) == Payload(l, Values(n)) <==>
      && m.version == n.version && m.singleUse == n.singleUse
      && Flat(Texts(m), Marks(l, m)) == Flat(Texts(n), Marks(l, n))
  {
    FlatManifest(l, m);
    FlatManifest(l, n);
    var x, y := Flat(Texts(m), Marks(l, m)), Flat(Texts(n), Marks(l, n));
    if Payload(l, Values(m)) == Payload(l, Values(n)) {
      SameClosing(l, Opening(l, m) + x, m.singleUse, Opening(l, n) + y, n.singleUse);
      SameOpening(l, m, x, n, y);
    }
  }

  lemma MarksFit(l: seq<Text>, m: Manifest)
    requires |l| == 10
    ensures Fitting(Family(l), 1, Marks(l, m))
  {
    var q: seq<Text>, fam := Marks(l, m), Family(l);
    assert Mark(l, 1, q[0]) && Mark(l, 2, q[1]) && Mark(l, 3, q[2]) && Mark(l, 4, q[3]);
    assert q[1..][1..] == q[2..] && q[2..][1..] == q[3..] && q[3..][1..] == [];
    assert Fitting(fam, 5, []) && Fitting(fam, 4, q[3..]) && Fitting(fam, 3, q[2..]) && Fitting(fam, 2, q[1..]);
  }

  lemma SameFieldsIff(l: seq<Text>, m: Manifest, n: Manifest)
    requires TellingLabels(l)
    ensures SameFields(m, n) <==>
      m.version == n.version && m.singleUse == n.singleUse && Texts(m) == Texts(n) && Marks(l, m) == Marks(l, n)
  {
    if Texts(m) == Texts(n) && Marks(l, m) == Marks(l, n) {
      assert forall i :: 0 <= i < 5 ==> Texts(m)[i] == Texts(n)[i];
      assert Texts(m)[0] == m.sha256 && Texts(m)[1] == m.path && Texts(m)[2] == m.issuer && Texts(m)[4] == m.transferId;
      assert Marks(l, m)[1] == Marks(l, n)[1] && Marks(l, m)[3] == Marks(l, n)[3];
      SameMarks(l, m, n);
    }
  }

  lemma SameMarks(l: seq<Text>, m: Manifest, n: Manifest)
    requires |l| == 10 && VerbMark(l, m.verb) == VerbMark(l, n.verb)
    requires TimesMark(l, m.issuedAtMs, m.expiresAtMs) == TimesMark(l, n.issuedAtMs, n.expiresAtMs)
    ensures m.verb == n.verb && m.issuedAtMs == n.issuedAtMs && m.expiresAtMs == n.expiresAtMs
  {
    if m.verb != n.verb { VerbsApart(l, m.verb, n.verb); }
    if m.issuedAtMs != n.issuedAtMs || m.expiresAtMs != n.expiresAtMs {
      TimesApart(l, m.issuedAtMs, m.expiresAtMs, n.issuedAtMs, n.expiresAtMs);
    }
  }

  /** The manifest that another reading of its text describes. */
  lemma ReadAsManifest(l: seq<Text>, m: Manifest, a: seq<Text>, q: seq<Text>) returns (n: Manifest)
    requires |l| == 10 && |a| == 5 && |q| == 4 && Fitting(Family(l), 1, q)
    ensures n.version == m.version && n.singleUse == m.singleUse && Texts(n) == a && Marks(l, n) == q
  {
    assert q[1..][1..] == q[2..] && q[2..][1..] == q[3..];
    assert Fitting(Family(l), 2, q[1..]) && Fitting(Family(l), 3, q[2..]) && Fitting(Family(l), 4, q[3..]);
    assert Mark(l, 1, q[0]) && Mark(l, 2, q[1]) && Mark(l, 3, q[2]) && Mark(l, 4, q[3]);
    var verb :| q[1] == VerbMark(l, verb);
    var i: u64, e: u64 :| q[3] == TimesMark(l, i, e);
    n := Manifest(m.version, a[0], a[1], verb, a[2], Some(a[3]), i, e, a[4], m.singleUse);
  }

  lemma LabelsTell()
    ensures TellingLabels(Labels())
  {
  }

  /** A free text contains what may stand between it and a neighbour. */
  ghost predicate HidesMark(l: seq<Text>, m: Manifest)
    requires |l| == 10
  {
    exists i :: HoldsNear(Family(l), 1, Texts(m), i)
  }

  /** A different manifest has the same text. */
  ghost predicate SharesText(l: seq<Text>, m: Manifest, n: Manifest)
    requires |l| == 10
  {
    Payload(l, Values(m)) == Payload(l, Values(n)) && !SameFields(m, n)
  }

  lemma SharingIsReading(l: seq<Text>, m: Manifest, n: Manifest)
    requires TellingLabels(l)
    ensures SharesText(l, m, n) <==>
      && m.version == n.version && m.singleUse == n.singleUse
      && OtherReadingOf(Family(l), 1, Texts(m), Marks(l, m), Texts(n), Marks(l, n))
  {
    SameText(l, m, n);
    SameFieldsIff(l, m, n);
    MarksFit(l, n);
  }

  lemma SharesIffHides(l: seq<Text>, m: Manifest)
    requires TellingLabels(l)
    ensures (exists n :: SharesText(l, m, n)) <==> HidesMark(l, m)
  {
    FamilyIsGood(l);
    MarksFit(l, m);
    ReadingIffMark(Family(l), 1, Texts(m), Marks(l, m));
    if n :| SharesText(l, m, n) {
      SharingIsReading(l, m, n);
    }
    if a, q :| OtherReadingOf(Family(l), 1, Texts(m), Marks(l, m), a, q) {
      var n := ReadAsManifest(l, m, a, q);
      SharingIsReading(l, m, n);
    }
  }

  /** A manifest shares its text with a different one if and only if one of its free texts hides a mark. */
  lemma TextSharedIffHidden(m: Manifest)
    ensures (exists n :: SharesText(Labels(), m, n)) <==> HidesMark(Labels(), m)
  {
    LabelsTell();
    SharesIffHides(Labels(), m);
  }

  /** Then and only then does the text not bind the manifest. */
  lemma PayloadBinds(m: Manifest, n: Manifest)
    requires !HidesMark(Labels(), m)
    ensures ManifestPayload(m) == ManifestPayload(n) <==> SameFields(m, n)
  {
    TextSharedIffHidden(m);
    assert !SharesText(Labels(), m, n);
    LabelsTell();
    SameText(Labels(), m, n);
    SameFieldsIff(Labels(), m, n);
  }

  lemma {:induction false} PlainHoldsNothing(l: seq<Text>, t: Text, place: nat)
    requires TellingLabels(l) && NewlineFree(t)
    ensures !Holds(Family(l), t, place)
  {
    forall q | Mark(l, place, q) ensures !Contains(t, q) {
      MarkBegins(l, place, q);
      assert q == [NEWLINE] + q[1..];
      MarkHasNewline(t, q[1..]);
    }
  }

  /** Free texts without newlines hide nothing. */
  lemma PlainTextIsBound(m: Manifest)
    requires NewlineFree(m.sha256) && NewlineFree(m.path) && NewlineFree(m.issuer) && NewlineFree(m.transferId)
    requires NewlineFree(OptionText(m.audience))
    ensures !HidesMark(Labels(), m)
  {
    LabelsTell();
    PlainHidesNothing(Labels(), m);
  }

  lemma PlainHidesNothing(l: seq<Text>, m: Manifest)
    requires TellingLabels(l) && forall t :: t in Texts(m) ==> NewlineFree(t)
    ensures !HidesMark(l, m)
  {
    forall i: nat | i < 5 ensures !HoldsNear(Family(l), 1, Texts(m), i) {
      assert Texts(m)[i] in Texts(m);
      PlainHoldsNothing(l, Texts(m)[i], 1 + i);
      PlainHoldsNothing(l, Texts(m)[i], i);
    }
  }

  // ----- Manifests that agree up to the issuer -----

  /** The text from the audience to the transfer id. */
  function Back(l: seq<Text>, m: Manifest): Text
    requires |l| == 10
  {
    OptionText(m.audience) + TimesMark(l, m.issuedAtMs, m.expiresAtMs) + m.transferId
  }

  lemma SameVerb(l: seq<Text>, v: Method, x: Text, w: Method, y: Text)
    requires |l| == 10 && VerbMark(l, v) + x == VerbMark(l, w) + y
    ensures v == w && x == y
  {
    if v != w {
      VerbsApart(l, v, w);
      ApartHeads(VerbMark(l, v), x, VerbMark(l, w), y);
    }
    SameParts(VerbMark(l, v), x, VerbMark(l, w), y);
  }

  lemma FlatToBack(l: seq<Text>, m: Manifest)
    requires |l| == 10
    ensures Flat(Texts(m), Marks(l, m)) ==
      m.sha256 + LineMark(l[2]) + m.path + (VerbMark(l, m.verb) + (m.issuer + LineMark(l[5]) + Back(l, m)))
  {
    FlatFive(Texts(m), Marks(l, m));
    var head, verb, mid := m.sha256 + LineMark(l[2]), VerbMark(l, m.verb), m.issuer + LineMark(l[5]) + Back(l, m);
    assert head + (m.path + verb + mid) == head + m.path + (verb + mid);
  }

  /** Digest, path and issuer the same: the texts are the same exactly if the verbs and the rest are. */
  lemma SameFrontText(l: seq<Text>, m: Manifest, n: Manifest)
    requires |l| == 10 && m.sha256 == n.sha256 && m.path == n.path && m.issuer == n.issuer
    ensures Payload(l, Values(m)) == Payload(l, Values(n)) <==>
      m.version == n.version && m.singleUse == n.singleUse && m.verb == n.verb && Back(l, m) == Back(l, n)
  {
    SameText(l, m, n);
    FlatToBack(l, m);
    FlatToBack(l, n);
    if Flat(Texts(m), Marks(l, m)) == Flat(Texts(n), Marks(l, n)) {
      var head, issuer := m.sha256 + LineMark(l[2]) + m.path, m.issuer + LineMark(l[5]);
      SameParts(head, VerbMark(l, m.verb) + (issuer + Back(l, m)), head, VerbMark(l, n.verb) + (issuer + Back(l, n)));
      SameVerb(l, m.verb, issuer + Back(l, m), n.verb, issuer + Back(l, n));
      SameParts(issuer, Back(l, m), issuer, Back(l, n));
    }
  }

  /** The text holds the lines of a time window that is not empty. */
  ghost predicate HidesWindow(l: seq<Text>, t: Text)
    requires |l| == 10
  {
    exists i: u64, e: u64 :: i < e && Contains(t, TimesMark(l, i, e))
  }

  lemma TimesTell(l: seq<Text>, i: u64, e: u64, i': u64, e': u64)
    requires TellingLabels(l)
    ensures IsMark(TimesMark(l, i, e)) && InnerApart(TimesMark(l, i, e), TimesMark(l, i', e'))
    ensures i != i' || e != e' ==> Apart(TimesMark(l, i, e), TimesMark(l, i', e'))
  {
    assert Mark(l, 4, TimesMark(l, i, e)) && Mark(l, 4, TimesMark(l, i', e'));
    TimesInner(l, i, e, 4, TimesMark(l, i', e'));
    if i != i' || e != e' { TimesApart(l, i, e, i', e'); }
  }

  /** The rest read with other times: they stand in the audience or in the transfer id. */
  lemma OtherTimes(l: seq<Text>, m: Manifest, n: Manifest)
    requires TellingLabels(l) && Back(l, m) == Back(l, n)
    requires OptionText(m.audience) != OptionText(n.audience) || m.transferId != n.transferId
             || m.issuedAtMs != n.issuedAtMs || m.expiresAtMs != n.expiresAtMs
    ensures var times := TimesMark(l, n.issuedAtMs, n.expiresAtMs);
            Contains(OptionText(m.audience), times) || Contains(m.transferId, times)
  {
    var b, p, y := OptionText(m.audience), TimesMark(l, m.issuedAtMs, m.expiresAtMs), m.transferId;
    var x, q, w := OptionText(n.audience), TimesMark(l, n.issuedAtMs, n.expiresAtMs), n.transferId;
    TimesTell(l, m.issuedAtMs, m.expiresAtMs, n.issuedAtMs, n.expiresAtMs);
    TimesTell(l, n.issuedAtMs, n.expiresAtMs, m.issuedAtMs, m.expiresAtMs);
    if |x| < |b| {
      MarkEndsInside(x, q, w, b, p, y);
    } else if |x| > |b| {
      var e := BeyondMark(x, q, w, b, p, y);
      MarkInText(y, e, q, w);
    } else {
      SameTimes(l, m, n);
    }
  }

  lemma SameTimes(l: seq<Text>, m: Manifest, n: Manifest)
    requires TellingLabels(l) && Back(l, m) == Back(l, n) && |OptionText(m.audience)| == |OptionText(n.audience)|
    ensures OptionText(m.audience) == OptionText(n.audience) && m.transferId == n.transferId
    ensures m.issuedAtMs == n.issuedAtMs && m.expiresAtMs == n.expiresAtMs
  {
    var b, p, y := OptionText(m.audience), TimesMark(l, m.issuedAtMs, m.expiresAtMs), m.transferId;
    var x, q, w := OptionText(n.audience), TimesMark(l, n.issuedAtMs, n.expiresAtMs), n.transferId;
    if m.issuedAtMs != n.issuedAtMs || m.expiresAtMs != n.expiresAtMs {
      TimesApart(l, n.issuedAtMs, n.expiresAtMs, m.issuedAtMs, m.expiresAtMs);
      ApartMarks(x, q, w, b, p, y);
    }
    SameParts(x + q, w, b + p, y);
    SameParts(x, q, b, p);
  }

  /** Neither the audience nor the transfer id holds the lines of another window. */
  ghost predicate OneWindow(l: seq<Text>, m: Manifest)
    requires |l| == 10
  {
    !HidesWindow(l, OptionText(m.audience)) && !HidesWindow(l, m.transferId)
  }

  /** Then a manifest with the same digest, path and issuer, the same text and a window is the same. */
  lemma WindowBinds(l: seq<Text>, m: Manifest, n: Manifest)
    requires TellingLabels(l) && OneWindow(l, m) && Payload(l, Values(m)) == Payload(l, Values(n))
    requires m.sha256 == n.sha256 && m.path == n.path && m.issuer == n.issuer && n.issuedAtMs < n.expiresAtMs
    ensures SameFields(m, n)
  {
    SameFrontText(l, m, n);
    if !SameFields(m, n) { OtherTimes(l, m, n); }
  }

  lemma OneWindowBinds(m: Manifest, n: Manifest)
    requires OneWindow(Labels(), m) && ManifestPayload(m) == ManifestPayload(n)
    requires m.sha256 == n.sha256 && m.path == n.path && m.issuer == n.issuer && n.issuedAtMs < n.expiresAtMs
    ensures SameFields(m, n)
  {
    LabelsTell();
    WindowBinds(Labels(), m, n);
  }

  /** The manifest that ends its audience at `x`, before the lines of a window. */
  function EndsAudience(l: seq<Text>, m: Manifest, x: Text, i: u64, e: u64, y: Text): Manifest
    requires |l| == 10
  {
    var times := TimesMark(l, m.issuedAtMs, m.expiresAtMs);
    m.(audience := Some(x), issuedAtMs := i, expiresAtMs := e, transferId := y + times + m.transferId)
  }

  lemma AudienceEndsEarlier(l: seq<Text>, m: Manifest, x: Text, i: u64, e: u64, y: Text)
    requires |l| == 10 && OptionText(m.audience) == x + TimesMark(l, i, e) + y
    ensures Payload(l, Values(m)) == Payload(l, Values(EndsAudience(l, m, x, i, e, y)))
    ensures |x| < |OptionText(m.audience)|
  {
    Moved(x, TimesMark(l, i, e), y, TimesMark(l, m.issuedAtMs, m.expiresAtMs), m.transferId);
    SameFrontText(l, m, EndsAudience(l, m, x, i, e, y));
  }

  /** The manifest that begins its transfer id at `y`, after the lines of a window. */
  function BeginsTransfer(l: seq<Text>, m: Manifest, x: Text, i: u64, e: u64, y: Text): Manifest
    requires |l| == 10
  {
    var times := TimesMark(l, m.issuedAtMs, m.expiresAtMs);
    m.(audience := Some(OptionText(m.audience) + times + x), issuedAtMs := i, expiresAtMs := e, transferId := y)
  }

  lemma TransferBeginsLater(l: seq<Text>, m: Manifest, x: Text, i: u64, e: u64, y: Text)
    requires |l| == 10 && m.transferId == x + TimesMark(l, i, e) + y
    ensures Payload(l, Values(m)) == Payload(l, Values(BeginsTransfer(l, m, x, i, e, y))) && |y| < |m.transferId|
  {
    MovedBack(OptionText(m.audience), TimesMark(l, m.issuedAtMs, m.expiresAtMs), x, TimesMark(l, i, e), y);
    SameFrontText(l, m, BeginsTransfer(l, m, x, i, e, y));
  }

  /** A second window gives another manifest with the same digest, path, issuer and text. */
  lemma SecondWindow(l: seq<Text>, m: Manifest) returns (n: Manifest)
    requires |l| == 10 && !OneWindow(l, m)
    ensures Payload(l, Values(m)) == Payload(l, Values(n)) && n.issuedAtMs < n.expiresAtMs
    ensures m.version == n.version && m.sha256 == n.sha256 && m.path == n.path && m.issuer == n.issuer
    ensures OptionText(m.audience) != OptionText(n.audience) || m.transferId != n.transferId
  {
    if i: u64, e: u64 :| i < e && Contains(OptionText(m.audience), TimesMark(l, i, e)) {
      var x, y := SplitAt(OptionText(m.audience), TimesMark(l, i, e));
      AudienceEndsEarlier(l, m, x, i, e, y);
      n := EndsAudience(l, m, x, i, e, y);
    } else {
      var i: u64, e: u64 :| i < e && Contains(m.transferId, TimesMark(l, i, e));
      var x, y := SplitAt(m.transferId, TimesMark(l, i, e));
      TransferBeginsLater(l, m, x, i, e, y);
      n := BeginsTransfer(l, m, x, i, e, y);
    }
  }

  /** Manifests with different digests, neither with a newline, have different texts. */
  lemma DigestsTell(l: seq<Text>, m: Manifest, n: Manifest)
    requires |l| == 10 && NewlineFree(m.sha256) && NewlineFree(n.sha256)
    requires Payload(l, Values(m)) == Payload(l, Values(n))
    ensures m.sha256 == n.sha256
  {
    SameText(l, m, n);
    FlatFive(Texts(m), Marks(l, m));
    FlatFive(Texts(n), Marks(l, n));
    FirstLineOf(m.sha256, l[2], Flat(Texts(m), Marks(l, m)));
    FirstLineOf(n.sha256, l[2], Flat(Texts(n), Marks(l, n)));
    var v, w := Flat(Texts(m), Marks(l, m))[|m.sha256| + 1..], Flat(Texts(n), Marks(l, n))[|n.sha256| + 1..];
    SameFirstLine(m.sha256, v, n.sha256, w);
  }

  lemma FirstLineOf(x: Text, label0: Text, t: Text)
    requires |t| >= |x| + 1 + |label0| && t[..|x| + 1 + |label0|] == x + LineMark(label0)
    ensures t == x + [NEWLINE] + t[|x| + 1..]
  {
    var head := t[..|x| + 1 + |label0|];
    assert t[..|x|] == head[..|x|] == x && t[|x|] == head[|x|] == NEWLINE;
  }

  /** With newlines: a line of the issuer reads as the audience. */
  lemma IssuerReadsAsAudience(m: Manifest, x: Text, y: Text)
    ensures var mark := LineMark(Labels()[5]);
            SharesText(Labels(), m.(issuer := x + mark + y, audience := None),
                                 m.(issuer := x, audience := Some(y + mark)))
  {
    LabelsTell();
    IssuerReadsOn(Labels(), m, x, y);
  }

  lemma IssuerReadsOn(l: seq<Text>, m: Manifest, x: Text, y: Text)
    requires TellingLabels(l)
    ensures var mark := LineMark(l[5]);
            SharesText(l, m.(issuer := x + mark + y, audience := None), m.(issuer := x, audience := Some(y + mark)))
  {
    var mark := LineMark(l[5]);
    var a, b := m.(issuer := x + mark + y, audience := None), m.(issuer := x, audience := Some(y + mark));
    MovedMark(x, y, mark);
    Replaced(Texts(a), Marks(l, a), Texts(b), Marks(l, b), 2);
    SameText(l, a, b);
    assert |a.issuer| > |b.issuer|;
  }

  lemma MovedMark(x: Text, y: Text, mark: Text)
    ensures x + mark + y + mark + [] == x + mark + (y + mark)
  {
  }
}
