/**
 Texts run together with marks between them, each mark from the family of its place.  When is there
 another choice of texts and marks that reads the same?  Marks begin with a newline and may span lines.
 */
module Readings {
  import opened Encoding
  import opened CanonicalPayload

  /** Which texts may stand as the mark of a given place. */
  type Family = (nat, Text) -> bool

  ghost predicate IsMark(q: Text) {
    |q| > 0 && q[0] == NEWLINE
  }

  /** What follows a later newline of `q` is not the beginning of `p`. */
  ghost predicate InnerApart(q: Text, p: Text) {
    forall k :: 0 < k < |q| && q[k] == NEWLINE ==> Apart(q[k..], p)
  }

  /** Different marks are told apart where they begin, and no mark begins inside another. */
  ghost predicate TellApart(i: nat, p: Text, j: nat, q: Text) {
    IsMark(p) && InnerApart(p, q) && (i != j || p != q ==> Apart(p, q))
  }

  ghost predicate GoodFamily(fam: Family) {
    forall i, p, j, q {:trigger TellApart(i, p, j, q)} :: fam(i, p) && fam(j, q) ==> TellApart(i, p, j, q)
  }

  function Flat(texts: seq<Text>, marks: seq<Text>): Text
    requires |texts| == |marks| + 1
    decreases |marks|
  {
    if marks == [] then texts[0] else texts[0] + marks[0] + Flat(texts[1..], marks[1..])
  }

  /** The marks belong to the places `first`, `first + 1`, ... */
  ghost predicate Fitting(fam: Family, first: nat, marks: seq<Text>)
    decreases |marks|
  {
    marks != [] ==> fam(first, marks[0]) && Fitting(fam, first + 1, marks[1..])
  }

  /** The text holds a mark of place `j`. */
  ghost predicate Holds(fam: Family, t: Text, j: nat) {
    exists q :: fam(j, q) && Contains(t, q)
  }

  /** A text holds a mark of the place after it, or of the place before it. */
  ghost predicate HoldsNear(fam: Family, first: nat, texts: seq<Text>, i: nat) {
    && i < |texts|
    && ((i + 1 < |texts| && Holds(fam, texts[i], first + i)) || (i > 0 && Holds(fam, texts[i], first + i - 1)))
  }

  // ----- Lines as marks -----

  function LineMark(label0: Text): Text {
    [NEWLINE] + label0
  }

  lemma ApartAt(x: Text, y: Text, d: nat)
    requires d < |x| && d < |y| && x[d] != y[d]
    ensures Apart(x, y)
  {
  }

  lemma ApartAfter(z: Text, x: Text, u: Text, y: Text, v: Text)
    requires Apart(x, y)
    ensures Apart(z + x + u, z + y + v)
  {
    var d :| 0 <= d < |x| && d < |y| && x[d] != y[d];
    ApartAt(z + x + u, z + y + v, |z| + d);
  }

  lemma SameLine(x: Text, y: Text)
    requires NewlineFree(x) && NewlineFree(y) && !Apart(x + [NEWLINE], y + [NEWLINE])
    ensures x == y
  {
    var s, t := x + [NEWLINE], y + [NEWLINE];
    assert forall d :: 0 <= d < |s| && d < |t| ==> s[d] == t[d];
    assert s[|x|] == NEWLINE && t[|y|] == NEWLINE;
    assert |x| == |y|;
    assert x == s[..|x|] && y == t[..|y|];
  }

  lemma LinesApart(x: Text, y: Text)
    requires NewlineFree(x) && NewlineFree(y) && x != y
    ensures Apart(x + [NEWLINE], y + [NEWLINE])
  {
    if !Apart(x + [NEWLINE], y + [NEWLINE]) { SameLine(x, y); }
  }

  lemma NumeralsApart(a: nat, b: nat)
    requires a != b
    ensures Apart(Decimal(a) + [NEWLINE], Decimal(b) + [NEWLINE])
  {
    if Decimal(a) == Decimal(b) { DecimalInjective(a, b); }
    LinesApart(Decimal(a), Decimal(b));
  }

  lemma InnerOfOne(x: Text, p: Text)
    requires NewlineFree(x)
    ensures InnerApart([NEWLINE] + x, p)
  {
  }

  /** One line more in front. */
  lemma InnerCons(x: Text, r: Text, p: Text)
    requires NewlineFree(x) && IsMark(r) && Apart(r, p) && InnerApart(r, p)
    ensures InnerApart([NEWLINE] + x + r, p)
  {
    var q, n := [NEWLINE] + x + r, 1 + |x|;
    assert forall j :: 0 < j < n ==> q[j] == x[j - 1];
    forall k | 0 < k < |q| && q[k] == NEWLINE ensures Apart(q[k..], p) {
      assert q[k..] == r[k - n..];
      if k > n { assert r[k - n] == NEWLINE; } else { assert r[0..] == r; }
    }
  }

  lemma InnerOfTwo(x: Text, y: Text, p: Text)
    requires NewlineFree(x) && NewlineFree(y) && Apart([NEWLINE] + y, p)
    ensures InnerApart([NEWLINE] + x + ([NEWLINE] + y), p)
  {
    InnerOfOne(y, p);
    InnerCons(x, [NEWLINE] + y, p);
  }

  lemma InnerOfThree(x: Text, y: Text, z: Text, p: Text)
    requires NewlineFree(x) && NewlineFree(y) && NewlineFree(z)
    requires Apart([NEWLINE] + y + ([NEWLINE] + z), p) && Apart([NEWLINE] + z, p)
    ensures InnerApart([NEWLINE] + x + ([NEWLINE] + y + ([NEWLINE] + z)), p)
  {
    InnerOfTwo(y, z, p);
    InnerCons(x, [NEWLINE] + y + ([NEWLINE] + z), p);
  }

  lemma Joined(x: Text, y: Text)
    requires NewlineFree(x) && NewlineFree(y)
    ensures NewlineFree(x + y)
  {
  }

  /** What stands before the labels when nothing comes between two free texts. */
  function LineMarks(l: seq<Text>): (marks: seq<Text>)
    ensures |marks| == |l|
  {
    seq(|l|, i requires 0 <= i < |l| => LineMark(l[i]))
  }

  lemma LineAt(l: seq<Text>, v: seq<Text>, k: nat)
    requires |l| == |v| && k < |l|
    ensures Payload(l[k..], v[k..]) == l[k] + v[k] + [NEWLINE] + Payload(l[k + 1..], v[k + 1..])
  {
    assert l[k..][1..] == l[k + 1..] && v[k..][1..] == v[k + 1..];
    var rest := Payload(l[k + 1..], v[k + 1..]);
    assert l[k] + (v[k] + [NEWLINE] + rest) == l[k] + v[k] + [NEWLINE] + rest;
  }

  lemma {:induction false} PayloadJoins(l: seq<Text>, v: seq<Text>, k: nat)
    requires |l| == |v| && k <= |l|
    ensures Payload(l, v) == Payload(l[..k], v[..k]) + Payload(l[k..], v[k..])
    decreases k
  {
    if k == 0 {
      assert l[0..] == l && v[0..] == v;
    } else {
      PayloadJoins(l[1..], v[1..], k - 1);
      assert l[1..][..k - 1] == l[..k][1..] && v[1..][..k - 1] == v[..k][1..];
      assert l[1..][k - 1..] == l[k..] && v[1..][k - 1..] == v[k..];
      var head, front, back := v[0] + [NEWLINE], Payload(l[..k][1..], v[..k][1..]), Payload(l[k..], v[k..]);
      assert l[0] + (head + (front + back)) == l[0] + (head + front) + back;
    }
  }

  /** Lines of free text are these texts with line marks between them. */
  lemma {:induction false} PayloadIsFlat(l: seq<Text>, v: seq<Text>)
    requires |l| == |v| > 0
    ensures Payload(l, v) == l[0] + Flat(v, LineMarks(l[1..])) + [NEWLINE]
    decreases |l|
  {
    var marks := LineMarks(l[1..]);
    if |l| == 1 {
      assert Payload(l[1..], v[1..]) == [];
      assert l[0] + (v[0] + [NEWLINE] + []) == l[0] + v[0] + [NEWLINE];
    } else {
      PayloadIsFlat(l[1..], v[1..]);
      assert marks[1..] == LineMarks(l[1..][1..]) && marks[0] == LineMark(l[1]);
      var rest := Flat(v[1..], marks[1..]);
      assert l[0] + (v[0] + [NEWLINE] + (l[1] + rest + [NEWLINE])) == l[0] + (v[0] + marks[0] + rest) + [NEWLINE];
    }
  }

  lemma {:induction false} FlatJoins(t: seq<Text>, q: seq<Text>, x: Text, u: seq<Text>, r: seq<Text>)
    requires |t| == |q| + 1 && |u| == |r| + 1
    ensures Flat(t + u, q + [x] + r) == Flat(t, q) + x + Flat(u, r)
    decreases |q|
  {
    var texts, marks := t + u, q + [x] + r;
    if q == [] {
      assert texts[1..] == u && marks[1..] == r;
    } else {
      FlatJoins(t[1..], q[1..], x, u, r);
      assert texts[1..] == t[1..] + u && marks[1..] == q[1..] + [x] + r;
      var head, rest := t[0] + q[0], Flat(t[1..], q[1..]);
      assert head + (rest + x + Flat(u, r)) == head + rest + x + Flat(u, r);
    }
  }

  lemma {:induction false} FittingIff(fam: Family, first: nat, marks: seq<Text>)
    ensures Fitting(fam, first, marks) <==> forall i :: 0 <= i < |marks| ==> fam(first + i, marks[i])
    decreases |marks|
  {
    if marks != [] {
      FittingIff(fam, first + 1, marks[1..]);
      forall i | 0 < i < |marks| ensures marks[i] == marks[1..][i - 1] && first + i == first + 1 + (i - 1) {}
      if forall i :: 0 <= i < |marks| ==> fam(first + i, marks[i]) {
        forall i | 0 <= i < |marks[1..]| ensures fam(first + 1 + i, marks[1..][i]) {
          assert fam(first + (i + 1), marks[i + 1]);
        }
      }
    }
  }

  // ----- Another reading finds a mark -----

  lemma HeadsAgree(s: Text, u: Text, t: Text, v: Text)
    requires s + u == t + v
    ensures !Apart(s, t)
  {
    forall d | 0 <= d < |s| && d < |t| ensures s[d] == t[d] {
      assert (s + u)[d] == s[d] && (t + v)[d] == t[d];
    }
  }

  lemma InnerAligned(q: Text, k: nat, w: Text, p: Text, y: Text)
    requires 0 < k < |q| && q[k..] + w == p + y && IsMark(p)
    ensures !InnerApart(q, p)
  {
    HeadsAgree(q[k..], w, p, y);
    assert (q[k..] + w)[0] == q[k] && (p + y)[0] == p[0];
  }

  /** A mark that starts inside `x` and ends beyond it has the next mark begin inside it. */
  lemma Straddles(u: Text, q: Text, w: Text, x: Text, p: Text, y: Text)
    requires u + q + w == x + p + y && |u| < |x| < |u| + |q| && IsMark(p)
    ensures !InnerApart(q, p)
  {
    var k := |x| - |u|;
    assert (u + q + w)[|x|..] == q[k..] + w;
    assert (x + p + y)[|x|..] == p + y;
    InnerAligned(q, k, w, p, y);
  }

  /** A mark that starts inside `x` ends inside `x`. */
  lemma MarkEndsInside(u: Text, q: Text, w: Text, x: Text, p: Text, y: Text)
    requires u + q + w == x + p + y && |u| < |x| && IsMark(p) && InnerApart(q, p)
    ensures Contains(x, q)
  {
    if |x| < |u| + |q| { Straddles(u, q, w, x, p, y); }
    var t := x + p + y;
    assert (u + q + w)[|u|..|u| + |q|] == q;
    assert x[|u|..|u| + |q|] == t[|u|..|u| + |q|];
    assert OccursAt(x, |u|, q);
  }

  lemma StartsInside(p: Text, v: Text, d: Text, q: Text, w: Text)
    requires p + v == d + q + w && 0 < |d| < |p| && IsMark(q)
    ensures !InnerApart(p, q)
  {
    assert (p + v)[|d|..] == p[|d|..] + v;
    assert (d + q + w)[|d|..] == q + w;
    InnerAligned(p, |d|, v, q, w);
  }

  /** A mark cannot start inside another. */
  lemma MarkStartsAfter(p: Text, v: Text, d: Text, q: Text, w: Text)
    requires p + v == d + q + w && |d| > 0 && IsMark(q) && InnerApart(p, q)
    ensures |d| >= |p|
  {
    if |d| < |p| { StartsInside(p, v, d, q, w); }
  }

  lemma Regroup(x: Text, q: Text, w: Text, b: Text, p: Text, rest: Text)
    requires x + q + w == b + p + rest
    ensures x + (q + w) == b + (p + rest)
  {
    assert x + (q + w) == x + q + w;
    assert b + (p + rest) == b + p + rest;
  }

  lemma FlatUnfolds(texts: seq<Text>, marks: seq<Text>)
    requires |texts| == |marks| + 1 && marks != []
    ensures Flat(texts, marks) == texts[0] + (marks[0] + Flat(texts[1..], marks[1..]))
  {
    var rest := Flat(texts[1..], marks[1..]);
    assert texts[0] + marks[0] + rest == texts[0] + (marks[0] + rest);
  }

  /** A mark that starts after `b` lies in the texts after the mark `p` that ends `b`. */
  lemma BeyondMark(x: Text, q: Text, w: Text, b: Text, p: Text, rest: Text) returns (e: Text)
    requires x + q + w == b + p + rest && |x| > |b| && IsMark(q) && InnerApart(p, q)
    ensures e + q + w == rest
  {
    Regroup(x, q, w, b, p, rest);
    var d := LongerHead(x, q + w, b, p + rest);
    assert d + (q + w) == d + q + w;
    MarkStartsAfter(p, rest, d, q, w);
    e := LongerHead(d, q + w, p, rest);
    assert e + (q + w) == e + q + w;
  }

  lemma SameStart(x: Text, q: Text, w: Text, b: Text, p: Text, rest: Text)
    requires x + q + w == b + p + rest && |x| == |b|
    ensures !Apart(q, p)
  {
    Regroup(x, q, w, b, p, rest);
    SameParts(x, q + w, b, p + rest);
    HeadsAgree(q, w, p, rest);
  }

  lemma ApartMarks(x: Text, q: Text, w: Text, b: Text, p: Text, rest: Text)
    requires x + q + w == b + p + rest && Apart(q, p)
    ensures |x| != |b|
  {
    if |x| == |b| { SameStart(x, q, w, b, p, rest); }
  }

  lemma MarkInText(t: Text, x: Text, q: Text, w: Text)
    requires t == x + q + w
    ensures Contains(t, q)
  {
    assert t[|x|..|x| + |q|] == q;
    assert OccursAt(t, |x|, q);
  }

  lemma Regrouped(e: Text, q: Text, t: Text, m: Text, f: Text)
    ensures e + q + (t + (m + f)) == e + q + t + m + f
  {
  }

  /** Beyond the first mark of `b`, the late mark is again one before a mark of `a`. */
  lemma LateStep(b: seq<Text>, bMarks: seq<Text>, x: Text, q: Text, a: seq<Text>, aMarks: seq<Text>) returns (e: Text)
    requires |aMarks| == |bMarks| > 0 && |a| == |b| == |bMarks| + 1 && IsMark(q)
    requires InnerApart(bMarks[0], q) && Apart(q, bMarks[0]) && |x| >= |b[0]|
    requires Flat(b, bMarks) == x + q + Flat(a, aMarks)
    ensures Flat(b[1..], bMarks[1..]) == e + aMarks[0] + Flat(a[1..], aMarks[1..])
  {
    var p, w, rest := bMarks[0], Flat(a, aMarks), Flat(b[1..], bMarks[1..]);
    ApartMarks(x, q, w, b[0], p, rest);
    e := BeyondMark(x, q, w, b[0], p, rest);
    FlatUnfolds(a, aMarks);
    Regrouped(e, q, a[0], aMarks[0], Flat(a[1..], aMarks[1..]));
    e := e + q + a[0];
  }

  lemma MarksApart(fam: Family, i: nat, p: Text, j: nat, q: Text)
    requires GoodFamily(fam) && fam(i, p) && fam(j, q)
    ensures IsMark(p) && IsMark(q) && InnerApart(p, q) && InnerApart(q, p)
    ensures i != j || p != q ==> Apart(p, q) && Apart(q, p)
  {
    assert TellApart(i, p, j, q) && TellApart(j, q, i, p);
  }

  /** A mark of the place before the first text comes again, late: some text holds a mark of the place before it. */
  lemma {:induction false} LateMark(
    fam: Family, place: nat, b: seq<Text>, bMarks: seq<Text>, x: Text, q: Text, a: seq<Text>, aMarks: seq<Text>)
    returns (i: nat)
    requires GoodFamily(fam) && |aMarks| == |bMarks| && |a| == |b| == |bMarks| + 1
    requires fam(place, q) && Fitting(fam, place + 1, aMarks) && Fitting(fam, place + 1, bMarks)
    requires Flat(b, bMarks) == x + q + Flat(a, aMarks)
    ensures i < |b| && Holds(fam, b[i], place + i)
    decreases |bMarks|
  {
    i := 0;
    if bMarks == [] {
      MarkInText(b[0], x, q, Flat(a, aMarks));
    } else {
      MarksApart(fam, place, q, place + 1, bMarks[0]);
      if |x| < |b[0]| {
        MarkEndsInside(x, q, Flat(a, aMarks), b[0], bMarks[0], Flat(b[1..], bMarks[1..]));
      } else {
        var e := LateStep(b, bMarks, x, q, a, aMarks);
        i := LateMark(fam, place + 1, b[1..], bMarks[1..], e, aMarks[0], a[1..], aMarks[1..]);
        i := i + 1;
      }
    }
  }

  /** Two readings of one text: the second holds a mark near some text. */
  lemma {:induction false} OtherMarks(
    fam: Family, first: nat, b: seq<Text>, bMarks: seq<Text>, a: seq<Text>, aMarks: seq<Text>)
    returns (i: nat)
    requires GoodFamily(fam) && |aMarks| == |bMarks| && |a| == |b| == |bMarks| + 1
    requires Fitting(fam, first, aMarks) && Fitting(fam, first, bMarks)
    requires Flat(a, aMarks) == Flat(b, bMarks) && !(a == b && aMarks == bMarks)
    ensures HoldsNear(fam, first, b, i)
    decreases |bMarks|, 1
  {
    i := 0;
    if bMarks == [] {
      SingleText(a, b);
    } else {
      var q, p := aMarks[0], bMarks[0];
      var w, rest := Flat(a[1..], aMarks[1..]), Flat(b[1..], bMarks[1..]);
      MarksApart(fam, first, q, first, p);
      if |a[0]| == |b[0]| {
        i := SameFirstText(fam, first, b, bMarks, a, aMarks);
      } else if |a[0]| < |b[0]| {
        MarkEndsInside(a[0], q, w, b[0], p, rest);
        assert Holds(fam, b[0], first);
      } else {
        var e := BeyondMark(a[0], q, w, b[0], p, rest);
        i := LateMark(fam, first, b[1..], bMarks[1..], e, q, a[1..], aMarks[1..]);
        i := i + 1;
      }
    }
  }

  lemma SingleText(a: seq<Text>, b: seq<Text>)
    requires |a| == |b| == 1 && a[0] == b[0]
    ensures a == b
  {
  }

  lemma SameFirstText(fam: Family, first: nat, b: seq<Text>, bMarks: seq<Text>, a: seq<Text>, aMarks: seq<Text>)
    returns (i: nat)
    requires GoodFamily(fam) && |aMarks| == |bMarks| > 0 && |a| == |b| == |bMarks| + 1 && |a[0]| == |b[0]|
    requires Fitting(fam, first, aMarks) && Fitting(fam, first, bMarks)
    requires Flat(a, aMarks) == Flat(b, bMarks) && !(a == b && aMarks == bMarks)
    ensures HoldsNear(fam, first, b, i)
    decreases |bMarks|, 0
  {
    var q, p := aMarks[0], bMarks[0];
    var w, rest := Flat(a[1..], aMarks[1..]), Flat(b[1..], bMarks[1..]);
    MarksApart(fam, first, q, first, p);
    if q != p { ApartMarks(a[0], q, w, b[0], p, rest); }
    SameParts(a[0] + q, w, b[0] + p, rest);
    SameParts(a[0], q, b[0], p);
    assert a == [a[0]] + a[1..] && b == [b[0]] + b[1..];
    assert aMarks == [q] + aMarks[1..] && bMarks == [p] + bMarks[1..];
    i := OtherMarks(fam, first + 1, b[1..], bMarks[1..], a[1..], aMarks[1..]);
    i := i + 1;
  }

  // ----- A mark gives another reading -----

  /** Two neighbouring texts and the mark between them, replaced by others that read the same. */
  lemma {:induction false} Replaced(
    a: seq<Text>, aMarks: seq<Text>, b: seq<Text>, bMarks: seq<Text>, i: nat)
    requires |aMarks| == |bMarks| && |a| == |b| == |bMarks| + 1 && i < |bMarks|
    requires a[..i] == b[..i] && a[i + 2..] == b[i + 2..]
    requires aMarks[..i] == bMarks[..i] && aMarks[i + 1..] == bMarks[i + 1..]
    requires a[i] + aMarks[i] + a[i + 1] == b[i] + bMarks[i] + b[i + 1]
    ensures Flat(a, aMarks) == Flat(b, bMarks)
    decreases i
  {
    if i > 0 {
      assert a[0] == a[..i][0] && b[0] == b[..i][0] && aMarks[0] == aMarks[..i][0] && bMarks[0] == bMarks[..i][0];
      assert a[1..][..i - 1] == a[..i][1..] && b[1..][..i - 1] == b[..i][1..];
      assert aMarks[1..][..i - 1] == aMarks[..i][1..] && bMarks[1..][..i - 1] == bMarks[..i][1..];
      assert a[1..][i + 1..] == a[i + 2..] && b[1..][i + 1..] == b[i + 2..];
      assert aMarks[1..][i..] == aMarks[i + 1..] && bMarks[1..][i..] == bMarks[i + 1..];
      Replaced(a[1..], aMarks[1..], b[1..], bMarks[1..], i - 1);
    } else {
      ReplacedFirst(a, aMarks, b, bMarks);
    }
  }

  /** What comes after the first two texts. */
  function AfterTwo(texts: seq<Text>, marks: seq<Text>): Text
    requires |texts| == |marks| + 1 && marks != []
  {
    if |marks| == 1 then [] else marks[1] + Flat(texts[2..], marks[2..])
  }

  lemma FirstTwo(texts: seq<Text>, marks: seq<Text>)
    requires |texts| == |marks| + 1 && marks != []
    ensures Flat(texts, marks) == texts[0] + marks[0] + texts[1] + AfterTwo(texts, marks)
  {
    var head, end := texts[0] + marks[0], AfterTwo(texts, marks);
    if |marks| > 1 {
      assert texts[1..][1..] == texts[2..] && marks[1..][1..] == marks[2..];
      FlatUnfolds(texts[1..], marks[1..]);
    } else {
      assert texts[1] + [] == texts[1];
    }
    assert Flat(texts[1..], marks[1..]) == texts[1] + end;
    assert head + (texts[1] + end) == head + texts[1] + end;
  }

  lemma ReplacedFirst(a: seq<Text>, aMarks: seq<Text>, b: seq<Text>, bMarks: seq<Text>)
    requires |aMarks| == |bMarks| && |a| == |b| == |bMarks| + 1 && 0 < |bMarks|
    requires a[2..] == b[2..] && aMarks[1..] == bMarks[1..]
    requires a[0] + aMarks[0] + a[1] == b[0] + bMarks[0] + b[1]
    ensures Flat(a, aMarks) == Flat(b, bMarks)
  {
    FirstTwo(a, aMarks);
    FirstTwo(b, bMarks);
    if |bMarks| > 1 {
      assert aMarks[1] == aMarks[1..][0] && bMarks[1] == bMarks[1..][0];
      assert aMarks[2..] == aMarks[1..][1..] && bMarks[2..] == bMarks[1..][1..];
    }
  }

  lemma {:induction false} FittingAt(fam: Family, first: nat, marks: seq<Text>, i: nat, q: Text)
    requires Fitting(fam, first, marks) && i < |marks| && fam(first + i, q)
    ensures Fitting(fam, first, marks[i := q])
    decreases i
  {
    var changed := marks[i := q];
    if i > 0 {
      FittingAt(fam, first + 1, marks[1..], i - 1, q);
      assert changed[1..] == marks[1..][i - 1 := q];
    } else {
      assert changed[1..] == marks[1..];
    }
  }

  /** A mark of the next place inside text `i`: the text can end there. */
  lemma EndsEarlier(fam: Family, first: nat, b: seq<Text>, bMarks: seq<Text>, i: nat, q: Text)
    returns (a: seq<Text>, aMarks: seq<Text>)
    requires |b| == |bMarks| + 1 && i < |bMarks| && Fitting(fam, first, bMarks)
    requires fam(first + i, q) && Contains(b[i], q) && |q| > 0
    ensures |a| == |b| && |aMarks| == |bMarks| && a != b
    ensures Fitting(fam, first, aMarks) && Flat(a, aMarks) == Flat(b, bMarks)
  {
    var x, y := SplitAt(b[i], q);
    a, aMarks := b[i := x][i + 1 := y + bMarks[i] + b[i + 1]], bMarks[i := q];
    assert |a[i]| < |b[i]|;
    FittingAt(fam, first, bMarks, i, q);
    Moved(x, q, y, bMarks[i], b[i + 1]);
    Replaced(a, aMarks, b, bMarks, i);
  }

  lemma Moved(x: Text, q: Text, y: Text, m: Text, z: Text)
    ensures x + q + (y + m + z) == x + q + y + m + z
  {
  }

  /** A mark of the place before inside text `i`: the text can begin after it. */
  lemma BeginsLater(fam: Family, first: nat, b: seq<Text>, bMarks: seq<Text>, i: nat, q: Text)
    returns (a: seq<Text>, aMarks: seq<Text>)
    requires |b| == |bMarks| + 1 && i < |bMarks| && Fitting(fam, first, bMarks)
    requires fam(first + i, q) && Contains(b[i + 1], q) && |q| > 0
    ensures |a| == |b| && |aMarks| == |bMarks| && a != b
    ensures Fitting(fam, first, aMarks) && Flat(a, aMarks) == Flat(b, bMarks)
  {
    var x, y := SplitAt(b[i + 1], q);
    a, aMarks := b[i := b[i] + bMarks[i] + x][i + 1 := y], bMarks[i := q];
    assert |a[i + 1]| < |b[i + 1]|;
    FittingAt(fam, first, bMarks, i, q);
    MovedBack(b[i], bMarks[i], x, q, y);
    Replaced(a, aMarks, b, bMarks, i);
  }

  lemma MovedBack(z: Text, m: Text, x: Text, q: Text, y: Text)
    ensures z + m + x + q + y == z + m + (x + q + y)
  {
  }

  /** Another choice of texts and marks reads the same. */
  ghost predicate OtherReadingOf(
    fam: Family, first: nat, b: seq<Text>, bMarks: seq<Text>, a: seq<Text>, aMarks: seq<Text>)
    requires |b| == |bMarks| + 1
  {
    && |a| == |b| && |aMarks| == |bMarks| && Fitting(fam, first, aMarks)
    && !(a == b && aMarks == bMarks) && Flat(a, aMarks) == Flat(b, bMarks)
  }

  lemma MarkHasReading(fam: Family, first: nat, b: seq<Text>, bMarks: seq<Text>, i: nat)
    returns (a: seq<Text>, aMarks: seq<Text>)
    requires GoodFamily(fam) && |b| == |bMarks| + 1 && Fitting(fam, first, bMarks) && HoldsNear(fam, first, b, i)
    ensures OtherReadingOf(fam, first, b, bMarks, a, aMarks)
  {
    if i + 1 < |b| && Holds(fam, b[i], first + i) {
      var q :| fam(first + i, q) && Contains(b[i], q);
      MarksApart(fam, first + i, q, first + i, q);
      a, aMarks := EndsEarlier(fam, first, b, bMarks, i, q);
    } else {
      var q :| fam(first + i - 1, q) && Contains(b[i], q);
      MarksApart(fam, first + i - 1, q, first + i - 1, q);
      a, aMarks := BeginsLater(fam, first, b, bMarks, i - 1, q);
    }
  }

  /** There is another reading if and only if some text holds a mark of the place after or before it. */
  lemma ReadingIffMark(fam: Family, first: nat, b: seq<Text>, bMarks: seq<Text>)
    requires GoodFamily(fam) && |b| == |bMarks| + 1 && Fitting(fam, first, bMarks)
    ensures (exists a, aMarks :: OtherReadingOf(fam, first, b, bMarks, a, aMarks))
      <==> exists i :: HoldsNear(fam, first, b, i)
  {
    if a, aMarks :| OtherReadingOf(fam, first, b, bMarks, a, aMarks) {
      var i := OtherMarks(fam, first, b, bMarks, a, aMarks);
    }
    if i :| HoldsNear(fam, first, b, i) {
      var a, aMarks := MarkHasReading(fam, first, b, bMarks, i);
    }
  }
}
