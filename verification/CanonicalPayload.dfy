/**
 The text that is signed: one line per field, a fixed label followed by the field's value, every line
 ended by a newline.  Values are not escaped.
 */
module CanonicalPayload {
  import opened Wrappers
  import opened Encoding

  const NEWLINE: byte := 10

  function Payload(labels: seq<Text>, values: seq<Text>): Text
    requires |labels| == |values|
    decreases |values|, 1
  {
    if labels == [] then [] else labels[0] + Rest(labels, values)
  }

  /** The payload after its first label. */
  function Rest(labels: seq<Text>, values: seq<Text>): Text
    requires |labels| == |values| > 0
    decreases |values|, 0
  {
    values[0] + [NEWLINE] + Payload(labels[1..], values[1..])
  }

  /** An absent value reads like an empty one. */
  function OptionText(t: Option<Text>): Text {
    if t.Some? then t.value else []
  }

  ghost predicate NewlineFree(t: Text) {
    forall k :: 0 <= k < |t| ==> t[k] != NEWLINE
  }

  ghost predicate OccursAt(t: Text, k: nat, part: Text) {
    k + |part| <= |t| && t[k..k + |part|] == part
  }

  ghost predicate Contains(t: Text, part: Text) {
    exists k :: OccursAt(t, k, part)
  }

  /** Neither text is a prefix of the other. */
  ghost predicate Apart(x: Text, y: Text) {
    exists d :: 0 <= d < |x| && d < |y| && x[d] != y[d]
  }

  lemma LongerHead(x: Text, v: Text, y: Text, w: Text) returns (d: Text)
    requires x + v == y + w && |x| >= |y|
    ensures x == y + d && d + v == w
  {
    d := x[|y|..];
    assert x[..|y|] == (x + v)[..|y|] == (y + w)[..|y|] == y;
    assert (x + v)[|y|..] == d + v && (y + w)[|y|..] == w;
  }

  lemma ApartHeads(x: Text, v: Text, y: Text, w: Text)
    requires Apart(x, y)
    ensures x + v != y + w
  {
    var d :| 0 <= d < |x| && d < |y| && x[d] != y[d];
    assert (x + v)[d] == x[d] && (y + w)[d] == y[d];
  }

  lemma RestUnfolds(labels: seq<Text>, values: seq<Text>)
    requires |labels| == |values| > 1
    ensures Rest(labels, values) == values[0] + [NEWLINE] + labels[1] + Rest(labels[1..], values[1..])
  {
    var tail := Rest(labels[1..], values[1..]);
    assert values[0] + [NEWLINE] + (labels[1] + tail) == values[0] + [NEWLINE] + labels[1] + tail;
  }

  lemma SplitAt(t: Text, part: Text) returns (x: Text, y: Text)
    requires Contains(t, part)
    ensures t == x + part + y
  {
    var k: nat :| OccursAt(t, k, part);
    x, y := t[..k], t[k + |part|..];
  }

  lemma MarkHasNewline(v: Text, mark: Text)
    ensures Contains(v, [NEWLINE] + mark) ==> !NewlineFree(v)
  {
    if k: nat :| OccursAt(v, k, [NEWLINE] + mark) {
      assert v[k] == v[k..k + 1 + |mark|][0];
    }
  }

  /** Payloads whose second labels differ are different, whatever the other fields are. */
  lemma SecondLabelTells(
    first: Text, labelsA: seq<Text>, a: seq<Text>, labelsB: seq<Text>, b: seq<Text>)
    requires |labelsA| == |a| > 1 && |labelsB| == |b| > 1
    requires labelsA[0] == labelsB[0] == first && Apart(labelsA[1], labelsB[1])
    requires NewlineFree(a[0]) && NewlineFree(b[0])
    ensures Payload(labelsA, a) != Payload(labelsB, b)
  {
    if Payload(labelsA, a) == Payload(labelsB, b) {
      SameParts(first, Rest(labelsA, a), first, Rest(labelsB, b));
      var aRest, bRest := Rest(labelsA[1..], a[1..]), Rest(labelsB[1..], b[1..]);
      RestUnfolds(labelsA, a);
      RestUnfolds(labelsB, b);
      SameFirstLine(a[0], labelsA[1] + aRest, b[0], labelsB[1] + bRest);
      ApartHeads(labelsA[1], aRest, labelsB[1], bRest);
      assert false;
    }
  }

  lemma SameFirstLine(x: Text, v: Text, y: Text, w: Text)
    requires x + [NEWLINE] + v == y + [NEWLINE] + w && NewlineFree(x) && NewlineFree(y)
    ensures x == y && v == w
  {
    assert (x + [NEWLINE] + v)[|x|] == NEWLINE;
    assert (y + [NEWLINE] + w)[|y|] == NEWLINE;
    assert |x| == |y|;
    SameParts(x + [NEWLINE], v, y + [NEWLINE], w);
    SameParts(x, [NEWLINE], y, [NEWLINE]);
  }

  // ----- The lines of a text -----

  /** The lines of a text, each ended by a newline; what follows the last newline is no line. */
  function Lines(t: Text): seq<Text> {
    LinesFrom([], t)
  }

  function LinesFrom(begun: Text, t: Text): seq<Text>
    decreases |t|
  {
    if t == [] then []
    else if t[0] == NEWLINE then [begun] + LinesFrom([], t[1..])
    else LinesFrom(begun + [t[0]], t[1..])
  }

  lemma {:induction false} FirstLine(begun: Text, line: Text, rest: Text)
    requires NewlineFree(line)
    ensures LinesFrom(begun, line + [NEWLINE] + rest) == [begun + line] + LinesFrom([], rest)
    decreases |line|
  {
    var t := line + [NEWLINE] + rest;
    if line == [] {
      assert t == [NEWLINE] + rest && t[1..] == rest && begun + [] == begun;
    } else {
      assert t[1..] == line[1..] + [NEWLINE] + rest;
      FirstLine(begun + [line[0]], line[1..], rest);
      assert begun + [line[0]] + line[1..] == begun + line;
    }
  }

  /** Labels and values without newlines are read back line by line. */
  lemma {:induction false} PayloadLines(labels: seq<Text>, values: seq<Text>)
    requires |labels| == |values|
    requires forall i :: 0 <= i < |labels| ==> NewlineFree(labels[i]) && NewlineFree(values[i])
    ensures |Lines(Payload(labels, values))| == |labels|
    ensures forall i :: 0 <= i < |labels| ==> Lines(Payload(labels, values))[i] == labels[i] + values[i]
    decreases |values|
  {
    if labels != [] {
      var rest := Payload(labels[1..], values[1..]);
      assert Payload(labels, values) == (labels[0] + values[0]) + [NEWLINE] + rest;
      FirstLine([], labels[0] + values[0], rest);
      assert [] + (labels[0] + values[0]) == labels[0] + values[0];
      PayloadLines(labels[1..], values[1..]);
    }
  }
}
