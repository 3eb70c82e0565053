/**
 Length-prefixed messages, as in the "Requests" section of the gRPC over HTTP2 protocol document: a
 compressed flag, four bytes of length, most significant first, and the message.  The message codec
 is a parameter.
 */
module GrpcFraming {
  import opened Wrappers
  import opened Encoding

  const LENGTH_RANGE: nat := 0x1_0000_0000

  datatype Codec<!M> = Codec(encode: M -> Text, decode: Text -> Option<M>)

  datatype FrameError = TooShort | Compressed | LengthMismatch | BadMessage

  /** The low 32 bits of a length, most significant byte first. */
  function Be32(n: nat): (t: Text)
    ensures |t| == 4
  {
    [n / 0x100_0000 % 256, n / 0x1_0000 % 256, n / 0x100 % 256, n % 256]
  }

  function FromBe32(t: Text): (n: nat)
    requires |t| == 4
    ensures n < LENGTH_RANGE
  {
    var a: nat, b: nat, c: nat, d: nat := t[0], t[1], t[2], t[3];
    ((a * 256 + b) * 256 + c) * 256 + d
  }

  function Frame(payload: Text): Text {
    [0] + Be32(|payload|) + payload
  }

  function Frames(payloads: seq<Text>): Text {
    if payloads == [] then [] else Frame(payloads[0]) + Frames(payloads[1..])
  }

  function Payloads<M>(c: Codec<M>, messages: seq<M>): (p: seq<Text>)
    ensures |p| == |messages|
  {
    seq(|messages|, i requires 0 <= i < |messages| => c.encode(messages[i]))
  }

  /** Messages in front of what comes after; an error later is an error. */
  function Prepend<M>(messages: seq<M>, rest: Result<seq<M>, FrameError>): Result<seq<M>, FrameError> {
    if rest.Ok? then Ok(messages + rest.value) else rest
  }

  /** The length announced by the first frame, if it is there in full. */
  function Header(bytes: Text): (r: Result<nat, FrameError>)
    ensures r.Ok? ==> 5 + r.value <= |bytes|
  {
    if |bytes| < 5 then Err(TooShort)
    else if bytes[0] != 0 then Err(Compressed)
    else
      var n := FromBe32(bytes[1..5]);
      if |bytes| - 5 < n then Err(LengthMismatch) else Ok(n)
  }

  function Decode<M>(c: Codec<M>, bytes: Text): Result<seq<M>, FrameError>
    decreases |bytes|
  {
    if bytes == [] then Ok([])
    else
      match Header(bytes)
      case Err(e) => Err(e)
      case Ok(n) =>
        match c.decode(bytes[5..5 + n])
        case None => Err(BadMessage)
        case Some(m) => Prepend([m], Decode(c, bytes[5 + n..]))
  }

  // ----- The loops -----

  method ReadHeader(bytes: Text, offset: nat) returns (r: Result<nat, FrameError>)
    requires offset <= |bytes|
    ensures r == Header(bytes[offset..])
  {
    if |bytes| - offset < 5 {
      return Err(TooShort);
    }
    if bytes[offset] != 0 {
      return Err(Compressed);
    }
    assert bytes[offset..][1..5] == bytes[offset + 1..offset + 5];
    var n := FromBe32(bytes[offset + 1..offset + 5]);
    if |bytes| - (offset + 5) < n {
      return Err(LengthMismatch);
    }
    return Ok(n);
  }

  /** One message and where the next one begins. */
  method ReadMessage<M>(c: Codec<M>, bytes: Text, offset: nat) returns (r: Result<(M, nat), FrameError>)
    requires offset < |bytes|
    ensures r.Err? ==> Decode(c, bytes[offset..]) == Err(r.error)
    ensures r.Ok? ==> offset < r.value.1 <= |bytes|
    ensures r.Ok? ==> Decode(c, bytes[offset..]) == Prepend([r.value.0], Decode(c, bytes[r.value.1..]))
  {
    var header := ReadHeader(bytes, offset);
    DecodeAt(c, bytes, offset, header, Decode(c, bytes[offset..]));
    if header.Err? {
      return Err(header.error);
    }
    var start, end := offset + 5, offset + 5 + header.value;
    var message := c.decode(bytes[start..end]);
    if message.None? {
      return Err(BadMessage);
    }
    return Ok((message.value, end));
  }

  method DecodeStream<M>(c: Codec<M>, bytes: Text) returns (r: Result<seq<M>, FrameError>)
    ensures r == Decode(c, bytes)
  {
    var offset := 0;
    var messages: seq<M> := [];
    assert bytes[0..] == bytes;
    PrependNothing(Decode(c, bytes));
    while offset < |bytes|
      invariant 0 <= offset <= |bytes|
      invariant ReadSoFar(c, bytes, offset, messages)
    {
      var next := ReadMessage(c, bytes, offset);
      if next.Err? {
        FailsAt(c, bytes, offset, messages, Decode(c, bytes[offset..]), next.error);
        return Err(next.error);
      }
      ReadOn(c, bytes, offset, messages, Decode(c, bytes[offset..]), next.value.0, next.value.1);
      messages := messages + [next.value.0];
      offset := next.value.1;
    }
    AllRead(c, bytes, offset, messages);
    return Ok(messages);
  }

  lemma AllRead<M>(c: Codec<M>, bytes: Text, offset: nat, messages: seq<M>)
    requires offset == |bytes| && ReadSoFar(c, bytes, offset, messages)
    ensures Decode(c, bytes) == Ok(messages)
  {
    assert bytes[offset..] == [] && messages + [] == messages;
  }

  /** What has been read in front of what is still to be read. */
  ghost predicate ReadSoFar<M>(c: Codec<M>, bytes: Text, offset: nat, messages: seq<M>)
    requires offset <= |bytes|
  {
    Decode(c, bytes) == Prepend(messages, Decode(c, bytes[offset..]))
  }

  lemma FailsAt<M>(
    c: Codec<M>, bytes: Text, offset: nat, messages: seq<M>, rest: Result<seq<M>, FrameError>, error: FrameError)
    requires offset <= |bytes| && rest == Decode(c, bytes[offset..]) == Err(error)
    requires ReadSoFar(c, bytes, offset, messages)
    ensures Decode(c, bytes) == Err(error)
  {
  }

  lemma ReadOn<M>(
    c: Codec<M>, bytes: Text, offset: nat, messages: seq<M>, rest: Result<seq<M>, FrameError>, m: M, end: nat)
    requires offset <= end <= |bytes| && rest == Decode(c, bytes[offset..])
    requires rest == Prepend([m], Decode(c, bytes[end..])) && ReadSoFar(c, bytes, offset, messages)
    ensures ReadSoFar(c, bytes, end, messages + [m])
  {
    PrependedTo(Decode(c, bytes), messages, rest, m, Decode(c, bytes[end..]));
  }

  lemma PrependedTo<M>(
    all: Result<seq<M>, FrameError>, messages: seq<M>, rest: Result<seq<M>, FrameError>, m: M,
    after: Result<seq<M>, FrameError>)
    requires all == Prepend(messages, rest) && rest == Prepend([m], after)
    ensures all == Prepend(messages + [m], after)
  {
    Prepended(messages, m, after);
  }

  lemma DecodeAt<M>(
    c: Codec<M>, bytes: Text, offset: nat, header: Result<nat, FrameError>, rest: Result<seq<M>, FrameError>)
    requires offset < |bytes| && header == Header(bytes[offset..]) && rest == Decode(c, bytes[offset..])
    ensures header.Err? ==> rest == Err(header.error)
    ensures header.Ok? ==>
      var start := offset + 5;
      var end := start + header.value;
      && end <= |bytes|
      && rest == match c.decode(bytes[start..end])
                 case None => Err(BadMessage)
                 case Some(m) => Prepend([m], Decode(c, bytes[end..]))
  {
    if header.Ok? {
      var n := header.value;
      assert bytes[offset..][5..5 + n] == bytes[offset + 5..offset + 5 + n];
      assert bytes[offset..][5 + n..] == bytes[offset + 5 + n..];
    }
  }

  lemma PrependNothing<M>(rest: Result<seq<M>, FrameError>)
    ensures Prepend([], rest) == rest
  {
    if rest.Ok? { assert [] + rest.value == rest.value; }
  }

  lemma Prepended<M>(messages: seq<M>, m: M, rest: Result<seq<M>, FrameError>)
    ensures Prepend(messages, Prepend([m], rest)) == Prepend(messages + [m], rest)
  {
    if rest.Ok? { assert messages + ([m] + rest.value) == messages + [m] + rest.value; }
  }

  method EncodeMessage<M>(c: Codec<M>, message: M) returns (framed: Text)
    ensures framed == Frame(c.encode(message))
  {
    var payload := c.encode(message);
    framed := [0];
    framed := framed + Be32(|payload|);
    framed := framed + payload;
  }

  /** The body of a response. */
  method WriteMessages<M>(c: Codec<M>, messages: seq<M>) returns (bytes: Text)
    ensures bytes == Frames(Payloads(c, messages))
  {
    bytes := [];
    ghost var payloads := Payloads(c, messages);
    for i := 0 to |messages|
      invariant bytes == Frames(payloads[..i])
    {
      var framed := EncodeMessage(c, messages[i]);
      FramesJoin(payloads[..i], [payloads[i]]);
      assert payloads[..i + 1] == payloads[..i] + [payloads[i]];
      assert Frames([payloads[i]]) == framed + Frames([]);
      bytes := bytes + framed;
    }
    assert payloads[..|messages|] == payloads;
  }

  lemma {:induction false} FramesJoin(a: seq<Text>, b: seq<Text>)
    ensures Frames(a + b) == Frames(a) + Frames(b)
  {
    if a == [] {
      assert a + b == b;
    } else {
      FramesJoin(a[1..], b);
      assert (a + b)[1..] == a[1..] + b;
      Associates(Frame(a[0]), Frames(a[1..]), Frames(b));
    }
  }

  // ----- One frame -----

  lemma BeRoundTrip(n: nat)
    requires n < LENGTH_RANGE
    ensures FromBe32(Be32(n)) == n
  {
    var a, b := n / 256, n / 256 / 256;
    assert n / 0x1_0000 == b && n / 0x100_0000 == b / 256;
    assert b / 256 < 256;
  }

  lemma BeUnique(t: Text)
    requires |t| == 4
    ensures Be32(FromBe32(t)) == t
  {
    var a: nat, b: nat, c: nat, d: nat := t[0], t[1], t[2], t[3];
    var n := FromBe32(t);
    var n1 := (a * 256 + b) * 256 + c;
    var n2 := a * 256 + b;
    assert n / 0x100 == n1 && n % 256 == d;
    assert n / 0x1_0000 == n1 / 256 == n2 && n1 % 256 == c;
    assert n / 0x100_0000 == n2 / 256 == a && n2 % 256 == b;
  }

  /** A frame at the front is read back whole, whatever follows. */
  lemma FrameDecodes<M>(c: Codec<M>, payload: Text, rest: Text)
    requires |payload| < LENGTH_RANGE
    ensures Decode(c, Frame(payload) + rest) == match c.decode(payload)
                                               case None => Err(BadMessage)
                                               case Some(m) => Prepend([m], Decode(c, rest))
  {
    var bytes, n := Frame(payload) + rest, |payload|;
    BeRoundTrip(n);
    assert bytes[1..5] == Be32(n);
    assert bytes[5..5 + n] == payload && bytes[5 + n..] == rest;
  }

  // ----- Streams -----

  ghost predicate RoundTrips<M(!new)>(c: Codec<M>) {
    forall m :: c.decode(c.encode(m)) == Some(m)
  }

  /** The payloads are short enough for the length field and decode to the messages, one by one. */
  ghost predicate Carry<M>(c: Codec<M>, payloads: seq<Text>, messages: seq<M>) {
    && |payloads| == |messages|
    && forall i :: 0 <= i < |payloads| ==> |payloads[i]| < LENGTH_RANGE && c.decode(payloads[i]) == Some(messages[i])
  }

  /** Frames in front decode first; what follows decodes as if alone, errors included. */
  lemma {:induction false} FramesDecode<M>(c: Codec<M>, payloads: seq<Text>, messages: seq<M>, rest: Text)
    requires Carry(c, payloads, messages)
    ensures Decode(c, Frames(payloads) + rest) == Prepend(messages, Decode(c, rest))
  {
    if payloads == [] {
      assert Frames(payloads) + rest == rest;
      PrependNothing(Decode(c, rest));
    } else {
      FramesDecode(c, payloads[1..], messages[1..], rest);
      Associates(Frame(payloads[0]), Frames(payloads[1..]), rest);
      FrameDecodes(c, payloads[0], Frames(payloads[1..]) + rest);
      PrependTwice(messages[0], messages[1..], Decode(c, rest));
      assert messages == [messages[0]] + messages[1..];
    }
  }

  lemma PrependTwice<M>(m: M, messages: seq<M>, rest: Result<seq<M>, FrameError>)
    ensures Prepend([m], Prepend(messages, rest)) == Prepend([m] + messages, rest)
  {
    if rest.Ok? { assert [m] + (messages + rest.value) == [m] + messages + rest.value; }
  }

  lemma HeaderIsFrame(bytes: Text)
    requires Header(bytes).Ok?
    ensures var n := Header(bytes).value; n < LENGTH_RANGE && bytes == Frame(bytes[5..5 + n]) + bytes[5 + n..]
  {
    var n := Header(bytes).value;
    BeUnique(bytes[1..5]);
    assert bytes == [bytes[0]] + bytes[1..5] + bytes[5..5 + n] + bytes[5 + n..];
  }

  lemma {:induction false} AcceptedIsFrames<M>(c: Codec<M>, bytes: Text) returns (payloads: seq<Text>)
    requires Decode(c, bytes).Ok?
    ensures bytes == Frames(payloads) && Carry(c, payloads, Decode(c, bytes).value)
    decreases |bytes|
  {
    if bytes == [] {
      payloads := [];
    } else {
      var n := Header(bytes).value;
      HeaderIsFrame(bytes);
      var rest := AcceptedIsFrames(c, bytes[5 + n..]);
      payloads := [bytes[5..5 + n]] + rest;
      assert payloads[1..] == rest;
    }
  }

  /** An input is accepted with these messages exactly when it is the frames of payloads carrying them. */
  lemma AcceptedIff<M>(c: Codec<M>, bytes: Text, messages: seq<M>)
    ensures Decode(c, bytes) == Ok(messages)
      <==> exists payloads :: Carry(c, payloads, messages) && bytes == Frames(payloads)
  {
    if Decode(c, bytes) == Ok(messages) {
      var payloads := AcceptedIsFrames(c, bytes);
    }
    if payloads :| Carry(c, payloads, messages) && bytes == Frames(payloads) {
      FramesDecode(c, payloads, messages, []);
      assert bytes + [] == bytes && messages + [] == messages;
    }
  }

  /** There is only one way to cut an input into frames. */
  lemma {:induction false} FramesInjective(a: seq<Text>, b: seq<Text>)
    requires forall p :: p in a + b ==> |p| < LENGTH_RANGE
    requires Frames(a) == Frames(b)
    ensures a == b
  {
    if a != [] && b != [] {
      assert a[0] in a + b && b[0] in a + b;
      SameFirstFrame(a[0], Frames(a[1..]), b[0], Frames(b[1..]));
      assert forall p :: p in a[1..] + b[1..] ==> p in a + b;
      FramesInjective(a[1..], b[1..]);
    } else {
      assert |Frames(a)| == |Frames(b)|;
    }
  }

  lemma SameFirstFrame(x: Text, v: Text, y: Text, w: Text)
    requires |x| < LENGTH_RANGE && |y| < LENGTH_RANGE && Frame(x) + v == Frame(y) + w
    ensures x == y && v == w
  {
    assert (Frame(x) + v)[1..5] == Be32(|x|) && (Frame(y) + w)[1..5] == Be32(|y|);
    BeRoundTrip(|x|);
    BeRoundTrip(|y|);
    assert (Frame(x) + v)[5..5 + |x|] == x && (Frame(y) + w)[5..5 + |y|] == y;
    assert (Frame(x) + v)[5 + |x|..] == v && (Frame(y) + w)[5 + |y|..] == w;
  }

  /** Decoding a concatenation decodes the parts. */
  lemma DecodeJoins<M>(c: Codec<M>, a: Text, b: Text)
    requires Decode(c, a).Ok?
    ensures Decode(c, a + b) == Prepend(Decode(c, a).value, Decode(c, b))
  {
    var payloads := AcceptedIsFrames(c, a);
    FramesDecode(c, payloads, Decode(c, a).value, b);
  }

  /** What a response writes, a reader decodes to the same messages. */
  lemma RoundTrip<M(!new)>(c: Codec<M>, messages: seq<M>)
    requires RoundTrips(c) && forall m :: m in messages ==> |c.encode(m)| < LENGTH_RANGE
    ensures Decode(c, Frames(Payloads(c, messages))) == Ok(messages)
  {
    var payloads := Payloads(c, messages);
    forall i | 0 <= i < |payloads| ensures |payloads[i]| < LENGTH_RANGE && c.decode(payloads[i]) == Some(messages[i]) {
      assert messages[i] in messages;
    }
    FramesDecode(c, payloads, messages, []);
    assert Frames(payloads) + [] == Frames(payloads) && messages + [] == messages;
  }

  /** One message comes back if and only if its length fits the length field. */
  lemma FitsIffRoundTrips<M(!new)>(c: Codec<M>, m: M)
    requires RoundTrips(c)
    ensures Decode(c, Frame(c.encode(m))) == Ok([m]) <==> |c.encode(m)| < LENGTH_RANGE
  {
    var payload := c.encode(m);
    if |payload| < LENGTH_RANGE {
      RoundTrip(c, [m]);
      assert Payloads(c, [m]) == [payload] && Frames([payload]) == Frame(payload) + Frames([]);
      assert Frame(payload) + [] == Frame(payload);
    } else if Decode(c, Frame(payload)).Ok? {
      var payloads := AcceptedIsFrames(c, Frame(payload));
      FramesLength(payloads);
    }
  }

  lemma FramesLength(payloads: seq<Text>)
    ensures |payloads| == 1 ==> |Frames(payloads)| == 5 + |payloads[0]|
  {
    if |payloads| == 1 { assert payloads[1..] == []; }
  }

  /** Every message takes at least five bytes of the input. */
  lemma {:induction false} FiveBytesEach<M>(c: Codec<M>, bytes: Text)
    requires Decode(c, bytes).Ok?
    ensures 5 * |Decode(c, bytes).value| <= |bytes|
    decreases |bytes|
  {
    if bytes != [] { FiveBytesEach(c, bytes[5 + Header(bytes).value..]); }
  }

  /** A stream cut inside a frame is refused, never read as fewer messages. */
  lemma CutIsRefused<M>(c: Codec<M>, payloads: seq<Text>, messages: seq<M>, last: Text, k: nat)
    requires Carry(c, payloads, messages) && |last| < LENGTH_RANGE && 0 < k < |Frame(last)|
    ensures Decode(c, Frames(payloads) + Frame(last)[..k]) == Err(if k < 5 then TooShort else LengthMismatch)
  {
    var cut := Frame(last)[..k];
    FramesDecode(c, payloads, messages, cut);
    if k >= 5 {
      assert cut[1..5] == Be32(|last|);
      BeRoundTrip(|last|);
    }
  }

  // ----- Byte by byte -----

  /** A frame: a zero byte, the length in four bytes with the most significant first, the payload. */
  lemma FrameBytes(payload: Text)
    ensures var f := Frame(payload);
            && |f| == 5 + |payload| && f[0] == 0 && f[5..] == payload
            && 0x100_0000 * f[1] as nat + 0x1_0000 * f[2] as nat + 0x100 * f[3] as nat + f[4] as nat
                 == |payload| % 0x1_0000_0000
  {
    BigEndian(|payload|);
  }

  lemma BigEndian(n: nat)
    ensures var t := Be32(n);
            0x100_0000 * t[0] as nat + 0x1_0000 * t[1] as nat + 0x100 * t[2] as nat + t[3] as nat == n % 0x1_0000_0000
  {
    var a, b, c, d := n / 256, n / 256 / 256, n / 256 / 256 / 256, n / 256 / 256 / 256 / 256;
    Digits(n, a, b, c, d);
    var low := n % 256 + 256 * (a % 256) + 0x1_0000 * (b % 256);
    assert n / 0x1_0000 == b && n / 0x100_0000 == c;
    assert n % 0x1_0000_0000 == low + 0x100_0000 * (c % 256);
  }

  lemma Digits(n: nat, a: nat, b: nat, c: nat, d: nat)
    requires a == n / 256 && b == a / 256 && c == b / 256 && d == c / 256
    ensures n == 0x1_0000 * b + (n % 256 + 256 * (a % 256))
    ensures n == 0x100_0000 * c + (n % 256 + 256 * (a % 256) + 0x1_0000 * (b % 256))
    ensures n == 0x1_0000_0000 * d + (n % 256 + 256 * (a % 256) + 0x1_0000 * (b % 256) + 0x100_0000 * (c % 256))
  {
    assert n == 256 * a + n % 256 && a == 256 * b + a % 256 && b == 256 * c + b % 256 && c == 256 * d + c % 256;
  }

  /** What the first bytes of an input decide: fewer than five, a set flag, a length beyond the end, a bad message. */
  lemma FirstFrameDecides<M>(c: Codec<M>, bytes: Text)
    requires bytes != []
    ensures |bytes| < 5 ==> Decode(c, bytes) == Err(TooShort)
    ensures |bytes| >= 5 && bytes[0] != 0 ==> Decode(c, bytes) == Err(Compressed)
    ensures |bytes| >= 5 && bytes[0] == 0 ==>
      var n := 0x100_0000 * bytes[1] as nat + 0x1_0000 * bytes[2] as nat + 0x100 * bytes[3] as nat + bytes[4] as nat;
      if |bytes| < 5 + n then Decode(c, bytes) == Err(LengthMismatch)
      else if c.decode(bytes[5..5 + n]).None? then Decode(c, bytes) == Err(BadMessage)
      else Decode(c, bytes) == Prepend([c.decode(bytes[5..5 + n]).value], Decode(c, bytes[5 + n..]))
  {
  }
}
