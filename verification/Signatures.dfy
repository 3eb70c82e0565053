/** Hexadecimal text, and a signature scheme known only by its laws. */
module Signatures {
  import opened Wrappers
  import opened Encoding

  // ----- Hexadecimal -----

  function HexDigit(n: nat): byte
    requires n < 16
  {
    if n < 10 then 48 + n else 87 + n
  }

  function HexEncode(bytes: Text): (t: Text)
    ensures |t| == 2 * |bytes|
  {
    if bytes == [] then [] else [HexDigit(bytes[0] / 16), HexDigit(bytes[0] % 16)] + HexEncode(bytes[1..])
  }

  function HexValue(b: byte): (v: Option<nat>)
    ensures v.Some? ==> v.value < 16
  {
    if 48 <= b <= 57 then Some(b - 48)
    else if 97 <= b <= 102 then Some(b - 87)
    else if 65 <= b <= 70 then Some(b - 55)
    else None
  }

  function HexDecode(t: Text): Option<Text> {
    if t == [] then Some([])
    else if |t| == 1 then None
    else
      var high, low, rest := HexValue(t[0]), HexValue(t[1]), HexDecode(t[2..]);
      if high.Some? && low.Some? && rest.Some? then Some([16 * high.value + low.value] + rest.value) else None
  }

  predicate IsSpace(b: byte) {
    9 <= b <= 13 || b == 32
  }

  function Trim(t: Text): Text {
    if t == [] then t
    else if IsSpace(t[0]) then Trim(t[1..])
    else if IsSpace(t[|t| - 1]) then Trim(t[..|t| - 1])
    else t
  }

  lemma {:induction false} HexRoundTrip(bytes: Text)
    ensures HexDecode(HexEncode(bytes)) == Some(bytes)
  {
    if bytes != [] {
      var t := HexEncode(bytes);
      assert t[2..] == HexEncode(bytes[1..]);
      HexRoundTrip(bytes[1..]);
      assert HexValue(t[0]) == Some(bytes[0] / 16) && HexValue(t[1]) == Some(bytes[0] % 16);
      assert bytes == [bytes[0]] + bytes[1..];
    }
  }

  /** Letters in lower case. */
  function Lower(t: Text): (r: Text)
    ensures |r| == |t|
  {
    seq(|t|, i requires 0 <= i < |t| => if 65 <= t[i] <= 90 then t[i] + 32 else t[i])
  }

  /** Decoding ignores the case of the digits and nothing else; encoding writes them in lower case. */
  lemma {:induction false} HexDecodes(t: Text, bytes: Text)
    ensures HexDecode(t) == Some(bytes) <==> Lower(t) == HexEncode(bytes)
    decreases |t|
  {
    if |t| >= 2 && bytes != [] {
      HexDecodes(t[2..], bytes[1..]);
      HexPair(t[0], t[1], bytes[0]);
      LowerHead(t);
      var l, e := Lower(t), HexEncode(bytes);
      assert e[2..] == HexEncode(bytes[1..]) && l[2..] == Lower(t[2..]);
      assert l == [l[0], l[1]] + l[2..] && e == [e[0], e[1]] + e[2..];
      assert bytes == [bytes[0]] + bytes[1..];
      DecodedHead(t, bytes);
    }
  }

  lemma LowerHead(t: Text)
    requires |t| >= 2
    ensures Lower(t)[0] == Lower([t[0]])[0] && Lower(t)[1] == Lower([t[1]])[0] && Lower(t)[2..] == Lower(t[2..])
  {
  }

  lemma DecodedHead(t: Text, bytes: Text)
    requires |t| >= 2 && bytes != []
    ensures HexDecode(t) == Some(bytes) <==>
      && HexValue(t[0]).Some? && HexValue(t[1]).Some? && 16 * HexValue(t[0]).value + HexValue(t[1]).value == bytes[0]
      && HexDecode(t[2..]) == Some(bytes[1..])
  {
    if HexDecode(t) == Some(bytes) {
      var rest := HexDecode(t[2..]).value;
      assert bytes[1..] == rest;
    }
    assert [bytes[0]] + bytes[1..] == bytes;
  }

  lemma HexPair(high: byte, low: byte, b: byte)
    ensures HexValue(high).Some? && HexValue(low).Some? && 16 * HexValue(high).value + HexValue(low).value == b <==>
      Lower([high])[0] == HexDigit(b / 16) && Lower([low])[0] == HexDigit(b % 16)
  {
  }

  lemma {:induction false} HexHasNoSpace(bytes: Text, k: nat)
    requires k < 2 * |bytes|
    ensures !IsSpace(HexEncode(bytes)[k])
  {
    if k >= 2 { HexHasNoSpace(bytes[1..], k - 2); }
  }

  lemma TrimKeepsHex(bytes: Text)
    ensures Trim(HexEncode(bytes)) == HexEncode(bytes)
  {
    if bytes != [] {
      HexHasNoSpace(bytes, 0);
      HexHasNoSpace(bytes, 2 * |bytes| - 1);
    }
  }

  ghost predicate AllSpace(t: Text) {
    forall i :: 0 <= i < |t| ==> t[i] == 32 || 9 <= t[i] <= 13
  }

  /** What begins and ends with something else is kept. */
  ghost predicate Bare(core: Text) {
    core != [] ==> !IsSpace(core[0]) && !IsSpace(core[|core| - 1])
  }

  lemma {:induction false} TrimRight(core: Text, right: Text)
    requires Bare(core) && AllSpace(right)
    ensures Trim(core + right) == core
    decreases |right|
  {
    var t := core + right;
    if right == [] {
      assert t == core;
    } else if core == [] {
      assert t == right && t[1..] == core + right[1..];
      TrimRight(core, right[1..]);
    } else {
      assert t[0] == core[0] && t[|t| - 1] == right[|right| - 1];
      assert t[..|t| - 1] == core + right[..|right| - 1];
      TrimRight(core, right[..|right| - 1]);
    }
  }

  /** Padding on both sides is stripped and nothing else is. */
  lemma {:induction false} TrimStrips(left: Text, core: Text, right: Text)
    requires AllSpace(left) && AllSpace(right) && Bare(core)
    ensures Trim(left + (core + right)) == core
    decreases |left|
  {
    var t := left + (core + right);
    if left == [] {
      assert t == core + right;
      TrimRight(core, right);
    } else {
      assert t[0] == left[0] && t[1..] == left[1..] + (core + right);
      TrimStrips(left[1..], core, right);
    }
  }

  // ----- Signatures -----

  /** Ed25519 as far as the callers see it: keys of 32 bytes, signatures of 64. */
  datatype Scheme = Scheme(
    public: Text -> Text, sign: (Text, Text) -> Text, isKey: Text -> bool, check: (Text, Text, Text) -> bool)

  /** What was signed with a seed is accepted under its public key. */
  ghost predicate Sound(scheme: Scheme) {
    && (forall seed: Text :: |scheme.public(seed)| == 32 && scheme.isKey(scheme.public(seed)))
    && (forall seed: Text, message: Text :: |scheme.sign(seed, message)| == 64
          && scheme.check(scheme.public(seed), message, scheme.sign(seed, message)))
  }

  datatype SignatureError = NotHex | WrongLength | Rejected

  function SignText(scheme: Scheme, seed: Text, message: Text): Text {
    HexEncode(scheme.sign(seed, message))
  }

  function CheckText(scheme: Scheme, key: Text, message: Text, signature: Text): Result<(), SignatureError> {
    match HexDecode(Trim(signature))
    case None => Err(NotHex)
    case Some(bytes) =>
      if |bytes| != 64 then Err(WrongLength)
      else if !scheme.check(key, message, bytes) then Err(Rejected)
      else Ok(())
  }

  /** Why a signature text fails: it writes no bytes, not 64 of them, or bytes that the scheme does not accept. */
  lemma CheckFails(scheme: Scheme, key: Text, message: Text, signature: Text, bytes: Text)
    requires Lower(Trim(signature)) == HexEncode(bytes)
    ensures CheckText(scheme, key, message, signature) ==
      if |bytes| != 64 then Err(WrongLength) else if !scheme.check(key, message, bytes) then Err(Rejected) else Ok(())
  {
    HexDecodes(Trim(signature), bytes);
  }

  lemma CheckNotHex(scheme: Scheme, key: Text, message: Text, signature: Text)
    ensures CheckText(scheme, key, message, signature) == Err(NotHex) <==>
      forall bytes: Text :: Lower(Trim(signature)) != HexEncode(bytes)
  {
    var decoded := HexDecode(Trim(signature));
    if decoded.Some? { HexDecodes(Trim(signature), decoded.value); }
    forall bytes: Text | decoded.None? ensures Lower(Trim(signature)) != HexEncode(bytes) {
      HexDecodes(Trim(signature), bytes);
    }
  }

  /** A signature text passes exactly if, padding and case aside, it is that of 64 bytes that the scheme accepts. */
  lemma CheckPasses(scheme: Scheme, key: Text, message: Text, signature: Text)
    ensures CheckText(scheme, key, message, signature).Ok? <==>
      exists bytes :: Lower(Trim(signature)) == HexEncode(bytes) && |bytes| == 64 && scheme.check(key, message, bytes)
  {
    var decoded := HexDecode(Trim(signature));
    if decoded.Some? { HexDecodes(Trim(signature), decoded.value); }
    if bytes :| Lower(Trim(signature)) == HexEncode(bytes) && |bytes| == 64 && scheme.check(key, message, bytes) {
      HexDecodes(Trim(signature), bytes);
    }
  }

  /** A signature passes for the message it was made for. */
  lemma SignedPasses(scheme: Scheme, seed: Text, message: Text)
    requires Sound(scheme)
    ensures CheckText(scheme, scheme.public(seed), message, SignText(scheme, seed, message)) == Ok(())
  {
    var bytes := scheme.sign(seed, message);
    HexRoundTrip(bytes);
    TrimKeepsHex(bytes);
  }

  function ParseKey(scheme: Scheme, hex: Text): Option<Text> {
    match HexDecode(Trim(hex))
    case None => None
    case Some(bytes) => if |bytes| == 32 && scheme.isKey(bytes) then Some(bytes) else None
  }

  lemma PublicKeyParses(scheme: Scheme, seed: Text)
    requires Sound(scheme)
    ensures ParseKey(scheme, HexEncode(scheme.public(seed))) == Some(scheme.public(seed))
  {
    HexRoundTrip(scheme.public(seed));
    TrimKeepsHex(scheme.public(seed));
  }

  /** A key text parses exactly to the 32 bytes that it writes, padding and case aside, if they are a key. */
  lemma KeyParses(scheme: Scheme, hex: Text, key: Text)
    ensures ParseKey(scheme, hex) == Some(key) <==>
      Lower(Trim(hex)) == HexEncode(key) && |key| == 32 && scheme.isKey(key)
  {
    HexDecodes(Trim(hex), key);
  }
}
