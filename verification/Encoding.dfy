/** Byte-level encodings: little-endian integers, decimal numerals, and ASCII literals. */
module Encoding {

  type byte = x: int | 0 <= x < 256

  /** A string as its UTF-8 bytes. */
  type Text = seq<byte>

  type u16 = x: int | 0 <= x < 0x1_0000
  type u32 = x: int | 0 <= x < 0x1_0000_0000
  type u64 = x: int | 0 <= x < 0x1_0000_0000_0000_0000

  const MAX_U64: u64 := 0xFFFF_FFFF_FFFF_FFFF

  /** The number of values of a 64-bit counter. */
  const WRAP: nat := 0x1_0000_0000_0000_0000

  /** A 64-bit counter wraps. */
  function Wrapped(x: nat): (r: nat)
    ensures r < WRAP && (r == x <==> x < WRAP)
  {
    x % WRAP
  }

  /** The byte of a printable ASCII character; anything else becomes a question mark. */
  function AsciiByte(c: char): (b: byte)
    ensures 32 <= b < 127
  {
    if 32 <= c as int < 127 then c as int else 63
  }

  /** The bytes of a printable ASCII literal. */
  function Ascii(s: string): (t: Text)
    ensures |t| == |s| && forall i :: 0 <= i < |t| ==> 32 <= t[i]
  {
    seq(|s|, i requires 0 <= i < |s| => AsciiByte(s[i]))
  }

  // ----- Little-endian integers -----

  /** The low `n` bytes of `x`, least significant first. */
  function Le(x: nat, n: nat): (t: Text)
    ensures |t| == n
  {
    if n == 0 then [] else [x % 256] + Le(x / 256, n - 1)
  }

  /** `x` is representable in `n` bytes. */
  predicate Fits(x: nat, n: nat) {
    if n == 0 then x == 0 else Fits(x / 256, n - 1)
  }

  lemma {:induction false} LeInjective(x: nat, y: nat, n: nat)
    requires Fits(x, n) && Fits(y, n) && Le(x, n) == Le(y, n)
    ensures x == y
  {
    if n > 0 {
      var a, b := Le(x, n), Le(y, n);
      assert a[0] == b[0];
      assert a[1..] == Le(x / 256, n - 1) && b[1..] == Le(y / 256, n - 1);
      LeInjective(x / 256, y / 256, n - 1);
    }
  }

  lemma U16Fits(x: u16)
    ensures Fits(x, 2)
  {
    assert Fits(x / 256 / 256, 0);
    assert Fits(x / 256, 1);
  }

  lemma U64Fits(x: u64)
    ensures Fits(x, 8)
  {
    var x4 := x / 256 / 256 / 256 / 256;
    assert x4 < 0x1_0000_0000;
    var x8 := x4 / 256 / 256 / 256 / 256;
    assert Fits(x8, 0);
    assert Fits(x4 / 256 / 256 / 256, 1);
    assert Fits(x4 / 256 / 256, 2);
    assert Fits(x4 / 256, 3);
    assert Fits(x4, 4);
    assert Fits(x / 256 / 256 / 256, 5);
    assert Fits(x / 256 / 256, 6);
    assert Fits(x / 256, 7);
  }

  // ----- Decimal numerals -----

  predicate IsDigit(b: byte) {
    48 <= b <= 57
  }

  function Decimal(n: nat): (t: Text)
    ensures |t| > 0 && forall i :: 0 <= i < |t| ==> IsDigit(t[i])
  {
    if n < 10 then [48 + n] else Decimal(n / 10) + [48 + n % 10]
  }

  lemma {:induction false} DecimalInjective(a: nat, b: nat)
    requires Decimal(a) == Decimal(b)
    ensures a == b
    decreases a + b
  {
    var s, t := Decimal(a), Decimal(b);
    assert s[|s| - 1] == 48 + a % 10 && t[|t| - 1] == 48 + b % 10;
    if a >= 10 && b >= 10 {
      assert s[..|s| - 1] == Decimal(a / 10) && t[..|t| - 1] == Decimal(b / 10);
      DecimalInjective(a / 10, b / 10);
    } else {
      assert a < 10 <==> |s| == 1;
      assert b < 10 <==> |t| == 1;
    }
  }

  // ----- Concatenations -----

  lemma Associates<T>(x: seq<T>, y: seq<T>, z: seq<T>)
    ensures x + (y + z) == x + y + z
  {
  }

  /** Concatenations cut at the same place have the same parts. */
  lemma SameParts(p: Text, q: Text, r: Text, s: Text)
    requires p + q == r + s && |p| == |r|
    ensures p == r && q == s
  {
    assert p == (p + q)[..|p|] && r == (r + s)[..|r|];
    assert q == (p + q)[|p|..] && s == (r + s)[|r|..];
  }

  // ----- Reading back -----

  /** The number that bytes hold, least significant first. */
  function FromLe(t: Text): nat {
    if t == [] then 0 else t[0] as nat + 256 * FromLe(t[1..])
  }

  lemma {:induction false} LeReads(x: nat, n: nat)
    requires Fits(x, n)
    ensures FromLe(Le(x, n)) == x
  {
    if n > 0 {
      LeReads(x / 256, n - 1);
      assert Le(x, n)[1..] == Le(x / 256, n - 1);
    }
  }

  /** The number that a numeral stands for. */
  function FromDecimal(t: Text): int {
    if t == [] then 0 else 10 * FromDecimal(t[..|t| - 1]) + (t[|t| - 1] as int - 48)
  }

  /** A numeral stands for its number and begins with no zero, except for that of zero. */
  lemma {:induction false} DecimalReads(n: nat)
    ensures FromDecimal(Decimal(n)) == n
    ensures Decimal(n)[0] == 48 <==> n == 0
  {
    if n >= 10 {
      DecimalReads(n / 10);
      assert Decimal(n)[..|Decimal(n)| - 1] == Decimal(n / 10);
    } else {
      assert Decimal(n)[..0] == [];
    }
  }
}
