/** The order in which the billing table lists its text keys: byte by byte, a prefix first. */
module KeyOrder {
  import opened Encoding
  import opened BillingStorage

  predicate TextBefore(s: Text, t: Text) {
    t != [] && (s == [] || s[0] < t[0] || (s[0] == t[0] && TextBefore(s[1..], t[1..])))
  }

  predicate KeyBefore(a: Key, b: Key) {
    TextBefore(KeyText(a), KeyText(b))
  }

  ghost predicate InKeyOrder(keys: seq<Key>) {
    forall i, j :: 0 <= i < j < |keys| ==> KeyBefore(keys[i], keys[j])
  }

  // ----- A strict total order -----

  lemma {:induction false} OneBefore(s: Text, t: Text)
    ensures TextBefore(s, t) ==> !TextBefore(t, s)
    ensures TextBefore(s, t) || TextBefore(t, s) <==> s != t
  {
    if s != [] && t != [] {
      OneBefore(s[1..], t[1..]);
      assert s == [s[0]] + s[1..] && t == [t[0]] + t[1..];
    }
  }

  /** One text comes before another at the first byte that differs, or as a proper prefix of it. */
  lemma {:induction false} BeforeMeans(s: Text, t: Text, k: nat)
    requires k <= |s| && k <= |t| && s[..k] == t[..k]
    ensures k < |s| && k < |t| && s[k] != t[k] ==> (TextBefore(s, t) <==> s[k] < t[k])
    ensures k == |s| ==> (TextBefore(s, t) <==> k < |t|)
    decreases k
  {
    if k > 0 {
      assert s[0] == s[..k][0] && t[0] == t[..k][0];
      assert s[1..][..k - 1] == s[..k][1..] && t[1..][..k - 1] == t[..k][1..];
      BeforeMeans(s[1..], t[1..], k - 1);
    }
  }

  lemma {:induction false} BeforeChains(s: Text, t: Text, u: Text)
    requires TextBefore(s, t) && TextBefore(t, u)
    ensures TextBefore(s, u)
  {
    if s != [] && s[0] == t[0] == u[0] { BeforeChains(s[1..], t[1..], u[1..]); }
  }

  lemma OneKeyBefore(a: Key, b: Key)
    ensures KeyBefore(a, b) ==> !KeyBefore(b, a)
    ensures KeyBefore(a, b) || KeyBefore(b, a) <==> a != b
  {
    OneBefore(KeyText(a), KeyText(b));
    if KeyText(a) == KeyText(b) { KeyTextInjective(a, b); }
  }

  /** How many keys of a listing come before a new one. */
  function Position(keys: seq<Key>, key: Key): (p: nat)
    ensures p <= |keys|
    ensures forall i :: 0 <= i < p ==> KeyBefore(keys[i], key)
    ensures p < |keys| ==> !KeyBefore(keys[p], key)
  {
    if keys == [] || !KeyBefore(keys[0], key) then 0 else 1 + Position(keys[1..], key)
  }

  function Insertion(keys: seq<Key>, key: Key): seq<Key> {
    var p := Position(keys, key);
    keys[..p] + [key] + keys[p..]
  }

  lemma AfterPosition(keys: seq<Key>, key: Key, i: nat)
    requires InKeyOrder(keys) && key !in keys && Position(keys, key) <= i < |keys|
    ensures KeyBefore(key, keys[i])
  {
    var p := Position(keys, key);
    OneKeyBefore(keys[p], key);
    if p < i { BeforeChains(KeyText(key), KeyText(keys[p]), KeyText(keys[i])); }
  }

  lemma InsertionInOrder(keys: seq<Key>, key: Key)
    requires InKeyOrder(keys) && key !in keys
    ensures InKeyOrder(Insertion(keys, key))
  {
    var p, all := Position(keys, key), Insertion(keys, key);
    assert forall i :: 0 <= i < p ==> all[i] == keys[i];
    assert forall i :: p < i < |all| ==> all[i] == keys[i - 1];
    forall i | p <= i < |keys| ensures KeyBefore(key, keys[i]) { AfterPosition(keys, key, i); }
  }

  // ----- Numerals -----

  lemma {:induction false} LastDecides(s: Text, a: byte, t: Text, b: byte)
    requires |s| == |t|
    ensures TextBefore(s + [a], t + [b]) <==> TextBefore(s, t) || (s == t && a < b)
  {
    if s != [] {
      LastDecides(s[1..], a, t[1..], b);
      assert (s + [a])[1..] == s[1..] + [a] && (t + [b])[1..] == t[1..] + [b];
      assert s == [s[0]] + s[1..] && t == [t[0]] + t[1..];
    }
  }

  /** Numerals of the same length compare as texts as they do as numbers. */
  lemma {:induction false} DecimalLess(a: nat, b: nat)
    requires a < b && |Decimal(a)| == |Decimal(b)|
    ensures TextBefore(Decimal(a), Decimal(b))
  {
    if b >= 10 {
      assert |Decimal(b)| > 1;
      assert a >= 10;
      LastDecides(Decimal(a / 10), 48 + a % 10, Decimal(b / 10), 48 + b % 10);
      if a / 10 < b / 10 { DecimalLess(a / 10, b / 10); }
    }
  }

  /** A numeral is not longer than that of a greater number. */
  lemma {:induction false} DecimalGrows(a: nat, b: nat)
    requires a <= b
    ensures |Decimal(a)| <= |Decimal(b)|
  {
    if a >= 10 { DecimalGrows(a / 10, b / 10); }
  }

  lemma {:induction false} SamePrefix(n: Text, s: Text, t: Text)
    ensures TextBefore(n + s, n + t) <==> TextBefore(s, t)
  {
    if n == [] {
      assert n + s == s && n + t == t;
    } else {
      SamePrefix(n[1..], s, t);
      assert (n + s)[1..] == n[1..] + s && (n + t)[1..] == n[1..] + t;
    }
  }

  /** Keys of one node compare as their numerals do. */
  lemma NodeKeys(n: Text, a: nat, b: nat)
    ensures KeyBefore((n, a), (n, b)) <==> TextBefore(Decimal(a), Decimal(b))
  {
    SamePrefix(n + [COLON], Decimal(a), Decimal(b));
  }

  lemma FiveDigits(x: nat)
    requires 10_000 <= x < 20_000
    ensures Decimal(x)[0] == 49
  {
    var x1 := x / 10;
    var x2 := x1 / 10;
    var x3 := x2 / 10;
    assert x3 / 10 == 1 && Decimal(1) == [49];
    assert Decimal(x3)[0] == 49;
    assert Decimal(x2)[0] == 49;
    assert Decimal(x1)[0] == 49;
  }

  lemma FourNines()
    ensures Decimal(9_999)[0] == 57
  {
    assert Decimal(9) == [57];
    assert Decimal(99)[0] == 57;
    assert Decimal(999)[0] == 57;
  }

  /** The keys 10000 to 19999 of a node all come before its key 9999. */
  lemma NinesComeLast(n: Text, x: nat)
    requires 10_000 <= x < 20_000
    ensures KeyBefore((n, x), (n, 9_999))
  {
    FiveDigits(x);
    FourNines();
    NodeKeys(n, x, 9_999);
  }
}
