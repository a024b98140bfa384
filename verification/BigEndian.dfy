/** Fixed-width big-endian integers, the one number format of the frame header,
    the frame nonce, the key-derivation info string and the Redb key. */
module BigEndian {
  type Byte = n: nat | n < 256

  const U32_MAX: nat := 0xFFFF_FFFF
  const U64_MAX: nat := 0xFFFF_FFFF_FFFF_FFFF
  const U128_MAX: nat := 0xFFFF_FFFF_FFFF_FFFF_FFFF_FFFF_FFFF_FFFF

  type U32 = n: nat | n <= 0xFFFF_FFFF
  type U64 = n: nat | n <= 0xFFFF_FFFF_FFFF_FFFF
  type U128 = n: nat | n <= 0xFFFF_FFFF_FFFF_FFFF_FFFF_FFFF_FFFF_FFFF

  function Pow256(w: nat): (p: nat)
    ensures p > 0
  {
    if w == 0 then 1 else 256 * Pow256(w - 1)
  }

  /** The number a byte string denotes, most significant byte first. */
  function Value(bs: seq<Byte>): (n: nat)
    ensures n < Pow256(|bs|)
  {
    if bs == [] then 0 else 256 * Value(bs[..|bs| - 1]) + bs[|bs| - 1] as nat
  }

  /** `n.to_be_bytes()` for a `w`-byte integer. */
  function ToBytes(n: nat, w: nat): (bs: seq<Byte>)
    requires n < Pow256(w)
    ensures |bs| == w
    ensures Value(bs) == n
  {
    if w == 0 then []
    else
      var init := ToBytes(n / 256, w - 1);
      assert (init + [n % 256])[..w - 1] == init;
      init + [n % 256]
  }

  lemma {:induction false} ValueConcat(x: seq<Byte>, y: seq<Byte>)
    ensures Value(x + y) == Value(x) * Pow256(|y|) + Value(y)
  {
    if y == [] {
      assert x + y == x;
    } else {
      var init := y[..|y| - 1];
      assert (x + y)[..|x + y| - 1] == x + init;
      ValueConcat(x, init);
      AppendDigit(Value(x), Pow256(|init|), Value(init), y[|y| - 1]);
    }
  }

  lemma AppendDigit(a: nat, p: nat, v: nat, d: nat)
    ensures 256 * (a * p + v) + d == a * (256 * p) + (256 * v + d)
  {
  }

  /** The leading byte counts in units of the remaining width. */
  lemma ValueOfFirst(bs: seq<Byte>)
    requires bs != []
    ensures Value(bs) == bs[0] as nat * Pow256(|bs| - 1) + Value(bs[1..])
  {
    var first := bs[..1];
    assert bs == first + bs[1..];
    ValueConcat(first, bs[1..]);
    assert Value(first) == bs[0] as nat by {
      assert first[..0] == [];
    }
  }

  /** Byte-lexicographic order, the order of a Redb table. */
  predicate LexLess(x: seq<Byte>, y: seq<Byte>) {
    if y == [] then false
    else if x == [] then true
    else x[0] < y[0] || (x[0] == y[0] && LexLess(x[1..], y[1..]))
  }

  /** On strings of one length, byte order is numeric order. */
  lemma {:induction false} LexIsNumeric(x: seq<Byte>, y: seq<Byte>)
    requires |x| == |y|
    ensures LexLess(x, y) <==> Value(x) < Value(y)
  {
    if x != [] {
      LexIsNumeric(x[1..], y[1..]);
      ValueOfFirst(x);
      ValueOfFirst(y);
      var p := Pow256(|x| - 1);
      if x[0] < y[0] {
        LeadingDigitDecides(x[0], y[0], p, Value(x[1..]), Value(y[1..]));
      } else if y[0] < x[0] {
        LeadingDigitDecides(y[0], x[0], p, Value(y[1..]), Value(x[1..]));
      }
    }
  }

  lemma LeadingDigitDecides(d: nat, e: nat, p: nat, v: nat, w: nat)
    requires d < e && v < p
    ensures d * p + v < e * p + w
  {
    hide *;
    assert d * p + p == (d + 1) * p <= e * p;
  }

  /** A byte string is determined by its length and its number. */
  lemma {:induction false} ValueInjective(x: seq<Byte>, y: seq<Byte>)
    requires |x| == |y| && Value(x) == Value(y)
    ensures x == y
  {
    if x != [] {
      ValueInjective(x[..|x| - 1], y[..|y| - 1]);
      assert x == x[..|x| - 1] + [x[|x| - 1]] && y == y[..|y| - 1] + [y[|y| - 1]];
    }
  }

  /** Re-encoding the number of a byte string gives the string back. */
  lemma ToBytesOfValue(bs: seq<Byte>)
    ensures Value(bs) < Pow256(|bs|) && ToBytes(Value(bs), |bs|) == bs
  {
    ValueInjective(ToBytes(Value(bs), |bs|), bs);
  }

  lemma {:induction false} PowSum(a: nat, b: nat)
    ensures Pow256(a + b) == Pow256(a) * Pow256(b)
  {
    if a > 0 {
      PowSum(a - 1, b);
    }
  }

  lemma Widths()
    ensures Pow256(4) == U32_MAX + 1
    ensures Pow256(8) == U64_MAX + 1
    ensures Pow256(16) == U128_MAX + 1
  {
    assert Pow256(4) == 0x1_0000_0000;
    PowSum(4, 4);
    PowSum(8, 8);
  }

  function Be32(n: U32): (bs: seq<Byte>)
    ensures |bs| == 4 && Value(bs) == n
  {
    Widths(); ToBytes(n, 4)
  }

  function Be64(n: U64): (bs: seq<Byte>)
    ensures |bs| == 8 && Value(bs) == n
  {
    Widths(); ToBytes(n, 8)
  }

  function Be128(n: U128): (bs: seq<Byte>)
    ensures |bs| == 16 && Value(bs) == n
  {
    Widths(); ToBytes(n, 16)
  }
}
