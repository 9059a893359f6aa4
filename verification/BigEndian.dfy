/** Fixed-width big-endian numbers, as `to_be_bytes` and `from_be_bytes` lay them out. */
module BigEndian {
  import opened Base

  function Pow256(width: nat): (p: nat)
    ensures p > 0
  {
    if width == 0 then 1 else 256 * Pow256(width - 1)
  }

  /** The low `width` bytes of `n`, most significant first. */
  function Bytes(n: nat, width: nat): (s: seq<byte>)
    ensures |s| == width
    decreases width
  {
    if width == 0 then [] else Bytes(n / 256, width - 1) + [n % 256]
  }

  function Number(s: seq<byte>): nat {
    if s == [] then 0 else 256 * Number(s[..|s| - 1]) + s[|s| - 1]
  }

  lemma {:induction false} NumberFits(s: seq<byte>)
    ensures Number(s) < Pow256(|s|)
  {
    if s != [] { NumberFits(s[..|s| - 1]); }
  }

  /** Reading back what was written gives the number cut to the width. */
  lemma {:induction false} NumberOfBytes(n: nat, width: nat)
    ensures Number(Bytes(n, width)) == n % Pow256(width)
    decreases width
  {
    if width > 0 {
      var s := Bytes(n, width);
      assert s[..|s| - 1] == Bytes(n / 256, width - 1);
      NumberOfBytes(n / 256, width - 1);
      DivMod(n, Pow256(width - 1));
    }
  }

  lemma DivMod(n: nat, p: nat)
    requires p > 0
    ensures n % (256 * p) == 256 * (n / 256 % p) + n % 256
  {
    var q := n / 256;
    var r := 256 * (q % p) + n % 256;
    assert q == p * (q / p) + q % p;
    assert n == 256 * p * (q / p) + r;
    Remainder(n, 256 * p, q / p, r);
  }

  lemma Remainder(n: nat, d: nat, q: nat, r: nat)
    requires d > 0 && r < d && n == d * q + r
    ensures n % d == r
  {
    var k := n / d - q;
    assert d * k == d * (n / d) - d * q;
    if k >= 1 {
      AtLeast(d, k);
    } else if k <= -1 {
      AtLeast(d, -k);
    }
  }

  lemma AtLeast(d: nat, k: nat)
    requires k >= 1
    ensures d * k >= d
  {
    assert d * k == d + d * (k - 1);
  }

  lemma {:induction false} BytesOfNumber(s: seq<byte>)
    ensures Bytes(Number(s), |s|) == s
  {
    if s != [] {
      BytesOfNumber(s[..|s| - 1]);
      assert Number(s) / 256 == Number(s[..|s| - 1]);
    }
  }

  lemma Widths()
    ensures Pow256(4) == 0x1_0000_0000
    ensures Pow256(8) == U64_MAX + 1
    ensures Pow256(16) == U128_MAX + 1
    ensures Pow256(20) == ADDRESS_MAX + 1
    ensures Pow256(32) == HASH_MAX + 1
  {
  }

  lemma Fits(n: nat, width: nat)
    requires n < Pow256(width)
    ensures Number(Bytes(n, width)) == n
  {
    NumberOfBytes(n, width);
  }
}
