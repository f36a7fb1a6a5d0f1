/** Bytes, big-endian integers, and what the proofs assume of a hash function. */
module Bytes {

  type byte = x: int | 0 <= x < 256

  type Hash = seq<byte> -> seq<byte>

  const HASH_SIZE := 32

  ghost predicate Sized(sha: Hash) {
    forall x :: |sha(x)| == HASH_SIZE
  }

  /**
   No two of these inputs collide. A hash with a fixed output size cannot be injective on
   all byte strings, so every use names the finitely many inputs it is about.
   */
  ghost predicate CollisionFree(sha: Hash, inputs: set<seq<byte>>) {
    forall x, y :: x in inputs && y in inputs && sha(x) == sha(y) ==> x == y
  }

  /** Equal concatenations with equally long fronts have equal fronts and equal backs. */
  lemma SplitEqual(a: seq<byte>, b: seq<byte>, c: seq<byte>, d: seq<byte>)
    requires a + b == c + d && |a| == |c|
    ensures a == c && b == d
  {
    assert a == (a + b)[..|a|] && c == (c + d)[..|c|];
    assert b == (a + b)[|a|..] && d == (c + d)[|c|..];
  }

  function Pow256(n: nat): nat {
    if n == 0 then 1 else 256 * Pow256(n - 1)
  }

  lemma Pow256Of8()
    ensures Pow256(2) == 0x1_0000 && Pow256(8) == 0x1_0000_0000_0000_0000
  {
    assert Pow256(1) == 0x100;
    assert Pow256(2) == 0x1_0000;
    assert Pow256(3) == 0x100_0000;
    assert Pow256(4) == 0x1_0000_0000;
    assert Pow256(5) == 0x100_0000_0000;
    assert Pow256(6) == 0x1_0000_0000_0000;
    assert Pow256(7) == 0x100_0000_0000_0000;
  }

  /** The `width` low bytes of `n`, most significant first. */
  function BigEndian(n: nat, width: nat): (s: seq<byte>)
    ensures |s| == width
  {
    if width == 0 then [] else BigEndian(n / 256, width - 1) + [n % 256]
  }

  /** The number that big-endian bytes stand for. */
  ghost function Number(b: seq<byte>): nat {
    if b == [] then 0 else 256 * Number(b[..|b| - 1]) + b[|b| - 1]
  }

  lemma {:induction false} BigEndianNumber(n: nat, width: nat)
    requires n < Pow256(width)
    ensures Number(BigEndian(n, width)) == n
  {
    if width > 0 {
      BigEndianNumber(n / 256, width - 1);
      assert BigEndian(n, width)[..width - 1] == BigEndian(n / 256, width - 1);
    } else {
      assert BigEndian(n, width) == [];
    }
  }

  /** The bytes beyond the width are dropped. */
  lemma {:induction false} BigEndianWraps(n: nat, width: nat)
    ensures Pow256(width) > 0 && BigEndian(n, width) == BigEndian(n % Pow256(width), width)
  {
    if width > 0 {
      BigEndianWraps(n / 256, width - 1);
      WrapStep(n, Pow256(width - 1));
    }
  }

  lemma WrapStep(n: nat, p: nat)
    requires p > 0
    ensures n % (256 * p) % 256 == n % 256 && n % (256 * p) / 256 == n / 256 % p
  {
    var q, r := n / 256, n % 256;
    var a, b := q / p, q % p;
    assert n == 256 * (p * a + b) + r;
    assert n == (256 * p) * a + (256 * b + r);
    assert 256 * b + r < 256 * p;
    RemainderIs(n, 256 * p, a, 256 * b + r);
  }

  lemma Multiple(d: int, k: int)
    requires d > 0 && 0 - d < d * k < d
    ensures k == 0
  {
  }

  lemma RemainderIs(n: nat, d: nat, a: nat, r: nat)
    requires r < d && n == d * a + r
    ensures n % d == r
  {
    var q := n / d;
    assert n == d * q + n % d;
    assert d * (a - q) == d * a - d * q;
    Multiple(d, a - q);
  }

  lemma {:induction false} NumberDecides(a: seq<byte>, b: seq<byte>)
    requires |a| == |b| && Number(a) == Number(b)
    ensures a == b
  {
    if a != [] {
      var n := |a| - 1;
      assert Number(a) % 256 == a[n] && Number(b) % 256 == b[n];
      NumberDecides(a[..n], b[..n]);
      assert a == a[..n] + [a[n]] && b == b[..n] + [b[n]];
    }
  }

  lemma {:induction false} BigEndianInjective(m: nat, n: nat, width: nat)
    requires m < Pow256(width) && n < Pow256(width) && BigEndian(m, width) == BigEndian(n, width)
    ensures m == n
  {
    if width > 0 {
      var s, t := BigEndian(m, width), BigEndian(n, width);
      assert s[..width - 1] == BigEndian(m / 256, width - 1) && t[..width - 1] == BigEndian(n / 256, width - 1);
      assert s[width - 1] == m % 256 && t[width - 1] == n % 256;
      BigEndianInjective(m / 256, n / 256, width - 1);
    }
  }

  /** The leading byte of a number below 2^61 in eight bytes is a control byte. */
  lemma BigEndianLeadingByte(n: nat)
    requires n < 0x2000_0000_0000_0000
    ensures BigEndian(n, 8)[0] < 0x20
  {
    var a := n / 256;
    var b := a / 256;
    var c := b / 256;
    var d := c / 256;
    var e := d / 256;
    var f := e / 256;
    var g := f / 256;
    assert BigEndian(g, 1) == [g % 256];
    assert BigEndian(n, 8)[0] == BigEndian(a, 7)[0];
    assert BigEndian(a, 7)[0] == BigEndian(b, 6)[0];
    assert BigEndian(b, 6)[0] == BigEndian(c, 5)[0];
    assert BigEndian(c, 5)[0] == BigEndian(d, 4)[0];
    assert BigEndian(d, 4)[0] == BigEndian(e, 3)[0];
    assert BigEndian(e, 3)[0] == BigEndian(f, 2)[0];
    assert BigEndian(f, 2)[0] == BigEndian(g, 1)[0];
  }
}
