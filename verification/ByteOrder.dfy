/** Unsigned numbers as byte strings, in either order. */
module ByteOrder {
  import opened Words

  function Pow256(n: nat): (p: nat)
    ensures p > 0
    decreases n
  {
    if n == 0 then 1 else 0x100 * Pow256(n - 1)
  }

  lemma {:induction false} Pow256Values()
    ensures Pow256(4) == 0x1_0000_0000 && Pow256(6) == 0x1_0000_0000_0000 && Pow256(8) == 0x1_0000_0000_0000_0000
  {
    assert Pow256(2) == 0x1_0000;
    assert Pow256(4) == 0x1_0000_0000;
    assert Pow256(6) == 0x1_0000_0000_0000;
  }

  /** The n low bytes of v, least significant first. */
  function Little(v: nat, n: nat): (s: seq<byte>)
    ensures |s| == n
    decreases n, v
  {
    if n == 0 then [] else [v % 0x100] + Little(v / 0x100, n - 1)
  }

  function FromLittle(s: seq<byte>): (v: nat)
    ensures v < Pow256(|s|)
  {
    if s == [] then 0 else s[0] + 0x100 * FromLittle(s[1..])
  }

  /** The n low bytes of v, most significant first. */
  function Big(v: nat, n: nat): (s: seq<byte>)
    ensures |s| == n
    decreases n, v
  {
    if n == 0 then [] else Big(v / 0x100, n - 1) + [v % 0x100]
  }

  function FromBig(s: seq<byte>): (v: nat)
    ensures v < Pow256(|s|)
  {
    if s == [] then 0 else FromBig(s[..|s| - 1]) * 0x100 + s[|s| - 1]
  }

  /** Dividing by 256 n times is dividing by 256^n at once. */
  lemma {:induction false} LowPart(v: nat, n: nat)
    ensures v % Pow256(n + 1) == v % 0x100 + 0x100 * ((v / 0x100) % Pow256(n))
  {
    var p, q := Pow256(n), v / 0x100;
    var r := v % 0x100 + 0x100 * (q % p);
    assert q == q / p * p + q % p;
    assert v == 0x100 * q + v % 0x100;
    assert v == (q / p) * (0x100 * p) + r by {
      assert 0x100 * (q / p * p) == (q / p) * (0x100 * p);
    }
    Remainder(v, 0x100 * p, q / p, r);
  }

  lemma {:induction false} Remainder(v: nat, m: nat, k: nat, r: nat)
    requires v == k * m + r && r < m
    ensures v % m == r
  {
    var d := v / m - k;
    assert v == v / m * m + v % m;
    assert d * m == r - v % m by {
      assert d * m == v / m * m - k * m;
    }
    Multiples(d, m);
  }

  lemma {:induction false} Multiples(d: int, m: nat)
    ensures d >= 1 ==> d * m >= m
    ensures d <= -1 ==> d * m <= 0 - m
  {
    assert d * m == (d - 1) * m + m && d * m == (d + 1) * m - m;
  }

  lemma {:induction false} FromLittleInverse(v: nat, n: nat)
    ensures FromLittle(Little(v, n)) == v % Pow256(n)
    decreases n, v
  {
    if n > 0 {
      FromLittleInverse(v / 0x100, n - 1);
      LowPart(v, n - 1);
      assert Little(v, n)[1..] == Little(v / 0x100, n - 1);
    }
  }

  lemma {:induction false} FromBigInverse(v: nat, n: nat)
    ensures FromBig(Big(v, n)) == v % Pow256(n)
    decreases n, v
  {
    if n > 0 {
      FromBigInverse(v / 0x100, n - 1);
      LowPart(v, n - 1);
      assert Big(v, n)[..n - 1] == Big(v / 0x100, n - 1);
    }
  }

  lemma {:induction false} BigInverse(s: seq<byte>)
    ensures Big(FromBig(s), |s|) == s
  {
    if s != [] {
      BigInverse(s[..|s| - 1]);
      var v := FromBig(s);
      assert v / 0x100 == FromBig(s[..|s| - 1]) && v % 0x100 == s[|s| - 1];
    }
  }
}
