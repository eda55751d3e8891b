/** The Curve25519 scalar that is clamped out of a digest (section 5 of RFC 7748). */
module KeyEncoding {
  type Bytes = seq<bv8>

  // -------------------------------------------------------------- arithmetic

  lemma MulStep(m: nat, a: nat, b: nat)
    requires a < b
    ensures m * a + m <= m * b
  {
    assert m * b == m * (b - a) + m * a;
    assert m * (b - a) == m + m * (b - a - 1);
  }

  lemma ModUnique(x: nat, m: nat, q: nat, r: nat)
    requires x == m * q + r && r < m
    ensures x % m == r
  {
    var d, e := x / m, x % m;
    assert x == m * d + e && e < m;
    if d < q {
      MulStep(m, d, q);
    } else if q < d {
      MulStep(m, q, d);
    }
  }

  /** Adding multiples of a multiple of eight keeps the three low bits. */
  lemma LowBitsKept(p: nat, r: nat, low: nat)
    requires p % 8 == 0
    ensures (low + p * r) % 8 == low % 8
  {
    var k := p / 8;
    assert p == 8 * k;
    assert p * r == 8 * (k * r);
  }

  lemma TopBitsCut(p: nat, low: nat, high: nat)
    requires low < p
    ensures (low + p * high) % (64 * p) == low + p * (high % 64)
  {
    var q, r := high / 64, high % 64;
    MulStep(p, r, 64);
    assert p * high == (64 * p) * q + p * r;
    ModUnique(low + p * high, 64 * p, q, low + p * r);
  }

  lemma Shifted(b: nat, p: nat, low: nat, high: nat)
    ensures b + 256 * (low + p * high) == (b + 256 * low) + 256 * p * high
  {
    assert 256 * (p * high) == 256 * p * high;
  }

  // ----------------------------------------------------------------- numbers

  function Power(base: nat, e: nat): (p: nat)
    ensures base > 0 ==> p > 0
  {
    if e == 0 then 1 else base * Power(base, e - 1)
  }

  /** The number a little-endian string of bytes denotes. */
  function LittleEndian(s: Bytes): nat {
    if s == [] then 0 else s[0] as nat + 256 * LittleEndian(s[1..])
  }

  /** Clears the three lowest bits and the highest one, and sets the one below it. */
  function Clamped(s: Bytes): (r: Bytes)
    requires |s| >= 2
    ensures |r| == |s|
  {
    s[0 := s[0] & 248][|s| - 1 := (s[|s| - 1] & 127) | 64]
  }

  /** The weight of the second highest bit: 2 to the 254 for 32 bytes. */
  function TopBit(s: Bytes): (p: nat)
    requires |s| >= 2
    ensures p > 0
  {
    Power(2, 8 * |s| - 2)
  }

  lemma LowBits(b: bv8)
    ensures (b & 248) as nat == b as nat - b as nat % 8
  {
  }

  lemma HighBits(b: bv8)
    ensures ((b & 127) | 64) as nat == 64 + b as nat % 64
  {
  }

  lemma ByteBound(b: bv8)
    ensures b as nat < 256
  {
  }

  lemma {:induction false} LittleEndianSplit(s: Bytes, n: nat)
    requires n <= |s|
    ensures LittleEndian(s) == LittleEndian(s[..n]) + Power(256, n) * LittleEndian(s[n..])
    ensures LittleEndian(s[..n]) < Power(256, n)
  {
    if n == 0 {
      assert s[0..] == s;
    } else {
      var tail := s[1..];
      LittleEndianSplit(tail, n - 1);
      assert s[..n][1..] == tail[..n - 1] && s[n..] == tail[n - 1..];
      Shifted(s[0] as nat, Power(256, n - 1), LittleEndian(tail[..n - 1]), LittleEndian(s[n..]));
      ByteBound(s[0]);
    }
  }

  lemma {:induction false} PowerOfTwo(k: nat)
    ensures Power(2, 8 * k) == Power(256, k)
  {
    if k > 0 {
      PowerOfTwo(k - 1);
      var e := 8 * (k - 1);
      assert Power(2, e + 8) == 256 * Power(2, e) by {
        TwoBitsUp(e);
        TwoBitsUp(e + 2);
        TwoBitsUp(e + 4);
        TwoBitsUp(e + 6);
      }
    }
  }

  lemma TopBitOf(s: Bytes)
    requires |s| >= 2
    ensures TopBit(s) == 64 * Power(256, |s| - 1) && Power(256, |s| - 1) % 8 == TopBit(s) % 8 == 0
  {
    var e := 8 * (|s| - 1);
    PowerOfTwo(|s| - 1);
    TwoBitsUp(e);
    TwoBitsUp(e + 2);
    TwoBitsUp(e + 4);
    assert Power(256, |s| - 1) == 256 * Power(256, |s| - 2);
    hide Power;
    Multiples(Power(256, |s| - 2));
  }

  lemma TwoBitsUp(e: nat)
    ensures Power(2, e + 2) == 4 * Power(2, e)
  {
    assert Power(2, e + 2) == 2 * Power(2, e + 1);
  }

  lemma Multiples(p: nat)
    ensures (256 * p) % 8 == 0 && (64 * (256 * p)) % 8 == 0
  {
  }

  /** The number in its low bytes and its highest one. */
  lemma HighByte(s: Bytes)
    requires |s| >= 2
    ensures var k := |s| - 1;
            && LittleEndian(s) == LittleEndian(s[..k]) + Power(256, k) * s[k] as nat
            && LittleEndian(s[..k]) < Power(256, k)
            && LittleEndian(s[..k]) == s[0] as nat + 256 * LittleEndian(s[1..k])
  {
    var k := |s| - 1;
    LittleEndianSplit(s, k);
    assert s[k..] == [s[k]] && s[..k][1..] == s[1..k];
    OneByte(s[k]);
    hide Power;
  }

  lemma OneByte(b: bv8)
    ensures LittleEndian([b]) == b as nat
  {
    assert [b][1..] == [];
  }

  /** The bits below the second highest one. */
  lemma LowPart(s: Bytes)
    requires |s| >= 2
    ensures var k, low := |s| - 1, LittleEndian(s) % TopBit(s);
            && low == LittleEndian(s[..k]) + Power(256, k) * (s[k] as nat % 64)
            && low % 8 == s[0] as nat % 8
  {
    hide Power, LittleEndian, TopBit;
    var k := |s| - 1;
    HighByte(s);
    TopBitOf(s);
    var p, low, high := Power(256, k), LittleEndian(s[..k]), s[k] as nat;
    TopBitsCut(p, low, high);
    LowBitsKept(p, high % 64, low);
    LowBitsKept(256, LittleEndian(s[1..k]), s[0] as nat);
  }

  lemma Reassembled(p: nat, r: nat, low: nat, cleared: nat)
    requires cleared <= low
    ensures (low - cleared) + p * (64 + r) == 64 * p + ((low + p * r) - cleared)
  {
    assert p * (64 + r) == 64 * p + p * r;
  }

  /** The low bytes and the highest byte after clamping. */
  lemma ClampedParts(s: Bytes)
    requires |s| >= 2
    ensures var k, r := |s| - 1, Clamped(s);
            && s[0] as nat % 8 <= LittleEndian(s[..k])
            && LittleEndian(r[..k]) == LittleEndian(s[..k]) - s[0] as nat % 8
            && r[k] as nat == 64 + s[k] as nat % 64
  {
    hide Power, LittleEndian, TopBit;
    var r, k := Clamped(s), |s| - 1;
    HighByte(s);
    HighByte(r);
    LowBits(s[0]);
    HighBits(s[k]);
    assert s[1..k] == r[1..k];
  }

  /** Clamping sets the second highest bit, clears the highest and the three lowest, and keeps every other bit. */
  lemma ClampMeans(s: Bytes)
    requires |s| >= 2
    ensures var low := LittleEndian(s) % TopBit(s);
            LittleEndian(Clamped(s)) == TopBit(s) + (low - low % 8)
  {
    hide Power, LittleEndian, TopBit, Clamped;
    var k := |s| - 1;
    LowPart(s);
    ClampedParts(s);
    HighByte(Clamped(s));
    TopBitOf(s);
    Reassembled(Power(256, k), s[k] as nat % 64, LittleEndian(s[..k]), s[0] as nat % 8);
  }

  /** A multiple of eight whose highest bit is the given one. */
  predicate IsScalar(n: nat, top: nat) {
    top <= n < 2 * top && n % 8 == 0
  }

  lemma EightDivides(top: nat, low: nat)
    requires top % 8 == 0
    ensures (top + (low - low % 8)) % 8 == 0
  {
  }

  lemma ScalarIsFixed(n: nat, top: nat)
    requires top % 8 == 0 && IsScalar(n, top)
    ensures var low := n % top; top + (low - low % 8) == n
  {
    ModUnique(n, top, 1, n - top);
  }

  /** Clamping makes a scalar of any bytes, and clamping again changes nothing. */
  lemma ClampYieldsScalar(s: Bytes)
    requires |s| >= 2
    ensures IsScalar(LittleEndian(Clamped(s)), TopBit(s)) && Clamped(Clamped(s)) == Clamped(s)
  {
    hide Power, LittleEndian, TopBit;
    ClampMeans(s);
    TopBitOf(s);
    EightDivides(TopBit(s), LittleEndian(s) % TopBit(s));
    var b := s[|s| - 1];
    assert (((b & 127) | 64) & 127) | 64 == (b & 127) | 64;
    assert (s[0] & 248) & 248 == s[0] & 248;
  }

  /** Exactly the encodings of scalars are left alone. */
  lemma ClampFixesScalars(s: Bytes)
    requires |s| >= 2
    ensures Clamped(s) == s <==> IsScalar(LittleEndian(s), TopBit(s))
  {
    hide Power, LittleEndian, TopBit, Clamped;
    var n, top := LittleEndian(s), TopBit(s);
    if IsScalar(n, top) {
      ClampMeans(s);
      TopBitOf(s);
      ScalarIsFixed(n, top);
      LittleEndianInjective(s, Clamped(s));
    } else {
      ClampYieldsScalar(s);
    }
  }

  lemma {:induction false} LittleEndianInjective(a: Bytes, b: Bytes)
    requires |a| == |b| && LittleEndian(a) == LittleEndian(b)
    ensures a == b
  {
    if a != [] {
      ModUnique(LittleEndian(a), 256, LittleEndian(a[1..]), a[0] as nat);
      ModUnique(LittleEndian(b), 256, LittleEndian(b[1..]), b[0] as nat);
      ByteInjective(a[0], b[0]);
      LittleEndianInjective(a[1..], b[1..]);
      assert a == [a[0]] + a[1..] && b == [b[0]] + b[1..];
    }
  }

  lemma ByteInjective(a: bv8, b: bv8)
    requires a as nat == b as nat
    ensures a == b
  {
    assert (a as nat) as bv8 == a && (b as nat) as bv8 == b;
  }

  /** A 32-byte key is clamped to a multiple of eight from 2 to the 254 up to 2 to the 255. */
  lemma SecretKeyRange(digest: Bytes)
    requires |digest| == 64
    ensures var n := LittleEndian(Clamped(digest[..32])); Power(2, 254) <= n < Power(2, 255) && n % 8 == 0
  {
    hide LittleEndian;
    ClampYieldsScalar(digest[..32]);
    assert TopBit(digest[..32]) == Power(2, 254);
  }

  /** The secret key cut from a 64-byte digest and clamped in place. */
  method SecretKeyFromDigest(digest: Bytes) returns (secretKey: array<bv8>)
    requires |digest| == 64
    ensures fresh(secretKey) && secretKey[..] == Clamped(digest[..32])
  {
    secretKey := new bv8[32];
    for i := 0 to 32
      invariant secretKey[..i] == digest[..i]
    {
      secretKey[i] := digest[i];
    }
    assert secretKey[..] == digest[..32];
    secretKey[0] := secretKey[0] & 248;
    secretKey[31] := secretKey[31] & 127;
    secretKey[31] := secretKey[31] | 64;
  }
}
