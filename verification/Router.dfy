/**
  Routing by network (tunnel/router/client.go), with the byte-mask test of the net package
  that it relies on.  Membership in a network is the equality of the top bits of two numbers
  (section 3.1 of RFC 4632); the code compares masked bytes.
*/
module Router {
  import opened Bytes
  import opened Address

  // ---------- powers of two and the bits of a byte ----------

  function Pow2(n: nat): (p: nat)
    ensures p > 0
  {
    if n == 0 then 1 else 2 * Pow2(n - 1)
  }

  lemma {:induction false} Pow2Add(a: nat, b: nat)
    ensures Pow2(a + b) == Pow2(a) * Pow2(b)
  {
    if a > 0 {
      Pow2Add(a - 1, b);
      assert Pow2(a + b) == 2 * Pow2(a - 1 + b);
      DoubleProduct(Pow2(a - 1), Pow2(b));
    }
  }

  lemma DoubleProduct(x: nat, y: nat)
    ensures 2 * (x * y) == (2 * x) * y
  {
  }

  lemma Pow2Eight()
    ensures Pow2(8) == 256
  {
    assert Pow2(4) == 16;
  }

  /** Bitwise and of two numbers of `bits` bits. */
  function And(a: nat, b: nat, bits: nat): nat {
    if bits == 0 then 0 else 2 * And(a / 2, b / 2, bits - 1) + (a % 2) * (b % 2)
  }

  lemma {:induction false} AndOnes(a: nat, bits: nat)
    requires a < Pow2(bits)
    ensures And(a, Pow2(bits) - 1, bits) == a
    decreases bits
  {
    if bits > 0 {
      AndOnes(a / 2, bits - 1);
    }
  }

  /** A mask of ones above `low` zeros clears the low bits. */
  lemma {:induction false} AndMask(a: nat, low: nat, bits: nat)
    requires a < Pow2(bits) && low <= bits
    ensures Pow2(low) <= Pow2(bits) && And(a, Pow2(bits) - Pow2(low), bits) == a - a % Pow2(low)
    decreases bits
  {
    if low == 0 {
      AndOnes(a, bits);
    } else {
      var m := Pow2(low - 1);
      AndMask(a / 2, low - 1, bits - 1);
      HalfMod(a, m);
    }
  }

  lemma HalfMod(a: nat, m: nat)
    requires m > 0
    ensures a % (2 * m) == 2 * (a / 2 % m) + a % 2
  {
    var q, r := a / 2 / m, a / 2 % m;
    assert a / 2 == m * q + r;
    assert a == (2 * m) * q + (2 * r + a % 2);
    DivMod(a, 2 * m, q, 2 * r + a % 2);
  }

  lemma DivMod(a: int, d: int, q: int, r: int)
    requires d > 0 && 0 <= r < d && a == d * q + r
    ensures a / d == q && a % d == r
  {
    var x := a / d - q;
    assert d * x == r - a % d;
    assert x >= 1 ==> d * x >= d;
    assert x <= -1 ==> d * x <= -d;
  }

  lemma MulBound(x: int, c: int, v: int)
    requires 0 <= x < 256 && 0 <= v < c
    ensures 0 <= x * c + v < 256 * c
  {
    assert 0 <= x * c <= 255 * c;
  }

  lemma MulLess(d: int, a: int, b: int)
    requires d > 0 && d * a < d * b
    ensures a < b
  {
    assert a >= b ==> d * a >= d * b;
  }

  lemma DivSplit(x: int, d: int, e: int, v: int)
    requires d > 0 && e > 0 && 0 <= v < d * e
    ensures (x * (d * e) + v) / d == x * e + v / d && 0 <= v / d < e
  {
    var q, r := v / d, v % d;
    assert x * (d * e) == d * (x * e);
    assert d * (x * e) + d * q == d * (x * e + q);
    DivMod(x * (d * e) + v, d, x * e + q, r);
    MulLess(d, q, e);
    MulLess(d, -1, q);
  }

  lemma DivSmall(x: int, p: int, c: int, v: int)
    requires p > 0 && 0 <= v < c
    ensures p * c > 0 && (x * c + v) / (p * c) == x / p
  {
    var q, r := x / p, x % p;
    Distribute(p, q, r, c);
    RemainderBound(p, r, c, v);
    DivMod(x * c + v, p * c, q, r * c + v);
  }

  lemma Distribute(p: int, q: int, r: int, c: int)
    ensures (p * q + r) * c == (p * c) * q + r * c
  {
    assert (p * q) * c == (p * c) * q;
  }

  lemma RemainderBound(p: int, r: int, c: int, v: int)
    requires 0 <= r < p && 0 <= v < c
    ensures 0 <= r * c + v < p * c
  {
    assert (r + 1) * c <= p * c;
  }

  lemma ModTwice(x: int, p: int)
    requires p > 0
    ensures (x - x % p) % p == 0
  {
    DivMod(x - x % p, p, x / p, 0);
  }

  /** Two numbers with a digit below `e` are equal if both digits are. */
  lemma DigitsEqual(a: int, x: int, b: int, y: int, e: int)
    requires 0 <= x < e && 0 <= y < e
    ensures a * e + x == b * e + y <==> a == b && x == y
  {
    if a * e + x == b * e + y {
      DivMod(a * e + x, e, a, x);
      DivMod(b * e + y, e, b, y);
    }
  }

  lemma {:induction false} AndBound(a: nat, b: nat, bits: nat)
    ensures And(a, b, bits) < Pow2(bits)
  {
    if bits > 0 {
      AndBound(a / 2, b / 2, bits - 1);
      assert (a % 2) * (b % 2) <= 1;
    }
  }

  function AndByte(a: Byte, b: Byte): Byte {
    AndBound(a, b, 8);
    Pow2Eight();
    And(a, b, 8)
  }

  // ---------- masks, as the net package builds and applies them ----------

  /** How many of the first `n` bits fall into byte `i`. */
  function Ones(n: int, i: nat): (k: nat)
    ensures k <= 8
  {
    if n <= 8 * i then 0 else if n >= 8 * i + 8 then 8 else n - 8 * i
  }

  lemma {:induction false} Pow2Monotone(a: nat, b: nat)
    requires a <= b
    ensures Pow2(a) <= Pow2(b)
    decreases b
  {
    if a < b {
      Pow2Monotone(a, b - 1);
    }
  }

  /** `k` ones, then zeros. */
  function MaskByte(k: nat): Byte
    requires k <= 8
  {
    Pow2Eight();
    Pow2Monotone(8 - k, 8);
    256 - Pow2(8 - k)
  }

  /** net.CIDRMask for an address of `size` bytes; nil for a prefix out of range. */
  function CIDRMask(ones: int, size: nat): seq<Byte> {
    if 0 <= ones <= 8 * size then seq(size, i requires 0 <= i < size => MaskByte(Ones(ones, i))) else []
  }

  predicate AllOnes(mask: seq<Byte>) {
    forall i | 0 <= i < |mask| :: mask[i] == 255
  }

  function ApplyMask(ip: seq<Byte>, mask: seq<Byte>): seq<Byte>
    requires |ip| == |mask|
  {
    seq(|ip|, i requires 0 <= i < |ip| => AndByte(ip[i], mask[i]))
  }

  /** net.IP.Mask */
  function Mask(ip: seq<Byte>, mask: seq<Byte>): seq<Byte> {
    var m := if |mask| == 16 && |ip| == 4 && AllOnes(mask[..12]) then mask[12..] else mask;
    var a := if |m| == 4 && |ip| == 16 && ip[..12] == V4_IN_V6 then ip[12..] else ip;
    if |a| != |m| then [] else ApplyMask(a, m)
  }

  datatype Network = Network(number: seq<Byte>, mask: seq<Byte>)

  /** networkNumberAndMask of the net package. */
  function Normalise(n: Network): Network {
    var ip := if To4(n.number) != [] then To4(n.number) else n.number;
    if |ip| != 4 && |ip| != 16 then Network([], [])
    else if |n.mask| == 4 then (if |ip| != 4 then Network([], []) else Network(ip, n.mask))
    else if |n.mask| == 16 then Network(ip, if |ip| == 4 then n.mask[12..] else n.mask)
    else Network([], [])
  }

  /** net.IPNet.Contains */
  predicate Contains(n: Network, target: seq<Byte>) {
    var nn := Normalise(n);
    var ip := if To4(target) != [] then To4(target) else target;
    |ip| == |nn.number| && |nn.mask| == |nn.number|
    && forall i | 0 <= i < |ip| :: AndByte(nn.number[i], nn.mask[i]) == AndByte(ip[i], nn.mask[i])
  }

  datatype CIDR = CIDR(ip: seq<Byte>, prefix: int)

  /** What the loop of matchIP decides about one network. */
  predicate Hits(c: CIDR, target: seq<Byte>) {
    var isIPv6 := To4(target) == [];
    var mask := CIDRMask(c.prefix, if isIPv6 then 16 else 4);
    (To4(c.ip) == []) == isIPv6 && Contains(Network(Mask(c.ip, mask), mask), target)
  }

  // ---------- the numbers behind them ----------

  /** An address as a number, most significant byte first. */
  function Value(s: seq<Byte>): nat {
    if s == [] then 0 else s[0] * Pow2(8 * (|s| - 1)) + Value(s[1..])
  }

  /** Its first `n` bits. */
  function Top(s: seq<Byte>, n: nat): int
    requires n <= 8 * |s|
  {
    Value(s) / Pow2(8 * |s| - n)
  }

  predicate SameTop(a: seq<Byte>, b: seq<Byte>, n: int) {
    |a| == |b| && 0 <= n <= 8 * |a| && Top(a, n) == Top(b, n)
  }

  /** Membership in a network of the same family. */
  predicate InNetwork(c: CIDR, target: seq<Byte>) {
    if To4(target) != [] then To4(c.ip) != [] && SameTop(To4(c.ip), To4(target), c.prefix)
    else To4(c.ip) == [] && |target| == 16 && SameTop(c.ip, target, c.prefix)
  }

  lemma {:induction false} ValueBound(s: seq<Byte>)
    ensures Value(s) < Pow2(8 * |s|)
  {
    if s != [] {
      ValueBound(s[1..]);
      Pow2Add(8, 8 * (|s| - 1));
      Pow2Eight();
      MulBound(s[0], Pow2(8 * (|s| - 1)), Value(s[1..]));
    }
  }

  /** Taking whole first bytes off. */
  lemma TopSplit(s: seq<Byte>, n: nat)
    requires s != [] && 8 <= n <= 8 * |s|
    ensures Top(s, n) == s[0] * Pow2(n - 8) + Top(s[1..], n - 8) && 0 <= Top(s[1..], n - 8) < Pow2(n - 8)
  {
    Pow2Add(8 * |s| - n, n - 8);
    ValueBound(s[1..]);
    DivSplit(s[0], Pow2(8 * |s| - n), Pow2(n - 8), Value(s[1..]));
  }

  /** A prefix that ends inside the first byte. */
  lemma TopSmall(s: seq<Byte>, n: nat)
    requires s != [] && n < 8
    ensures Top(s, n) == s[0] / Pow2(8 - n)
  {
    Pow2Add(8 - n, 8 * (|s| - 1));
    ValueBound(s[1..]);
    DivSmall(s[0], Pow2(8 - n), Pow2(8 * (|s| - 1)), Value(s[1..]));
  }

  /** A byte without its bits behind the first `k`. */
  function Clear(b: Byte, k: nat): int
    requires k <= 8
  {
    b - b % Pow2(8 - k)
  }

  lemma MaskClears(b: Byte, k: nat)
    requires k <= 8
    ensures AndByte(b, MaskByte(k)) == Clear(b, k)
  {
    Pow2Eight();
    AndMask(b, 8 - k, 8);
  }

  lemma ClearTwice(b: Byte, k: nat)
    requires k <= 8
    ensures AndByte(AndByte(b, MaskByte(k)), MaskByte(k)) == Clear(b, k)
  {
    MaskClears(b, k);
    MaskClears(AndByte(b, MaskByte(k)), k);
    ModTwice(b, Pow2(8 - k));
  }

  ghost predicate SameMasked(a: seq<Byte>, b: seq<Byte>, n: int)
    requires |a| == |b|
  {
    forall i | 0 <= i < |a| :: Clear(a[i], Ones(n, i)) == Clear(b[i], Ones(n, i))
  }

  lemma FloorEqual(x: int, y: int, p: int)
    requires p > 0
    ensures x - x % p == y - y % p <==> x / p == y / p
  {
    var a, b := x / p, y / p;
    assert x - x % p == p * a && y - y % p == p * b;
    assert a < b ==> p * a < p * b;
    assert a > b ==> p * a > p * b;
  }

  lemma MaskedSplit(a: seq<Byte>, b: seq<Byte>, n: int)
    requires |a| == |b| > 0
    ensures SameMasked(a, b, n) <==>
      Clear(a[0], Ones(n, 0)) == Clear(b[0], Ones(n, 0)) && SameMasked(a[1..], b[1..], n - 8)
  {
    if SameMasked(a, b, n) {
      forall i | 0 <= i < |a| - 1
        ensures Clear(a[1..][i], Ones(n - 8, i)) == Clear(b[1..][i], Ones(n - 8, i))
      {
        assert Clear(a[i + 1], Ones(n, i + 1)) == Clear(b[i + 1], Ones(n, i + 1));
      }
    }
    if Clear(a[0], Ones(n, 0)) == Clear(b[0], Ones(n, 0)) && SameMasked(a[1..], b[1..], n - 8) {
      forall i | 0 < i < |a|
        ensures Clear(a[i], Ones(n, i)) == Clear(b[i], Ones(n, i))
      {
        assert Clear(a[1..][i - 1], Ones(n - 8, i - 1)) == Clear(b[1..][i - 1], Ones(n - 8, i - 1));
      }
    }
  }

  lemma NothingMasked(a: seq<Byte>, b: seq<Byte>, n: int)
    requires |a| == |b| && n <= 0
    ensures SameMasked(a, b, n)
  {
    forall i | 0 <= i < |a|
      ensures Clear(a[i], Ones(n, i)) == Clear(b[i], Ones(n, i))
    {
      AllCleared(a[i]);
      AllCleared(b[i]);
    }
  }

  lemma AllCleared(x: Byte)
    ensures Clear(x, 0) == 0
  {
    Pow2Eight();
  }

  lemma TopStep(a: seq<Byte>, b: seq<Byte>, n: int)
    requires |a| == |b| > 0 && 8 <= n <= 8 * |a|
    ensures SameTop(a, b, n) <==> a[0] == b[0] && SameTop(a[1..], b[1..], n - 8)
  {
    TopSplit(a, n);
    TopSplit(b, n);
    DigitsEqual(a[0], Top(a[1..], n - 8), b[0], Top(b[1..], n - 8), Pow2(n - 8));
  }

  lemma TopByte(a: seq<Byte>, b: seq<Byte>, n: int)
    requires |a| == |b| > 0 && 0 <= n < 8
    ensures SameTop(a, b, n) <==> Clear(a[0], n) == Clear(b[0], n)
  {
    TopSmall(a, n);
    TopSmall(b, n);
    FloorEqual(a[0], b[0], Pow2(8 - n));
  }

  /** Equal masked bytes are equal leading bits of the numbers. */
  lemma {:induction false} MaskedIsTop(a: seq<Byte>, b: seq<Byte>, n: int)
    requires |a| == |b| && 0 <= n <= 8 * |a|
    ensures SameMasked(a, b, n) <==> SameTop(a, b, n)
    decreases |a|
  {
    if a != [] {
      MaskedSplit(a, b, n);
      if n >= 8 {
        TopStep(a, b, n);
        MaskedIsTop(a[1..], b[1..], n - 8);
      } else {
        TopByte(a, b, n);
        NothingMasked(a[1..], b[1..], n - 8);
      }
    }
  }

  /** The comparison that Contains makes, on a network number that is already masked. */
  ghost predicate BytesAgree(a: seq<Byte>, b: seq<Byte>, m: seq<Byte>)
    requires |a| == |b| == |m|
  {
    forall i | 0 <= i < |a| :: AndByte(ApplyMask(a, m)[i], m[i]) == AndByte(b[i], m[i])
  }

  lemma AgreeIsTop(a: seq<Byte>, b: seq<Byte>, n: int)
    requires |a| == |b| && 0 <= n <= 8 * |a|
    ensures BytesAgree(a, b, CIDRMask(n, |a|)) <==> SameTop(a, b, n)
  {
    forall i | 0 <= i < |a|
      ensures var m := CIDRMask(n, |a|);
        && AndByte(ApplyMask(a, m)[i], m[i]) == Clear(a[i], Ones(n, i))
        && AndByte(b[i], m[i]) == Clear(b[i], Ones(n, i))
    {
      ClearTwice(a[i], Ones(n, i));
      MaskClears(b[i], Ones(n, i));
    }
    MaskedIsTop(a, b, n);
  }

  lemma ClearedIsEven(x: Byte, k: nat)
    requires k < 8
    ensures Clear(x, k) % 2 == 0
  {
    EvenFloor(x, Pow2(8 - k), Pow2(7 - k));
  }

  lemma EvenFloor(x: int, d: int, h: int)
    requires d > 0 && d == 2 * h
    ensures (x - x % d) % 2 == 0
  {
    var q := x / d;
    assert x - x % d == d * q;
    assert d * q == 2 * (h * q);
  }

  lemma OnesKeep(x: Byte)
    ensures AndByte(x, MaskByte(8)) == x
  {
    MaskClears(x, 8);
  }

  lemma OnlyOnesGiveOnes(x: Byte, k: nat)
    requires k <= 8 && AndByte(x, MaskByte(k)) == 255
    ensures k == 8
  {
    MaskClears(x, k);
    if k < 8 {
      ClearedIsEven(x, k);
    }
  }

  /** A masked number whose twelfth byte is all ones keeps its first twelve bytes. */
  lemma MappedKept(a: seq<Byte>, n: int)
    requires |a| == 16 && 0 <= n <= 128 && AndByte(a[11], MaskByte(Ones(n, 11))) == 255
    ensures forall i | 0 <= i < 12 :: AndByte(a[i], MaskByte(Ones(n, i))) == a[i]
  {
    OnlyOnesGiveOnes(a[11], Ones(n, 11));
    forall i | 0 <= i < 12
      ensures AndByte(a[i], MaskByte(Ones(n, i))) == a[i]
    {
      OnesKeep(a[i]);
    }
  }

  /** Masking never turns an IPv6 network number into a mapped IPv4 one. */
  lemma StaysIPv6(a: seq<Byte>, n: int)
    requires |a| == 16 && To4(a) == [] && 0 <= n <= 128
    ensures To4(ApplyMask(a, CIDRMask(n, 16))) == []
  {
    var masked := ApplyMask(a, CIDRMask(n, 16));
    assert masked[..12] == V4_IN_V6 ==> masked[11] == V4_IN_V6[11];
    if masked[11] == 255 {
      MappedKept(a, n);
      assert masked[..12] == a[..12];
    }
  }

  lemma HitsIPv4(c: CIDR, target: seq<Byte>)
    requires To4(target) != [] && To4(c.ip) != []
    ensures Hits(c, target) <==> SameTop(To4(c.ip), To4(target), c.prefix)
  {
    var a, b := To4(c.ip), To4(target);
    if 0 <= c.prefix <= 32 {
      var mask := CIDRMask(c.prefix, 4);
      assert Mask(c.ip, mask) == ApplyMask(a, mask);
      assert Contains(Network(ApplyMask(a, mask), mask), target) <==> BytesAgree(a, b, mask);
      AgreeIsTop(a, b, c.prefix);
    }
  }

  lemma HitsIPv6(c: CIDR, target: seq<Byte>)
    requires To4(target) == [] && To4(c.ip) == [] && |target| == 16
    ensures Hits(c, target) <==> SameTop(c.ip, target, c.prefix)
  {
    if 0 <= c.prefix <= 128 && |c.ip| == 16 {
      var mask := CIDRMask(c.prefix, 16);
      assert Mask(c.ip, mask) == ApplyMask(c.ip, mask);
      StaysIPv6(c.ip, c.prefix);
      assert Contains(Network(ApplyMask(c.ip, mask), mask), target) <==> BytesAgree(c.ip, target, mask);
      AgreeIsTop(c.ip, target, c.prefix);
    }
  }

  /**
    For every IPv4 or IPv6 target, every network address and every prefix length, in range or
    not, the byte-mask test is membership in the network as numbers.
  */
  lemma HitsExactly(c: CIDR, target: seq<Byte>)
    requires |target| == 4 || |target| == 16
    ensures Hits(c, target) <==> InNetwork(c, target)
  {
    if To4(target) != [] && To4(c.ip) != [] {
      HitsIPv4(c, target);
    } else if To4(target) == [] && To4(c.ip) == [] {
      HitsIPv6(c, target);
    }
  }

  /** A network whose address or prefix makes no sense is empty, but an address without bytes is in it. */
  predicate NoNetwork(c: CIDR) {
    To4(c.ip) == [] && !(|c.ip| == 16 && 0 <= c.prefix <= 128)
  }

  lemma HitsNothing(c: CIDR, target: seq<Byte>)
    requires |target| != 4 && |target| != 16
    ensures Hits(c, target) <==> target == [] && NoNetwork(c)
  {
    var mask := CIDRMask(c.prefix, 16);
    if To4(c.ip) == [] && |c.ip| == 16 && 0 <= c.prefix <= 128 {
      StaysIPv6(c.ip, c.prefix);
      assert |ApplyMask(c.ip, mask)| == 16;
    }
  }

  /** A target belongs to a network: as numbers, or it has no bytes and the network makes no sense. */
  predicate Member(c: CIDR, target: seq<Byte>) {
    InNetwork(c, target) || (target == [] && NoNetwork(c))
  }

  lemma HitsMember(c: CIDR, target: seq<Byte>)
    ensures Hits(c, target) <==> Member(c, target)
  {
    if |target| == 4 || |target| == 16 {
      HitsExactly(c, target);
    } else {
      HitsNothing(c, target);
    }
  }

  // ---------- policies ----------

  const BLOCK := 0
  const BYPASS := 1
  const PROXY := 2

  const AS_IS := 0
  const IP_IF_NON_MATCH := 1
  const IP_ON_DEMAND := 2

  /** The body of its loop. */
  method MatchOne(c: CIDR, target: seq<Byte>, isIPv6: bool, len: nat) returns (hit: bool)
    requires isIPv6 == (To4(target) == []) && len == if isIPv6 then 16 else 4
    ensures hit == Hits(c, target)
  {
    var mask := CIDRMask(c.prefix, len);
    if (To4(c.ip) != []) == isIPv6 {
      return false;
    }
    var subnet := Network(Mask(c.ip, mask), mask);
    hit := Contains(subnet, target);
  }

  /** matchIP */
  method MatchIP(list: seq<CIDR>, target: seq<Byte>) returns (found: bool)
    ensures found <==> Listed(list, target)
    ensures found <==> Covers(list, target)
  {
    CoversExactly(list, target);
    var isIPv6 := true;
    var len := 16;
    if To4(target) != [] {
      len, isIPv6 := 4, false;
    }
    for k := 0 to |list|
      invariant !Listed(list[..k], target)
    {
      assert list[..k + 1][..k] == list[..k];
      var hit := MatchOne(list[k], target, isIPv6, len);
      if hit {
        ListedLonger(list, k + 1, target);
        return true;
      }
    }
    assert list[..|list|] == list;
    found := false;
  }

  /** Some network of the list hits. */
  predicate Listed(list: seq<CIDR>, target: seq<Byte>) {
    list != [] && (Listed(list[..|list| - 1], target) || Hits(list[|list| - 1], target))
  }

  lemma {:induction false} ListedLonger(list: seq<CIDR>, k: nat, target: seq<Byte>)
    requires k <= |list| && Listed(list[..k], target)
    ensures Listed(list, target)
    decreases |list|
  {
    if k == |list| {
      assert list[..k] == list;
    } else {
      assert list[..|list| - 1][..k] == list[..k];
      ListedLonger(list[..|list| - 1], k, target);
    }
  }

  /** The rules of a client; `domainHits(i, name)` is the outcome of matchDomain on the i-th list. */
  datatype Rules = Rules(
    cidrs: seq<seq<CIDR>>,
    domainHits: (nat, seq<Byte>) -> bool,
    defaultPolicy: int,
    domainStrategy: int)

  ghost predicate Valid(r: Rules) {
    |r.cidrs| == 3
  }

  /** An outcome of a lookup by address: a policy, or none. */
  datatype Choice = Policy(i: nat) | NoPolicy

  /** The first of the lists from the i-th on that contains the address. */
  function ByIP(r: Rules, ip: seq<Byte>, i: nat := 0): Choice
    requires Valid(r)
    decreases 3 - i
  {
    if i >= 3 then NoPolicy else if Listed(r.cidrs[i], ip) then Policy(i) else ByIP(r, ip, i + 1)
  }

  function ByName(r: Rules, name: seq<Byte>, i: nat := 0): Choice
    decreases 3 - i
  {
    if i >= 3 then NoPolicy else if r.domainHits(i, name) then Policy(i) else ByName(r, name, i + 1)
  }

  datatype Resolution = Resolved(ip: seq<Byte>) | Unresolved

  function ByResolved(r: Rules, resolved: Resolution): Choice
    requires Valid(r)
  {
    match resolved
    case Resolved(ip) => ByIP(r, ip)
    case Unresolved => NoPolicy
  }

  function OrElse(c: Choice, d: Choice): Choice {
    if c.Policy? then c else d
  }

  /** Which lookups a name goes through, in order, under each strategy. */
  function ByStrategy(r: Rules, name: seq<Byte>, resolved: Resolution): Choice
    requires Valid(r)
  {
    if r.domainStrategy == IP_ON_DEMAND then OrElse(ByResolved(r, resolved), ByName(r, name))
    else if r.domainStrategy == IP_IF_NON_MATCH then OrElse(ByName(r, name), ByResolved(r, resolved))
    else ByName(r, name)
  }

  function OrDefault(c: Choice, r: Rules): int {
    if c.Policy? then c.i else r.defaultPolicy
  }

  method FirstByIP(r: Rules, ip: seq<Byte>) returns (c: Choice)
    requires Valid(r)
    ensures c == ByIP(r, ip)
  {
    for i := BLOCK to PROXY + 1
      invariant ByIP(r, ip) == ByIP(r, ip, i)
    {
      var found := MatchIP(r.cidrs[i], ip);
      if found {
        return Policy(i);
      }
    }
    c := NoPolicy;
  }

  method FirstByName(r: Rules, name: seq<Byte>) returns (c: Choice)
    ensures c == ByName(r, name)
  {
    for i := BLOCK to PROXY + 1
      invariant ByName(r, name) == ByName(r, name, i)
    {
      if r.domainHits(i, name) {
        return Policy(i);
      }
    }
    c := NoPolicy;
  }

  /** Route; `resolved` is what resolving the name gives. */
  method Decide(r: Rules, address: Address, resolved: Resolution) returns (policy: int)
    requires Valid(r)
    ensures policy == OrDefault(
      if address.kind == DOMAIN_NAME then ByStrategy(r, address.domain, resolved) else ByIP(r, address.ip), r)
  {
    var c := NoPolicy;
    if address.kind == DOMAIN_NAME {
      if r.domainStrategy == IP_ON_DEMAND && resolved.Resolved? {
        c := FirstByIP(r, resolved.ip);
        if c.Policy? {
          return c.i;
        }
      }
      c := FirstByName(r, address.domain);
      if c.Policy? {
        return c.i;
      }
      if r.domainStrategy == IP_IF_NON_MATCH && resolved.Resolved? {
        c := FirstByIP(r, resolved.ip);
        if c.Policy? {
          return c.i;
        }
      }
    } else {
      c := FirstByIP(r, address.ip);
      if c.Policy? {
        return c.i;
      }
    }
    return r.defaultPolicy;
  }

  /** The address belongs to some network of the list. */
  ghost predicate Covers(list: seq<CIDR>, ip: seq<Byte>) {
    exists k :: 0 <= k < |list| && Member(list[k], ip)
  }

  lemma CoversSnoc(list: seq<CIDR>, ip: seq<Byte>)
    requires list != []
    ensures Covers(list, ip) <==> Covers(list[..|list| - 1], ip) || Member(list[|list| - 1], ip)
  {
    var rest := list[..|list| - 1];
    if k :| 0 <= k < |list| && Member(list[k], ip) {
      assert k < |rest| ==> rest[k] == list[k];
    }
    if k :| 0 <= k < |rest| && Member(rest[k], ip) {
      assert list[k] == rest[k];
    }
  }

  lemma {:induction false} CoversExactly(list: seq<CIDR>, ip: seq<Byte>)
    ensures Listed(list, ip) <==> Covers(list, ip)
    decreases |list|
  {
    if list != [] {
      CoversSnoc(list, ip);
      HitsMember(list[|list| - 1], ip);
      CoversExactly(list[..|list| - 1], ip);
    }
  }

  ghost predicate IsLeast(r: Rules, ip: seq<Byte>, i: nat, c: Choice)
    requires Valid(r)
  {
    match c
    case Policy(k) => i <= k < 3 && Covers(r.cidrs[k], ip) && forall j | i <= j < k :: !Covers(r.cidrs[j], ip)
    case NoPolicy => forall j | i <= j < 3 :: !Covers(r.cidrs[j], ip)
  }

  /**
    On an IP address the policy is the least one, in the order Block, Bypass, Proxy, whose
    networks contain the address as a number; the default only if none does.
  */
  lemma {:induction false} LeastPolicy(r: Rules, ip: seq<Byte>, i: nat)
    requires Valid(r)
    ensures IsLeast(r, ip, i, ByIP(r, ip, i))
    decreases 3 - i
  {
    if i < 3 {
      CoversExactly(r.cidrs[i], ip);
      LeastPolicy(r, ip, i + 1);
    }
  }

  /** There is only one least policy. */
  lemma LeastUnique(r: Rules, ip: seq<Byte>, c: Choice)
    requires Valid(r) && IsLeast(r, ip, 0, c)
    ensures c == ByIP(r, ip)
  {
    LeastPolicy(r, ip, 0);
    var d := ByIP(r, ip);
    assert c.Policy? && d.Policy? ==> !(c.i < d.i) && !(d.i < c.i);
  }

  /** By name: the least list with a domain rule for it. */
  lemma {:induction false} LeastName(r: Rules, name: seq<Byte>, i: nat)
    ensures match ByName(r, name, i)
      case Policy(k) => i <= k < 3 && r.domainHits(k, name) && forall j | i <= j < k :: !r.domainHits(j, name)
      case NoPolicy => forall j | i <= j < 3 :: !r.domainHits(j, name)
    decreases 3 - i
  {
    if i < 3 {
      LeastName(r, name, i + 1);
    }
  }

  /** The number `k` is the least of 0, 1, 2 for which the list covers the address. */
  ghost predicate FirstCovering(r: Rules, ip: seq<Byte>, k: int)
    requires Valid(r)
  {
    0 <= k < 3 && Covers(r.cidrs[k], ip) && forall j | 0 <= j < k :: !Covers(r.cidrs[j], ip)
  }

  ghost predicate NoneCovers(r: Rules, ip: seq<Byte>)
    requires Valid(r)
  {
    !Covers(r.cidrs[0], ip) && !Covers(r.cidrs[1], ip) && !Covers(r.cidrs[2], ip)
  }

  ghost predicate FirstNaming(r: Rules, name: seq<Byte>, k: int) {
    0 <= k < 3 && r.domainHits(k, name) && forall j: nat | j < k :: !r.domainHits(j, name)
  }

  predicate NoneNames(r: Rules, name: seq<Byte>) {
    !r.domainHits(0, name) && !r.domainHits(1, name) && !r.domainHits(2, name)
  }

  lemma ByIPIs(r: Rules, ip: seq<Byte>)
    requires Valid(r)
    ensures match ByIP(r, ip) case Policy(k) => FirstCovering(r, ip, k) case NoPolicy => NoneCovers(r, ip)
  {
    LeastPolicy(r, ip, 0);
  }

  lemma ByNameIs(r: Rules, name: seq<Byte>)
    ensures match ByName(r, name) case Policy(k) => FirstNaming(r, name, k) case NoPolicy => NoneNames(r, name)
  {
    LeastName(r, name, 0);
  }

  /**
    Route.  An address goes to the first of Block, Bypass, Proxy that covers it, else to the
    default.  A name goes by the domain rules; under IPOnDemand the resolved address comes
    before them, under IPIfNonMatch behind them, and a name that does not resolve has none.
  */
  method Route(r: Rules, address: Address, resolved: Resolution) returns (policy: int)
    requires Valid(r)
    ensures address.kind != 3 ==>
      FirstCovering(r, address.ip, policy) || (NoneCovers(r, address.ip) && policy == r.defaultPolicy)
    ensures address.kind == 3 && r.domainStrategy != 1 && (r.domainStrategy != 2 || resolved.Unresolved?) ==>
      FirstNaming(r, address.domain, policy) || (NoneNames(r, address.domain) && policy == r.defaultPolicy)
    ensures address.kind == 3 && r.domainStrategy == 2 && resolved.Resolved? ==>
      || FirstCovering(r, resolved.ip, policy)
      || (NoneCovers(r, resolved.ip) && FirstNaming(r, address.domain, policy))
      || (NoneCovers(r, resolved.ip) && NoneNames(r, address.domain) && policy == r.defaultPolicy)
    ensures address.kind == 3 && r.domainStrategy == 1 ==>
      || FirstNaming(r, address.domain, policy)
      || (NoneNames(r, address.domain) && resolved.Resolved? && FirstCovering(r, resolved.ip, policy))
      || (NoneNames(r, address.domain) && (resolved.Unresolved? || NoneCovers(r, resolved.ip))
          && policy == r.defaultPolicy)
  {
    policy := Decide(r, address, resolved);
    ByIPIs(r, address.ip);
    ByNameIs(r, address.domain);
    if resolved.Resolved? {
      ByIPIs(r, resolved.ip);
    }
  }
}
