/** The address arithmetic that picks MetalLB's range from the docker network's CIDR block. Prefixes,
    network and broadcast addresses as in section 3.1 of RFC 4632. */
module Cidr {

  /** Four printed numbers; they form an address when each is an octet. */
  datatype Address = Address(a: int, b: int, c: int, d: int)

  type Prefix = p: nat | p <= 32

  predicate IsAddress(x: Address) {
    0 <= x.a <= 255 && 0 <= x.b <= 255 && 0 <= x.c <= 255 && 0 <= x.d <= 255
  }

  function Word(x: Address): int {
    256 * (256 * (256 * x.a + x.b) + x.c) + x.d
  }

  // ---- numbers as bits, the most significant first ----

  type Bits = seq<bool>

  /** The last k bits of a number, in two's complement when it is negative. */
  function BitsOf(n: int, k: nat): (s: Bits)
    ensures |s| == k
    decreases k, n
  {
    if k == 0 then [] else BitsOf(n / 2, k - 1) + [n % 2 == 1]
  }

  function Val(s: Bits): nat {
    Upto(s, |s|)
  }

  /** The value of the first n bits. */
  function Upto(s: Bits, n: nat): nat
    requires n <= |s|
  {
    if n == 0 then 0 else 2 * Upto(s, n - 1) + if s[n - 1] then 1 else 0
  }

  lemma {:induction false} UptoSame(s: Bits, t: Bits, n: nat)
    requires n <= |s| && n <= |t| && s[..n] == t[..n]
    ensures Upto(s, n) == Upto(t, n)
  {
    if n > 0 {
      assert s[..n][n - 1] == t[..n][n - 1];
      assert s[..n - 1] == s[..n][..n - 1] && t[..n - 1] == t[..n][..n - 1];
      UptoSame(s, t, n - 1);
    }
  }

  lemma ValSnoc(s: Bits, b: bool)
    ensures Val(s + [b]) == 2 * Val(s) + if b then 1 else 0
  {
    UptoSame(s, s + [b], |s|);
  }

  lemma ValInit(s: Bits)
    requires s != []
    ensures Val(s) == 2 * Val(s[..|s| - 1]) + if s[|s| - 1] then 1 else 0
  {
    ValSnoc(s[..|s| - 1], s[|s| - 1]);
    assert s == s[..|s| - 1] + [s[|s| - 1]];
  }

  function Repeat(b: bool, n: nat): (s: Bits)
    ensures |s| == n && forall i | 0 <= i < n :: s[i] == b
  {
    seq(n, _ => b)
  }

  function Each(f: (bool, bool) -> bool, s: Bits, t: Bits): (r: Bits)
    requires |s| == |t|
    ensures |r| == |s| && forall i | 0 <= i < |s| :: r[i] == f(s[i], t[i])
  {
    seq(|s|, i requires 0 <= i < |s| => f(s[i], t[i]))
  }

  // ---- the shell's operators, on words whose result is not negative ----

  /** The width of the shell's words; any that holds an address gives the same. */
  type Width = w: nat | w >= 32 witness 64

  const AND := (x: bool, y: bool) => x && y
  const OR := (x: bool, y: bool) => x || y
  const XOR := (x: bool, y: bool) => x != y

  function Bitwise(w: Width, f: (bool, bool) -> bool, x: int, y: int): nat {
    Val(Each(f, BitsOf(x, w), BitsOf(y, w)))
  }

  function ShiftLeft(x: nat, k: nat): (r: nat)
    ensures r >= x
  {
    if k == 0 then x else 2 * ShiftLeft(x, k - 1)
  }

  function ShiftRight(w: Width, x: nat, k: nat): nat
    requires k <= w
  {
    Val(BitsOf(x, w)[..w - k])
  }

  // ---- the reference: a prefix keeps the leading bits ----

  function AddressBits(x: Address): (s: Bits)
    ensures |s| == 32
  {
    BitsOf(x.a, 8) + BitsOf(x.b, 8) + BitsOf(x.c, 8) + BitsOf(x.d, 8)
  }

  function NetworkBits(x: Address, prefix: Prefix): Bits {
    AddressBits(x)[..prefix] + Repeat(false, 32 - prefix)
  }

  function BroadcastBits(x: Address, prefix: Prefix): Bits {
    AddressBits(x)[..prefix] + Repeat(true, 32 - prefix)
  }

  function Network(x: Address, prefix: Prefix): nat {
    Val(NetworkBits(x, prefix))
  }

  function Broadcast(x: Address, prefix: Prefix): nat {
    Val(BroadcastBits(x, prefix))
  }

  // ---- the script ----

  function MaskNumber(w: Width, prefix: Prefix): nat {
    Bitwise(w, XOR, 0xffff_ffff, ShiftLeft(1, 32 - prefix) - 1)
  }

  function CidrToNetmask(w: Width, prefix: Prefix): Address {
    FromNumber(w, MaskNumber(w, prefix))
  }

  function FromNumber(w: Width, value: nat): Address {
    Address(Picked(w, value, 24), Picked(w, value, 16), Picked(w, value, 8), Bitwise(w, AND, value, 0xff))
  }

  function Picked(w: Width, value: nat, k: nat): nat
    requires k <= w
  {
    Bitwise(w, AND, ShiftRight(w, value, k), 0xff)
  }

  function CidrHostMin(w: Width, ip: Address, prefix: Prefix): Address {
    MinWith(w, ip, CidrToNetmask(w, prefix))
  }

  function MinWith(w: Width, ip: Address, m: Address): Address {
    Address(Bitwise(w, AND, ip.a, m.a), Bitwise(w, AND, ip.b, m.b), Bitwise(w, AND, ip.c, m.c), Bitwise(w, AND, ip.d, m.d) + 1)
  }

  /** In the shell, subtraction binds tighter than & and that tighter than |. */
  function CidrHostMax(w: Width, ip: Address, prefix: Prefix): Address {
    MaxWith(w, ip, CidrToNetmask(w, prefix))
  }

  function MaxWith(w: Width, ip: Address, m: Address): Address {
    Address(Top(w, ip.a, m.a), Top(w, ip.b, m.b), Top(w, ip.c, m.c), Top(w, ip.d, m.d) - 1)
  }

  function Top(w: Width, i: int, m: int): nat {
    Bitwise(w, OR, Bitwise(w, AND, i, m), 255 - m)
  }

  datatype Range = Range(first: Address, last: Address)

  function IngressRange(w: Width, ip: Address, prefix: Prefix): Range {
    var last := CidrHostMax(w, ip, prefix);
    Range(CidrHostMin(w, last, 24), last)
  }

  // ---- bits and values ----

  lemma {:induction false} BitsOfVal(s: Bits)
    ensures BitsOf(Val(s), |s|) == s
  {
    if s != [] {
      ValInit(s);
      BitsOfVal(s[..|s| - 1]);
      assert Val(s) / 2 == Val(s[..|s| - 1]);
    }
  }

  lemma {:induction false} ValOfBits(n: nat, k: nat)
    requires n < ShiftLeft(1, k)
    ensures Val(BitsOf(n, k)) == n
  {
    if k > 0 {
      ValOfBits(n / 2, k - 1);
      ValSnoc(BitsOf(n / 2, k - 1), n % 2 == 1);
    }
  }

  lemma {:induction false} ValConcat(s: Bits, t: Bits)
    ensures Val(s + t) == ShiftLeft(Val(s), |t|) + Val(t)
  {
    if t == [] {
      assert s + t == s;
    } else {
      assert (s + t)[..|s + t| - 1] == s + t[..|t| - 1];
      ValConcat(s, t[..|t| - 1]);
      ValInit(s + t);
      ValInit(t);
    }
  }

  lemma {:induction false} ZerosVal(n: nat)
    ensures Val(Repeat(false, n)) == 0
  {
    if n > 0 {
      assert Repeat(false, n)[..n - 1] == Repeat(false, n - 1);
      ZerosVal(n - 1);
      ValInit(Repeat(false, n));
    }
  }

  lemma {:induction false} OnesVal(n: nat)
    ensures Val(Repeat(true, n)) == ShiftLeft(1, n) - 1
  {
    if n > 0 {
      assert Repeat(true, n)[..n - 1] == Repeat(true, n - 1);
      OnesVal(n - 1);
      ValInit(Repeat(true, n));
    }
  }

  lemma {:induction false} ShiftZero(k: nat)
    ensures ShiftLeft(0, k) == 0
  {
    if k > 0 {
      ShiftZero(k - 1);
    }
  }

  lemma PaddedVal(s: Bits, n: nat)
    ensures Val(Repeat(false, n) + s) == Val(s)
  {
    ValConcat(Repeat(false, n), s);
    ZerosVal(n);
    ShiftZero(|s|);
  }

  /** The word that holds the value of some bits. */
  lemma WordBits(w: Width, s: Bits)
    requires |s| <= w
    ensures BitsOf(Val(s), w) == Repeat(false, w - |s|) + s
  {
    PaddedVal(s, w - |s|);
    BitsOfVal(Repeat(false, w - |s|) + s);
  }

  lemma EachBehind(f: (bool, bool) -> bool, pad: Bits, s: Bits, t: Bits)
    requires |s| == |t| && forall i | 0 <= i < |pad| :: f(pad[i], pad[i]) == pad[i]
    ensures Each(f, pad + s, pad + t) == pad + Each(f, s, t)
  {
  }

  /** An operator that keeps zeros works on the bits behind them. */
  lemma BitwiseVal(w: Width, f: (bool, bool) -> bool, s: Bits, t: Bits)
    requires |s| == |t| <= w && !f(false, false)
    ensures Bitwise(w, f, Val(s), Val(t)) == Val(Each(f, s, t))
  {
    var pad := Repeat(false, w - |s|);
    WordBits(w, s);
    WordBits(w, t);
    EachBehind(f, pad, s, t);
    PaddedVal(Each(f, s, t), w - |s|);
  }

  lemma {:induction false} ValLimit(s: Bits)
    ensures Val(s) < ShiftLeft(1, |s|)
    ensures Val(s) == ShiftLeft(1, |s|) - 1 <==> forall i | 0 <= i < |s| :: s[i]
    ensures Val(s) == 0 <==> forall i | 0 <= i < |s| :: !s[i]
  {
    if s != [] {
      ValLimit(s[..|s| - 1]);
      ValInit(s);
    }
  }

  function Not(s: Bits): (r: Bits)
    ensures |r| == |s| && forall i | 0 <= i < |s| :: r[i] == !s[i]
  {
    seq(|s|, i requires 0 <= i < |s| => !s[i])
  }

  lemma {:induction false} NotVal(s: Bits)
    ensures Val(Not(s)) == ShiftLeft(1, |s|) - 1 - Val(s)
  {
    if s != [] {
      assert Not(s)[..|s| - 1] == Not(s[..|s| - 1]);
      NotVal(s[..|s| - 1]);
      ValInit(s);
      ValInit(Not(s));
    }
  }

  // ---- octets of a word ----

  /** The i-th octet of a word of 32 bits. */
  function Octet(s: Bits, i: nat): (t: Bits)
    requires |s| == 32 && i < 4
    ensures |t| == 8
  {
    s[8 * i..8 * i + 8]
  }

  function Octets(s: Bits): Address
    requires |s| == 32
  {
    Address(Val(Octet(s, 0)), Val(Octet(s, 1)), Val(Octet(s, 2)), Val(Octet(s, 3)))
  }

  lemma ShiftByEight(x: nat)
    ensures ShiftLeft(x, 8) == 256 * x
  {
    assert ShiftLeft(x, 4) == 2 * (2 * (2 * (2 * ShiftLeft(x, 0)))) by {
      assert ShiftLeft(x, 2) == 2 * (2 * ShiftLeft(x, 0));
    }
    assert ShiftLeft(x, 6) == 2 * (2 * ShiftLeft(x, 4));
  }

  lemma NextOctet(s: Bits, t: Bits)
    requires |t| == 8
    ensures Val(s + t) == 256 * Val(s) + Val(t)
  {
    ValConcat(s, t);
    ShiftByEight(Val(s));
  }

  lemma OctetsWord(s: Bits)
    requires |s| == 32
    ensures Word(Octets(s)) == Val(s)
  {
    NextOctet(s[..8], Octet(s, 1));
    NextOctet(s[..16], Octet(s, 2));
    NextOctet(s[..24], Octet(s, 3));
    assert s[..8] == Octet(s, 0) && s[..8] + Octet(s, 1) == s[..16];
    assert s[..16] + Octet(s, 2) == s[..24] && s[..24] + Octet(s, 3) == s;
  }

  lemma OctetsFit(s: Bits)
    requires |s| == 32
    ensures IsAddress(Octets(s))
  {
    ShiftByEight(1);
    ValLimit(Octet(s, 0));
    ValLimit(Octet(s, 1));
    ValLimit(Octet(s, 2));
    ValLimit(Octet(s, 3));
  }

  lemma AddressOctets(x: Address)
    requires IsAddress(x)
    ensures var s := AddressBits(x);
            Octet(s, 0) == BitsOf(x.a, 8) && Octet(s, 1) == BitsOf(x.b, 8)
            && Octet(s, 2) == BitsOf(x.c, 8) && Octet(s, 3) == BitsOf(x.d, 8)
  {
  }

  lemma OctetVal(n: int)
    requires 0 <= n <= 255
    ensures Val(BitsOf(n, 8)) == n
  {
    ShiftByEight(1);
    ValOfBits(n, 8);
  }

  // ---- the netmask ----

  function MaskBits(prefix: Prefix): (s: Bits)
    ensures |s| == 32
  {
    Repeat(true, prefix) + Repeat(false, 32 - prefix)
  }

  lemma AllOnes()
    ensures Val(Repeat(true, 8)) == 0xff && Val(Repeat(true, 32)) == 0xffff_ffff
  {
    OnesVal(8);
    ShiftByEight(1);
    AllOctets(Repeat(true, 32), Repeat(true, 8));
  }

  lemma AllOctets(s: Bits, t: Bits)
    requires |s| == 32 && |t| == 8 && s == t + t + t + t && Val(t) == 0xff
    ensures Val(s) == 0xffff_ffff
  {
    NextOctet(t, t);
    NextOctet(t + t, t);
    NextOctet(t + t + t, t);
  }

  /** The ones behind the prefix. */
  function HostBits(prefix: Prefix): (s: Bits)
    ensures |s| == 32
  {
    Repeat(false, prefix) + Repeat(true, 32 - prefix)
  }

  lemma HostValue(prefix: Prefix)
    ensures Val(HostBits(prefix)) == ShiftLeft(1, 32 - prefix) - 1
  {
    OnesVal(32 - prefix);
    PaddedVal(Repeat(true, 32 - prefix), prefix);
  }

  lemma XorFlips(prefix: Prefix)
    ensures Each(XOR, Repeat(true, 32), HostBits(prefix)) == MaskBits(prefix)
  {
  }

  lemma MaskValue(w: Width, prefix: Prefix)
    ensures MaskNumber(w, prefix) == Val(MaskBits(prefix))
  {
    AllOnes();
    HostValue(prefix);
    BitwiseVal(w, XOR, Repeat(true, 32), HostBits(prefix));
    XorFlips(prefix);
  }

  lemma ShiftDrops(w: Width, s: Bits, k: nat)
    requires |s| == 32 && k <= 32
    ensures ShiftRight(w, Val(s), k) == Val(s[..32 - k])
  {
    WordBits(w, s);
    assert BitsOf(Val(s), w)[..w - k] == Repeat(false, w - 32) + s[..32 - k];
    PaddedVal(s[..32 - k], w - 32);
  }

  lemma OnesKeep(s: Bits, t: Bits)
    ensures Each(AND, s + t, Repeat(false, |s|) + Repeat(true, |t|)) == Repeat(false, |s|) + t
  {
  }

  lemma AndPicks(w: Width, s: Bits, t: Bits)
    requires |s| + 8 <= 32 && |t| == 8
    ensures Bitwise(w, AND, Val(s + t), 0xff) == Val(t)
  {
    AllOnes();
    PaddedVal(Repeat(true, 8), |s|);
    BitwiseVal(w, AND, s + t, Repeat(false, |s|) + Repeat(true, 8));
    OnesKeep(s, t);
    PaddedVal(t, |s|);
  }

  lemma PicksOctet(w: Width, s: Bits, i: nat)
    requires |s| == 32 && i < 4
    ensures Picked(w, Val(s), 8 * (3 - i)) == Val(Octet(s, i))
  {
    ShiftDrops(w, s, 8 * (3 - i));
    assert s[..8 * i + 8] == s[..8 * i] + Octet(s, i);
    AndPicks(w, s[..8 * i], Octet(s, i));
  }

  lemma LastOctet(w: Width, s: Bits)
    requires |s| == 32
    ensures Bitwise(w, AND, Val(s), 0xff) == Val(Octet(s, 3))
  {
    assert s == s[..24] + Octet(s, 3);
    AndPicks(w, s[..24], Octet(s, 3));
  }

  lemma FromNumberIs(w: Width, value: nat, s: Bits)
    requires |s| == 32 && value == Val(s)
    ensures FromNumber(w, value) == Octets(s)
  {
    assert Picked(w, value, 24) == Val(Octet(s, 0)) by { PicksOctet(w, s, 0); }
    assert Picked(w, value, 16) == Val(Octet(s, 1)) by { PicksOctet(w, s, 1); }
    assert Picked(w, value, 8) == Val(Octet(s, 2)) by { PicksOctet(w, s, 2); }
    assert Bitwise(w, AND, value, 0xff) == Val(Octet(s, 3)) by { LastOctet(w, s); }
  }

  /** The script's mask has as many leading ones as the prefix says. */
  lemma NetmaskIs(w: Width, prefix: Prefix)
    ensures CidrToNetmask(w, prefix) == Octets(MaskBits(prefix))
  {
    MaskValue(w, prefix);
    FromNumberIs(w, MaskNumber(w, prefix), MaskBits(prefix));
  }

  // ---- the hosts ----

  lemma NetworkOctet(ip: Address, prefix: Prefix, i: nat)
    requires i < 4
    ensures Each(AND, Octet(AddressBits(ip), i), Octet(MaskBits(prefix), i)) == Octet(NetworkBits(ip, prefix), i)
  {
  }

  lemma BroadcastOctet(ip: Address, prefix: Prefix, i: nat)
    requires i < 4
    ensures Each(OR, Octet(NetworkBits(ip, prefix), i), Not(Octet(MaskBits(prefix), i))) == Octet(BroadcastBits(ip, prefix), i)
  {
  }

  lemma AndOctet(w: Width, ip: Address, prefix: Prefix, i: nat, n: int)
    requires i < 4 && 0 <= n <= 255 && BitsOf(n, 8) == Octet(AddressBits(ip), i)
    ensures Bitwise(w, AND, n, Val(Octet(MaskBits(prefix), i))) == Val(Octet(NetworkBits(ip, prefix), i))
  {
    OctetVal(n);
    BitwiseVal(w, AND, Octet(AddressBits(ip), i), Octet(MaskBits(prefix), i));
    NetworkOctet(ip, prefix, i);
  }

  lemma OrNot(w: Width, x: nat, s: Bits, m: Bits)
    requires |s| == |m| == 8 && x == Val(s)
    ensures Bitwise(w, OR, x, 255 - Val(m)) == Val(Each(OR, s, Not(m)))
  {
    assert 255 - Val(m) == Val(Not(m)) by {
      ShiftByEight(1);
      NotVal(m);
    }
    BitwiseVal(w, OR, s, Not(m));
  }

  lemma TopOctet(w: Width, ip: Address, prefix: Prefix, i: nat, n: int)
    requires i < 4 && 0 <= n <= 255 && BitsOf(n, 8) == Octet(AddressBits(ip), i)
    ensures Top(w, n, Val(Octet(MaskBits(prefix), i))) == Val(Octet(BroadcastBits(ip, prefix), i))
  {
    var m, x := Val(Octet(MaskBits(prefix), i)), Val(Octet(NetworkBits(ip, prefix), i));
    AndOctet(w, ip, prefix, i, n);
    SetOctet(w, ip, prefix, i, x);
    TopIs(w, n, m, x);
  }

  lemma TopIs(w: Width, n: int, m: int, x: nat)
    requires x == Bitwise(w, AND, n, m)
    ensures Top(w, n, m) == Bitwise(w, OR, x, 255 - m)
  {
  }

  lemma SetOctet(w: Width, ip: Address, prefix: Prefix, i: nat, x: nat)
    requires i < 4 && x == Val(Octet(NetworkBits(ip, prefix), i))
    ensures Bitwise(w, OR, x, 255 - Val(Octet(MaskBits(prefix), i))) == Val(Octet(BroadcastBits(ip, prefix), i))
  {
    OrNot(w, x, Octet(NetworkBits(ip, prefix), i), Octet(MaskBits(prefix), i));
    BroadcastOctet(ip, prefix, i);
  }

  lemma MinWithMask(w: Width, ip: Address, prefix: Prefix, m: Address)
    requires IsAddress(ip) && m == Octets(MaskBits(prefix))
    ensures var net := Octets(NetworkBits(ip, prefix));
            MinWith(w, ip, m) == net.(d := net.d + 1)
  {
    var r, net := MinWith(w, ip, m), Octets(NetworkBits(ip, prefix));
    AddressOctets(ip);
    assert r.a == net.a by { AndOctet(w, ip, prefix, 0, ip.a); }
    assert r.b == net.b by { AndOctet(w, ip, prefix, 1, ip.b); }
    assert r.c == net.c by { AndOctet(w, ip, prefix, 2, ip.c); }
    assert r.d == net.d + 1 by { AndOctet(w, ip, prefix, 3, ip.d); }
  }

  lemma MaxWithMask(w: Width, ip: Address, prefix: Prefix, m: Address)
    requires IsAddress(ip) && m == Octets(MaskBits(prefix))
    ensures var top := Octets(BroadcastBits(ip, prefix));
            MaxWith(w, ip, m) == top.(d := top.d - 1)
  {
    var r, top := MaxWith(w, ip, m), Octets(BroadcastBits(ip, prefix));
    AddressOctets(ip);
    assert r.a == top.a by { TopOctet(w, ip, prefix, 0, ip.a); }
    assert r.b == top.b by { TopOctet(w, ip, prefix, 1, ip.b); }
    assert r.c == top.c by { TopOctet(w, ip, prefix, 2, ip.c); }
    assert r.d == top.d - 1 by { TopOctet(w, ip, prefix, 3, ip.d); }
  }

  /** The first host: the network address, and one more in its last number. */
  lemma MinOctets(w: Width, ip: Address, prefix: Prefix)
    requires IsAddress(ip)
    ensures var net := Octets(NetworkBits(ip, prefix));
            CidrHostMin(w, ip, prefix) == net.(d := net.d + 1)
  {
    NetmaskIs(w, prefix);
    MinWithMask(w, ip, prefix, CidrToNetmask(w, prefix));
  }

  /** The last host: the broadcast address, and one less. */
  lemma MaxOctets(w: Width, ip: Address, prefix: Prefix)
    requires IsAddress(ip)
    ensures var top := Octets(BroadcastBits(ip, prefix));
            CidrHostMax(w, ip, prefix) == top.(d := top.d - 1)
  {
    NetmaskIs(w, prefix);
    MaxWithMask(w, ip, prefix, CidrToNetmask(w, prefix));
  }

  /** The last octet of the network address is full for a /32 ending in 255 only, and that of the
      broadcast address empty for a /32 ending in 0 only. */
  lemma EdgeOctets(ip: Address, prefix: Prefix)
    requires IsAddress(ip)
    ensures Octets(NetworkBits(ip, prefix)).d == 255 <==> prefix == 32 && ip.d == 255
    ensures Octets(BroadcastBits(ip, prefix)).d == 0 <==> prefix == 32 && ip.d == 0
  {
    var d := BitsOf(ip.d, 8);
    ShiftByEight(1);
    AddressOctets(ip);
    OctetVal(ip.d);
    ValLimit(d);
    NetworkEdge(ip, prefix, d);
    BroadcastEdge(ip, prefix, d);
  }

  lemma NetworkEdge(ip: Address, prefix: Prefix, d: Bits)
    requires Octet(AddressBits(ip), 3) == d
    ensures Val(Octet(NetworkBits(ip, prefix), 3)) == ShiftLeft(1, 8) - 1 <==> prefix == 32 && forall i | 0 <= i < 8 :: d[i]
  {
    var n := Octet(NetworkBits(ip, prefix), 3);
    ValLimit(n);
    assert n[7] == if prefix == 32 then d[7] else false;
    if prefix == 32 {
      assert NetworkBits(ip, prefix) == AddressBits(ip);
    }
  }

  lemma BroadcastEdge(ip: Address, prefix: Prefix, d: Bits)
    requires Octet(AddressBits(ip), 3) == d
    ensures Val(Octet(BroadcastBits(ip, prefix), 3)) == 0 <==> prefix == 32 && forall i | 0 <= i < 8 :: !d[i]
  {
    var n := Octet(BroadcastBits(ip, prefix), 3);
    ValLimit(n);
    assert n[7] == if prefix == 32 then d[7] else true;
    if prefix == 32 {
      assert BroadcastBits(ip, prefix) == AddressBits(ip);
    }
  }

  lemma AfterNetwork(ip: Address, prefix: Prefix, r: Address)
    requires IsAddress(ip) && r == Octets(NetworkBits(ip, prefix)).(d := Octets(NetworkBits(ip, prefix)).d + 1)
    ensures (IsAddress(r) <==> !(prefix == 32 && ip.d == 255)) && Word(r) == Network(ip, prefix) + 1
  {
    EdgeOctets(ip, prefix);
    OctetsFit(NetworkBits(ip, prefix));
    OctetsWord(NetworkBits(ip, prefix));
  }

  lemma BeforeBroadcast(ip: Address, prefix: Prefix, r: Address)
    requires IsAddress(ip) && r == Octets(BroadcastBits(ip, prefix)).(d := Octets(BroadcastBits(ip, prefix)).d - 1)
    ensures (IsAddress(r) <==> !(prefix == 32 && ip.d == 0)) && Word(r) == Broadcast(ip, prefix) - 1
  {
    EdgeOctets(ip, prefix);
    OctetsFit(BroadcastBits(ip, prefix));
    OctetsWord(BroadcastBits(ip, prefix));
  }

  /** The first host is the network address plus one; its last number is no octet exactly for a /32
      ending in 255. */
  lemma HostMinIs(w: Width, ip: Address, prefix: Prefix)
    requires IsAddress(ip)
    ensures var r := CidrHostMin(w, ip, prefix);
            (IsAddress(r) <==> !(prefix == 32 && ip.d == 255)) && Word(r) == Network(ip, prefix) + 1
  {
    MinOctets(w, ip, prefix);
    AfterNetwork(ip, prefix, CidrHostMin(w, ip, prefix));
  }

  /** The last host is the broadcast address minus one; its last number is no octet exactly for a /32
      ending in 0. */
  lemma HostMaxIs(w: Width, ip: Address, prefix: Prefix)
    requires IsAddress(ip)
    ensures var r := CidrHostMax(w, ip, prefix);
            (IsAddress(r) <==> !(prefix == 32 && ip.d == 0)) && Word(r) == Broadcast(ip, prefix) - 1
  {
    MaxOctets(w, ip, prefix);
    BeforeBroadcast(ip, prefix, CidrHostMax(w, ip, prefix));
  }

  // ---- the range ----

  /** An interval of addresses inside the block that leaves out its network and broadcast
      addresses. */
  predicate Usable(r: Range, ip: Address, prefix: Prefix) {
    && IsAddress(r.first) && IsAddress(r.last)
    && Network(ip, prefix) < Word(r.first) <= Word(r.last) < Broadcast(ip, prefix)
  }

  /** The number of the block's first address within its last 256. */
  function Offset(ip: Address, prefix: Prefix): nat {
    Octets(NetworkBits(ip, prefix)).d
  }

  lemma BlockSizeIs(ip: Address, prefix: Prefix)
    ensures Broadcast(ip, prefix) == Network(ip, prefix) + ShiftLeft(1, 32 - prefix) - 1
  {
    var s := AddressBits(ip)[..prefix];
    ValConcat(s, Repeat(false, 32 - prefix));
    ValConcat(s, Repeat(true, 32 - prefix));
    ZerosVal(32 - prefix);
    OnesVal(32 - prefix);
  }

  lemma LastOctetOf(s: Bits)
    requires |s| == 32
    ensures Val(s[..24] + Repeat(false, 8)) == Val(s) - Octets(s).d
  {
    assert s == s[..24] + Octet(s, 3);
    NextOctet(s[..24], Octet(s, 3));
    NextOctet(s[..24], Repeat(false, 8));
    ZerosVal(8);
  }

  /** The first number of the 256 an address lies in. */
  lemma RunStart(x: Address)
    requires IsAddress(x)
    ensures Network(x, 24) == Word(x) - x.d
  {
    var s := AddressBits(x);
    AddressOctets(x);
    OctetVal(x.a);
    OctetVal(x.b);
    OctetVal(x.c);
    OctetVal(x.d);
    OctetsWord(s);
    LastOctetOf(s);
  }

  lemma {:induction false} ShiftAtLeast(k: nat, j: nat)
    requires j <= k
    ensures ShiftLeft(1, j) <= ShiftLeft(1, k)
  {
    if j < k {
      ShiftAtLeast(k - 1, j);
    }
  }

  lemma RangeWords(w: Width, ip: Address, prefix: Prefix)
    requires IsAddress(ip) && !(prefix == 32 && ip.d == 0)
    ensures var r, top := IngressRange(w, ip, prefix), Broadcast(ip, prefix);
            && IsAddress(r.last) && IsAddress(r.first)
            && Word(r.last) == top - 1 && Word(r.first) == top - r.last.d
  {
    var last := CidrHostMax(w, ip, prefix);
    HostMaxIs(w, ip, prefix);
    HostMinIs(w, last, 24);
    RunStart(last);
  }

  /** The last octet of the broadcast address. */
  lemma BroadcastLast(ip: Address, prefix: Prefix)
    ensures Octets(BroadcastBits(ip, prefix)).d
         == if prefix <= 24 then 255 else Offset(ip, prefix) + ShiftLeft(1, 32 - prefix) - 1
  {
    var s := Octet(BroadcastBits(ip, prefix), 3);
    if prefix <= 24 {
      assert s == Repeat(true, 8);
      AllOnes();
    } else {
      var kept := AddressBits(ip)[24..prefix];
      assert s == kept + Repeat(true, 32 - prefix);
      assert Octet(NetworkBits(ip, prefix), 3) == kept + Repeat(false, 32 - prefix);
      OnesForZeros(kept, 32 - prefix);
    }
  }

  lemma OnesForZeros(s: Bits, n: nat)
    ensures Val(s + Repeat(true, n)) == Val(s + Repeat(false, n)) + ShiftLeft(1, n) - 1
  {
    ValConcat(s, Repeat(false, n));
    ValConcat(s, Repeat(true, n));
    ZerosVal(n);
    OnesVal(n);
  }

  /** The sizes of blocks, as far as they matter. */
  lemma BlockSizes(prefix: Prefix)
    ensures prefix <= 24 ==> ShiftLeft(1, 32 - prefix) >= 256
    ensures prefix <= 30 ==> ShiftLeft(1, 32 - prefix) >= 4
    ensures prefix == 31 ==> ShiftLeft(1, 32 - prefix) == 2
    ensures prefix == 32 ==> ShiftLeft(1, 32 - prefix) == 1
  {
    ShiftByEight(1);
    if prefix <= 24 {
      ShiftAtLeast(32 - prefix, 8);
    }
    if prefix <= 30 {
      ShiftAtLeast(32 - prefix, 2);
      SmallShifts();
    }
    if prefix > 30 {
      SmallShifts();
    }
  }

  lemma SmallShifts()
    ensures ShiftLeft(1, 0) == 1 && ShiftLeft(1, 1) == 2 && ShiftLeft(1, 2) == 4
  {
    assert ShiftLeft(1, 0) == 1;
    assert ShiftLeft(1, 1) == 2 * ShiftLeft(1, 0);
    assert ShiftLeft(1, 2) == 2 * ShiftLeft(1, 1);
  }

  /** MetalLB's range is usable for every block of prefix 24 or shorter, for the longer ones up to
      30 exactly when the block starts a run of 256 addresses, and never for 31 and 32. */
  lemma RangeUsableIff(w: Width, ip: Address, prefix: Prefix)
    requires IsAddress(ip)
    ensures Usable(IngressRange(w, ip, prefix), ip, prefix)
       <==> prefix <= 30 && (prefix <= 24 || Offset(ip, prefix) == 0)
  {
    var usable := Usable(IngressRange(w, ip, prefix), ip, prefix);
    if prefix == 32 && ip.d == 0 {
      NoLastHost(w, ip);
    } else {
      UsableBySize(w, ip, prefix);
      SizeDecides(prefix, Offset(ip, prefix), usable);
    }
  }

  lemma SizeDecides(prefix: Prefix, offset: nat, usable: bool)
    requires var size := ShiftLeft(1, 32 - prefix); usable <==> if prefix <= 24 then size > 255 else offset == 0 && size > 2
    ensures usable <==> prefix <= 30 && (prefix <= 24 || offset == 0)
  {
    BlockSizes(prefix);
  }

  lemma NoLastHost(w: Width, ip: Address)
    requires IsAddress(ip) && ip.d == 0
    ensures !Usable(IngressRange(w, ip, 32), ip, 32)
  {
    HostMaxIs(w, ip, 32);
    NotUsable(IngressRange(w, ip, 32), ip, 32);
  }

  lemma NotUsable(r: Range, ip: Address, prefix: Prefix)
    requires !IsAddress(r.last)
    ensures !Usable(r, ip, prefix)
  {
  }

  lemma UsableBySize(w: Width, ip: Address, prefix: Prefix)
    requires IsAddress(ip) && !(prefix == 32 && ip.d == 0)
    ensures Usable(IngressRange(w, ip, prefix), ip, prefix)
       <==> if prefix <= 24 then ShiftLeft(1, 32 - prefix) > 255 else Offset(ip, prefix) == 0 && ShiftLeft(1, 32 - prefix) > 2
  {
    RangeWords(w, ip, prefix);
    BlockSizeIs(ip, prefix);
    LastNumber(w, ip, prefix);
    UsableIs(IngressRange(w, ip, prefix), ip, prefix, ShiftLeft(1, 32 - prefix));
  }

  lemma UsableIs(r: Range, ip: Address, prefix: Prefix, size: nat)
    requires var top := Broadcast(ip, prefix);
             && IsAddress(r.last) && IsAddress(r.first) && Word(r.last) == top - 1 && Word(r.first) == top - r.last.d
             && top == Network(ip, prefix) + size - 1
    requires r.last.d == if prefix <= 24 then 254 else Offset(ip, prefix) + size - 2
    ensures Usable(r, ip, prefix) <==> if prefix <= 24 then size > 255 else Offset(ip, prefix) == 0 && size > 2
  {
  }

  lemma LastNumber(w: Width, ip: Address, prefix: Prefix)
    requires IsAddress(ip)
    ensures IngressRange(w, ip, prefix).last.d
         == if prefix <= 24 then 254 else Offset(ip, prefix) + ShiftLeft(1, 32 - prefix) - 2
  {
    MaxOctets(w, ip, prefix);
    BroadcastLast(ip, prefix);
  }

  /** A block it fails for: in 10.0.0.128/25 the range starts before the block, at 10.0.0.1. */
  lemma RangeBeforeBlock(w: Width)
    ensures var ip := Address(10, 0, 0, 128);
            var r := IngressRange(w, ip, 25);
            && Word(r.first) == Word(Address(10, 0, 0, 1)) && Word(r.last) == Word(Address(10, 0, 0, 254))
            && Word(r.first) < Network(ip, 25) && !Usable(r, ip, 25)
  {
    var ip := Address(10, 0, 0, 128);
    HalfRun();
    RangeWords(w, ip, 25);
    LastNumber(w, ip, 25);
    BlockSizeIs(ip, 25);
  }

  lemma HalfRun()
    ensures var ip := Address(10, 0, 0, 128);
            Network(ip, 25) == Word(ip) && Offset(ip, 25) == 128 && ShiftLeft(1, 7) == 128
  {
    var ip := Address(10, 0, 0, 128);
    AddressOctets(ip);
    OctetVal(10);
    OctetVal(0);
    OctetVal(128);
    assert BitsOf(128, 8) == [true] + Repeat(false, 7);
    assert NetworkBits(ip, 25) == AddressBits(ip);
    OctetsWord(AddressBits(ip));
  }
}
