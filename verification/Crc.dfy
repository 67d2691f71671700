/** CRC-8 as both serial devices use it: MSB first, zero seed, one table per
    polynomial (0x4D for the LiDAR packets, 0x07 for the OpenCR frames).
    The reference is schoolbook long division of bit strings over GF(2). */
module Crc {

  /** One octet of a serial stream. */
  datatype Byte = Byte(v: bv8)

  const LDS_POLY := Byte(0x4D)
  const CCITT_POLY := Byte(0x07)

  function Xor(a: Byte, b: Byte): Byte { Byte(a.v ^ b.v) }

  function ShiftIn(a: Byte, bit: bool): Byte { Byte((a.v << 1) | (if bit then 1 else 0)) }

  predicate TopBit(a: Byte) { a.v & 0x80 != 0 }

  predicate IsOdd(a: Byte) { a.v & 1 == 1 }

  // ---- The reference: long division by x^8 + poly ----

  /** One step of long division: bring down the next bit of the dividend and,
      when the bit leaving the 8-bit window is set, subtract the divisor. */
  function DivideStep(poly: Byte, rem: Byte, bit: bool): Byte {
    if TopBit(rem) then Xor(ShiftIn(rem, bit), poly) else ShiftIn(rem, bit)
  }

  /** Bit `k` of a byte, most significant first. */
  predicate Bit(b: Byte, k: nat)
    requires k < 8
  {
    b.v & (if k == 0 then 0x80 else if k == 1 then 0x40 else if k == 2 then 0x20 else if k == 3 then 0x10
           else if k == 4 then 0x08 else if k == 5 then 0x04 else if k == 6 then 0x02 else 0x01) != 0
  }

  /** The remainder after bringing down the first `k` bits of `b`. */
  function BringDown(poly: Byte, rem: Byte, b: Byte, k: nat): Byte
    requires k <= 8
  {
    if k == 0 then rem else DivideStep(poly, BringDown(poly, rem, b, k - 1), Bit(b, k - 1))
  }

  /** The remainder of the bit string `data`, divided from the left. */
  function Remainder(poly: Byte, data: seq<Byte>): Byte {
    if data == [] then Byte(0)
    else BringDown(poly, Remainder(poly, data[..|data| - 1]), data[|data| - 1], 8)
  }

  /** The CRC of `data`: the remainder of the message times x^8. */
  function Checksum(poly: Byte, data: seq<Byte>): Byte {
    Remainder(poly, data + [Byte(0)])
  }

  // ---- The table ----

  function TableStep(poly: Byte, value: Byte): Byte {
    if TopBit(value) then Xor(ShiftIn(value, false), poly) else ShiftIn(value, false)
  }

  function TableSteps(poly: Byte, value: Byte, n: nat): Byte {
    if n == 0 then value else TableStep(poly, TableSteps(poly, value, n - 1))
  }

  function FromInt(i: int): Byte
    requires 0 <= i < 256
  {
    Byte(i as bv8)
  }

  function ToInt(b: Byte): (i: int)
    ensures 0 <= i < 256
  {
    b.v as int
  }

  ghost predicate IsTable(poly: Byte, table: seq<Byte>) {
    |table| == 256 && forall i :: 0 <= i < 256 ==> table[i] == TableSteps(poly, FromInt(i), 8)
  }

  method Crc8Table(poly: Byte) returns (table: seq<Byte>)
    ensures IsTable(poly, table)
  {
    table := [];
    var i := 0;
    while i < 256
      invariant 0 <= i <= 256 && |table| == i
      invariant forall k :: 0 <= k < i ==> table[k] == TableSteps(poly, FromInt(k), 8)
    {
      var value := FromInt(i);
      var n := 0;
      while n < 8
        invariant 0 <= n <= 8
        invariant value == TableSteps(poly, FromInt(i), n)
      {
        value := if TopBit(value) then Xor(ShiftIn(value, false), poly) else ShiftIn(value, false);
        n := n + 1;
      }
      table := table + [value];
      i := i + 1;
    }
  }

  // ---- The checksum ----

  /** The running value of the table-driven loop after `data`. */
  function Register(poly: Byte, data: seq<Byte>): Byte {
    if data == [] then Byte(0)
    else TableSteps(poly, Xor(Register(poly, data[..|data| - 1]), data[|data| - 1]), 8)
  }

  method Crc8(table: seq<Byte>, ghost poly: Byte, data: seq<Byte>) returns (crc: Byte)
    requires IsTable(poly, table)
    ensures crc == Checksum(poly, data)
  {
    crc := Byte(0);
    var i := 0;
    while i < |data|
      invariant 0 <= i <= |data|
      invariant crc == Register(poly, data[..i])
    {
      IntRoundTrip(Xor(crc, data[i]));
      crc := table[ToInt(Xor(crc, data[i]))];
      assert data[..i + 1][..i] == data[..i];
      i := i + 1;
    }
    assert data[..i] == data;
    RegisterIsChecksum(poly, data);
  }

  // ---- The table form computes the remainder ----

  lemma IntRoundTrip(b: Byte)
    ensures FromInt(ToInt(b)) == b
  {
  }

  lemma XorZero(b: Byte)
    ensures Xor(b, Byte(0)) == b && Xor(Byte(0), b) == b
  {
  }

  lemma ShiftIsLinear(a: bv8, b: bv8, bit: bv8)
    requires b & 0x80 == 0 && bit <= 1
    ensures (a ^ b) & 0x80 == a & 0x80
    ensures ((a ^ b) << 1) | bit == ((a << 1) | 0) ^ ((b << 1) | bit)
  {
  }

  lemma XorSwap(a: bv8, b: bv8, c: bv8)
    ensures (a ^ b) ^ c == (a ^ c) ^ b
  {
  }

  /** A division step on a window whose low part `low` holds bits already brought
      down acts on the two parts separately. */
  lemma StepIsLinear(poly: Byte, value: Byte, low: Byte, bit: bool)
    requires !TopBit(low)
    ensures DivideStep(poly, Xor(value, low), bit) == Xor(TableStep(poly, value), ShiftIn(low, bit))
  {
    ShiftIsLinear(value.v, low.v, if bit then 1 else 0);
    XorSwap(ShiftIn(value, false).v, ShiftIn(low, bit).v, poly.v);
  }

  /** The top `k` bits of a byte, as a number. */
  function Top(b: Byte, k: nat): Byte
    requires k <= 8
  {
    if k == 0 then Byte(0) else if k == 1 then Byte(b.v >> 7) else if k == 2 then Byte(b.v >> 6)
    else if k == 3 then Byte(b.v >> 5) else if k == 4 then Byte(b.v >> 4) else if k == 5 then Byte(b.v >> 3)
    else if k == 6 then Byte(b.v >> 2) else if k == 7 then Byte(b.v >> 1) else b
  }

  lemma TopShifts(b: bv8)
    ensures b >> 7 == (0 << 1) | (if b & 0x80 != 0 then 1 else 0)
    ensures b >> 6 == ((b >> 7) << 1) | (if b & 0x40 != 0 then 1 else 0)
    ensures b >> 5 == ((b >> 6) << 1) | (if b & 0x20 != 0 then 1 else 0)
    ensures b >> 4 == ((b >> 5) << 1) | (if b & 0x10 != 0 then 1 else 0)
    ensures b >> 3 == ((b >> 4) << 1) | (if b & 0x08 != 0 then 1 else 0)
    ensures b >> 2 == ((b >> 3) << 1) | (if b & 0x04 != 0 then 1 else 0)
    ensures b >> 1 == ((b >> 2) << 1) | (if b & 0x02 != 0 then 1 else 0)
    ensures b == ((b >> 1) << 1) | (if b & 0x01 != 0 then 1 else 0)
  {
  }

  lemma TopGrows(b: Byte, k: nat)
    requires k < 8
    ensures !TopBit(Top(b, k))
    ensures Top(b, k + 1) == ShiftIn(Top(b, k), Bit(b, k))
  {
    TopShifts(b.v);
  }

  /** Bringing bits down from the dividend differs from table steps only in the
      bits themselves. */
  lemma {:induction false} BitsAreAddedLast(poly: Byte, rem: Byte, b: Byte, k: nat)
    requires k <= 8
    ensures BringDown(poly, rem, b, k) == Xor(TableSteps(poly, rem, k), Top(b, k))
  {
    if k == 0 {
      XorZero(rem);
    } else {
      BitsAreAddedLast(poly, rem, b, k - 1);
      TopGrows(b, k - 1);
      StepIsLinear(poly, TableSteps(poly, rem, k - 1), Top(b, k - 1), Bit(b, k - 1));
    }
  }

  lemma ChecksumSteps(poly: Byte, data: seq<Byte>)
    ensures Checksum(poly, data) == TableSteps(poly, Remainder(poly, data), 8)
  {
    assert (data + [Byte(0)])[..|data|] == data;
    BitsAreAddedLast(poly, Remainder(poly, data), Byte(0), 8);
    XorZero(TableSteps(poly, Remainder(poly, data), 8));
  }

  /** The table-driven loop leaves the remainder of long division. */
  lemma {:induction false} RegisterIsChecksum(poly: Byte, data: seq<Byte>)
    ensures Register(poly, data) == Checksum(poly, data)
  {
    ChecksumSteps(poly, data);
    if data == [] {
      ZeroIsFixed(poly, 8);
    } else {
      var init, b := data[..|data| - 1], data[|data| - 1];
      RegisterIsChecksum(poly, init);
      ChecksumSteps(poly, init);
      BitsAreAddedLast(poly, Remainder(poly, init), b, 8);
    }
  }

  lemma ZeroIsFixed(poly: Byte, n: nat)
    ensures TableSteps(poly, Byte(0), n) == Byte(0)
  {
  }

  // ---- What the check is for: corrupted packets ----

  /** The last byte of a packet is the CRC of the bytes before it. */
  ghost predicate Passes(poly: Byte, packet: seq<Byte>) {
    |packet| > 0 && Checksum(poly, packet[..|packet| - 1]) == packet[|packet| - 1]
  }

  /** A packet passes exactly when the whole of it, read as a polynomial, is
      divisible by the generator. */
  lemma PassesIffDivisible(poly: Byte, packet: seq<Byte>)
    requires |packet| > 0
    ensures Passes(poly, packet) <==> Remainder(poly, packet) == Byte(0)
  {
    var data, c := packet[..|packet| - 1], packet[|packet| - 1];
    ChecksumSteps(poly, data);
    BitsAreAddedLast(poly, Remainder(poly, data), c, 8);
    XorIsZeroIffEqual(Checksum(poly, data), c);
  }

  lemma XorIsZeroIffEqual(a: Byte, b: Byte)
    ensures Xor(a, b) == Byte(0) <==> a == b
  {
  }

  lemma XorCancels(a: Byte, b: Byte, c: Byte)
    ensures Xor(a, c) == Xor(b, c) <==> a == b
    ensures Xor(c, a) == Xor(c, b) <==> a == b
  {
  }

  lemma ShiftInjective(a: bv8, b: bv8, p: bv8)
    requires p & 1 == 1
    ensures a << 1 == b << 1 && a & 0x80 == b & 0x80 ==> a == b
    ensures (a << 1) ^ p == (b << 1) ^ p ==> a << 1 == b << 1
    ensures (a << 1) ^ p != b << 1
  {
  }

  lemma StepInjective(poly: Byte, a: Byte, b: Byte)
    requires IsOdd(poly)
    requires TableStep(poly, a) == TableStep(poly, b)
    ensures a == b
  {
    ShiftInjective(a.v, b.v, poly.v);
    ShiftInjective(b.v, a.v, poly.v);
    TopBitCases(a.v, b.v);
  }

  lemma TopBitCases(a: bv8, b: bv8)
    ensures (a & 0x80 != 0) == (b & 0x80 != 0) ==> a & 0x80 == b & 0x80
    ensures (a << 1) | 0 == a << 1
    ensures (b << 1) | 0 == b << 1
  {
  }

  /** One table step loses no information exactly when the polynomial is odd,
      as both polynomials in use are. */
  lemma StepInjectiveIffOdd(poly: Byte)
    ensures IsOdd(poly) <==> forall a, b :: TableStep(poly, a) == TableStep(poly, b) ==> a == b
  {
    if IsOdd(poly) {
      forall a, b | TableStep(poly, a) == TableStep(poly, b) ensures a == b {
        StepInjective(poly, a, b);
      }
    } else {
      EvenCollides(poly);
    }
  }

  lemma EvenCollides(poly: Byte)
    requires !IsOdd(poly)
    ensures Byte(poly.v >> 1) != Byte(0x80)
    ensures TableStep(poly, Byte(0x80)) == TableStep(poly, Byte(poly.v >> 1))
  {
  }

  lemma {:induction false} StepsInjective(poly: Byte, a: Byte, b: Byte, n: nat)
    requires IsOdd(poly)
    requires TableSteps(poly, a, n) == TableSteps(poly, b, n)
    ensures a == b
  {
    if n > 0 {
      StepInjective(poly, TableSteps(poly, a, n - 1), TableSteps(poly, b, n - 1));
      StepsInjective(poly, a, b, n - 1);
    }
  }

  /** A single differing byte makes the running values differ from there on. */
  lemma {:induction false} RegisterSeparates(poly: Byte, a: seq<Byte>, b: seq<Byte>, k: nat)
    requires IsOdd(poly)
    requires k < |a| == |b| && a[k] != b[k]
    requires forall i :: 0 <= i < |a| && i != k ==> a[i] == b[i]
    ensures Register(poly, a) != Register(poly, b)
  {
    var n, eight := |a| - 1, 8;
    var ra, rb := Register(poly, a[..n]), Register(poly, b[..n]);
    if k < n {
      RegisterSeparates(poly, a[..n], b[..n], k);
    } else {
      assert a[..n] == b[..n];
    }
    XorCancels(ra, rb, a[n]);
    XorCancels(a[n], b[n], ra);
    if TableSteps(poly, Xor(ra, a[n]), eight) == TableSteps(poly, Xor(rb, b[n]), eight) {
      StepsInjective(poly, Xor(ra, a[n]), Xor(rb, b[n]), eight);
    }
  }

  /** Corrupting exactly one byte of a packet, the checksum byte included, is
      always noticed: the two packets cannot both pass. */
  lemma SingleByteErrorDetected(poly: Byte, a: seq<Byte>, b: seq<Byte>, k: nat)
    requires poly == LDS_POLY || poly == CCITT_POLY
    requires k < |a| == |b| && a[k] != b[k]
    requires forall i :: 0 <= i < |a| && i != k ==> a[i] == b[i]
    ensures !(Passes(poly, a) && Passes(poly, b))
  {
    var n := |a| - 1;
    RegisterIsChecksum(poly, a[..n]);
    RegisterIsChecksum(poly, b[..n]);
    if k == n {
      assert a[..n] == b[..n];
    } else {
      RegisterSeparates(poly, a[..n], b[..n], k);
    }
  }
}
