/** The two serial readers: a byte buffer trimmed in place, counters updated on
    the way, packets yielded in order. */
module SerialSources {
  import opened Wrappers
  import opened Rounding
  import opened Crc
  import opened Framing

  // ---- Packet layouts ----

  const LDS_PACKET_BYTES: nat := 47
  const POINTS_PER_PACKET: nat := 12
  const OPENCR_PACKET_BYTES: nat := 118
  const OPENCR_FIRST_FLOAT: nat := 3 + 2 * 27
  const IMU_FIELDS: nat := 13

  datatype CrcMode = Auto | Check | Ignore

  datatype Point = Point(cdeg: real, distance: nat, intensity: nat)

  datatype LdsPacket = LdsPacket(start: nat, points: seq<Point>)

  ghost function LdsFormat(mode: CrcMode): (f: Format<Byte>)
    ensures f.WellFormed() && f.size == LDS_PACKET_BYTES
  {
    Format(Byte(0x54), Byte(0x2C), LDS_PACKET_BYTES,
           iset w | Passes(LDS_POLY, w), (iset w: seq<Byte> | |w| == LDS_PACKET_BYTES), mode == Auto)
  }

  ghost function OpenCrFormat(): (f: Format<Byte>)
    ensures f.WellFormed() && f.size == OPENCR_PACKET_BYTES
  {
    Format(Byte(0x55), Byte(0xAA), OPENCR_PACKET_BYTES,
           iset w | Passes(CCITT_POLY, w),
           iset w | |w| == OPENCR_PACKET_BYTES && Plausible(ImuValues(w)), false)
  }

  /** Little-endian unsigned 16 bits. */
  function U16(p: seq<Byte>, i: nat): nat
    requires i + 1 < |p|
  {
    ToInt(p[i]) + 256 * ToInt(p[i + 1])
  }

  /** The angle of one of the twelve points, in hundredths of a degree. */
  function AngleOf(start: int, span: int, i: int): real {
    Mod(start as real + span as real / 11.0 * i as real, 36000.0)
  }

  /** Start angle, and twelve points at angles interpolated between start and end. */
  function DecodeLds(p: seq<Byte>): LdsPacket
    requires |p| == LDS_PACKET_BYTES
  {
    var start := U16(p, 4);
    var span := (U16(p, 42) - start) % 36000;
    LdsPacket(start, seq(POINTS_PER_PACKET, i requires 0 <= i < POINTS_PER_PACKET =>
      Point(AngleOf(start, span, i), U16(p, 6 + 3 * i), ToInt(p[6 + 3 * i + 2]))))
  }

  /** The fields of a packet, in the order they come. */
  ghost predicate LaidOut(p: seq<Byte>, speed: seq<Byte>, start: seq<Byte>, beams: seq<Byte>, end: seq<Byte>) {
    && |speed| == 2 && |start| == 2 && |beams| == 3 * POINTS_PER_PACKET && |end| == 2
    && |p| == LDS_PACKET_BYTES
    && p[..44] == [Byte(0x54), Byte(0x2C)] + speed + start + beams + end
  }

  lemma FieldsAt(p: seq<Byte>, speed: seq<Byte>, start: seq<Byte>, beams: seq<Byte>, end: seq<Byte>)
    requires LaidOut(p, speed, start, beams, end)
    ensures p[4] == start[0] && p[5] == start[1] && p[42] == end[0] && p[43] == end[1]
    ensures forall k :: 0 <= k < 36 ==> p[6 + k] == beams[k]
  {
    var front := p[..44];
    assert front[4] == start[0] && front[5] == start[1] && front[42] == end[0] && front[43] == end[1];
    forall k | 0 <= k < 36 ensures p[6 + k] == beams[k] {
      assert front[6 + k] == beams[k];
    }
  }

  lemma ModTurn(n: int)
    ensures Mod(n as real, 36000.0) == (n % 36000) as real
  {
    var q, x := n / 36000, n as real / 36000.0;
    assert n as real == 36000.0 * q as real + (n % 36000) as real;
    assert x == q as real + (n % 36000) as real / 36000.0;
    assert x.Floor == q;
  }

  lemma FirstAngle(start: int, span: int)
    ensures AngleOf(start, span, 0) == Mod(start as real, 36000.0)
  {
    var x := start as real + span as real / 11.0 * 0 as real;
    assert x == start as real;
  }

  lemma LastAngle(start: int, span: int)
    ensures AngleOf(start, span, 11) == Mod((start + span) as real, 36000.0)
  {
    var x := start as real + span as real / 11.0 * 11 as real;
    assert x == (start + span) as real;
  }

  lemma SpanEnds(start: int, end: int)
    ensures (start + (end - start) % 36000) % 36000 == end % 36000
  {
  }

  lemma AnglesRun(start: int, end: int)
    ensures AngleOf(start, (end - start) % 36000, 0) == (start % 36000) as real
    ensures AngleOf(start, (end - start) % 36000, 11) == (end % 36000) as real
  {
    var span := (end - start) % 36000;
    FirstAngle(start, span);
    LastAngle(start, span);
    SpanEnds(start, end);
    ModTurn(start);
    ModTurn(start + span);
  }

  lemma DecodeReadsTheBytes(p: seq<Byte>, i: nat)
    requires |p| == LDS_PACKET_BYTES && i < POINTS_PER_PACKET
    ensures DecodeLds(p).start == U16(p, 4)
    ensures DecodeLds(p).points[i] ==
            Point(AngleOf(U16(p, 4), (U16(p, 42) - U16(p, 4)) % 36000, i), U16(p, 6 + 3 * i), ToInt(p[8 + 3 * i]))
  {
  }

  /** Decoding reads each field where it lies, low byte first: the start angle after the
      rotor speed, each return's distance and intensity, and angles that run from the
      start angle to the end angle. */
  lemma DecodeReadsTheFields(p: seq<Byte>, speed: seq<Byte>, start: seq<Byte>, beams: seq<Byte>, end: seq<Byte>)
    requires LaidOut(p, speed, start, beams, end)
    ensures var first, last := ToInt(start[0]) + 256 * ToInt(start[1]), ToInt(end[0]) + 256 * ToInt(end[1]);
            && DecodeLds(p).start == first && DecodeLds(p).points[0].cdeg == (first % 36000) as real
            && DecodeLds(p).points[11].cdeg == (last % 36000) as real
    ensures forall i :: 0 <= i < POINTS_PER_PACKET ==>
              && DecodeLds(p).points[i].distance == ToInt(beams[3 * i]) + 256 * ToInt(beams[3 * i + 1])
              && DecodeLds(p).points[i].intensity == ToInt(beams[3 * i + 2])
  {
    FieldsAt(p, speed, start, beams, end);
    assert U16(p, 4) == U16(start, 0) && U16(p, 42) == U16(end, 0);
    AnglesRun(U16(start, 0), U16(end, 0));
    DecodeReadsTheBytes(p, 0);
    DecodeReadsTheBytes(p, 11);
    forall i | 0 <= i < POINTS_PER_PACKET
      ensures DecodeLds(p).points[i].distance == ToInt(beams[3 * i]) + 256 * ToInt(beams[3 * i + 1])
      ensures DecodeLds(p).points[i].intensity == ToInt(beams[3 * i + 2])
    {
      DecodeReadsTheBytes(p, i);
      assert p[6 + 3 * i] == beams[3 * i] && p[6 + (3 * i + 1)] == beams[3 * i + 1] && p[6 + (3 * i + 2)] == beams[3 * i + 2];
    }
  }

  /** Two bytes that say `n`, low byte first. */
  predicate Says16(b: seq<Byte>, n: nat) {
    |b| == 2 && ToInt(b[0]) == n % 256 && ToInt(b[1]) == n / 256
  }

  /** What a sensor has to say in one packet. */
  datatype Sweep = Sweep(start: nat, end: nat, distances: seq<nat>, intensities: seq<nat>)

  /** Three bytes a return: its distance, low byte first, then its intensity. */
  predicate SaysBeams(b: seq<Byte>, sweep: Sweep) {
    && |b| == 3 * POINTS_PER_PACKET && |sweep.distances| == |sweep.intensities| == POINTS_PER_PACKET
    && forall i :: 0 <= i < POINTS_PER_PACKET ==>
         Says16([b[3 * i], b[3 * i + 1]], sweep.distances[i]) && ToInt(b[3 * i + 2]) == sweep.intensities[i]
  }

  /** Point `i` of twelve lies `i` elevenths of the way from the start angle on to the
      end angle, and angles are read modulo a turn. */
  ghost predicate OnTheArc(start: int, end: int, i: int, cdeg: real) {
    exists span: int, turns: int :: AlongBy(start, end, i, span, turns, cdeg)
  }

  predicate AlongBy(start: int, end: int, i: int, span: int, turns: int, cdeg: real) {
    && 0 <= span < 36000 && (start + span) % 36000 == end % 36000
    && 11.0 * cdeg == (11 * start + span * i) as real - 396000.0 * turns as real
  }

  lemma Elevenths(n: int, s: real, i: int)
    requires 11.0 * s == n as real
    ensures 11.0 * (s * i as real) == (n * i) as real
  {
    assert 11.0 * (s * i as real) == (11.0 * s) * i as real;
  }

  lemma AngleIsOnTheArc(start: int, end: int, i: int)
    ensures OnTheArc(start, end, i, AngleOf(start, (end - start) % 36000, i))
  {
    var span := (end - start) % 36000;
    var x := start as real + span as real / 11.0 * i as real;
    SpanEnds(start, end);
    Elevenths(span, span as real / 11.0, i);
    assert 11.0 * x == (11 * start + span * i) as real;
    var turns := ModTurns(x, 36000.0);
    assert AngleOf(start, span, i) == Mod(x, 36000.0);
    assert AlongBy(start, end, i, span, turns, Mod(x, 36000.0));
  }

  /** Decoding gives back what the sensor wrote, low byte first, whatever the rotor
      speed, the time stamp and the checksum. */
  lemma DecodeInvertsEncoding(sweep: Sweep, p: seq<Byte>, speed: seq<Byte>, start: seq<Byte>, beams: seq<Byte>, end: seq<Byte>, i: nat)
    requires LaidOut(p, speed, start, beams, end) && i < POINTS_PER_PACKET
    requires Says16(start, sweep.start) && SaysBeams(beams, sweep) && Says16(end, sweep.end)
    ensures var d := DecodeLds(p);
            && d.start == sweep.start && |d.points| == POINTS_PER_PACKET
            && d.points[i].distance == sweep.distances[i] && d.points[i].intensity == sweep.intensities[i]
            && 0.0 <= d.points[i].cdeg < 36000.0 && OnTheArc(sweep.start, sweep.end, i, d.points[i].cdeg)
            && d.points[0].cdeg == (sweep.start % 36000) as real && d.points[11].cdeg == (sweep.end % 36000) as real
  {
    DecodeReadsTheFields(p, speed, start, beams, end);
    assert Says16([beams[3 * i], beams[3 * i + 1]], sweep.distances[i]);
    ArcOf(p, speed, start, beams, end, i);
  }

  lemma ArcOf(p: seq<Byte>, speed: seq<Byte>, start: seq<Byte>, beams: seq<Byte>, end: seq<Byte>, i: nat)
    requires LaidOut(p, speed, start, beams, end) && i < POINTS_PER_PACKET
    ensures OnTheArc(ToInt(start[0]) + 256 * ToInt(start[1]), ToInt(end[0]) + 256 * ToInt(end[1]), i, DecodeLds(p).points[i].cdeg)
  {
    FieldsAt(p, speed, start, beams, end);
    DecodeReadsTheBytes(p, i);
    AngleIsOnTheArc(U16(p, 4), U16(p, 42), i);
  }

  function Pow2(e: int): real
    decreases if e < 0 then -e else e
  {
    if e == 0 then 1.0 else if e > 0 then 2.0 * Pow2(e - 1) else Pow2(e + 1) / 2.0
  }

  /** `x` times a power of two. */
  function Scaled(x: real, e: int): real { x * Pow2(e) }

  function Signed(negative: bool, x: real): real { if negative then -x else x }

  /** The IEEE single with these 32 bits; None for infinities and NaNs. */
  function Single(n: nat): Option<real> {
    var exponent, fraction := n / 0x80_0000 % 256, n % 0x80_0000;
    if exponent == 255 then None
    else if exponent == 0 then Some(Signed(n >= 0x8000_0000, Scaled(fraction as real, -149)))
    else Some(Signed(n >= 0x8000_0000, Scaled((0x80_0000 + fraction) as real, exponent - 150)))
  }

  /** A little-endian single at `i`. */
  function F32(p: seq<Byte>, i: nat): Option<real>
    requires i + 3 < |p|
  {
    Single(U16(p, i) + 65536 * U16(p, i + 2))
  }

  /** The IMU channels: the floats after dead-man switch and battery voltage. */
  function ImuValues(p: seq<Byte>): (v: seq<Option<real>>)
    requires |p| == OPENCR_PACKET_BYTES
    ensures |v| == IMU_FIELDS
  {
    seq(IMU_FIELDS, i requires 0 <= i < IMU_FIELDS => F32(p, OPENCR_FIRST_FLOAT + 4 * (2 + i)))
  }

  /** The IMU channels lie after the magic, a sequence byte, 27 shorts of telemetry, and
      the two floats of the dead-man switch and the battery. */
  lemma ImuFollowsTelemetry(p: seq<Byte>, head: seq<Byte>, telemetry: seq<Byte>, power: seq<Byte>, imu: seq<Byte>, crc: Byte, i: nat)
    requires |head| == 3 && |telemetry| == 2 * 27 && |power| == 4 * 2 && |imu| == 4 * IMU_FIELDS && i < IMU_FIELDS
    requires p == head + telemetry + power + imu + [crc]
    ensures |p| == OPENCR_PACKET_BYTES && ImuValues(p)[i] == F32(imu, 4 * i)
  {
    assert p == head + telemetry + power + (imu + [crc]);
    Inside(head + telemetry + power, imu, [crc], p, 4 * i);
    ImuAt(p, imu, i);
  }

  lemma ImuAt(p: seq<Byte>, imu: seq<Byte>, i: nat)
    requires |p| == OPENCR_PACKET_BYTES && |imu| == 4 * IMU_FIELDS && i < IMU_FIELDS
    requires var k, j := 65 + 4 * i, 4 * i;
             p[k] == imu[j] && p[k + 1] == imu[j + 1] && p[k + 2] == imu[j + 2] && p[k + 3] == imu[j + 3]
    ensures ImuValues(p)[i] == F32(imu, 4 * i)
  {
    SameFloat(p, 65 + 4 * i, imu, 4 * i);
    assert OPENCR_FIRST_FLOAT + 4 * (2 + i) == 65 + 4 * i;
  }

  lemma Inside(front: seq<Byte>, middle: seq<Byte>, back: seq<Byte>, p: seq<Byte>, j: nat)
    requires p == front + (middle + back) && j + 3 < |middle|
    ensures var k := |front| + j;
            && p[k] == middle[j] && p[k + 1] == middle[j + 1] && p[k + 2] == middle[j + 2] && p[k + 3] == middle[j + 3]
  {
  }

  lemma SameFloat(p: seq<Byte>, i: nat, q: seq<Byte>, j: nat)
    requires i + 3 < |p| && j + 3 < |q|
    requires p[i] == q[j] && p[i + 1] == q[j + 1] && p[i + 2] == q[j + 2] && p[i + 3] == q[j + 3]
    ensures F32(p, i) == F32(q, j)
  {
    assert U16(p, i) == U16(q, j);
    assert U16(p, i + 2) == U16(q, j + 2);
  }

  lemma Pow2Doubles(e: int)
    ensures Pow2(e + 1) == 2.0 * Pow2(e)
  {
  }

  lemma {:induction false} Pow2Adds(e: int, n: nat)
    ensures Pow2(e + n) == Pow2(n) * Pow2(e)
  {
    if n > 0 {
      Pow2Adds(e, n - 1);
      Pow2Doubles(e + (n - 1));
      Twice(Pow2(n - 1), Pow2(e));
    }
  }

  lemma Twice(a: real, b: real)
    ensures 2.0 * (a * b) == 2.0 * a * b
  {
  }

  /** What a single with this sign, exponent and fraction stands for: section 3.4 of
      IEEE 754-2019. */
  function Meaning(negative: bool, exponent: nat, fraction: nat): Option<real> {
    if exponent == 255 then None
    else if exponent == 0 then Some(Signed(negative, Scaled(fraction as real / 8388608.0, -126)))
    else Some(Signed(negative, Scaled(1.0 + fraction as real / 8388608.0, exponent - 127)))
  }

  lemma Pow2Is23(e: int)
    ensures Pow2(e + 23) == 8388608.0 * Pow2(e)
  {
    Pow2Adds(e, 23);
    assert Pow2(8) == 256.0 && Pow2(16) == 65536.0;
  }

  lemma ScaledShifts(x: real, e: int)
    ensures Scaled(x, e) == Scaled(x / 8388608.0, e + 23)
  {
    Pow2Is23(e);
  }

  lemma Fields(negative: bool, exponent: nat, fraction: nat) returns (n: nat)
    requires exponent < 256 && fraction < 0x80_0000
    ensures n == (if negative then 0x8000_0000 else 0) + 0x80_0000 * exponent + fraction
    ensures n >= 0x8000_0000 <==> negative
    ensures n / 0x80_0000 % 256 == exponent && n % 0x80_0000 == fraction
  {
    n := (if negative then 0x8000_0000 else 0) + 0x80_0000 * exponent + fraction;
    var high := (if negative then 256 else 0) + exponent;
    assert n == high * 0x80_0000 + fraction;
    ModUnique(n, 0x80_0000, high, fraction);
  }

  lemma SingleMeans(negative: bool, exponent: nat, fraction: nat)
    requires exponent < 256 && fraction < 0x80_0000
    ensures Single((if negative then 0x8000_0000 else 0) + 0x80_0000 * exponent + fraction) == Meaning(negative, exponent, fraction)
  {
    var n := Fields(negative, exponent, fraction);
    MeansByFields(n, negative, exponent, fraction);
  }

  lemma MeansByFields(n: nat, negative: bool, exponent: nat, fraction: nat)
    requires n >= 0x8000_0000 <==> negative
    requires n / 0x80_0000 % 256 == exponent && n % 0x80_0000 == fraction
    ensures Single(n) == Meaning(negative, exponent, fraction)
  {
    if exponent == 0 {
      ScaledShifts(fraction as real, -149);
    } else {
      ScaledShifts((0x80_0000 + fraction) as real, exponent - 150);
      assert (0x80_0000 + fraction) as real / 8388608.0 == 1.0 + fraction as real / 8388608.0;
    }
  }

  /** Four bytes that say a single, low byte first. */
  predicate SaysSingle(b: seq<Byte>, negative: bool, exponent: nat, fraction: nat) {
    && |b| == 4 && exponent < 256 && fraction < 0x80_0000
    && ToInt(b[0]) == fraction % 256 && ToInt(b[1]) == fraction / 256 % 256
    && ToInt(b[2]) == exponent % 2 * 128 + fraction / 65536 && ToInt(b[3]) == (if negative then 128 else 0) + exponent / 2
  }

  lemma F32ReadsSingle(p: seq<Byte>, i: nat, negative: bool, exponent: nat, fraction: nat)
    requires i + 3 < |p| && SaysSingle(p[i..i + 4], negative, exponent, fraction)
    ensures F32(p, i) == Meaning(negative, exponent, fraction)
  {
    var b := p[i..i + 4];
    assert b[0] == p[i] && b[1] == p[i + 1] && b[2] == p[i + 2] && b[3] == p[i + 3];
    PutTogether(negative, exponent, fraction);
    SingleMeans(negative, exponent, fraction);
  }

  lemma PutTogether(negative: bool, exponent: nat, fraction: nat)
    requires exponent < 256 && fraction < 0x80_0000
    ensures fraction % 256 + 256 * (fraction / 256 % 256)
            + 65536 * (exponent % 2 * 128 + fraction / 65536 + 256 * ((if negative then 128 else 0) + exponent / 2))
         == (if negative then 0x8000_0000 else 0) + 0x80_0000 * exponent + fraction
  {
  }

  /** Each IMU channel is the number whose four bytes the device wrote in its place. */
  lemma ImuReadsTheFloats(p: seq<Byte>, head: seq<Byte>, telemetry: seq<Byte>, power: seq<Byte>, imu: seq<Byte>, crc: Byte, i: nat,
                          negative: bool, exponent: nat, fraction: nat)
    requires |head| == 3 && |telemetry| == 2 * 27 && |power| == 4 * 2 && |imu| == 4 * IMU_FIELDS && i < IMU_FIELDS
    requires p == head + telemetry + power + imu + [crc]
    requires SaysSingle(imu[4 * i..4 * i + 4], negative, exponent, fraction)
    ensures |p| == OPENCR_PACKET_BYTES && ImuValues(p)[i] == Meaning(negative, exponent, fraction)
  {
    ImuFollowsTelemetry(p, head, telemetry, power, imu, crc, i);
    F32ReadsSingle(imu, 4 * i, negative, exponent, fraction);
  }

  /** The bytes of one, minus two, a half, and a NaN. */
  lemma KnownFloats()
    ensures SaysSingle([Byte(0), Byte(0), Byte(0x80), Byte(0x3F)], false, 127, 0) && Meaning(false, 127, 0) == Some(1.0)
    ensures SaysSingle([Byte(0), Byte(0), Byte(0), Byte(0xC0)], true, 128, 0) && Meaning(true, 128, 0) == Some(-2.0)
    ensures SaysSingle([Byte(0), Byte(0), Byte(0), Byte(0x3F)], false, 126, 0) && Meaning(false, 126, 0) == Some(0.5)
    ensures SaysSingle([Byte(0), Byte(0), Byte(0xC0), Byte(0x7F)], false, 255, 0x40_0000) && Meaning(false, 255, 0x40_0000) == None
  {
  }

  predicate Within(v: Option<real>, bound: real) {
    v.Some? && -bound <= v.value <= bound
  }

  /** All finite, gyro within 100 rad/s, accelerometer within 200 m/s^2. */
  predicate Plausible(v: seq<Option<real>>)
    requires |v| == IMU_FIELDS
  {
    && (forall i :: 0 <= i < |v| ==> v[i].Some?)
    && (forall i :: 0 <= i < 3 ==> Within(v[i], 100.0))
    && (forall i :: 3 <= i < 6 ==> Within(v[i], 200.0))
  }

  /** While it checks, the reader accepts a frame exactly when its checksum passes and
      every channel is a number, the three rates within 100 rad/s and the three
      accelerations within 200 m/s^2. */
  lemma OpenCrAcceptsIff(c: Counters, w: seq<Byte>)
    requires c.checking && |w| == OPENCR_PACKET_BYTES
    ensures OpenCrFormat().Accepts(c, w) <==>
              && Passes(CCITT_POLY, w)
              && (forall i :: 6 <= i < 13 ==> ImuValues(w)[i].Some?)
              && (forall i :: 0 <= i < 3 ==> ImuValues(w)[i].Some? && -100.0 <= ImuValues(w)[i].value <= 100.0)
              && (forall i :: 3 <= i < 6 ==> ImuValues(w)[i].Some? && -200.0 <= ImuValues(w)[i].value <= 200.0)
  {
  }

  /** Index of the first `m0 m1` in the buffer, or -1 (`bytes.find`). */
  method FindMagic(buf: seq<Byte>, m0: Byte, m1: Byte) returns (at: int)
    ensures -1 <= at < |buf|
    ensures at >= 0 ==> at + 1 < |buf| && buf[at] == m0 && buf[at + 1] == m1
    ensures forall p :: 0 <= p < (if at < 0 then |buf| else at) && p + 1 < |buf| ==> !(buf[p] == m0 && buf[p + 1] == m1)
  {
    at := 0;
    while at + 1 < |buf|
      invariant 0 <= at <= |buf|
      invariant forall p :: 0 <= p < at && p + 1 < |buf| ==> !(buf[p] == m0 && buf[p + 1] == m1)
    {
      if buf[at] == m0 && buf[at + 1] == m1 { return; }
      at := at + 1;
    }
    at := -1;
  }

  // ---- The LiDAR reader ----

  class SerialLdsSource {
    const crcMode: CrcMode
    const crcTable: seq<Byte>
    var buf: seq<Byte>
    var crcOk: nat
    var crcBad: nat
    var crcChecking: bool
    var packetCount: nat

    var yielded: seq<seq<Byte>>  // the generator's output so far

    ghost var stream: seq<Byte>  // every byte read so far

    ghost function Counted(): Counters
      reads this
    {
      Counters(crcOk, crcBad, 0, packetCount, crcChecking)
    }

    ghost function Fresh(): Counters {
      Counters(0, 0, 0, 0, crcMode != Ignore)
    }

    /** Everything the reader holds is determined by the bytes read so far, however
        they were split into reads. */
    ghost predicate Valid()
      reads this
    {
      var r := Scan(LdsFormat(crcMode), Fresh(), stream, 0, []);
      && IsTable(LDS_POLY, crcTable)
      && r == Scanned(yielded, Counted(), r.stop)
      && buf == Cut(stream, r.stop, |stream|)
    }

    constructor (mode: CrcMode)
      ensures Valid() && crcMode == mode && stream == [] && yielded == []
    {
      crcMode := mode;
      buf := [];
      crcOk, crcBad, packetCount := 0, 0, 0;
      crcChecking := mode != Ignore;
      var table := Crc8Table(LDS_POLY);
      crcTable := table;
      stream, yielded := [], [];
    }

    method CheckCrc(packet: seq<Byte>) returns (ok: bool)
      requires IsTable(LDS_POLY, crcTable) && |packet| == LDS_PACKET_BYTES && crcChecking
      modifies this`crcOk, this`crcBad, this`crcChecking
      ensures ok == (packet in LdsFormat(crcMode).crcGood)
      ensures ok ==> crcOk == old(crcOk) + 1 && crcBad == old(crcBad) && crcChecking
      ensures !ok ==> Counted() == LdsFormat(crcMode).Count(old(Counted()), packet)
    {
      var n := |packet| - 1;
      var crc := Crc8(crcTable, LDS_POLY, packet[..n]);
      if crc == packet[n] {
        crcOk := crcOk + 1;
        return true;
      }
      crcBad := crcBad + 1;
      if crcMode == Auto && crcBad >= 50 && crcBad > 4 * crcOk {
        crcChecking := false;
      }
      return false;
    }

    /** The verdict on one packet, with its counters. */
    method Admit(packet: seq<Byte>) returns (ok: bool)
      requires IsTable(LDS_POLY, crcTable) && |packet| == LDS_PACKET_BYTES
      modifies this`crcOk, this`crcBad, this`crcChecking, this`packetCount
      ensures ok == LdsFormat(crcMode).Accepts(old(Counted()), packet)
      ensures Counted() == LdsFormat(crcMode).Count(old(Counted()), packet)
    {
      if crcChecking {
        ok := CheckCrc(packet);
        if !ok {
          return false;
        }
      }
      packetCount := packetCount + 1;
      return true;
    }

    /** One turn of the drain: trim to the next magic and judge the packet there, or stop
        when it is not all there. */
    method Turn(held: seq<Byte>, got: seq<seq<Byte>>, ghost s: seq<Byte>) returns (ready: bool, rest: seq<Byte>, out: seq<seq<Byte>>)
      requires IsTable(LDS_POLY, crcTable) && |held| <= |s| && held == Cut(s, |s| - |held|, |s|)
      modifies this`crcOk, this`crcBad, this`crcChecking, this`packetCount
      ensures |rest| <= |held| && rest == Cut(s, |s| - |rest|, |s|)
      ensures ready ==> |rest| < |held|
      ensures ready ==>
                Scan(LdsFormat(crcMode), old(Counted()), s, |s| - |held|, got) == Scan(LdsFormat(crcMode), Counted(), s, |s| - |rest|, out)
      ensures !ready ==> Scan(LdsFormat(crcMode), old(Counted()), s, |s| - |held|, got) == Scanned(out, Counted(), |s| - |rest|)
    {
      ready, rest := Align(held, Byte(0x54), Byte(0x2C), LDS_PACKET_BYTES, LdsFormat(crcMode), Counted(), s, got);
      out := got;
      if ready {
        ghost var c := Counted();
        var packet := rest[..LDS_PACKET_BYTES];
        HeldFront(s, rest, LDS_PACKET_BYTES);
        var ok := Admit(packet);
        if ok {
          ScanAccepts(LdsFormat(crcMode), c, s, |s| - |rest|, got, packet);
          HeldAfter(s, rest, LDS_PACKET_BYTES);
          rest, out := rest[LDS_PACKET_BYTES..], got + [packet];
        } else {
          ScanRejects(LdsFormat(crcMode), c, s, |s| - |rest|, got, packet);
          HeldAfter(s, rest, 1);
          rest := rest[1..];
        }
      }
    }

    /** Drain the buffer, appending every accepted packet to the output. */
    method Packets()
      requires IsTable(LDS_POLY, crcTable)
      requires |buf| <= |stream| && buf == Cut(stream, |stream| - |buf|, |stream|)
      modifies this`buf, this`crcOk, this`crcBad, this`crcChecking, this`packetCount, this`yielded
      ensures |buf| <= |stream| && buf == Cut(stream, |stream| - |buf|, |stream|)
      ensures Scan(LdsFormat(crcMode), old(Counted()), stream, |stream| - old(|buf|), old(yielded)) ==
              Scanned(yielded, Counted(), |stream| - |buf|)
    {
      ghost var s := stream;
      var ready, b, out := true, buf, yielded;
      ghost var whole := Scan(LdsFormat(crcMode), Counted(), s, |s| - |b|, out);
      while ready
        invariant |b| <= |s| && b == Cut(s, |s| - |b|, |s|)
        invariant ready ==> whole == Scan(LdsFormat(crcMode), Counted(), s, |s| - |b|, out)
        invariant !ready ==> whole == Scanned(out, Counted(), |s| - |b|)
        decreases ready, |b|
      {
        ready, b, out := Turn(b, out, s);
      }
      buf, yielded := b, out;
    }

    /** One read from the port: at most what has arrived, then a drain. */
    method Feed(chunk: seq<Byte>)
      requires Valid()
      modifies this
      ensures Valid() && stream == old(stream) + chunk
      ensures old(yielded) <= yielded
      ensures |buf| < LDS_PACKET_BYTES
    {
      MoreArrives(LdsFormat(crcMode), Fresh(), stream, chunk, Scanned(yielded, Counted(), |stream| - |buf|));
      buf := buf + chunk;
      stream := stream + chunk;
      Packets();
    }
  }

  // ---- The OpenCR reader ----

  class SerialOpenCRSource {
    const crcTable: seq<Byte>
    var buf: seq<Byte>
    var packets: nat
    var crcBad: nat
    var implausible: nat
    var yielded: seq<seq<Byte>>  // the generator's output so far

    ghost var stream: seq<Byte>  // every byte read so far

    /** `packets` counts accepted frames, each of which passed its CRC. */
    ghost function Counted(): Counters
      reads this
    {
      Counters(packets, crcBad, implausible, packets, true)
    }

    /** Everything the reader holds is determined by the bytes read so far, and what
        it holds back between reads is less than a packet. */
    ghost predicate Valid()
      reads this
    {
      var r := Scan(OpenCrFormat(), Counters(0, 0, 0, 0, true), stream, 0, []);
      && IsTable(CCITT_POLY, crcTable)
      && r == Scanned(yielded, Counted(), r.stop)
      && |buf| < OPENCR_PACKET_BYTES
      && buf == Cut(stream, r.stop, |stream|)
    }

    constructor ()
      ensures Valid() && stream == [] && yielded == []
    {
      buf, yielded, stream := [], [], [];
      packets, crcBad, implausible := 0, 0, 0;
      var table := Crc8Table(CCITT_POLY);
      crcTable := table;
    }

    /** The verdict on one frame, with its counters. */
    method Admit(packet: seq<Byte>) returns (ok: bool)
      requires IsTable(CCITT_POLY, crcTable) && |packet| == OPENCR_PACKET_BYTES
      modifies this`packets, this`crcBad, this`implausible
      ensures ok == OpenCrFormat().Accepts(old(Counted()), packet)
      ensures Counted() == OpenCrFormat().Count(old(Counted()), packet)
    {
      var verdict := Judge(crcTable, packet);
      if verdict == BadCrc {
        crcBad := crcBad + 1;
      } else if verdict == NotPlausible {
        implausible := implausible + 1;
      } else {
        packets := packets + 1;
      }
      return verdict == Good;
    }

    /** One turn of the drain: trim to the next magic and judge the frame there, or stop
        when it is not all there. */
    method Turn(held: seq<Byte>, got: seq<seq<Byte>>, ghost s: seq<Byte>) returns (ready: bool, rest: seq<Byte>, out: seq<seq<Byte>>)
      requires IsTable(CCITT_POLY, crcTable) && |held| <= |s| && held == Cut(s, |s| - |held|, |s|)
      modifies this`packets, this`crcBad, this`implausible
      ensures |rest| <= |held| && rest == Cut(s, |s| - |rest|, |s|)
      ensures ready ==> |rest| < |held|
      ensures ready ==>
                Scan(OpenCrFormat(), old(Counted()), s, |s| - |held|, got) == Scan(OpenCrFormat(), Counted(), s, |s| - |rest|, out)
      ensures !ready ==> Scan(OpenCrFormat(), old(Counted()), s, |s| - |held|, got) == Scanned(out, Counted(), |s| - |rest|)
    {
      ready, rest := Align(held, Byte(0x55), Byte(0xAA), OPENCR_PACKET_BYTES, OpenCrFormat(), Counted(), s, got);
      out := got;
      if ready {
        ghost var c := Counted();
        var packet := rest[..OPENCR_PACKET_BYTES];
        HeldFront(s, rest, OPENCR_PACKET_BYTES);
        var ok := Admit(packet);
        if ok {
          ScanAccepts(OpenCrFormat(), c, s, |s| - |rest|, got, packet);
          HeldAfter(s, rest, OPENCR_PACKET_BYTES);
          rest, out := rest[OPENCR_PACKET_BYTES..], got + [packet];
        } else {
          ScanRejects(OpenCrFormat(), c, s, |s| - |rest|, got, packet);
          HeldAfter(s, rest, 1);
          rest := rest[1..];
        }
      }
    }

    /** Drain the buffer, appending every accepted frame to the output. */
    method Frames()
      requires IsTable(CCITT_POLY, crcTable)
      requires |buf| <= |stream| && buf == Cut(stream, |stream| - |buf|, |stream|)
      modifies this`buf, this`packets, this`crcBad, this`implausible, this`yielded
      ensures |buf| <= |stream| && buf == Cut(stream, |stream| - |buf|, |stream|)
      ensures Scan(OpenCrFormat(), old(Counted()), stream, |stream| - old(|buf|), old(yielded)) ==
              Scanned(yielded, Counted(), |stream| - |buf|)
    {
      ghost var s := stream;
      var ready, b, out := true, buf, yielded;
      ghost var whole := Scan(OpenCrFormat(), Counted(), s, |s| - |b|, out);
      while ready
        invariant |b| <= |s| && b == Cut(s, |s| - |b|, |s|)
        invariant ready ==> whole == Scan(OpenCrFormat(), Counted(), s, |s| - |b|, out)
        invariant !ready ==> whole == Scanned(out, Counted(), |s| - |b|)
        decreases ready, |b|
      {
        ready, b, out := Turn(b, out, s);
      }
      buf, yielded := b, out;
    }

    /** One read from the port.  The source bounds its buffer; with reads of at most
        512 bytes the bound is never reached, so no byte is ever discarded. */
    method Feed(chunk: seq<Byte>)
      requires Valid()
      modifies this
      ensures |chunk| <= 512 ==> Valid() && stream == old(stream) + chunk && old(yielded) <= yielded
      ensures |buf| < OPENCR_PACKET_BYTES
    {
      MoreArrives(OpenCrFormat(), Counters(0, 0, 0, 0, true), stream, chunk, Scanned(yielded, Counted(), |stream| - |buf|));
      buf := buf + chunk;
      stream := stream + chunk;
      if |buf| > 8192 {
        buf := buf[|buf| - 4096..];
        stream := buf;
        CutIsSlice(buf, 0, |buf|);
      }
      Frames();
    }
  }

  datatype Verdict = Good | BadCrc | NotPlausible

  /** The two checks on a whole window, CRC first. */
  method Judge(table: seq<Byte>, packet: seq<Byte>) returns (v: Verdict)
    requires IsTable(CCITT_POLY, table) && |packet| == OPENCR_PACKET_BYTES
    ensures v == BadCrc <==> packet !in OpenCrFormat().crcGood
    ensures v == Good <==> packet in OpenCrFormat().crcGood && packet in OpenCrFormat().plausible
  {
    var n := |packet| - 1;
    var crc := Crc8(table, CCITT_POLY, packet[..n]);
    if crc != packet[n] {
      return BadCrc;
    }
    if !Plausible(ImuValues(packet)) {
      return NotPlausible;
    }
    return Good;
  }

  /** Trim the buffer to its first magic; a packet is ready when it is all there. */
  method Align(buf: seq<Byte>, m0: Byte, m1: Byte, size: nat,
               ghost f: Format<Byte>, ghost c: Counters, ghost s: seq<Byte>, ghost got: seq<seq<Byte>>)
    returns (ready: bool, b: seq<Byte>)
    requires f.m0 == m0 && f.m1 == m1 && f.size == size
    requires |buf| <= |s| && buf == Cut(s, |s| - |buf|, |s|)
    ensures |b| <= |buf| && b == Cut(s, |s| - |b|, |s|)
    ensures ready ==> |b| >= size && f.MagicAt(s, |s| - |b|)
    ensures ready ==> Scan(f, c, s, |s| - |buf|, got) == Scan(f, c, s, |s| - |b|, got)
    ensures !ready ==> Scan(f, c, s, |s| - |buf|, got) == Scanned(got, c, |s| - |b|)
  {
    b := buf;
    ghost var at := |s| - |buf|;
    var start := FindMagic(buf, m0, m1);
    if start < 0 {
      NoMagicLeft(f, c, s, at, buf, got);
      if |buf| > 1 {
        CutAgain(s, at, |s|, |buf| - 1);
        b := buf[|buf| - 1..];
      }
      return false, b;
    }
    MagicFound(f, c, s, at, buf, start, got);
    if start > 0 {
      CutAgain(s, at, |s|, start);
      b := buf[start..];
    }
    if |b| < size {
      ScanStops(f, c, s, at + start, got);
      return false, b;
    }
    return true, b;
  }

  lemma NoMagicLeft(f: Format<Byte>, c: Counters, stream: seq<Byte>, at: nat, buf: seq<Byte>, got: seq<seq<Byte>>)
    requires at <= |stream| && buf == Cut(stream, at, |stream|)
    requires forall p :: 0 <= p < |buf| && p + 1 < |buf| ==> !(buf[p] == f.m0 && buf[p + 1] == f.m1)
    ensures Scan(f, c, stream, at, got) == Scanned(got, c, if at < |stream| then |stream| - 1 else at)
  {
    CutAt(stream, at, |stream|);
    forall p: nat | at <= p ensures !f.MagicAt(stream, p) {
      if p + 1 < |stream| {
        assert buf[p - at] == stream[p] && buf[p - at + 1] == stream[p + 1];
      }
    }
    if at < |stream| {
      SkipAll(f, c, stream, at, got);
    }
  }

  lemma MagicFound(f: Format<Byte>, c: Counters, stream: seq<Byte>, at: nat, buf: seq<Byte>, start: nat, got: seq<seq<Byte>>)
    requires at <= |stream| && buf == Cut(stream, at, |stream|)
    requires start + 1 < |buf| && buf[start] == f.m0 && buf[start + 1] == f.m1
    requires forall p :: 0 <= p < start && p + 1 < |buf| ==> !(buf[p] == f.m0 && buf[p + 1] == f.m1)
    ensures Scan(f, c, stream, at, got) == Scan(f, c, stream, at + start, got)
    ensures f.MagicAt(stream, at + start)
  {
    CutAt(stream, at, |stream|);
    forall p: nat | at <= p < at + start ensures !f.MagicAt(stream, p) {
      assert buf[p - at] == stream[p] && buf[p - at + 1] == stream[p + 1];
    }
    assert buf[start] == stream[at + start] && buf[start + 1] == stream[at + start + 1];
    SkipTo(f, c, stream, at, at + start, got);
  }

  // ---- What the readers guarantee ----

  /** A magic-free prefix and back-to-back packets that pass their CRC yield exactly
      those packets, whichever mode the reader is in. */
  lemma LdsPacketsSurvive(mode: CrcMode, prefix: seq<Byte>, packets: seq<seq<Byte>>)
    requires packets != []
    requires forall p: nat :: !LdsFormat(mode).MagicAt(prefix, p)
    requires forall w :: w in packets ==> |w| == LDS_PACKET_BYTES
    requires forall w :: w in packets ==> LdsFormat(mode).MagicAt(w, 0) && Passes(LDS_POLY, w)
    ensures var r := Scan(LdsFormat(mode), Counters(0, 0, 0, 0, mode != Ignore), prefix + Concat(packets), 0, []);
            r.frames == packets && r.stop == |prefix + Concat(packets)|
  {
    forall k | 0 <= k < |packets| ensures GoodPacket(LdsFormat(mode), packets[k]) {
    }
    GoodPacketsSurvive(LdsFormat(mode), Counters(0, 0, 0, 0, mode != Ignore), prefix, packets);
  }

  /** A window that differs from a good packet in one byte is never accepted while
      the CRC is being checked, by either reader. */
  lemma CorruptPacketRejected(mode: CrcMode, c: Counters, w: seq<Byte>, w': seq<Byte>, k: nat)
    requires k < |w| == |w'| && w[k] != w'[k]
    requires forall i :: 0 <= i < |w| && i != k ==> w[i] == w'[i]
    requires c.checking
    ensures w in LdsFormat(mode).crcGood ==> !LdsFormat(mode).Accepts(c, w')
    ensures w in OpenCrFormat().crcGood ==> !OpenCrFormat().Accepts(c, w')
  {
    SingleByteErrorDetected(LDS_POLY, w, w', k);
    SingleByteErrorDetected(CCITT_POLY, w, w', k);
  }
}
