/** The LiDAR reader end to end: reads from the port in, revolutions out. */
module Scans {
  import opened Wrappers
  import opened Crc
  import opened Framing
  import opened SerialSources
  import opened Revolution

  ghost predicate Sized(packets: seq<seq<Byte>>) {
    forall k :: 0 <= k < |packets| ==> |packets[k]| == LDS_PACKET_BYTES
  }

  /** What the packets of a stream decode to. */
  function Decoded(packets: seq<seq<Byte>>): (ps: seq<LdsPacket>)
    requires Sized(packets)
    ensures |ps| == |packets| && forall k :: 0 <= k < |packets| ==> ps[k] == DecodeLds(packets[k])
  {
    seq(|packets|, k requires 0 <= k < |packets| => DecodeLds(packets[k]))
  }

  lemma {:induction false} WindowsAreSized(stream: seq<Byte>, offs: seq<nat>)
    ensures Sized(Windows(stream, offs, LDS_PACKET_BYTES))
  {
    if offs != [] {
      WindowsAreSized(stream, offs[1..]);
    }
  }

  lemma ScannedAreSized(mode: CrcMode, c: Counters, stream: seq<Byte>)
    ensures Sized(Scan(LdsFormat(mode), c, stream, 0, []).frames)
  {
    FramesAreWindows(LdsFormat(mode), c, stream, 0, []);
    WindowsAreSized(stream, Offsets(LdsFormat(mode), c, stream, 0));
  }

  /** The packets from the `n`-th on. */
  function DecodedFrom(packets: seq<seq<Byte>>, n: nat): (ps: seq<LdsPacket>)
    requires Sized(packets) && n <= |packets|
  {
    seq(|packets| - n, k requires 0 <= k < |packets| - n => DecodeLds(packets[n + k]))
  }

  lemma DecodedMore(before: seq<seq<Byte>>, packets: seq<seq<Byte>>)
    requires Sized(packets) && before <= packets
    ensures Sized(before) && Decoded(packets) == Decoded(before) + DecodedFrom(packets, |before|)
  {
  }

  method TakeAll(assembler: Assembler, ps: seq<LdsPacket>)
    requires assembler.Valid()
    modifies assembler, assembler.ranges, assembler.intensities
    ensures assembler.Valid() && assembler.taken == old(assembler.taken) + ps
    ensures assembler.ranges == old(assembler.ranges) || fresh(assembler.ranges)
    ensures assembler.intensities == old(assembler.intensities) || fresh(assembler.intensities)
  {
    var rest := ps;
    ghost var all := assembler.taken + ps;
    while rest != []
      invariant assembler.Valid() && assembler.taken + rest == all
      invariant assembler.ranges == old(assembler.ranges) || fresh(assembler.ranges)
      invariant assembler.intensities == old(assembler.intensities) || fresh(assembler.intensities)
      decreases |rest|
    {
      assert rest == [rest[0]] + rest[1..];
      assembler.Packet(rest[0]);
      rest := rest[1..];
    }
  }

  class LdsScanner {
    const source: SerialLdsSource
    const assembler: Assembler

    /** The readings out are those of the packets framed in the bytes read so far. */
    ghost predicate Valid()
      reads this, source, assembler, assembler.ranges, assembler.intensities
    {
      && source.Valid() && assembler.Valid() && Sized(source.yielded)
      && assembler.taken == Decoded(source.yielded)
    }

    constructor (mode: CrcMode, points: pos)
      ensures Valid() && source.stream == [] && source.crcMode == mode && assembler.points == points
      ensures fresh(source) && fresh(assembler) && fresh(assembler.ranges) && fresh(assembler.intensities)
    {
      source := new SerialLdsSource(mode);
      assembler := new Assembler(points);
    }

    /** One read: frame what it completes, then assemble it. */
    method Read(chunk: seq<Byte>)
      requires Valid()
      modifies source, assembler, assembler.ranges, assembler.intensities
      ensures Valid() && source.stream == old(source.stream) + chunk
    {
      ghost var before := source.yielded;
      var n := |source.yielded|;
      source.Feed(chunk);
      ScannedAreSized(source.crcMode, source.Fresh(), source.stream);
      DecodedMore(before, source.yielded);
      TakeAll(assembler, DecodedFrom(source.yielded, n));
    }

    /** Every reading out is a function of the bytes, however they were split. */
    lemma ReadingsFollowTheBytes()
      requires Valid()
      ensures var frames := Scan(LdsFormat(source.crcMode), source.Fresh(), source.stream, 0, []).frames;
              Sized(frames) && assembler.yielded == Emitted(assembler.points, Closed(Decoded(frames)))
    {
      ScannedAreSized(source.crcMode, source.Fresh(), source.stream);
    }
  }
}
