/** The resynchronising framer both serial readers run over their byte buffer:
    find the two magic bytes, wait for a whole packet, check it, and on a bad
    check advance by one byte and look again. */
module Framing {
  import opened Wrappers

  /** The counters a reader keeps.  `checking` is the CRC switch: the LiDAR reader
      starts with it off when told to ignore the CRC, and may turn it off itself. */
  datatype Counters = Counters(crcOk: nat, crcBad: nat, implausible: nat, packets: nat, checking: bool)

  /** What one device's packets look like: the two magic bytes, the packet size,
      the windows whose CRC agrees, those whose content is plausible, and whether
      the reader gives up on the CRC when nearly every packet fails it. */
  datatype Format<!B(==)> = Format(
    m0: B, m1: B, size: pos, crcGood: iset<seq<B>>, plausible: iset<seq<B>>, givesUp: bool)
  {
    ghost predicate WellFormed() {
      m0 != m1 && size >= 2
    }

    ghost predicate MagicAt(buf: seq<B>, p: nat) {
      p + 1 < |buf| && buf[p] == m0 && buf[p + 1] == m1
    }

    /** The window is accepted, given the counters so far. */
    ghost predicate Accepts(c: Counters, w: seq<B>) {
      !c.checking || (w in crcGood && w in plausible)
    }

    /** The counters after the verdict on one window. */
    ghost function Count(c: Counters, w: seq<B>): Counters {
      if !c.checking then c.(packets := c.packets + 1)
      else if w !in crcGood then
        c.(crcBad := c.crcBad + 1,
           checking := !(givesUp && c.crcBad + 1 >= 50 && c.crcBad + 1 > 4 * c.crcOk))
      else if w !in plausible then c.(implausible := c.implausible + 1)
      else c.(crcOk := c.crcOk + 1, packets := c.packets + 1)
    }
  }

  /** What scanning a stream yields: the accepted windows in order, the counters
      afterwards, and the offset of the first byte still held. */
  datatype Scanned<B> = Scanned(frames: seq<seq<B>>, counters: Counters, stop: nat)

  /** `s[i..j]`, as a function of the index. */
  ghost function Cut<B>(s: seq<B>, i: nat, j: nat): (r: seq<B>)
    requires i <= j <= |s|
    ensures |r| == j - i
  {
    seq(j - i, k requires 0 <= k < j - i => s[i + k])
  }

  lemma CutIsSlice<B>(s: seq<B>, i: nat, j: nat)
    requires i <= j <= |s|
    ensures Cut(s, i, j) == s[i..j]
  {
  }

  lemma CutAt<B>(s: seq<B>, i: nat, j: nat)
    requires i <= j <= |s|
    ensures forall k :: 0 <= k < j - i ==> Cut(s, i, j)[k] == s[i + k]
  {
  }

  lemma CutAgain<B>(s: seq<B>, i: nat, j: nat, d: nat)
    requires 0 < d <= j - i && j <= |s|
    ensures Cut(s, i, j)[d..] == Cut(s, i + d, j)
    ensures Cut(s, i, j)[..d] == Cut(s, i, i + d)
  {
  }

  /** Scan the stream from offset `i`, byte by byte, with `got` already yielded. */
  ghost function Scan<B>(f: Format<B>, c: Counters, stream: seq<B>, i: nat, got: seq<seq<B>>): (r: Scanned<B>)
    requires i <= |stream|
    ensures i <= r.stop <= |stream|
    ensures f.WellFormed() ==> |stream| - r.stop < f.size
    decreases |stream| - i
  {
    if i + 1 >= |stream| then Scanned(got, c, i)
    else if !f.MagicAt(stream, i) then Scan(f, c, stream, i + 1, got)
    else if i + f.size > |stream| then Scanned(got, c, i)
    else
      var w := Cut(stream, i, i + f.size);
      if f.Accepts(c, w) then Scan(f, f.Count(c, w), stream, i + f.size, got + [w])
      else Scan(f, f.Count(c, w), stream, i + 1, got)
  }

  /** Where in the stream the accepted windows begin. */
  ghost function Offsets<B>(f: Format<B>, c: Counters, stream: seq<B>, i: nat): seq<nat>
    requires i <= |stream|
    decreases |stream| - i
  {
    if i + 1 >= |stream| then []
    else if !f.MagicAt(stream, i) then Offsets(f, c, stream, i + 1)
    else if i + f.size > |stream| then []
    else
      var w := Cut(stream, i, i + f.size);
      if f.Accepts(c, w) then [i] + Offsets(f, f.Count(c, w), stream, i + f.size)
      else Offsets(f, f.Count(c, w), stream, i + 1)
  }

  /** The windows of the stream that begin at the given offsets. */
  ghost function Windows<B>(stream: seq<B>, offs: seq<nat>, size: nat): seq<seq<B>> {
    if offs == [] then []
    else (if offs[0] + size <= |stream| then [Cut(stream, offs[0], offs[0] + size)] else [])
         + Windows(stream, offs[1..], size)
  }

  /** The yielded frames are the windows of the stream at those offsets. */
  lemma {:induction false} FramesAreWindows<B>(f: Format<B>, c: Counters, stream: seq<B>, i: nat, got: seq<seq<B>>)
    requires i <= |stream|
    ensures Scan(f, c, stream, i, got).frames == got + Windows(stream, Offsets(f, c, stream, i), f.size)
    decreases |stream| - i
  {
    if i + 1 >= |stream| || (f.MagicAt(stream, i) && i + f.size > |stream|) {
    } else if !f.MagicAt(stream, i) {
      FramesAreWindows(f, c, stream, i + 1, got);
    } else {
      var w := Cut(stream, i, i + f.size);
      if f.Accepts(c, w) {
        var offs := Offsets(f, f.Count(c, w), stream, i + f.size);
        FramesAreWindows(f, f.Count(c, w), stream, i + f.size, got + [w]);
        assert ([i] + offs)[1..] == offs;
        assert got + [w] + Windows(stream, offs, f.size) == got + ([w] + Windows(stream, offs, f.size));
      } else {
        FramesAreWindows(f, f.Count(c, w), stream, i + 1, got);
      }
    }
  }

  lemma ScanStops<B>(f: Format<B>, c: Counters, stream: seq<B>, i: nat, got: seq<seq<B>>)
    requires f.MagicAt(stream, i) && i + f.size > |stream|
    ensures Scan(f, c, stream, i, got) == Scanned(got, c, i)
  {
  }

  lemma ScanRejects<B>(f: Format<B>, c: Counters, stream: seq<B>, i: nat, got: seq<seq<B>>, w: seq<B>)
    requires f.MagicAt(stream, i) && i + f.size <= |stream|
    requires w == Cut(stream, i, i + f.size) && !f.Accepts(c, w)
    ensures Scan(f, c, stream, i, got) == Scan(f, f.Count(c, w), stream, i + 1, got)
  {
  }

  lemma ScanAccepts<B>(f: Format<B>, c: Counters, stream: seq<B>, i: nat, got: seq<seq<B>>, w: seq<B>)
    requires f.MagicAt(stream, i) && i + f.size <= |stream|
    requires w == Cut(stream, i, i + f.size) && f.Accepts(c, w)
    ensures Scan(f, c, stream, i, got) == Scan(f, f.Count(c, w), stream, i + f.size, got + [w])
  {
  }

  /** What is held is the end of the stream, and so is what is left after dropping some. */
  lemma HeldAfter<B>(s: seq<B>, held: seq<B>, d: nat)
    requires 0 < d <= |held| <= |s| && held == Cut(s, |s| - |held|, |s|)
    ensures |held[d..]| == |held| - d && held[d..] == Cut(s, |s| - |held| + d, |s|)
  {
    CutAgain(s, |s| - |held|, |s|, d);
  }

  lemma HeldFront<B>(s: seq<B>, held: seq<B>, d: nat)
    requires d <= |held| <= |s| && held == Cut(s, |s| - |held|, |s|)
    ensures held[..d] == Cut(s, |s| - |held|, |s| - |held| + d)
  {
  }

  // ---- Chunk independence ----

  lemma CutOfConcat<B>(a: seq<B>, b: seq<B>, i: nat, j: nat)
    requires i <= j <= |a|
    ensures Cut(a + b, i, j) == Cut(a, i, j)
    ensures Cut(a + b, i, |a + b|) == Cut(a, i, |a|) + b
  {
  }

  /** Scanning what has arrived so far, and resuming where that scan stopped once
      more has arrived, is scanning it all at once. */
  lemma {:induction false} ScanResumes<B>(f: Format<B>, c: Counters, a: seq<B>, b: seq<B>, i: nat, got: seq<seq<B>>)
    requires i <= |a|
    ensures var r := Scan(f, c, a, i, got);
            Scan(f, c, a + b, i, got) == Scan(f, r.counters, a + b, r.stop, r.frames)
    decreases |a| - i
  {
    if i + 1 >= |a| || (f.MagicAt(a, i) && i + f.size > |a|) {
    } else if !f.MagicAt(a, i) {
      ScanResumes(f, c, a, b, i + 1, got);
    } else {
      var w := Cut(a, i, i + f.size);
      CutOfConcat(a, b, i, i + f.size);
      if f.Accepts(c, w) {
        ScanAccepts(f, c, a, i, got, w);
        ScanAccepts(f, c, a + b, i, got, w);
        ScanResumes(f, f.Count(c, w), a, b, i + f.size, got + [w]);
      } else {
        ScanRejects(f, c, a, i, got, w);
        ScanRejects(f, c, a + b, i, got, w);
        ScanResumes(f, f.Count(c, w), a, b, i + 1, got);
      }
    }
  }

  /** Output already yielded is never revised. */
  lemma {:induction false} ScanExtends<B>(f: Format<B>, c: Counters, stream: seq<B>, i: nat, got: seq<seq<B>>)
    requires i <= |stream|
    ensures got <= Scan(f, c, stream, i, got).frames
    decreases |stream| - i
  {
    if i + 1 >= |stream| || (f.MagicAt(stream, i) && i + f.size > |stream|) {
    } else if !f.MagicAt(stream, i) {
      ScanExtends(f, c, stream, i + 1, got);
    } else {
      var w := Cut(stream, i, i + f.size);
      if f.Accepts(c, w) {
        ScanExtends(f, f.Count(c, w), stream, i + f.size, got + [w]);
      } else {
        ScanExtends(f, f.Count(c, w), stream, i + 1, got);
      }
    }
  }

  /** What a reader that stands where the scan of `past` stopped has to do when `chunk`
      arrives: go on from there, over what it holds and the chunk. */
  lemma MoreArrives<B>(f: Format<B>, c: Counters, past: seq<B>, chunk: seq<B>, so: Scanned<B>)
    requires f.WellFormed() && so == Scan(f, c, past, 0, [])
    ensures var all := past + chunk; var next := Scan(f, so.counters, all, so.stop, so.frames);
            && Scan(f, c, all, 0, []) == next && so.frames <= next.frames && |all| - next.stop < f.size
            && Cut(all, so.stop, |all|) == Cut(past, so.stop, |past|) + chunk
  {
    CutOfConcat(past, chunk, so.stop, |past|);
    ScanResumes(f, c, past, chunk, 0, []);
    ScanExtends(f, so.counters, past + chunk, so.stop, so.frames);
  }

  /** Stretches without a magic are passed over without trace. */
  lemma {:induction false} SkipTo<B>(f: Format<B>, c: Counters, stream: seq<B>, i: nat, at: nat, got: seq<seq<B>>)
    requires i <= at < |stream|
    requires forall p: nat :: i <= p < at ==> !f.MagicAt(stream, p)
    ensures Scan(f, c, stream, i, got) == Scan(f, c, stream, at, got)
    decreases at - i
  {
    if i < at {
      SkipTo(f, c, stream, i + 1, at, got);
    }
  }

  /** Without a magic, all but the last byte is passed over. */
  lemma SkipAll<B>(f: Format<B>, c: Counters, stream: seq<B>, i: nat, got: seq<seq<B>>)
    requires i < |stream|
    requires forall p: nat :: i <= p ==> !f.MagicAt(stream, p)
    ensures Scan(f, c, stream, i, got) == Scanned(got, c, |stream| - 1)
  {
    SkipTo(f, c, stream, i, |stream| - 1, got);
  }

  function Concat<T>(chunks: seq<seq<T>>): seq<T> {
    if chunks == [] then [] else chunks[0] + Concat(chunks[1..])
  }

  /** Reading `chunks` one by one after `past`, scanning after each read. */
  ghost function ScanChunks<B>(f: Format<B>, so: Scanned<B>, past: seq<B>, chunks: seq<seq<B>>): Scanned<B>
    requires so.stop <= |past|
    decreases |chunks|
  {
    if chunks == [] then so
    else
      var seen := past + chunks[0];
      ScanChunks(f, Scan(f, so.counters, seen, so.stop, so.frames), seen, chunks[1..])
  }

  lemma ConcatSplits<T>(past: seq<T>, chunks: seq<seq<T>>)
    requires chunks != []
    ensures past + Concat(chunks) == past + chunks[0] + Concat(chunks[1..])
  {
  }

  /** However the stream is split into reads, the frames, the counters and the
      bytes left over are those of reading it whole. */
  lemma {:induction false} ChunkingIrrelevant<B>(
      f: Format<B>, c: Counters, so: Scanned<B>, past: seq<B>, chunks: seq<seq<B>>)
    requires so == Scan(f, c, past, 0, [])
    ensures ScanChunks(f, so, past, chunks) == Scan(f, c, past + Concat(chunks), 0, [])
    decreases |chunks|
  {
    if chunks == [] {
      assert past + Concat(chunks) == past;
    } else {
      var seen, rest := past + chunks[0], chunks[1..];
      ScanResumes(f, c, past, chunks[0], 0, []);
      var next := Scan(f, so.counters, seen, so.stop, so.frames);
      ChunkingIrrelevant(f, c, next, seen, rest);
      ConcatSplits(past, chunks);
    }
  }

  // ---- Which windows are yielded ----

  /** Once a reader has given up on the CRC it never checks again. */
  lemma {:induction false} CheckingStaysOff<B>(f: Format<B>, c: Counters, stream: seq<B>, i: nat, got: seq<seq<B>>)
    requires i <= |stream| && !c.checking
    ensures !Scan(f, c, stream, i, got).counters.checking
    decreases |stream| - i
  {
    if i + 1 < |stream| && !f.MagicAt(stream, i) {
      CheckingStaysOff(f, c, stream, i + 1, got);
    } else if i + 1 < |stream| && i + f.size <= |stream| {
      var w := Cut(stream, i, i + f.size);
      CheckingStaysOff(f, f.Count(c, w), stream, i + f.size, got + [w]);
    }
  }

  /** A complete packet that would pass starts at `p`; with the check off, every one
      with a magic does. */
  ghost predicate ValidAt<B>(f: Format<B>, on: bool, stream: seq<B>, p: nat) {
    && p + f.size <= |stream| && f.MagicAt(stream, p)
    && (on ==> Cut(stream, p, p + f.size) in f.crcGood * f.plausible)
  }

  ghost predicate Covered<B>(f: Format<B>, offs: seq<nat>, p: nat) {
    exists k :: 0 <= k < |offs| && offs[k] <= p < offs[k] + f.size
  }

  ghost predicate Spaced(offs: seq<nat>, size: nat) {
    forall j, k :: 0 <= j < k < |offs| ==> offs[j] + size <= offs[k]
  }

  /** `offs` are ordered, disjoint, valid windows at or after `i`, and every valid
      window from there on starts inside one of them. */
  ghost predicate Greedy<B>(f: Format<B>, on: bool, stream: seq<B>, offs: seq<nat>, i: nat) {
    && (forall k :: 0 <= k < |offs| ==> i <= offs[k] && ValidAt(f, on, stream, offs[k]))
    && Spaced(offs, f.size)
    && (forall p: nat {:trigger Covered(f, offs, p)} :: i <= p && ValidAt(f, on, stream, p) ==> Covered(f, offs, p))
  }

  /** The yielded frames are a greedy choice of windows, as long as the reader does not
      change its mode on the way: a valid window is lost only when an earlier yielded
      window covers its first byte. */
  lemma {:induction false} ScanIsGreedy<B>(f: Format<B>, c: Counters, stream: seq<B>, i: nat, got: seq<seq<B>>)
    requires f.WellFormed() && i <= |stream|
    requires Scan(f, c, stream, i, got).counters.checking == c.checking
    ensures Greedy(f, c.checking, stream, Offsets(f, c, stream, i), i)
    decreases |stream| - i
  {
    var on := c.checking;
    if i + 1 >= |stream| || (f.MagicAt(stream, i) && i + f.size > |stream|) {
    } else if !f.MagicAt(stream, i) {
      ScanIsGreedy(f, c, stream, i + 1, got);
      GreedySkips(f, on, stream, Offsets(f, c, stream, i + 1), i);
    } else {
      var w := Cut(stream, i, i + f.size);
      var after := f.Count(c, w);
      if f.Accepts(c, w) {
        ScanIsGreedy(f, after, stream, i + f.size, got + [w]);
        GreedyTakes(f, on, stream, Offsets(f, after, stream, i + f.size), i);
      } else {
        if !after.checking {
          CheckingStaysOff(f, after, stream, i + 1, got);
        }
        ScanIsGreedy(f, after, stream, i + 1, got);
        GreedySkips(f, on, stream, Offsets(f, after, stream, i + 1), i);
      }
    }
  }

  lemma GreedySkips<B>(f: Format<B>, on: bool, stream: seq<B>, offs: seq<nat>, i: nat)
    requires Greedy(f, on, stream, offs, i + 1) && !ValidAt(f, on, stream, i)
    ensures Greedy(f, on, stream, offs, i)
  {
  }

  lemma GreedyTakes<B>(f: Format<B>, on: bool, stream: seq<B>, later: seq<nat>, i: nat)
    requires Greedy(f, on, stream, later, i + f.size) && ValidAt(f, on, stream, i)
    ensures Greedy(f, on, stream, [i] + later, i)
  {
    var offs := [i] + later;
    forall k | 0 <= k < |offs| ensures i <= offs[k] && ValidAt(f, on, stream, offs[k]) {
      if k > 0 { assert offs[k] == later[k - 1]; }
    }
    SpacedMore(later, f.size, i);
    forall p: nat | i <= p && ValidAt(f, on, stream, p) ensures Covered(f, offs, p) {
      CoveredByMore(f, stream, later, i, p);
    }
  }

  lemma SpacedMore(later: seq<nat>, size: nat, i: nat)
    requires Spaced(later, size) && forall k :: 0 <= k < |later| ==> i + size <= later[k]
    ensures Spaced([i] + later, size)
  {
  }

  lemma CoveredByMore<B>(f: Format<B>, stream: seq<B>, later: seq<nat>, i: nat, p: nat)
    requires i <= p && (p >= i + f.size ==> Covered(f, later, p))
    ensures Covered(f, [i] + later, p)
  {
    if p < i + f.size {
      assert ([i] + later)[0] == i;
    } else {
      var k :| 0 <= k < |later| && later[k] <= p < later[k] + f.size;
      assert ([i] + later)[k + 1] == later[k];
    }
  }

  /** `offs` are ordered, disjoint, valid windows between `i` and `s`, and every valid
      window that starts there starts inside one of them. */
  ghost predicate GreedyBefore<B>(f: Format<B>, stream: seq<B>, offs: seq<nat>, i: nat, s: nat) {
    && (forall k :: 0 <= k < |offs| ==> i <= offs[k] && offs[k] + f.size <= s && ValidAt(f, true, stream, offs[k]))
    && Spaced(offs, f.size)
    && (forall p: nat {:trigger Covered(f, offs, p)} :: i <= p < s && ValidAt(f, true, stream, p) ==> Covered(f, offs, p))
  }

  lemma BeforeTakes<B>(f: Format<B>, stream: seq<B>, later: seq<nat>, i: nat, s: nat)
    requires GreedyBefore(f, stream, later, i + f.size, s) && ValidAt(f, true, stream, i) && i + f.size <= s
    ensures GreedyBefore(f, stream, [i] + later, i, s)
  {
    var offs := [i] + later;
    forall k | 0 <= k < |offs| ensures i <= offs[k] && offs[k] + f.size <= s && ValidAt(f, true, stream, offs[k]) {
      if k > 0 { assert offs[k] == later[k - 1]; }
    }
    SpacedMore(later, f.size, i);
    forall p: nat | i <= p < s && ValidAt(f, true, stream, p) ensures Covered(f, offs, p) {
      CoveredByMore(f, stream, later, i, p);
    }
  }

  /** A reader gives up only in the mode that may, after fifty failures that outnumber the
      successes by more than four to one; it counts neither any further. */
  lemma {:induction false} GivesUpAtTheThreshold<B>(f: Format<B>, c: Counters, stream: seq<B>, i: nat, got: seq<seq<B>>)
    requires i <= |stream|
    ensures var r := Scan(f, c, stream, i, got).counters;
            && (!c.checking ==> r.crcBad == c.crcBad && r.crcOk == c.crcOk)
            && (c.checking && !r.checking ==> f.givesUp && r.crcBad >= 50 && r.crcBad > 4 * r.crcOk)
    decreases |stream| - i
  {
    if i + 1 < |stream| && !f.MagicAt(stream, i) {
      GivesUpAtTheThreshold(f, c, stream, i + 1, got);
    } else if i + 1 < |stream| && i + f.size <= |stream| {
      var w := Cut(stream, i, i + f.size);
      if f.Accepts(c, w) {
        GivesUpAtTheThreshold(f, f.Count(c, w), stream, i + f.size, got + [w]);
      } else {
        GivesUpAtTheThreshold(f, f.Count(c, w), stream, i + 1, got);
      }
    }
  }

  /** The windows with the magic that were looked at and refused. */
  ghost function Refused<B>(f: Format<B>, c: Counters, stream: seq<B>, i: nat): seq<seq<B>>
    requires i <= |stream|
    decreases |stream| - i
  {
    if i + 1 >= |stream| then []
    else if !f.MagicAt(stream, i) then Refused(f, c, stream, i + 1)
    else if i + f.size > |stream| then []
    else
      var w := Cut(stream, i, i + f.size);
      if f.Accepts(c, w) then Refused(f, f.Count(c, w), stream, i + f.size)
      else [w] + Refused(f, f.Count(c, w), stream, i + 1)
  }

  /** The counters count: every frame yielded is a packet, and while checking a success;
      every window refused is one failure, of the checksum or of plausibility. */
  lemma {:induction false} CountersCount<B>(f: Format<B>, c: Counters, stream: seq<B>, i: nat, got: seq<seq<B>>)
    requires i <= |stream|
    ensures var r, n := Scan(f, c, stream, i, got), |Refused(f, c, stream, i)|;
            && r.counters.packets - c.packets == |r.frames| - |got|
            && (r.counters.checking ==> r.counters.crcOk - c.crcOk == |r.frames| - |got|)
            && (r.counters.crcBad - c.crcBad) + (r.counters.implausible - c.implausible) == n
            && (c.checking && (!f.givesUp || c.crcBad + n < 50) ==> r.counters.checking)
    decreases |stream| - i
  {
    if !c.checking {
      CheckingStaysOff(f, c, stream, i, got);
    }
    if i + 1 < |stream| && !f.MagicAt(stream, i) {
      CountersCount(f, c, stream, i + 1, got);
    } else if i + 1 < |stream| && i + f.size <= |stream| {
      var w := Cut(stream, i, i + f.size);
      if f.Accepts(c, w) {
        CountersCount(f, f.Count(c, w), stream, i + f.size, got + [w]);
      } else {
        CountersCount(f, f.Count(c, w), stream, i + 1, got);
      }
    }
  }

  /** A reader that gives up does so at one point of the stream: up to there its frames
      are a greedy choice of checked windows, from there on of all windows. */
  lemma {:induction false} GivingUpSplitsTheStream<B>(f: Format<B>, c: Counters, stream: seq<B>, i: nat, got: seq<seq<B>>)
    returns (s: nat, checked: seq<nat>, unchecked: seq<nat>)
    requires f.WellFormed() && i <= |stream| && c.checking && !Scan(f, c, stream, i, got).counters.checking
    ensures i < s <= |stream| && Offsets(f, c, stream, i) == checked + unchecked
    ensures GreedyBefore(f, stream, checked, i, s) && Greedy(f, false, stream, unchecked, s)
    ensures var r := Scan(f, c, stream, i, got).counters; f.givesUp && r.crcBad >= 50 && r.crcBad > 4 * r.crcOk
    decreases |stream| - i
  {
    GivesUpAtTheThreshold(f, c, stream, i, got);
    if !f.MagicAt(stream, i) {
      s, checked, unchecked := GivingUpSplitsTheStream(f, c, stream, i + 1, got);
    } else {
      var w := Cut(stream, i, i + f.size);
      var after := f.Count(c, w);
      if f.Accepts(c, w) {
        var later;
        s, later, unchecked := GivingUpSplitsTheStream(f, after, stream, i + f.size, got + [w]);
        BeforeTakes(f, stream, later, i, s);
        checked := [i] + later;
        assert [i] + (later + unchecked) == checked + unchecked;
      } else if after.checking {
        s, checked, unchecked := GivingUpSplitsTheStream(f, after, stream, i + 1, got);
      } else {
        s, checked, unchecked := i + 1, [], Offsets(f, after, stream, i + 1);
        ScanIsGreedy(f, after, stream, i + 1, got);
        assert [] + unchecked == unchecked;
      }
    }
  }

  /** The greedy choice is unique, so the description above fixes the frames. */
  lemma GreedyUnique<B>(f: Format<B>, on: bool, stream: seq<B>, a: seq<nat>, b: seq<nat>, i: nat)
    requires Greedy(f, on, stream, a, i) && Greedy(f, on, stream, b, i)
    ensures a == b
  {
    var n := 0;
    while n < |a| && n < |b|
      invariant n <= |a| && n <= |b|
      invariant a[..n] == b[..n]
    {
      CommonPrefixExtends(f, on, stream, a, b, i, n);
      CommonPrefixExtends(f, on, stream, b, a, i, n);
      n := n + 1;
    }
    if n < |a| {
      CommonPrefixExtends(f, on, stream, a, b, i, n);
    } else if n < |b| {
      CommonPrefixExtends(f, on, stream, b, a, i, n);
    }
  }

  lemma CommonPrefixExtends<B>(f: Format<B>, on: bool, stream: seq<B>, a: seq<nat>, b: seq<nat>, i: nat, n: nat)
    requires Greedy(f, on, stream, a, i) && Greedy(f, on, stream, b, i)
    requires n < |a| && n <= |b| && a[..n] == b[..n]
    ensures n < |b| && b[n] <= a[n]
  {
    assert ValidAt(f, on, stream, a[n]);
    assert Covered(f, b, a[n]);
    var k :| 0 <= k < |b| && b[k] <= a[n] < b[k] + f.size;
    assert forall j :: 0 <= j < n ==> a[..n][j] == b[..n][j];
  }

  // ---- Good packets survive ----

  ghost predicate GoodPacket<B>(f: Format<B>, w: seq<B>) {
    |w| == f.size && f.MagicAt(w, 0) && w in f.crcGood && w in f.plausible
  }

  lemma ConcatCut<B>(before: seq<B>, w: seq<B>, after: seq<B>)
    ensures |before + w + after| == |before| + |w| + |after|
    ensures Cut(before + w + after, |before|, |before| + |w|) == w
    ensures forall k :: 0 <= k < |w| ==> (before + w + after)[|before| + k] == w[k]
  {
  }

  lemma ScanTakes<B>(f: Format<B>, c: Counters, before: seq<B>, w: seq<B>, after: seq<B>, got: seq<seq<B>>)
    requires f.WellFormed() && GoodPacket(f, w)
    ensures Scan(f, c, before + w + after, |before|, got) ==
            Scan(f, f.Count(c, w), before + w + after, |before + w|, got + [w])
  {
    ConcatCut(before, w, after);
    var stream := before + w + after;
    assert stream[|before| + 0] == w[0] && stream[|before| + 1] == w[1];
    ScanAccepts(f, c, stream, |before|, got, w);
  }

  lemma {:induction false} PacketsScan<B>(f: Format<B>, c: Counters, before: seq<B>, packets: seq<seq<B>>, got: seq<seq<B>>)
    requires f.WellFormed() && forall k :: 0 <= k < |packets| ==> GoodPacket(f, packets[k])
    ensures var r := Scan(f, c, before + Concat(packets), |before|, got);
            r.frames == got + packets && r.stop == |before + Concat(packets)|
    decreases |packets|
  {
    if packets != [] {
      var w, after := packets[0], Concat(packets[1..]);
      assert before + Concat(packets) == before + w + after;
      ScanTakes(f, c, before, w, after, got);
      PacketsScan(f, f.Count(c, w), before + w, packets[1..], got + [w]);
      assert got + [w] + packets[1..] == got + packets;
    } else {
      assert before + Concat(packets) == before;
    }
  }

  lemma MagicAtJoin<B>(f: Format<B>, prefix: seq<B>, rest: seq<B>)
    requires f.m0 != f.m1 && rest != [] && rest[0] == f.m0
    requires forall p: nat :: !f.MagicAt(prefix, p)
    ensures forall p: nat :: p < |prefix| ==> !f.MagicAt(prefix + rest, p)
  {
    forall p: nat | p < |prefix| ensures !f.MagicAt(prefix + rest, p) {
      assert !f.MagicAt(prefix, p);
    }
  }

  /** A magic-free prefix followed by back-to-back good packets is framed as
      exactly those packets, with no byte left over, in every mode. */
  lemma GoodPacketsSurvive<B>(f: Format<B>, c: Counters, prefix: seq<B>, packets: seq<seq<B>>)
    requires f.WellFormed() && packets != []
    requires forall p: nat :: !f.MagicAt(prefix, p)
    requires forall k :: 0 <= k < |packets| ==> GoodPacket(f, packets[k])
    ensures var r := Scan(f, c, prefix + Concat(packets), 0, []);
            r.frames == packets && r.stop == |prefix + Concat(packets)|
  {
    assert Concat(packets)[0] == packets[0][0];
    MagicAtJoin(f, prefix, Concat(packets));
    SkipTo(f, c, prefix + Concat(packets), 0, |prefix|, []);
    PacketsScan(f, c, prefix, packets, []);
  }
}
