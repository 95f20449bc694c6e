/**
 The JPEG dimension scan (apps/api/src/attachments/file-validation.ts): a walk over the marker
 segments of section B.1.1.4 of ITU-T T.81 up to the frame header of section B.2.2.
 */
module JpegScan {
  import opened Results
  import opened Bytes

  const FRAMES: set<int> := {0xc0, 0xc1, 0xc2, 0xc3, 0xc5, 0xc6, 0xc7, 0xc9, 0xca, 0xcb, 0xcd, 0xce, 0xcf}

  predicate IsStartOfFrame(marker: Byte) {
    marker in FRAMES
  }

  /** Reads past the end give zero. */
  function At(bytes: seq<Byte>, offset: nat): Byte {
    if offset < |bytes| then bytes[offset] else 0
  }

  function ReadUint16(bytes: seq<Byte>, offset: nat): nat {
    256 * At(bytes, offset) + At(bytes, offset + 1)
  }

  datatype Size = Size(width: nat, height: nat)

  /** Where the frame header lies that a scan from this offset reads. */
  function FrameRead(bytes: seq<Byte>, offset: nat): (at: Option<nat>)
    ensures at.Some? ==> offset <= at.value && at.value + 9 < |bytes|
    decreases |bytes| - offset
  {
    if |bytes| <= offset + 9 then None
    else if bytes[offset] != 0xff then FrameRead(bytes, offset + 1)
    else
      var marker := bytes[offset + 1];
      if marker == 0xd8 || marker == 0xd9 then FrameRead(bytes, offset + 2)
      else if marker == 0xda then None
      else
        var length := ReadUint16(bytes, offset + 2);
        if length < 2 || |bytes| < offset + 2 + length then None
        else if IsStartOfFrame(marker) && 7 <= length then Some(offset)
        else FrameRead(bytes, offset + 2 + length)
  }

  function SizeAt(bytes: seq<Byte>, at: nat): Size {
    Size(ReadUint16(bytes, at + 7), ReadUint16(bytes, at + 5))
  }

  /** The size a scan from this offset returns. */
  function Scan(bytes: seq<Byte>, offset: nat): Option<Size> {
    var at := FrameRead(bytes, offset);
    if at.None? then None else Some(SizeAt(bytes, at.value))
  }

  /** No index is checked before it is used but those the loop condition covers. */
  method JpegDimensions(bytes: seq<Byte>) returns (size: Option<Size>)
    ensures size == Scan(bytes, 2)
  {
    var offset: nat := 2;
    while offset + 9 < |bytes|
      invariant FrameRead(bytes, 2) == FrameRead(bytes, offset)
      decreases |bytes| - offset
    {
      if bytes[offset] != 0xff {
        offset := offset + 1;
        continue;
      }
      var marker := bytes[offset + 1];
      offset := offset + 2;
      if marker == 0xd8 || marker == 0xd9 {
        continue;
      }
      if marker == 0xda {
        return None;
      }
      if offset + 2 > |bytes| {
        return None;
      }
      var segmentLength := ReadUint16(bytes, offset);
      if segmentLength < 2 || offset + segmentLength > |bytes| {
        return None;
      }
      if IsStartOfFrame(marker) && segmentLength >= 7 {
        return Some(Size(ReadUint16(bytes, offset + 5), ReadUint16(bytes, offset + 3)));
      }
      offset := offset + segmentLength;
    }
    size := None;
  }

  // ---- What encoders write -------------------------------------------------------------

  /** A marker segment: the marker, its length field counting itself, and the parameters. */
  datatype Segment = Segment(marker: Byte, body: seq<Byte>)

  predicate Writable(body: seq<Byte>) {
    |body| + 2 < 65536
  }

  function Printed(s: Segment): seq<Byte>
    requires Writable(s.body)
  {
    [0xff, s.marker] + BigEndian(|s.body| + 2, 2) + s.body
  }

  /** Tables, application data and comments; not a frame, not an image boundary, not a scan. */
  predicate Passed(s: Segment) {
    Writable(s.body) && !IsStartOfFrame(s.marker) && s.marker != 0xd8 && s.marker != 0xd9 && s.marker != 0xda
  }

  predicate AllPassed(segments: seq<Segment>) {
    segments == [] || (Passed(segments[0]) && AllPassed(segments[1..]))
  }

  /** Frame parameters: precision, lines Y, samples per line X, then the components. */
  datatype Frame = Frame(marker: Byte, precision: Byte, y: nat, x: nat, components: seq<Byte>)

  predicate Framed(f: Frame) {
    IsStartOfFrame(f.marker) && f.y < 65536 && f.x < 65536 && 1 <= |f.components| && |f.components| + 7 < 65536
  }

  function FrameBody(f: Frame): seq<Byte> {
    [f.precision] + BigEndian(f.y, 2) + BigEndian(f.x, 2) + f.components
  }

  function AllPrinted(segments: seq<Segment>): seq<Byte>
    requires AllPassed(segments)
  {
    if segments == [] then [] else Printed(segments[0]) + AllPrinted(segments[1..])
  }

  function FrameSegment(f: Frame): Segment {
    Segment(f.marker, FrameBody(f))
  }

  function Header(segments: seq<Segment>, f: Frame): seq<Byte>
    requires Framed(f) && AllPassed(segments)
  {
    AllPrinted(segments) + Printed(FrameSegment(f))
  }

  lemma TwoBytes(n: nat)
    requires n < 65536
    ensures BigEndian(n, 2) == [n / 256, n % 256]
  {
    assert BigEndian(n / 256, 1) == BigEndian(n / 256 / 256, 0) + [n / 256 % 256];
  }

  /** One printed segment somewhere in a file. */
  predicate Holds(bytes: seq<Byte>, offset: nat, s: Segment)
    requires Writable(s.body)
  {
    offset + 4 + |s.body| <= |bytes| && bytes[offset..offset + 4 + |s.body|] == Printed(s)
  }

  lemma ReadSegment(bytes: seq<Byte>, offset: nat, s: Segment)
    requires Writable(s.body) && Holds(bytes, offset, s)
    ensures bytes[offset] == 0xff && bytes[offset + 1] == s.marker
    ensures ReadUint16(bytes, offset + 2) == |s.body| + 2
    ensures forall k | 0 <= k < |s.body| :: bytes[offset + 4 + k] == s.body[k]
  {
    var q := bytes[offset..offset + 4 + |s.body|];
    TwoBytes(|s.body| + 2);
    assert q[0] == bytes[offset] && q[1] == bytes[offset + 1] && q[2] == bytes[offset + 2] && q[3] == bytes[offset + 3];
    forall k | 0 <= k < |s.body|
      ensures bytes[offset + 4 + k] == s.body[k]
    {
      assert q[4 + k] == bytes[offset + 4 + k];
    }
  }

  /** The scan steps over a segment that is neither frame, image boundary nor scan. */
  lemma PassSegment(bytes: seq<Byte>, offset: nat, s: Segment)
    requires Passed(s) && Holds(bytes, offset, s)
    ensures FrameRead(bytes, offset) == FrameRead(bytes, offset + 4 + |s.body|)
  {
    ReadSegment(bytes, offset, s);
  }

  lemma ReadFrame(bytes: seq<Byte>, offset: nat, f: Frame)
    requires Framed(f) && Holds(bytes, offset, FrameSegment(f))
    ensures FrameRead(bytes, offset) == Some(offset) && SizeAt(bytes, offset) == Size(f.x, f.y)
  {
    var s := FrameSegment(f);
    ReadSegment(bytes, offset, s);
    TwoBytes(f.y);
    TwoBytes(f.x);
    assert s.body[1] == f.y / 256 && s.body[2] == f.y % 256 && s.body[3] == f.x / 256 && s.body[4] == f.x % 256;
    assert bytes[offset + 5] == s.body[1] && bytes[offset + 6] == s.body[2];
    assert bytes[offset + 7] == s.body[3] && bytes[offset + 8] == s.body[4];
  }

  lemma FirstHolds(bytes: seq<Byte>, offset: nat, s: Segment, rest: seq<Byte>)
    requires Writable(s.body) && offset <= |bytes| && Printed(s) + rest <= bytes[offset..]
    ensures Holds(bytes, offset, s) && offset + 4 + |s.body| + |rest| <= |bytes|
    ensures rest <= bytes[offset + 4 + |s.body|..]
  {
    var p := Printed(s) + rest;
    var q := bytes[offset..];
    assert p == q[..|p|];
    assert bytes[offset..offset + 4 + |s.body|] == p[..4 + |s.body|] == Printed(s);
    assert bytes[offset + 4 + |s.body|..][..|rest|] == p[4 + |s.body|..] == rest;
  }

  /** The scan steps over any number of them. */
  lemma {:induction false} PassSegments(bytes: seq<Byte>, offset: nat, segments: seq<Segment>)
    requires AllPassed(segments) && offset <= |bytes| && AllPrinted(segments) <= bytes[offset..]
    ensures offset + |AllPrinted(segments)| <= |bytes|
    ensures FrameRead(bytes, offset) == FrameRead(bytes, offset + |AllPrinted(segments)|)
    decreases |segments|
  {
    hide Printed, Holds, FrameRead;
    if segments != [] {
      var s, rest := segments[0], AllPrinted(segments[1..]);
      FirstHolds(bytes, offset, s, rest);
      PassSegment(bytes, offset, s);
      PassSegments(bytes, offset + 4 + |s.body|, segments[1..]);
      assert |Printed(s)| == 4 + |s.body| by {
        PrintedLength(s);
      }
    }
  }

  lemma PrintedLength(s: Segment)
    requires Writable(s.body)
    ensures |Printed(s)| == 4 + |s.body|
  {
    TwoBytes(|s.body| + 2);
  }

  // ---- Files ---------------------------------------------------------------------------

  /** Start of image, segments that are passed, and whatever follows. */
  function File(segments: seq<Segment>, rest: seq<Byte>): seq<Byte>
    requires AllPassed(segments)
  {
    [0xff, 0xd8] + AllPrinted(segments) + rest
  }

  /** Where the rest of a file starts. */
  function Start(segments: seq<Segment>): nat
    requires AllPassed(segments)
  {
    2 + |AllPrinted(segments)|
  }

  /** The scan of a file is the scan of its rest. */
  lemma FileScan(segments: seq<Segment>, rest: seq<Byte>)
    requires AllPassed(segments)
    ensures var bytes := File(segments, rest);
      && Start(segments) <= |bytes| && bytes[Start(segments)..] == rest
      && FrameRead(bytes, 2) == FrameRead(bytes, Start(segments))
  {
    var bytes := File(segments, rest);
    assert bytes[2..] == AllPrinted(segments) + rest;
    PassSegments(bytes, 2, segments);
  }

  /** Whatever segments come before the frame and whatever follows it, the scan reads that frame. */
  lemma ScanFindsFrame(bytes: seq<Byte>, offset: nat, segments: seq<Segment>, f: Frame)
    requires Framed(f) && AllPassed(segments)
    requires offset <= |bytes| && Header(segments, f) <= bytes[offset..]
    ensures FrameRead(bytes, offset) == Some(offset + |AllPrinted(segments)|)
    ensures Scan(bytes, offset) == Some(Size(f.x, f.y))
  {
    hide FrameRead, Printed, Holds, SizeAt;
    var s, all := FrameSegment(f), AllPrinted(segments);
    var at := offset + |all|;
    PassSegments(bytes, offset, segments);
    assert bytes[at..] == bytes[offset..][|all|..];
    assert Printed(s) + [] == Header(segments, f)[|all|..] <= bytes[at..];
    FirstHolds(bytes, at, s, []);
    ReadFrame(bytes, at, f);
  }

  /** For a whole file the scan returns the X and Y of its frame. */
  lemma FileDimensions(segments: seq<Segment>, f: Frame, tail: seq<Byte>)
    requires Framed(f) && AllPassed(segments)
    ensures Scan([0xff, 0xd8] + Header(segments, f) + tail, 2) == Some(Size(f.x, f.y))
  {
    var bytes := [0xff, 0xd8] + Header(segments, f) + tail;
    assert bytes[2..] == Header(segments, f) + tail;
    ScanFindsFrame(bytes, 2, segments, f);
  }

  /** Once compressed data starts no frame is looked for: whatever the tail holds, even a frame. */
  lemma NothingBehindScanHeader(segments: seq<Segment>, tail: seq<Byte>)
    requires AllPassed(segments)
    ensures Scan(File(segments, [0xff, 0xda] + tail), 2) == None
  {
    var bytes := File(segments, [0xff, 0xda] + tail);
    FileScan(segments, [0xff, 0xda] + tail);
    var at := Start(segments);
    assert bytes[at] == bytes[at..][0] && bytes[at + 1] == bytes[at..][1];
  }

  /** Conversely a size is only ever read from a whole frame header inside the file. */
  lemma {:induction false} SizeComesFromFrame(bytes: seq<Byte>, offset: nat)
    requires FrameRead(bytes, offset).Some?
    ensures var at := FrameRead(bytes, offset).value;
      && bytes[at] == 0xff && IsStartOfFrame(bytes[at + 1])
      && at + 2 + ReadUint16(bytes, at + 2) <= |bytes|
    decreases |bytes| - offset
  {
    if bytes[offset] != 0xff {
      SizeComesFromFrame(bytes, offset + 1);
    } else if bytes[offset + 1] == 0xd8 || bytes[offset + 1] == 0xd9 {
      SizeComesFromFrame(bytes, offset + 2);
    } else if !(IsStartOfFrame(bytes[offset + 1]) && 7 <= ReadUint16(bytes, offset + 2)) {
      SizeComesFromFrame(bytes, offset + 2 + ReadUint16(bytes, offset + 2));
    }
  }

  // ---- Fill bytes ----------------------------------------------------------------------

  // Section B.1.1.2 lets any number of fill bytes 0xff stand before a marker.  The scan takes a first
  // fill byte for the start of a marker 0xff and what follows for its length.

  function Fill(k: nat): (r: seq<Byte>)
    ensures |r| == k && forall i | 0 <= i < k :: r[i] == 0xff
  {
    seq(k, _ => 0xff)
  }

  /** So many fill bytes the scan skips at a time. */
  const SKIPPED := 65537

  /** What the scan takes for the length when 1 to 65536 fill bytes stand before a marker. */
  function Taken(left: nat, marker: Byte, length: nat): nat {
    if left == 0 then length
    else if left == 1 then 256 * marker + length / 256
    else if left == 2 then 0xff00 + marker
    else 0xffff
  }

  /** Where the scan goes on that meets k fill bytes and then a marker with its length. */
  function Landing(at: nat, k: nat, marker: Byte, length: nat): nat {
    at + (k - k % SKIPPED) + 2 + Taken(k % SKIPPED, marker, length)
  }

  /** k fill bytes and a segment somewhere in a file. */
  predicate Filled(bytes: seq<Byte>, at: nat, k: nat, s: Segment)
    requires Writable(s.body)
  {
    at + k + 4 + |s.body| <= |bytes| && (forall i | at <= i < at + k :: bytes[i] == 0xff) && Holds(bytes, at + k, s)
  }

  /** Marker 0xff, length 0xffff. */
  lemma OneBlockSkipped(bytes: seq<Byte>, at: nat, k: nat, s: Segment)
    requires Writable(s.body) && Filled(bytes, at, k, s) && SKIPPED <= k
    ensures Filled(bytes, at + SKIPPED, k - SKIPPED, s)
    ensures FrameRead(bytes, at) == FrameRead(bytes, at + SKIPPED)
  {
    hide Holds;
    assert bytes[at] == 0xff && bytes[at + 1] == 0xff && bytes[at + 2] == 0xff && bytes[at + 3] == 0xff;
  }

  lemma BlockLeft(k: nat)
    requires SKIPPED <= k
    ensures (k - SKIPPED) % SKIPPED == k % SKIPPED
  {
  }

  /** Fill bytes go by in blocks of 65537. */
  lemma {:induction false} BlocksSkipped(bytes: seq<Byte>, at: nat, k: nat, s: Segment)
    requires Writable(s.body) && Filled(bytes, at, k, s)
    ensures Filled(bytes, at + (k - k % SKIPPED), k % SKIPPED, s)
    ensures FrameRead(bytes, at) == FrameRead(bytes, at + (k - k % SKIPPED))
    decreases k
  {
    hide Holds, Filled, FrameRead;
    if SKIPPED <= k {
      OneBlockSkipped(bytes, at, k, s);
      BlockLeft(k);
      BlocksSkipped(bytes, at + SKIPPED, k - SKIPPED, s);
    }
  }

  lemma FewFillBytes(bytes: seq<Byte>, from: nat, left: nat, s: Segment)
    requires Writable(s.body) && s.marker != 0 && Filled(bytes, from, left, s) && 0 < left < SKIPPED
    ensures from + left < from + 2 + Taken(left, s.marker, |s.body| + 2)
    ensures FrameRead(bytes, from) == FrameRead(bytes, from + 2 + Taken(left, s.marker, |s.body| + 2))
  {
    hide Holds;
    LengthTaken(bytes, from, left, s);
  }

  lemma LengthTaken(bytes: seq<Byte>, from: nat, left: nat, s: Segment)
    requires Writable(s.body) && Filled(bytes, from, left, s) && 0 < left < SKIPPED
    ensures bytes[from] == 0xff && bytes[from + 1] == 0xff
    ensures ReadUint16(bytes, from + 2) == Taken(left, s.marker, |s.body| + 2)
  {
    hide Holds;
    assert bytes[from] == 0xff;
    ReadSegment(bytes, from + left, s);
    HighByte(bytes, from + left, s);
  }

  lemma HighByte(bytes: seq<Byte>, offset: nat, s: Segment)
    requires Writable(s.body) && Holds(bytes, offset, s)
    ensures bytes[offset + 2] == (|s.body| + 2) / 256
  {
    TwoBytes(|s.body| + 2);
    assert bytes[offset..offset + 4 + |s.body|][2] == bytes[offset + 2];
  }

  /** Fill bytes that are not a multiple of 65537 send the scan astray: it goes on, if at all, not
      behind the segment at hand but at a place that depends on marker and length alone. */
  lemma FillLeadsAstray(bytes: seq<Byte>, at: nat, k: nat, s: Segment)
    requires Writable(s.body) && s.marker != 0 && Filled(bytes, at, k, s) && k % SKIPPED != 0
    ensures var landing := Landing(at, k, s.marker, |s.body| + 2);
      && at + k < landing
      && FrameRead(bytes, at) == FrameRead(bytes, landing)
  {
    hide Filled, Holds, FrameRead, Taken;
    BlocksSkipped(bytes, at, k, s);
    FewFillBytes(bytes, at + (k - k % SKIPPED), k % SKIPPED, s);
  }

  lemma FillStands(bytes: seq<Byte>, at: nat, k: nat, rest: seq<Byte>)
    requires at <= |bytes| && bytes[at..] == Fill(k) + rest
    ensures at + k <= |bytes| && bytes[at + k..] == rest
    ensures forall i | at <= i < at + k :: bytes[i] == 0xff
  {
    forall i | at <= i < at + k
      ensures bytes[i] == 0xff
    {
      assert bytes[i] == bytes[at..][i - at];
    }
  }

  lemma RestHolds(segments: seq<Segment>, k: nat, s: Segment, tail: seq<Byte>)
    requires AllPassed(segments) && Writable(s.body)
    ensures Filled(File(segments, Fill(k) + Printed(s) + tail), Start(segments), k, s)
  {
    hide Printed, Holds, File, Start, Fill, FrameRead;
    assert Fill(k) + Printed(s) + tail == Fill(k) + (Printed(s) + tail);
    var bytes, at := File(segments, Fill(k) + Printed(s) + tail), Start(segments);
    FileScan(segments, Fill(k) + Printed(s) + tail);
    FillStands(bytes, at, k, Printed(s) + tail);
    FirstHolds(bytes, at + k, s, tail);
  }

  /** Fill bytes before the marker of a frame: it is the frame read exactly when their number is a
      multiple of 65537, none included. */
  lemma FrameReadIffBlocks(segments: seq<Segment>, k: nat, f: Frame, tail: seq<Byte>)
    requires AllPassed(segments) && Framed(f)
    ensures var bytes := File(segments, Fill(k) + Printed(FrameSegment(f)) + tail);
      && (FrameRead(bytes, 2) == Some(Start(segments) + k) <==> k % SKIPPED == 0)
      && (k % SKIPPED == 0 ==> Scan(bytes, 2) == Some(Size(f.x, f.y)))
  {
    hide Printed, FrameRead, Holds, SizeAt;
    var s := FrameSegment(f);
    var bytes, at := File(segments, Fill(k) + Printed(s) + tail), Start(segments);
    FileScan(segments, Fill(k) + Printed(s) + tail);
    RestHolds(segments, k, s, tail);
    if k % SKIPPED == 0 {
      BlocksSkipped(bytes, at, k, s);
      ReadFrame(bytes, at + k, f);
    } else {
      FillLeadsAstray(bytes, at, k, s);
    }
  }

  /** Before any other segment: where the scan goes on. */
  lemma FilledSegment(segments: seq<Segment>, k: nat, s: Segment, tail: seq<Byte>)
    requires AllPassed(segments) && Passed(s) && s.marker != 0
    ensures var bytes := File(segments, Fill(k) + Printed(s) + tail);
      FrameRead(bytes, 2) == FrameRead(bytes, Landing(Start(segments), k, s.marker, |s.body| + 2))
  {
    hide Printed, FrameRead, Holds;
    var bytes, at := File(segments, Fill(k) + Printed(s) + tail), Start(segments);
    FileScan(segments, Fill(k) + Printed(s) + tail);
    RestHolds(segments, k, s, tail);
    if k % SKIPPED == 0 {
      BlocksSkipped(bytes, at, k, s);
      PassSegment(bytes, at + k, s);
    } else {
      FillLeadsAstray(bytes, at, k, s);
    }
  }

  // ---- Which bytes before a frame let the scan reach it --------------------------------

  /** A scan that enters these bytes at p comes to their very end, reading no frame on its way. */
  predicate Walks(w: seq<Byte>, p: nat)
    decreases |w| - p
  {
    if |w| <= p then p == |w|
    else if w[p] != 0xff then Walks(w, p + 1)
    else if p + 1 == |w| then false
    else if w[p + 1] == 0xd8 || w[p + 1] == 0xd9 then Walks(w, p + 2)
    else if w[p + 1] == 0xda || |w| < p + 4 then false
    else
      var length := ReadUint16(w, p + 2);
      2 <= length && !(IsStartOfFrame(w[p + 1]) && 7 <= length) && Walks(w, p + 2 + length)
  }

  lemma FrameBytes(bytes: seq<Byte>, end: nat, f: Frame)
    requires Framed(f) && Holds(bytes, end, FrameSegment(f))
    ensures end + 10 <= |bytes| && bytes[end] == 0xff && bytes[end + 1] == f.marker
  {
    ReadSegment(bytes, end, FrameSegment(f));
  }

  /** Whatever the bytes before a frame are, the scan reads that frame exactly when it walks through them. */
  lemma {:induction false} FrameReadIffWalked(bytes: seq<Byte>, at: nat, w: seq<Byte>, p: nat, f: Frame)
    requires Framed(f) && at + |w| <= |bytes| && bytes[at..at + |w|] == w
    requires Holds(bytes, at + |w|, FrameSegment(f))
    ensures FrameRead(bytes, at + p) == Some(at + |w|) <==> Walks(w, p)
    decreases |w| - p
  {
    hide Holds;
    FrameBytes(bytes, at + |w|, f);
    if p == |w| {
      ReadFrame(bytes, at + |w|, f);
    } else if p < |w| {
      assert forall i | 0 <= i < |w| :: w[i] == bytes[at + i];
      if w[p] != 0xff {
        FrameReadIffWalked(bytes, at, w, p + 1, f);
      } else if p + 1 == |w| {
        StrayFill(bytes, at + p, f);
      } else if w[p + 1] == 0xd8 || w[p + 1] == 0xd9 {
        FrameReadIffWalked(bytes, at, w, p + 2, f);
      } else if p + 4 <= |w| {
        var length := ReadUint16(w, p + 2);
        assert length == ReadUint16(bytes, at + p + 2);
        if 2 <= length {
          FrameReadIffWalked(bytes, at, w, p + 2 + length, f);
        }
      }
    }
  }

  /** A last byte 0xff makes the marker of the frame the high byte of a length. */
  lemma StrayFill(bytes: seq<Byte>, offset: nat, f: Frame)
    requires Framed(f) && offset + 11 <= |bytes| && bytes[offset] == 0xff
    requires bytes[offset + 1] == 0xff && bytes[offset + 2] == f.marker
    ensures FrameRead(bytes, offset) != Some(offset + 1)
  {
  }

  lemma {:induction false} WalksWithin(w: seq<Byte>, p: nat)
    requires Walks(w, p)
    ensures p <= |w|
  {
  }

  lemma {:induction false} NoMarkerWalks(w: seq<Byte>, p: nat)
    requires p <= |w| && forall i | p <= i < |w| :: w[i] != 0xff
    ensures Walks(w, p)
    decreases |w| - p
  {
    if p < |w| {
      NoMarkerWalks(w, p + 1);
    }
  }

  lemma FrameAfter(bytes: seq<Byte>, at: nat, w: seq<Byte>, f: Frame, tail: seq<Byte>)
    requires Framed(f) && at <= |bytes| && bytes[at..] == w + Printed(FrameSegment(f)) + tail
    ensures at + |w| <= |bytes| && bytes[at..at + |w|] == w
    ensures Holds(bytes, at + |w|, FrameSegment(f))
  {
    hide Printed, Holds;
    var rest := bytes[at..];
    assert bytes[at..at + |w|] == rest[..|w|] == w;
    assert bytes[at + |w|..] == rest[|w|..] == Printed(FrameSegment(f)) + tail;
    FirstHolds(bytes, at + |w|, FrameSegment(f), tail);
  }

  /** For a whole file, whatever stands between the start of the image and a frame. */
  lemma FileReadIffWalked(w: seq<Byte>, f: Frame, tail: seq<Byte>)
    requires Framed(f)
    ensures FrameRead([0xff, 0xd8] + w + Printed(FrameSegment(f)) + tail, 2) == Some(2 + |w|) <==> Walks(w, 0)
  {
    hide Printed, Holds, FrameRead, Walks;
    var bytes := [0xff, 0xd8] + w + Printed(FrameSegment(f)) + tail;
    assert bytes[2..] == w + Printed(FrameSegment(f)) + tail;
    FrameAfter(bytes, 2, w, f, tail);
    FrameReadIffWalked(bytes, 2, w, 0, f);
  }

  /** Where the scan enters a segment behind k fill bytes, counted from its marker on. */
  function Entry(k: nat, s: Segment): (p: nat)
    ensures Landing(0, k, s.marker, |s.body| + 2) == k + p
  {
    var left := k % SKIPPED;
    2 + Taken(left, s.marker, |s.body| + 2) - left
  }

  /** Fill bytes before any segment, and any bytes between it and a frame: that frame is the one read
      exactly when the scan, entering where marker and length send it, walks through what is left. */
  lemma FilledSegmentFrame(segments: seq<Segment>, k: nat, s: Segment, middle: seq<Byte>, f: Frame, tail: seq<Byte>)
    requires AllPassed(segments) && Passed(s) && s.marker != 0 && Framed(f)
    ensures var w := Printed(s) + middle;
      var read := FrameRead(File(segments, Fill(k) + w + Printed(FrameSegment(f)) + tail), 2);
      read == Some(Start(segments) + k + |w|) <==> Walks(w, Entry(k, s))
  {
    hide Printed, Holds, FrameRead, Walks, Landing, Entry, File, Start;
    var w, g := Printed(s) + middle, Printed(FrameSegment(f));
    var rest := middle + g + tail;
    var whole := Fill(k) + w + g + tail;
    assert whole == Fill(k) + Printed(s) + rest == Fill(k) + (w + g + tail);
    var bytes, at := File(segments, whole), Start(segments);
    FilledSegment(segments, k, s, rest);
    FileScan(segments, whole);
    FillStands(bytes, at, k, w + g + tail);
    FrameAfter(bytes, at + k, w, f, tail);
    FrameReadIffWalked(bytes, at + k, w, Entry(k, s), f);
    LandingMoves(at, k, s);
  }

  lemma LandingMoves(at: nat, k: nat, s: Segment)
    ensures Landing(at, k, s.marker, |s.body| + 2) == at + k + Entry(k, s)
  {
  }

  /** One fill byte before the last segment in front of a frame.  The frame can be read only if what marker
      and high byte of the length spell does not exceed the length by more than one; and it is read if so,
      unless a byte 0xff stands between there and the frame. */
  lemma HarmlessFillByte(segments: seq<Segment>, s: Segment, f: Frame, tail: seq<Byte>)
    requires AllPassed(segments) && Passed(s) && s.marker != 0 && Framed(f)
    ensures var length := |s.body| + 2;
      var taken := 256 * s.marker + length / 256;
      var bytes := File(segments, Fill(1) + Printed(s) + Printed(FrameSegment(f)) + tail);
      var read := FrameRead(bytes, 2) == Some(Start(segments) + 1 + 4 + |s.body|);
      && (read ==> taken <= length + 1)
      && (taken <= length + 1 && (forall i | taken - 3 <= i < |s.body| :: s.body[i] != 0xff) ==> read)
  {
    hide Printed, FrameRead, Holds, File, Start, Walks;
    var w := Printed(s) + [];
    assert w == Printed(s);
    FilledSegmentFrame(segments, 1, s, [], f, tail);
    PrintedLength(s);
    var length := |s.body| + 2;
    var taken := 256 * s.marker + length / 256;
    assert Entry(1, s) == taken + 1;
    if Walks(w, taken + 1) {
      WalksWithin(w, taken + 1);
    }
    if taken <= length + 1 && forall i | taken - 3 <= i < |s.body| :: s.body[i] != 0xff {
      forall i | taken + 1 <= i < |w|
        ensures w[i] != 0xff
      {
        BodyAt(s, i);
      }
      NoMarkerWalks(w, taken + 1);
    }
  }

  lemma BodyAt(s: Segment, i: nat)
    requires Writable(s.body) && 4 <= i < 4 + |s.body|
    ensures |Printed(s)| == 4 + |s.body| && Printed(s)[i] == s.body[i - 4]
  {
    PrintedLength(s);
  }

  /** Such a segment: application data with marker 0xe0 and length 0xe0df or more, without a byte 0xff. */
  lemma FillByteWithoutHarm(body: seq<Byte>, f: Frame, tail: seq<Byte>)
    requires 0xe0dd <= |body| < 0xfffe && Framed(f) && forall i | 0 <= i < |body| :: body[i] != 0xff
    ensures var s := Segment(0xe0, body);
      && Passed(s)
      && FrameRead(File([], Fill(1) + Printed(s) + Printed(FrameSegment(f)) + tail), 2) == Some(2 + 1 + 4 + |body|)
  {
    hide Printed, FrameRead;
    HarmlessFillByte([], Segment(0xe0, body), f, tail);
  }

  /** Start-of-frame markers are those from 0xc0 to 0xcf but the three that define tables or are reserved. */
  lemma FrameMarkers(marker: Byte)
    ensures IsStartOfFrame(marker) <==> 0xc0 <= marker <= 0xcf && marker != 0xc4 && marker != 0xc8 && marker != 0xcc
  {
  }
}
