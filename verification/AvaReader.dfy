/** AvaSequenceFileReader: opening a file and finding a frame from the index alone. */
module AvaReader {
  import opened AvaFormat
  import opened ByteOrder

  datatype Result<+T> = Ok(value: T) | Raises

  // ---- Opening ----

  datatype Opened = Opened(
    channels: byte, bitcount: byte, width: int, height: int, blacklevel: int,
    bayer: seq<byte>, gains: seq<byte>, indexOffset: nat, indices: seq<nat>)

  /** Python's buffer read: at most size bytes from offset, all the rest if size is negative. */
  function ReadAt(file: seq<byte>, offset: nat, size: int): seq<byte> {
    var start := if offset <= |file| then offset else |file|;
    if size < 0 || start + size > |file| then file[start..] else file[start..start + size]
  }

  /** struct.unpack of a signed 32-bit field; sizes beyond 2^31 come out negative. */
  function Signed32(n: nat): int {
    if n < 0x8000_0000 then n else n - 0x1_0000_0000
  }

  function Open(file: seq<byte>): Result<Opened> {
    if |file| < HEADER_SIZE then Raises else
    if file[0] != MAGIC || file[1] != VERSION || file[32..35] != LZ4_TAG[..3] then Raises else
    var offset := FromLittleEndian(file[INDEX_FIELD..HEADER_SIZE]);
    if |file| < offset || (|file| - offset) % 8 != 0 then Raises else
    var width, height := Signed32(FromLittleEndian(file[4..8])), Signed32(FromLittleEndian(file[8..12]));
    var blacklevel := Signed32(FromLittleEndian(file[12..16]));
    Ok(Opened(file[2], file[3], width, height, blacklevel, file[16..20], file[20..32], offset,
      DecodeWords(file[offset..])))
  }

  // ---- Skipping over missing frames ----

  datatype Skip = Offset(value: nat) | NoFrame | IndexError

  /** Python indexing: a negative index counts from the end. */
  function At(s: seq<nat>, i: int): nat
    requires -|s| <= i < |s|
  {
    if i < 0 then s[|s| + i] else s[i]
  }

  function SkipFrom(indices: seq<nat>, i: int, backward: bool): Skip
    decreases if backward then i + |indices| + 1 else |indices| - i
  {
    if i >= |indices| then NoFrame
    else if i < -|indices| then IndexError
    else if At(indices, i) == 0 then SkipFrom(indices, if backward then i - 1 else i + 1, backward)
    else if i < 0 then NoFrame
    else Offset(indices[i])
  }

  class AvaSequenceFileReader {
    const file: seq<byte>
    const indices: seq<nat>
    const indexOffset: nat

    constructor (file: seq<byte>, content: Opened)
      ensures this.file == file && indices == content.indices && indexOffset == content.indexOffset
    {
      this.file := file;
      indices := content.indices;
      indexOffset := content.indexOffset;
    }

    method GetFrameOffsetSkip(index: int, backward: bool) returns (r: Skip)
      ensures r == SkipFrom(indices, index, backward)
    {
      var i := index;
      while i < |indices|
        invariant SkipFrom(indices, i, backward) == SkipFrom(indices, index, backward)
        decreases if backward then i + |indices| + 1 else |indices| - i
      {
        if i < -|indices| {
          return IndexError;
        }
        if At(indices, i) != 0 {
          break;
        }
        i := i + (if backward then -1 else 1);
      }
      if i < 0 || i >= |indices| {
        return NoFrame;
      }
      r := Offset(indices[i]);
    }

    method ComputeFrameSize(index: int) returns (r: Result<int>)
      ensures r == FrameSize(indices, indexOffset, index)
    {
      var next := 0;
      if index < |indices| - 1 {
        var skip := GetFrameOffsetSkip(index + 1, false);
        match skip {
          case Offset(v) => next := v;
          case NoFrame =>
          case IndexError => return Raises;
        }
      }
      if next == 0 {
        next := indexOffset;
      }
      var own := GetFrameOffsetSkip(index, true);
      r := if own.Offset? then Ok(next - own.value) else Raises;
    }

    method ReadFrame(index: int) returns (r: Result<seq<byte>>)
      ensures r == FrameBytes(file, indices, indexOffset, index)
    {
      var offset := GetFrameOffsetSkip(index, true);
      if !offset.Offset? {
        return Raises;
      }
      var size := ComputeFrameSize(index);
      r := if size.Ok? then Ok(ReadAt(file, offset.value, size.value)) else Raises;
    }

    /** The range and missing-frame checks before a frame is decompressed. */
    method ReadOneFrame(index: int, raiseOnMissing: bool) returns (r: Result<seq<byte>>)
      ensures r == OneFrame(file, indices, indexOffset, index, raiseOnMissing)
    {
      if index < 0 || index >= |indices| {
        return Raises;
      }
      if raiseOnMissing && indices[index] == 0 {
        return Raises;
      }
      r := ReadFrame(index);
    }
  }

  function NextOffset(indices: seq<nat>, indexOffset: nat, index: int): Result<nat> {
    var skip := if index < |indices| - 1 then SkipFrom(indices, index + 1, false) else NoFrame;
    if skip.IndexError? then Raises else Ok(if skip.Offset? && skip.value != 0 then skip.value else indexOffset)
  }

  function FrameSize(indices: seq<nat>, indexOffset: nat, index: int): Result<int> {
    var next, own := NextOffset(indices, indexOffset, index), SkipFrom(indices, index, true);
    if next.Ok? && own.Offset? then Ok(next.value - own.value) else Raises
  }

  function FrameBytes(file: seq<byte>, indices: seq<nat>, indexOffset: nat, index: int): Result<seq<byte>> {
    var offset, size := SkipFrom(indices, index, true), FrameSize(indices, indexOffset, index);
    if offset.Offset? && size.Ok? then Ok(ReadAt(file, offset.value, size.value)) else Raises
  }

  function OneFrame(file: seq<byte>, indices: seq<nat>, indexOffset: nat, index: int,
                    raiseOnMissing: bool): Result<seq<byte>> {
    if 0 <= index < |indices| && !(raiseOnMissing && indices[index] == 0)
    then FrameBytes(file, indices, indexOffset, index) else Raises
  }

  // ---- Round trip ----

  lemma HeaderFields(h: Header, offset: nat)
    requires ValidHeader(h)
    ensures var s := HeaderBytes(h, offset);
      && s[0] == MAGIC && s[1] == VERSION && s[2] == 1 && s[3] == h.bitcount
      && s[4..8] == LittleEndian(h.width, 4) && s[8..12] == LittleEndian(h.height, 4)
  {
  }

  lemma HeaderOffsets(h: Header, offset: nat)
    requires ValidHeader(h)
    ensures var s := HeaderBytes(h, offset);
      s[12..16] == LittleEndian(0, 4) && s[INDEX_FIELD..HEADER_SIZE] == LittleEndian(offset, 8)
  {
  }

  lemma HeaderTexts(h: Header, offset: nat)
    requires ValidHeader(h)
    ensures var s := HeaderBytes(h, offset);
      s[16..20] == h.bayer && s[20..32] == h.gains && s[32..35] == LZ4_TAG[..3]
  {
  }

  lemma FileParts(h: Header, framerate: int, packets: seq<Packet>)
    requires ValidHeader(h)
    ensures var file := AvaFile(h, framerate, packets);
      && |file| == EndOffset(packets) + 8 * |Slots(framerate, packets)|
      && file[..HEADER_SIZE] == HeaderBytes(h, EndOffset(packets))
      && file[HEADER_SIZE..EndOffset(packets)] == Bytes(packets)
      && file[EndOffset(packets)..] == EncodeWords(Slots(framerate, packets))
  {
  }

  lemma OpensParts(file: seq<byte>, header: seq<byte>)
    requires |file| >= HEADER_SIZE && header == file[..HEADER_SIZE]
    ensures Open(file) == OpenParts(header, file)
  {
    assert header[32..35] == file[32..35] && header[INDEX_FIELD..HEADER_SIZE] == file[INDEX_FIELD..HEADER_SIZE];
    assert header[4..8] == file[4..8] && header[8..12] == file[8..12] && header[12..16] == file[12..16];
    assert header[16..20] == file[16..20] && header[20..32] == file[20..32];
  }

  /** Opening with the header already cut off the file. */
  function OpenParts(header: seq<byte>, file: seq<byte>): Result<Opened>
    requires |header| == HEADER_SIZE
  {
    var offset := FromLittleEndian(header[INDEX_FIELD..HEADER_SIZE]);
    if header[0] != MAGIC || header[1] != VERSION || header[32..35] != LZ4_TAG[..3] then Raises
    else if |file| < offset || (|file| - offset) % 8 != 0 then Raises
    else Ok(Opened(header[2], header[3],
              Signed32(FromLittleEndian(header[4..8])), Signed32(FromLittleEndian(header[8..12])),
              Signed32(FromLittleEndian(header[12..16])), header[16..20], header[20..32],
              offset, DecodeWords(file[offset..])))
  }

  lemma HeaderNumbers(h: Header, offset: nat)
    requires ValidHeader(h) && offset < Pow256(8)
    ensures FromLittleEndian(LittleEndian(h.width, 4)) == h.width
    ensures FromLittleEndian(LittleEndian(h.height, 4)) == h.height
    ensures FromLittleEndian(LittleEndian(offset, 8)) == offset && FromLittleEndian(LittleEndian(0, 4)) == 0
  {
    LittleEndianRoundTrip(0, 4);
    LittleEndianRoundTrip(h.width, 4);
    LittleEndianRoundTrip(h.height, 4);
    LittleEndianRoundTrip(offset, 8);
  }

  lemma IndexBack(framerate: int, packets: seq<Packet>, index: seq<byte>)
    requires EndOffset(packets) < Pow256(8) && index == EncodeWords(Slots(framerate, packets))
    ensures |index| % 8 == 0 && DecodeWords(index) == Slots(framerate, packets)
  {
    SlotsFit(framerate, packets);
    WordsRoundTrip(Slots(framerate, packets));
  }

  /** What a reader finds in a file whose header was written from h: one channel, no black level. */
  function OpenedAs(h: Header, offset: nat, slots: seq<nat>): Opened {
    Opened(1, h.bitcount, Signed32(h.width), Signed32(h.height), 0, h.bayer, h.gains, offset, slots)
  }

  /** The fields of the header are back; a size of 2^31 or more has become negative. */
  predicate HeaderIsBack(h: Header, o: Opened) {
    && o.channels == 1 && o.bitcount == h.bitcount && o.blacklevel == 0 && o.bayer == h.bayer && o.gains == h.gains
    && o.width == (if h.width < 0x8000_0000 then h.width else h.width - 0x1_0000_0000)
    && o.height == (if h.height < 0x8000_0000 then h.height else h.height - 0x1_0000_0000)
  }

  lemma OpenedIsBack(h: Header, offset: nat, slots: seq<nat>)
    ensures HeaderIsBack(h, OpenedAs(h, offset, slots))
  {
  }

  lemma OpensFrom(file: seq<byte>, h: Header, offset: nat, slots: seq<nat>)
    requires ValidHeader(h) && offset < Pow256(8)
    requires |file| == offset + 8 * |slots| && HEADER_SIZE <= offset && file[..HEADER_SIZE] == HeaderBytes(h, offset)
    requires DecodeWords(file[offset..]) == slots
    ensures Open(file) == Ok(OpenedAs(h, offset, slots))
  {
    OpensParts(file, HeaderBytes(h, offset));
    HeaderFields(h, offset);
    HeaderOffsets(h, offset);
    HeaderTexts(h, offset);
    HeaderNumbers(h, offset);
  }

  /** The writer's header and index come back, for a file small enough for 64-bit offsets. */
  lemma OpensAsWritten(h: Header, framerate: int, packets: seq<Packet>)
    requires ValidHeader(h) && EndOffset(packets) < Pow256(8)
    ensures Open(AvaFile(h, framerate, packets)) == Ok(OpenedAs(h, EndOffset(packets), Slots(framerate, packets)))
  {
    var file, offset := AvaFile(h, framerate, packets), EndOffset(packets);
    FileParts(h, framerate, packets);
    IndexBack(framerate, packets, file[offset..]);
    OpensFrom(file, h, offset, Slots(framerate, packets));
  }

  lemma OpensBack(h: Header, framerate: int, packets: seq<Packet>)
    requires ValidHeader(h) && EndOffset(packets) < Pow256(8)
    ensures var back := Open(AvaFile(h, framerate, packets));
      && back.Ok? && HeaderIsBack(h, back.value)
      && back.value.indexOffset == EndOffset(packets) && back.value.indices == Slots(framerate, packets)
  {
    OpensAsWritten(h, framerate, packets);
    OpenedIsBack(h, EndOffset(packets), Slots(framerate, packets));
  }

  lemma {:induction false} SlotsFit(framerate: int, packets: seq<Packet>)
    requires EndOffset(packets) < Pow256(8)
    ensures forall j :: 0 <= j < |Slots(framerate, packets)| ==> Slots(framerate, packets)[j] < Pow256(8)
  {
    if packets != [] {
      SlotsFit(framerate, packets[..|packets| - 1]);
    }
  }

  /** Backwards from a slot of packet i the skip stops at the packet's own slot. */
  lemma {:induction false} SkipBackToOwner(framerate: int, packets: seq<Packet>, i: nat, j: nat)
    requires i < |packets| && Position(framerate, packets, i) <= j < Position(framerate, packets, i + 1)
    ensures SkipFrom(Slots(framerate, packets), j, true) == Offset(EndOffset(packets[..i]))
    decreases j
  {
    SlotContents(framerate, packets, i, j);
    if j > Position(framerate, packets, i) {
      SkipBackToOwner(framerate, packets, i, j - 1);
    }
  }

  /** Forwards from inside packet i's slots it stops at the next packet, or runs off the end. */
  lemma {:induction false} SkipOnToNext(framerate: int, packets: seq<Packet>, i: nat, j: nat)
    requires i < |packets| && Position(framerate, packets, i) < j <= Position(framerate, packets, i + 1)
    ensures SkipFrom(Slots(framerate, packets), j, false) ==
      if i + 1 < |packets| then Offset(EndOffset(packets[..i + 1])) else NoFrame
    decreases Position(framerate, packets, i + 1) - j
  {
    PositionsAdvance(framerate, packets, i);
    if j < Position(framerate, packets, i + 1) {
      SlotContents(framerate, packets, i, j);
      SkipOnToNext(framerate, packets, i, j + 1);
    } else if i + 1 < |packets| {
      PositionsAdvance(framerate, packets, i + 1);
      SlotContents(framerate, packets, i + 1, j);
    }
  }

  lemma NextIsSkip(indices: seq<nat>, indexOffset: nat, j: nat)
    requires j < |indices|
    ensures NextOffset(indices, indexOffset, j) ==
      match SkipFrom(indices, j + 1, false)
      case Offset(v) => Ok(if v != 0 then v else indexOffset)
      case NoFrame => Ok(indexOffset)
      case IndexError => Raises
  {
  }

  lemma AllOf(packets: seq<Packet>, n: nat)
    requires n <= |packets|
    ensures n == |packets| ==> packets[..n] == packets
  {
  }

  /** Where the packet after packet i starts, or the index if there is none. */
  lemma NextStart(framerate: int, packets: seq<Packet>, i: nat, j: nat)
    requires i < |packets| && Position(framerate, packets, i) <= j < Position(framerate, packets, i + 1)
    ensures NextOffset(Slots(framerate, packets), EndOffset(packets), j) == Ok(EndOffset(packets[..i + 1]))
  {
    PositionsAdvance(framerate, packets, i);
    SkipOnToNext(framerate, packets, i, j + 1);
    NextIsSkip(Slots(framerate, packets), EndOffset(packets), j);
    AllOf(packets, i + 1);
  }

  lemma OwnersSize(framerate: int, packets: seq<Packet>, i: nat, j: nat)
    requires i < |packets| && Position(framerate, packets, i) <= j < Position(framerate, packets, i + 1)
    ensures FrameSize(Slots(framerate, packets), EndOffset(packets), j) == Ok(|packets[i].buf|)
  {
    NextStart(framerate, packets, i, j);
    SkipBackToOwner(framerate, packets, i, j);
    PacketBytes(packets, i);
  }

  lemma PacketInFile(h: Header, framerate: int, packets: seq<Packet>, i: nat)
    requires ValidHeader(h) && i < |packets|
    ensures ReadAt(AvaFile(h, framerate, packets), EndOffset(packets[..i]), |packets[i].buf|) == packets[i].buf
  {
    FileParts(h, framerate, packets);
    PacketAt(AvaFile(h, framerate, packets), packets, i);
  }

  lemma PacketAt(file: seq<byte>, packets: seq<Packet>, i: nat)
    requires EndOffset(packets) <= |file| && file[HEADER_SIZE..EndOffset(packets)] == Bytes(packets) && i < |packets|
    ensures ReadAt(file, EndOffset(packets[..i]), |packets[i].buf|) == packets[i].buf
  {
    PacketBytes(packets, i);
    SliceOfSlice(file, HEADER_SIZE, EndOffset(packets), |Bytes(packets[..i])|, |packets[i].buf|);
  }

  lemma SliceOfSlice(s: seq<byte>, lo: nat, hi: nat, start: nat, size: nat)
    requires lo <= hi <= |s| && start + size <= hi - lo
    ensures s[lo + start..lo + start + size] == s[lo..hi][start..start + size]
  {
    var a, b := s[lo + start..lo + start + size], s[lo..hi][start..start + size];
    assert |a| == |b| == size;
    assert forall k :: 0 <= k < size ==> a[k] == s[lo + start + k] && b[k] == s[lo..hi][start + k];
  }

  /** For every list of packets and every slot of the index, the frame read there is the bytes
      of the packet the slot belongs to: the last one whose own slot is not after it. */
  lemma ReadsOwnersBytes(h: Header, framerate: int, packets: seq<Packet>, i: nat, j: nat)
    requires ValidHeader(h)
    requires i < |packets| && Position(framerate, packets, i) <= j < Position(framerate, packets, i + 1)
    ensures FrameBytes(AvaFile(h, framerate, packets), Slots(framerate, packets), EndOffset(packets), j) ==
      Ok(packets[i].buf)
  {
    SkipBackToOwner(framerate, packets, i, j);
    OwnersSize(framerate, packets, i, j);
    PacketInFile(h, framerate, packets, i);
  }

  lemma SlotRead(h: Header, framerate: int, packets: seq<Packet>, i: nat, j: nat, strict: bool)
    requires ValidHeader(h)
    requires i < |packets| && Position(framerate, packets, i) <= j < Position(framerate, packets, i + 1)
    ensures OneFrame(AvaFile(h, framerate, packets), Slots(framerate, packets), EndOffset(packets), j, strict) ==
      if strict && j != Position(framerate, packets, i) then Raises else Ok(packets[i].buf)
  {
    SlotContents(framerate, packets, i, j);
    ReadsOwnersBytes(h, framerate, packets, i, j);
  }

  /** Opening what the writer wrote gives back the header and the index; any slot j reads the
      bytes of the packet that owns it, and a strict reader calls the slot missing exactly when
      it is not the packet's own. */
  lemma RoundTrip(h: Header, framerate: int, packets: seq<Packet>, j: nat, strict: bool)
    requires ValidHeader(h) && EndOffset(packets) < Pow256(8)
    requires j < |Slots(framerate, packets)|
    ensures var file, i := AvaFile(h, framerate, packets), Owner(framerate, packets, j);
      && Open(file).Ok?
      && var o := Open(file).value;
      && HeaderIsBack(h, o) && o.indexOffset == EndOffset(packets)
      && |o.indices| == |Slots(framerate, packets)|
      && OneFrame(file, o.indices, o.indexOffset, j, strict) ==
           if strict && j != Position(framerate, packets, i) then Raises else Ok(packets[i].buf)
  {
    var i := Owner(framerate, packets, j);
    OpensBack(h, framerate, packets);
    SlotRead(h, framerate, packets, i, j, strict);
  }

  /** Each packet owns its own slot, so a strict reader finds it there. */
  lemma OwnSlot(framerate: int, packets: seq<Packet>, i: nat)
    requires i < |packets|
    ensures Position(framerate, packets, i) < |Slots(framerate, packets)|
    ensures Owner(framerate, packets, Position(framerate, packets, i)) == i
  {
    PositionsAdvance(framerate, packets, i);
    OwnerUnique(framerate, packets, i, Position(framerate, packets, i));
  }

  lemma OwnerUnique(framerate: int, packets: seq<Packet>, i: nat, j: nat)
    requires i < |packets| && Position(framerate, packets, i) <= j < Position(framerate, packets, i + 1)
    requires j < |Slots(framerate, packets)|
    ensures Owner(framerate, packets, j) == i
  {
    var k := Owner(framerate, packets, j);
    if k < i {
      PositionsOrdered(framerate, packets, k + 1, i);
    } else if i < k {
      PositionsOrdered(framerate, packets, i + 1, k);
    }
  }

  lemma {:induction false} PositionsOrdered(framerate: int, packets: seq<Packet>, a: nat, b: nat)
    requires a <= b <= |packets|
    ensures Position(framerate, packets, a) <= Position(framerate, packets, b)
    decreases b - a
  {
    if a < b {
      PositionsAdvance(framerate, packets, a);
      PositionsOrdered(framerate, packets, a + 1, b);
    }
  }

  // ---- Any index, written by this writer or not ----

  /** k is the last slot up to j that is not zero. */
  predicate LastNonZero(indices: seq<nat>, j: nat, k: nat)
    requires j < |indices|
  {
    k <= j && indices[k] != 0 && forall i :: k < i <= j ==> indices[i] == 0
  }

  predicate AllZero(indices: seq<nat>, from: nat, to: nat)
    requires to <= |indices|
  {
    forall i :: from <= i < to ==> indices[i] == 0
  }

  /** With nothing up to j the backward skip goes on from the end of the index, as Python's negative
      indices do, and finds nothing it may use. */
  lemma {:induction false} SkipBackBelow(indices: seq<nat>, i: int)
    requires -|indices| - 1 <= i < 0
    ensures !SkipFrom(indices, i, true).Offset?
    decreases i + |indices| + 1
  {
    if i >= -|indices| && At(indices, i) == 0 {
      SkipBackBelow(indices, i - 1);
    }
  }

  lemma {:induction false} SkipBackIs(indices: seq<nat>, j: nat)
    requires j < |indices|
    ensures forall k: nat :: LastNonZero(indices, j, k) ==> SkipFrom(indices, j, true) == Offset(indices[k])
    ensures AllZero(indices, 0, j + 1) ==> !SkipFrom(indices, j, true).Offset?
    decreases j
  {
    if indices[j] == 0 {
      if j == 0 {
        SkipBackBelow(indices, -1);
      } else {
        SkipBackIs(indices, j - 1);
        forall k: nat | LastNonZero(indices, j, k) ensures LastNonZero(indices, j - 1, k) {
        }
      }
    }
  }

  lemma {:induction false} SkipOnIs(indices: seq<nat>, j: nat)
    requires j <= |indices|
    ensures forall m :: j <= m < |indices| && indices[m] != 0 && AllZero(indices, j, m) ==>
      SkipFrom(indices, j, false) == Offset(indices[m])
    ensures AllZero(indices, j, |indices|) ==> SkipFrom(indices, j, false) == NoFrame
    decreases |indices| - j
  {
    if j < |indices| && indices[j] == 0 {
      SkipOnIs(indices, j + 1);
    }
  }

  /** Where the frame ends: at the first slot after j that is not zero, or at the index. */
  predicate EndsAt(indices: seq<nat>, indexOffset: nat, j: nat, end: nat)
    requires j < |indices|
  {
    if AllZero(indices, j + 1, |indices|) then end == indexOffset
    else exists m :: j < m < |indices| && indices[m] != 0 && AllZero(indices, j + 1, m) && end == indices[m]
  }

  lemma NextIs(indices: seq<nat>, indexOffset: nat, j: nat, end: nat)
    requires j < |indices| && EndsAt(indices, indexOffset, j, end)
    ensures NextOffset(indices, indexOffset, j) == Ok(end)
  {
    SkipOnIs(indices, j + 1);
  }

  /** Asking any index for a slot: it raises out of range, at a zero if the reader is strict, and
      when nothing is recorded up to it; otherwise it reads from the last offset up to the slot to
      the next one after it. */
  lemma AnySlotRead(file: seq<byte>, indices: seq<nat>, indexOffset: nat, index: int, strict: bool)
    ensures index < 0 || index >= |indices| ==> OneFrame(file, indices, indexOffset, index, strict) == Raises
    ensures 0 <= index < |indices| && ((strict && indices[index] == 0) || AllZero(indices, 0, index + 1)) ==>
      OneFrame(file, indices, indexOffset, index, strict) == Raises
    ensures 0 <= index < |indices| && !(strict && indices[index] == 0) ==>
      forall k: nat, end: nat :: LastNonZero(indices, index, k) && EndsAt(indices, indexOffset, index, end) ==>
        OneFrame(file, indices, indexOffset, index, strict) == Ok(ReadAt(file, indices[k], end - indices[k]))
  {
    if 0 <= index < |indices| {
      SkipBackIs(indices, index);
      forall k: nat, end: nat | LastNonZero(indices, index, k) && EndsAt(indices, indexOffset, index, end)
        ensures FrameBytes(file, indices, indexOffset, index) == Ok(ReadAt(file, indices[k], end - indices[k]))
      {
        NextIs(indices, indexOffset, index, end);
      }
    }
  }
}
