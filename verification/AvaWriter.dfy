/** AvaVideoWriter's writing side: the header, the serial writing stage and close. */
module AvaWriter {
  import opened AvaFormat
  import opened ByteOrder

  class AvaVideoWriter {
    const framerate: int
    var file: seq<byte>
    var written: seq<(real, nat)>
    ghost const header: Header
    ghost var packets: seq<Packet>

    /** Between the constructor and close. */
    ghost predicate Valid()
      reads this
    {
      ValidHeader(header) && file == HeaderBytes(header, 0) + Bytes(packets) && Recorded()
    }

    ghost predicate Recorded()
      reads this
    {
      |written| == |packets| && forall i :: 0 <= i < |packets| ==> written[i] == (packets[i].ts, |packets[i].buf|)
    }

    /** Writes the header with the index offset left at zero. */
    constructor (h: Header, framerate: int)
      requires ValidHeader(h)
      ensures Valid() && header == h && this.framerate == framerate && packets == []
    {
      this.framerate := framerate;
      header, packets := h, [];
      file := HeaderBytes(h, 0);
      written := [];
    }

    /** The in-order stage of the pipeline. */
    method WritePacket(packet: Packet)
      requires Valid()
      modifies this
      ensures Valid() && packets == old(packets) + [packet]
    {
      file := file + packet.buf;
      written := written + [(packet.ts, |packet.buf|)];
      OnePacketMore(HeaderBytes(header, 0), packets, packet);
      packets := packets + [packet];
    }

    method WriteZeros(extra: int)
      modifies this`file
      ensures file == old(file) + EncodeWords(Zeros(extra))
    {
      var j := 0;
      while j < extra
        invariant 0 <= j && (j <= extra || j == 0)
        invariant file == old(file) + EncodeWords(Zeros(j))
      {
        OneMoreZero(old(file), j);
        file := file + LittleEndian(0, 8);
        j := j + 1;
      }
      assert Zeros(j) == Zeros(extra);
    }

    /** The number of frames missing before frame i, from its distance to the frame before. */
    method MissingFrames(i: nat) returns (extra: int)
      requires Recorded() && i < |packets|
      ensures extra == ExtraFrames(framerate, packets[..i + 1])
    {
      var offset := if i > 0 then written[i].0 - written[i - 1].0 else 0.0;
      extra := Truncate(offset * (framerate as real) - 0.5);
    }

    method WriteIndex()
      requires Valid()
      modifies this`file
      ensures file == old(file) + EncodeWords(Slots(framerate, packets))
    {
      ghost var start := file;
      var current := HEADER_SIZE;
      var i := 0;
      while i < |written|
        invariant 0 <= i <= |written| && Recorded()
        invariant current == EndOffset(packets[..i])
        invariant file == start + EncodeWords(Slots(framerate, packets[..i]))
      {
        var extra := MissingFrames(i);
        ghost var before := file;
        file := file + LittleEndian(current, 8);
        WriteZeros(extra);
        assert file == before + LittleEndian(current, 8) + EncodeWords(Zeros(extra));
        IndexGrows(start, framerate, packets, i, extra);
        current := current + written[i].1;
        i := i + 1;
      }
      assert packets[..i] == packets;
    }

    /** Writes the index after the packets, then its offset into the header. */
    method Close()
      requires Valid()
      modifies this`file
      ensures file == AvaFile(header, framerate, packets)
    {
      var indexOffset := |file|;
      WriteIndex();
      HeaderPatched(header, indexOffset, Bytes(packets), EncodeWords(Slots(framerate, packets)), file);
      file := file[..INDEX_FIELD] + LittleEndian(indexOffset, 8) + file[INDEX_FIELD + 8..];
    }
  }

  lemma OneMoreZero(front: seq<byte>, j: nat)
    ensures front + EncodeWords(Zeros(j + 1)) == front + EncodeWords(Zeros(j)) + LittleEndian(0, 8)
  {
    assert Zeros(j + 1) == Zeros(j) + [0];
    OneMoreWord(Zeros(j), 0);
  }

  lemma OnePacketMore(front: seq<byte>, packets: seq<Packet>, packet: Packet)
    ensures front + Bytes(packets + [packet]) == front + Bytes(packets) + packet.buf
  {
    assert (packets + [packet])[..|packets|] == packets;
  }

  lemma IndexGrows(start: seq<byte>, framerate: int, packets: seq<Packet>, i: nat, extra: int)
    requires i < |packets|
    requires extra == ExtraFrames(framerate, packets[..i + 1])
    ensures start + EncodeWords(Slots(framerate, packets[..i + 1])) ==
      start + EncodeWords(Slots(framerate, packets[..i])) + LittleEndian(EndOffset(packets[..i]), 8) +
        EncodeWords(Zeros(extra))
    ensures EndOffset(packets[..i + 1]) == EndOffset(packets[..i]) + |packets[i].buf|
  {
    var before, upto := packets[..i], packets[..i + 1];
    assert upto[..i] == before;
    var slots := Slots(framerate, before) + [EndOffset(before)];
    EncodeWordsConcat(slots, Zeros(extra));
    assert slots[..|slots| - 1] == Slots(framerate, before);
  }

  /** Patching the header's last field leaves the packets and the index alone. */
  lemma HeaderPatched(h: Header, indexOffset: nat, body: seq<byte>, index: seq<byte>, file: seq<byte>)
    requires ValidHeader(h) && file == HeaderBytes(h, 0) + body + index
    ensures |file| >= HEADER_SIZE
    ensures file[..INDEX_FIELD] + LittleEndian(indexOffset, 8) + file[INDEX_FIELD + 8..] ==
      HeaderBytes(h, indexOffset) + body + index
  {
    assert HeaderBytes(h, 0)[..INDEX_FIELD] == HeaderBytes(h, indexOffset)[..INDEX_FIELD];
    assert HeaderBytes(h, indexOffset)[INDEX_FIELD..] == LittleEndian(indexOffset, 8);
  }
}
