/** The bytes of an .ava sequence file: a 48-byte header, the packets one after the other, and an
    index of 64-bit offsets with a zero for each frame that was not recorded. */
module AvaFormat {
  import opened ByteOrder

  // ---- Words ----

  function EncodeWords(words: seq<nat>): (s: seq<byte>)
    ensures |s| == 8 * |words|
  {
    if words == [] then [] else EncodeWords(words[..|words| - 1]) + LittleEndian(words[|words| - 1], 8)
  }

  function DecodeWords(s: seq<byte>): (words: seq<nat>)
    requires |s| % 8 == 0
    ensures |words| == |s| / 8
  {
    if s == [] then [] else DecodeWords(s[..|s| - 8]) + [FromLittleEndian(s[|s| - 8..])]
  }

  lemma {:induction false} WordsRoundTrip(words: seq<nat>)
    requires forall i :: 0 <= i < |words| ==> words[i] < Pow256(8)
    ensures DecodeWords(EncodeWords(words)) == words
  {
    if words != [] {
      var most, last := words[..|words| - 1], words[|words| - 1];
      WordsRoundTrip(most);
      LittleEndianRoundTrip(last, 8);
      LastWord(EncodeWords(words), EncodeWords(most), LittleEndian(last, 8));
      assert most + [last] == words;
    }
  }

  lemma LastWord(s: seq<byte>, front: seq<byte>, word: seq<byte>)
    requires s == front + word && |word| == 8
    ensures s[..|s| - 8] == front && s[|s| - 8..] == word
  {
  }

  lemma {:induction false} EncodeWordsConcat(a: seq<nat>, b: seq<nat>)
    ensures EncodeWords(a + b) == EncodeWords(a) + EncodeWords(b)
  {
    if b == [] {
      assert a + b == a;
    } else {
      var ab, most, last := a + b, b[..|b| - 1], b[|b| - 1];
      EncodeWordsConcat(a, most);
      OneMoreWord(a + most, last);
      assert ab == a + most + [last];
      Associative(EncodeWords(a), EncodeWords(most), LittleEndian(last, 8));
    }
  }

  lemma OneMoreWord(words: seq<nat>, last: nat)
    ensures EncodeWords(words + [last]) == EncodeWords(words) + LittleEndian(last, 8)
  {
    assert (words + [last])[..|words|] == words;
  }

  lemma Associative(a: seq<byte>, b: seq<byte>, c: seq<byte>)
    ensures (a + b) + c == a + (b + c)
  {
  }

  // ---- Header ----

  const HEADER_SIZE: nat := 48
  const INDEX_FIELD: nat := 40
  const MAGIC: byte := 0xED
  const VERSION: byte := 1
  const LZ4_TAG: seq<byte> := [76, 90, 52, 0]

  /** The fields a recording sets: bayer is the pattern of the first two rows, gains the bytes
      of the three colour gains. */
  datatype Header = Header(bitcount: byte, width: nat, height: nat, bayer: seq<byte>, gains: seq<byte>)

  predicate ValidHeader(h: Header) {
    h.width < Pow256(4) && h.height < Pow256(4) && |h.bayer| == 4 && |h.gains| == 12
  }

  /** Field by field as the compiler lays the struct out; four bytes of padding align the offset. */
  function HeaderBytes(h: Header, indexOffset: nat): (s: seq<byte>)
    requires ValidHeader(h)
    ensures |s| == HEADER_SIZE
  {
    [MAGIC, VERSION, 1, h.bitcount] + LittleEndian(h.width, 4) + LittleEndian(h.height, 4) + LittleEndian(0, 4)
    + h.bayer + h.gains + LZ4_TAG + [0, 0, 0, 0] + LittleEndian(indexOffset, 8)
  }

  // ---- Packets and index ----

  datatype Packet = Packet(ts: real, buf: seq<byte>)

  function Bytes(packets: seq<Packet>): seq<byte> {
    if packets == [] then [] else Bytes(packets[..|packets| - 1]) + packets[|packets| - 1].buf
  }

  /** Where the packet after these starts. */
  function EndOffset(packets: seq<Packet>): nat {
    HEADER_SIZE + |Bytes(packets)|
  }

  /** Conversion of a real to int, towards zero. */
  function Truncate(x: real): int {
    if x >= 0.0 then x.Floor else -((-x).Floor)
  }

  /** How many zeros follow the offset of the last packet. */
  function ExtraFrames(framerate: int, packets: seq<Packet>): int
    requires packets != []
  {
    var n := |packets|;
    var offset := if n > 1 then packets[n - 1].ts - packets[n - 2].ts else 0.0;
    Truncate(offset * (framerate as real) - 0.5)
  }

  function Zeros(n: int): (s: seq<nat>)
    ensures |s| == if n > 0 then n else 0
    ensures forall i :: 0 <= i < |s| ==> s[i] == 0
  {
    seq(if n > 0 then n else 0, _ => 0)
  }

  /** The index: the zeros for a gap come after the packet that ends the gap. */
  function Slots(framerate: int, packets: seq<Packet>): seq<nat> {
    if packets == [] then [] else
    var most := packets[..|packets| - 1];
    Slots(framerate, most) + [EndOffset(most)] + Zeros(ExtraFrames(framerate, packets))
  }

  function AvaFile(h: Header, framerate: int, packets: seq<Packet>): seq<byte>
    requires ValidHeader(h)
  {
    HeaderBytes(h, EndOffset(packets)) + Bytes(packets) + EncodeWords(Slots(framerate, packets))
  }

  // ---- Where each packet is ----

  /** The slot of packet i: the slots of the packets before it. */
  function Position(framerate: int, packets: seq<Packet>, i: nat): nat
    requires i <= |packets|
  {
    |Slots(framerate, packets[..i])|
  }

  lemma {:induction false} BytesPrefix(packets: seq<Packet>, i: nat)
    requires i <= |packets|
    ensures Bytes(packets[..i]) <= Bytes(packets)
  {
    if i < |packets| {
      var most := packets[..|packets| - 1];
      BytesPrefix(most, i);
      assert most[..i] == packets[..i];
    } else {
      assert packets[..i] == packets;
    }
  }

  lemma {:induction false} SlotsPrefix(framerate: int, packets: seq<Packet>, i: nat)
    requires i <= |packets|
    ensures Slots(framerate, packets[..i]) <= Slots(framerate, packets)
  {
    if i < |packets| {
      var most := packets[..|packets| - 1];
      SlotsPrefix(framerate, most, i);
      assert most[..i] == packets[..i];
    } else {
      assert packets[..i] == packets;
    }
  }

  /** Packet i's slot holds its offset, and the slots up to the next packet's hold zero. */
  lemma SlotContents(framerate: int, packets: seq<Packet>, i: nat, j: nat)
    requires i < |packets| && Position(framerate, packets, i) <= j < Position(framerate, packets, i + 1)
    ensures j < |Slots(framerate, packets)|
    ensures Slots(framerate, packets)[j] == if j == Position(framerate, packets, i) then EndOffset(packets[..i]) else 0
  {
    var upto := packets[..i + 1];
    SlotsPrefix(framerate, packets, i + 1);
    assert upto[..i] == packets[..i];
  }

  lemma PositionsAdvance(framerate: int, packets: seq<Packet>, i: nat)
    requires i < |packets|
    ensures Position(framerate, packets, 0) == 0
    ensures Position(framerate, packets, i) < Position(framerate, packets, i + 1) <= |Slots(framerate, packets)|
    ensures i + 1 == |packets| ==> Position(framerate, packets, i + 1) == |Slots(framerate, packets)|
  {
    assert packets[..i + 1][..i] == packets[..i];
    SlotsPrefix(framerate, packets, i + 1);
    if i + 1 == |packets| {
      assert packets[..i + 1] == packets;
    }
  }

  /** The packet a slot belongs to: the last one whose own slot is not after it. */
  function Owner(framerate: int, packets: seq<Packet>, j: nat): (i: nat)
    requires j < |Slots(framerate, packets)|
    ensures i < |packets| && Position(framerate, packets, i) <= j < Position(framerate, packets, i + 1)
  {
    var n := |packets|;
    var most := packets[..n - 1];
    if j < |Slots(framerate, most)| then
      var i := Owner(framerate, most, j);
      assert most[..i] == packets[..i] && most[..i + 1] == packets[..i + 1];
      i
    else
      PositionsAdvance(framerate, packets, n - 1);
      n - 1
  }

  lemma PacketBytes(packets: seq<Packet>, i: nat)
    requires i < |packets|
    ensures var start := |Bytes(packets[..i])|;
      start + |packets[i].buf| <= |Bytes(packets)|
      && Bytes(packets)[start..start + |packets[i].buf|] == packets[i].buf
      && EndOffset(packets[..i + 1]) == EndOffset(packets[..i]) + |packets[i].buf|
  {
    BytesPrefix(packets, i + 1);
    assert packets[..i + 1][..i] == packets[..i];
  }
}
