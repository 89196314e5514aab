/** What the index looks like when frames arrive on a regular clock with some missing, and which
    frame a reader gets for each tick. */
module AvaIndex {
  import opened AvaFormat
  import opened AvaReader

  /** Packet i was taken at tick ks[i] of the frame clock, to within less than a quarter tick. */
  ghost predicate OnTicks(framerate: int, packets: seq<Packet>, ks: seq<int>) {
    && |ks| == |packets|
    && (forall i :: 0 <= i < |ks| - 1 ==> ks[i] < ks[i + 1])
    && forall i :: 0 <= i < |ks| ==> Near(packets[i].ts * (framerate as real), ks[i])
  }

  predicate Near(x: real, k: int) {
    -0.25 < x - (k as real) < 0.25
  }

  lemma TruncatedGap(a: real, b: real, f: real, ka: int, kb: int)
    requires Near(a * f, ka) && Near(b * f, kb) && ka < kb
    ensures Truncate((b - a) * f - 0.5) == kb - ka - 1
  {
    assert (b - a) * f == b * f - a * f;
    var x := (b - a) * f - 0.5;
    var d := kb - ka;
    assert (d as real) == (kb as real) - (ka as real);
    assert (d as real) - 1.0 < x < (d as real);
    assert ((d - 1) as real) == (d as real) - 1.0;
  }

  /** The zeros after packet i are as many as the ticks missed between i - 1 and i. */
  lemma ExtraFramesOnTicks(framerate: int, packets: seq<Packet>, ks: seq<int>, i: nat)
    requires OnTicks(framerate, packets, ks) && i < |packets|
    ensures ExtraFrames(framerate, packets[..i + 1]) == if i == 0 then 0 else ks[i] - ks[i - 1] - 1
  {
    if i == 0 {
      assert 0.0 * (framerate as real) - 0.5 == -0.5;
      assert (0.5).Floor == 0;
    } else {
      assert ks[i - 1] < ks[i - 1 + 1];
      TruncatedGap(packets[i - 1].ts, packets[i].ts, framerate as real, ks[i - 1], ks[i]);
    }
  }

  /** No drift: the slots of the first i packets reach to the tick of the last of them. */
  lemma {:induction false} PositionOnTicks(framerate: int, packets: seq<Packet>, ks: seq<int>, i: nat)
    requires OnTicks(framerate, packets, ks) && i <= |packets|
    ensures Position(framerate, packets, i) == if i == 0 then 0 else ks[i - 1] - ks[0] + 1
  {
    if i > 0 {
      PositionOnTicks(framerate, packets, ks, i - 1);
      ExtraFramesOnTicks(framerate, packets, ks, i - 1);
      TicksOrdered(ks, 0, i - 1);
      if i > 1 {
        assert ks[i - 2] < ks[i - 2 + 1];
      }
      assert packets[..i][..i - 1] == packets[..i - 1];
    }
  }

  lemma {:induction false} TicksOrdered(ks: seq<int>, a: nat, b: nat)
    requires forall i :: 0 <= i < |ks| - 1 ==> ks[i] < ks[i + 1]
    requires a <= b < |ks|
    ensures ks[b] - ks[a] >= b - a
    decreases b - a
  {
    if a < b {
      TicksOrdered(ks, a, b - 1);
      assert ks[b - 1] < ks[b - 1 + 1];
    }
  }

  /** The index has one slot for every tick from the first packet's to the last's. */
  lemma IndexLength(framerate: int, packets: seq<Packet>, ks: seq<int>)
    requires OnTicks(framerate, packets, ks) && packets != []
    ensures |Slots(framerate, packets)| == ks[|ks| - 1] - ks[0] + 1
  {
    PositionOnTicks(framerate, packets, ks, |packets|);
    assert packets[..|packets|] == packets;
  }

  /** The tick j counted from the first packet's belongs to the first packet taken at or after
      it: a missed tick reads the frame after the gap, not the frame before it. */
  lemma TickOwner(framerate: int, packets: seq<Packet>, ks: seq<int>, i: nat, j: nat)
    requires OnTicks(framerate, packets, ks) && i < |packets|
    requires j <= ks[i] - ks[0] && (i > 0 ==> ks[i - 1] - ks[0] < j)
    ensures j < |Slots(framerate, packets)| && Owner(framerate, packets, j) == i
  {
    PositionOnTicks(framerate, packets, ks, i);
    PositionOnTicks(framerate, packets, ks, i + 1);
    PositionsAdvance(framerate, packets, i);
    OwnerUnique(framerate, packets, i, j);
  }

  lemma TickSlot(framerate: int, packets: seq<Packet>, ks: seq<int>, i: nat, j: nat)
    requires OnTicks(framerate, packets, ks) && i < |packets| && j == ks[i] - ks[0]
    ensures Position(framerate, packets, i) <= j < Position(framerate, packets, i + 1)
    ensures j != Position(framerate, packets, i) <==> i > 0 && ks[i] - ks[i - 1] > 1
  {
    PositionOnTicks(framerate, packets, ks, i);
    PositionOnTicks(framerate, packets, ks, i + 1);
    if i > 0 {
      assert ks[i - 1] < ks[i - 1 + 1];
    }
  }

  /** Asking for the tick of packet i always gives packet i; asking strictly raises at a tick
      that was recorded, exactly when the tick before it was missed. */
  lemma FrameAtTick(h: Header, framerate: int, packets: seq<Packet>, ks: seq<int>, i: nat, j: int, strict: bool)
    requires ValidHeader(h) && OnTicks(framerate, packets, ks) && i < |packets| && j == ks[i] - ks[0]
    ensures OneFrame(AvaFile(h, framerate, packets), Slots(framerate, packets), EndOffset(packets), j, strict) ==
      if strict && i > 0 && ks[i] - ks[i - 1] > 1 then Raises else Ok(packets[i].buf)
  {
    TicksOrdered(ks, 0, i);
    TickSlot(framerate, packets, ks, i, j);
    SlotRead(h, framerate, packets, i, j, strict);
  }
}
