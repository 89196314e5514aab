/** Audio capture: callbacks of any size fill a fixed buffer, which is flushed to the WAV writer
    whenever it is full. */
module Audio {
  import opened ByteOrder
  import opened Wrappers

  type sample = x: int | -0x8000 <= x < 0x8000

  const CHANNELS: nat := 2
  const FRAMES_IN_BUFFER: nat := 44100
  const SILENCE: sample := 0

  // ---- The bytes of a sample ----

  function SampleWord(v: sample): (s: seq<byte>)
    ensures |s| == 2
  {
    [v % 256, v / 256 % 256]
  }

  lemma WordOfSample(v: sample)
    ensures LittleEndian(v, 2) == SampleWord(v)
  {
    assert LittleEndian(v / 256, 1) == [v / 256 % 256] + LittleEndian(v / 256 / 256, 0);
  }

  function SampleBytes(samples: seq<sample>): (s: seq<byte>)
    ensures |s| == 2 * |samples|
  {
    if samples == [] then [] else SampleBytes(samples[..|samples| - 1]) + SampleWord(samples[|samples| - 1])
  }

  /** Two bytes as a signed sample. */
  function ReadSample(low: byte, high: byte): sample {
    var n := low + 256 * high;
    if n < 0x8000 then n else n - 0x1_0000
  }

  lemma SampleComesBack(v: sample)
    ensures ReadSample(v % 256, v / 256 % 256) == v
  {
    assert v == 256 * (v / 256) + v % 256;
    assert -128 <= v / 256 < 128;
  }

  /** The data bytes determine the samples. */
  lemma {:induction false} SamplesComeBack(samples: seq<sample>, i: nat)
    requires i < |samples|
    ensures ReadSample(SampleBytes(samples)[2 * i], SampleBytes(samples)[2 * i + 1]) == samples[i]
  {
    var n := |samples| - 1;
    if i < n {
      SamplesComeBack(samples[..n], i);
    } else {
      SampleComesBack(samples[n]);
    }
  }

  lemma {:induction false} SampleBytesConcat(a: seq<sample>, b: seq<sample>)
    ensures SampleBytes(a + b) == SampleBytes(a) + SampleBytes(b)
  {
    if b == [] {
      assert a + b == a;
    } else {
      var ab := a + b;
      SampleBytesConcat(a, b[..|b| - 1]);
      assert ab[..|ab| - 1] == a + b[..|b| - 1];
    }
  }

  /** What a callback delivers: its input, or silence if it has none. */
  function Delivered(input: Option<seq<sample>>, frames: nat): (s: seq<sample>)
    requires input.Some? ==> |input.value| == frames * CHANNELS
    ensures |s| == frames * CHANNELS
    ensures input.Some? ==> s == input.value
    ensures input == None ==> forall i :: 0 <= i < |s| ==> s[i] == 0
  {
    if input.Some? then input.value else seq(frames * CHANNELS, _ => SILENCE)
  }

  datatype Callback = Callback(input: Option<seq<sample>>, frames: nat)

  predicate WellFormed(c: Callback) {
    c.input.Some? ==> |c.input.value| == c.frames * CHANNELS
  }

  /** What a sequence of callbacks delivers. */
  function AllDelivered(callbacks: seq<Callback>): (s: seq<sample>)
    requires forall i :: 0 <= i < |callbacks| ==> WellFormed(callbacks[i])
  {
    if callbacks == [] then [] else
    var last := callbacks[|callbacks| - 1];
    assert WellFormed(last);
    AllDelivered(callbacks[..|callbacks| - 1]) + Delivered(last.input, last.frames)
  }

  function AllFrames(callbacks: seq<Callback>): nat {
    if callbacks == [] then 0 else AllFrames(callbacks[..|callbacks| - 1]) + callbacks[|callbacks| - 1].frames
  }

  lemma OneMoreCallback(start: seq<sample>, callbacks: seq<Callback>, i: nat)
    requires i < |callbacks| && forall k :: 0 <= k < |callbacks| ==> WellFormed(callbacks[k])
    ensures start + AllDelivered(callbacks[..i + 1]) ==
      start + AllDelivered(callbacks[..i]) + Delivered(callbacks[i].input, callbacks[i].frames)
    ensures AllFrames(callbacks[..i + 1]) == AllFrames(callbacks[..i]) + callbacks[i].frames
  {
    assert callbacks[..i + 1][..i] == callbacks[..i];
  }

  /** The total counts frames, and the stream holds two samples for each. */
  lemma {:induction false} DeliveredLength(callbacks: seq<Callback>)
    requires forall i :: 0 <= i < |callbacks| ==> WellFormed(callbacks[i])
    ensures |AllDelivered(callbacks)| == AllFrames(callbacks) * CHANNELS
  {
    if callbacks != [] {
      DeliveredLength(callbacks[..|callbacks| - 1]);
    }
  }

  class AudioRecorder {
    const recordedSamples: array<sample>
    var frameIndex: nat
    var maxFrameIndex: nat
    var totalRecordedSamples: nat
    var isOpen: bool
    var data: seq<byte>
    ghost var written: seq<sample>

    ghost predicate Valid()
      reads this, recordedSamples
    {
      && recordedSamples.Length == FRAMES_IN_BUFFER * CHANNELS
      && frameIndex < maxFrameIndex == FRAMES_IN_BUFFER
      && (isOpen ==> data == SampleBytes(written))
    }

    /** The samples passed to the writer followed by the live part of the buffer. */
    ghost function Stream(): seq<sample>
      requires Valid()
      reads this, recordedSamples
    {
      written + recordedSamples[..frameIndex * CHANNELS]
    }

    /** The state in which start leaves the recorder; without a file name nothing is open. */
    constructor (open: bool)
      ensures Valid() && fresh(recordedSamples) && Stream() == [] && totalRecordedSamples == 0
      ensures isOpen == open && data == []
    {
      recordedSamples := new sample[FRAMES_IN_BUFFER * CHANNELS](_ => SILENCE);
      frameIndex, maxFrameIndex, totalRecordedSamples := 0, FRAMES_IN_BUFFER, 0;
      isOpen, data, written := open, [], [];
    }

    method WriteWord(value: int, size: nat)
      modifies this`data
      ensures data == old(data) + LittleEndian(value, size)
    {
      var rest, left := value, size;
      while left > 0
        invariant 0 <= left <= size
        invariant data + LittleEndian(rest, left) == old(data) + LittleEndian(value, size)
      {
        data := data + [rest % 256];
        rest, left := rest / 256, left - 1;
      }
    }

    /** Passes the live samples to the writer, which keeps them only if its file is open. */
    method AddFrame(frames: nat)
      requires frames * CHANNELS <= recordedSamples.Length
      requires isOpen ==> data == SampleBytes(written)
      modifies this`data, this`written
      ensures written == old(written) + recordedSamples[..frames * CHANNELS]
      ensures if isOpen then data == SampleBytes(written) else data == old(data)
    {
      ghost var live := recordedSamples[..frames * CHANNELS];
      if isOpen {
        var n := 0;
        while n < frames * CHANNELS
          invariant 0 <= n <= frames * CHANNELS
          invariant data == old(data) + SampleBytes(live[..n])
          invariant written == old(written)
        {
          assert live[..n + 1][..n] == live[..n];
          WriteWord(recordedSamples[n], 2);
          WordOfSample(live[n]);
          n := n + 1;
        }
        assert live[..n] == live;
        SampleBytesConcat(written, live);
      }
      written := written + live;
    }

    method Flush()
      requires recordedSamples.Length == FRAMES_IN_BUFFER * CHANNELS && frameIndex <= maxFrameIndex == FRAMES_IN_BUFFER
      requires isOpen ==> data == SampleBytes(written)
      modifies this`frameIndex, this`data, this`written
      ensures Valid() && frameIndex == 0
      ensures written == old(written) + old(recordedSamples[..frameIndex * CHANNELS])
      ensures !isOpen ==> data == old(data)
    {
      if frameIndex > 0 {
        AddFrame(frameIndex);
        frameIndex := 0;
      }
    }

    method CopyIn(samples: seq<sample>, from: nat, at: nat, count: nat)
      requires from + count <= |samples| && at + count <= recordedSamples.Length
      modifies recordedSamples
      ensures recordedSamples[..] ==
        old(recordedSamples[..at]) + samples[from..from + count] + old(recordedSamples[at + count..])
    {
      var i := 0;
      while i < count
        invariant 0 <= i <= count
        invariant forall k :: at <= k < at + i ==> recordedSamples[k] == samples[from + (k - at)]
        invariant forall k :: 0 <= k < recordedSamples.Length && !(at <= k < at + i) ==>
          recordedSamples[k] == old(recordedSamples[k])
      {
        recordedSamples[at + i] := samples[from + i];
        i := i + 1;
      }
    }

    /** Copies as much as fits into the buffer, and flushes it when it is full. */
    method CopyChunk(samples: seq<sample>, from: nat, frames: nat)
      requires Valid() && frames <= maxFrameIndex - frameIndex && from + frames * CHANNELS <= |samples|
      modifies this`frameIndex, this`totalRecordedSamples, this`data, this`written, recordedSamples
      ensures Valid() && (!isOpen ==> data == old(data))
      ensures Stream() == old(Stream()) + samples[from..from + frames * CHANNELS]
      ensures totalRecordedSamples == old(totalRecordedSamples) + frames
    {
      ghost var before := Stream();
      CopyIn(samples, from, frameIndex * CHANNELS, frames * CHANNELS);
      StreamGrows(before, written, recordedSamples[..], samples, frameIndex * CHANNELS, from, frames * CHANNELS);
      frameIndex := frameIndex + frames;
      totalRecordedSamples := totalRecordedSamples + frames;
      if frameIndex >= maxFrameIndex {
        Flush();
        assert recordedSamples[..0] == [];
      }
    }

    /** One callback: nothing is lost, repeated or reordered, however the callback's size falls
        against the buffer's. */
    method RecordCallback(input: Option<seq<sample>>, frames: nat)
      requires Valid() && (input.Some? ==> |input.value| == frames * CHANNELS)
      modifies this`frameIndex, this`totalRecordedSamples, this`data, this`written, recordedSamples
      ensures Valid() && (!isOpen ==> data == old(data))
      ensures Stream() == old(Stream()) + Delivered(input, frames)
      ensures totalRecordedSamples == old(totalRecordedSamples) + frames
    {
      var samples := Delivered(input, frames);
      var remain: nat, done: nat := frames, 0;
      while remain > 0
        invariant remain + done == frames && Valid()
        invariant Stream() == old(Stream()) + samples[..done * CHANNELS]
        invariant totalRecordedSamples == old(totalRecordedSamples) + done
        invariant !isOpen ==> data == old(data)
        decreases remain
      {
        var toCopy := if remain <= maxFrameIndex - frameIndex then remain else maxFrameIndex - frameIndex;
        CopyChunk(samples, done * CHANNELS, toCopy);
        SliceGrows(samples, done * CHANNELS, toCopy * CHANNELS);
        remain, done := remain - toCopy, done + toCopy;
      }
      assert samples[..done * CHANNELS] == samples;
    }

    /** Any sequence of callbacks, of any sizes, with and without input. */
    method RecordCallbacks(callbacks: seq<Callback>)
      requires Valid() && forall i :: 0 <= i < |callbacks| ==> WellFormed(callbacks[i])
      modifies this`frameIndex, this`totalRecordedSamples, this`data, this`written, recordedSamples
      ensures Valid() && (!isOpen ==> data == old(data))
      ensures Stream() == old(Stream()) + AllDelivered(callbacks)
      ensures totalRecordedSamples == old(totalRecordedSamples) + AllFrames(callbacks)
    {
      var i := 0;
      while i < |callbacks|
        invariant 0 <= i <= |callbacks| && Valid()
        invariant Stream() == old(Stream()) + AllDelivered(callbacks[..i])
        invariant totalRecordedSamples == old(totalRecordedSamples) + AllFrames(callbacks[..i])
        invariant !isOpen ==> data == old(data)
      {
        RecordCallback(callbacks[i].input, callbacks[i].frames);
        OneMoreCallback(old(Stream()), callbacks, i);
        i := i + 1;
      }
      assert callbacks[..i] == callbacks;
    }

    /** The end of the recording: the live samples follow the others. */
    method Stop()
      requires Valid()
      modifies this
      ensures isOpen == false && written == old(Stream())
      ensures old(isOpen) ==> data == SampleBytes(old(Stream()))
    {
      Flush();
      isOpen := false;
    }
  }

  lemma StreamGrows(before: seq<sample>, written: seq<sample>, buffer: seq<sample>, samples: seq<sample>, at: nat,
                    from: nat, count: nat)
    requires at + count <= |buffer| && from + count <= |samples|
    requires before == written + buffer[..at] && buffer[at..at + count] == samples[from..from + count]
    ensures written + buffer[..at + count] == before + samples[from..from + count]
  {
    assert buffer[..at + count] == buffer[..at] + buffer[at..at + count];
  }

  lemma SliceGrows(samples: seq<sample>, from: nat, count: nat)
    requires from + count <= |samples|
    ensures samples[..from] + samples[from..from + count] == samples[..from + count]
  {
  }
}
