/** The writer's pipeline under any interleaving: one producer, up to 32 frames being encoded in
    parallel, one in-order writing stage, bounded queues and pools of recycled buffers. */
module AvaPipeline {
  import opened Wrappers
  import opened AvaFormat
  import opened ByteOrder
  import opened AvaReader

  const QUEUE_CAPACITY: nat := 300
  const POOL_CAPACITY: nat := 300
  const MAX_TOKENS: nat := 32

  datatype Frame = Frame(ts: real, img: seq<byte>)

  datatype Item = Queued(frame: Frame) | Terminator

  /** A frame between the reading and the writing stage: popped, being encoded into a packet it
      holds, or encoded and its frame buffer given back. */
  datatype Token = Popped(frame: Frame) | Encoding(frame: Frame) | Encoded(packet: Packet)

  datatype State = State(
    holding: Option<Frame>,
    queue: seq<Item>, closing: bool, stopped: bool,
    tokens: seq<Token>, written: seq<Packet>,
    appended: nat, accepted: seq<Frame>, dropped: nat,
    frameBuffers: nat, unusedFrames: nat,
    packetBuffers: nat, unusedPackets: nat, inFlight: nat)

  datatype Step =
    | TakeBuffer(frame: Frame)
    | Push
    | Drop
    | Close
    | Pop
    | Stop
    | TakePacket(i: nat)
    | Encode(i: nat)
    | Write

  function Packed(f: Frame, encode: seq<byte> -> seq<byte>): Packet {
    Packet(f.ts, encode(f.img))
  }

  predicate Next(s: State, step: Step, u: State, encode: seq<byte> -> seq<byte>) {
    match step
    case TakeBuffer(f) =>
      && s.holding.None? && !s.closing
      && u == s.(holding := Some(f), appended := s.appended + 1,
                 frameBuffers := if s.unusedFrames > 0 then s.frameBuffers else s.frameBuffers + 1,
                 unusedFrames := if s.unusedFrames > 0 then s.unusedFrames - 1 else 0)
    case Push =>
      && s.holding.Some? && |s.queue| < QUEUE_CAPACITY
      && u == s.(holding := None, queue := s.queue + [Queued(s.holding.value)],
           accepted := s.accepted + [s.holding.value])
    case Drop =>
      && s.holding.Some? && |s.queue| >= QUEUE_CAPACITY && s.unusedFrames < POOL_CAPACITY
      && u == s.(holding := None, dropped := s.dropped + 1, unusedFrames := s.unusedFrames + 1)
    case Close =>
      && s.holding.None? && !s.closing && |s.queue| < QUEUE_CAPACITY
      && u == s.(closing := true, queue := s.queue + [Terminator])
    case Pop =>
      && s.queue != [] && s.queue[0].Queued? && |s.tokens| < MAX_TOKENS
      && u == s.(queue := s.queue[1..], tokens := s.tokens + [Popped(s.queue[0].frame)])
    case Stop =>
      && s.queue != [] && s.queue[0].Terminator?
      && u == s.(queue := s.queue[1..], stopped := true)
    case TakePacket(i) =>
      && i < |s.tokens| && s.tokens[i].Popped?
      && u == s.(tokens := s.tokens[i := Encoding(s.tokens[i].frame)], inFlight := s.inFlight + 1,
                 packetBuffers := if s.unusedPackets > 0 then s.packetBuffers else s.packetBuffers + 1,
                 unusedPackets := if s.unusedPackets > 0 then s.unusedPackets - 1 else 0)
    case Encode(i) =>
      && i < |s.tokens| && s.tokens[i].Encoding? && s.unusedFrames < POOL_CAPACITY
      && u == s.(tokens := s.tokens[i := Encoded(Packed(s.tokens[i].frame, encode))],
           unusedFrames := s.unusedFrames + 1)
    case Write =>
      && s.tokens != [] && s.tokens[0].Encoded? && s.unusedPackets < POOL_CAPACITY
      && u == s.(tokens := s.tokens[1..], written := s.written + [s.tokens[0].packet],
                 unusedPackets := s.unusedPackets + 1, inFlight := if s.inFlight > 0 then s.inFlight - 1 else 0)
  }

  predicate Start(s: State) {
    s == State(None, [], false, false, [], [], 0, [], 0, 0, 0, 0, 0, 0)
  }

  predicate IsRun(states: seq<State>, steps: seq<Step>, encode: seq<byte> -> seq<byte>) {
    && |states| == |steps| + 1 && Start(states[0])
    && forall i :: 0 <= i < |steps| ==> Next(states[i], steps[i], states[i + 1], encode)
  }

  /** The pipeline thread has been joined. */
  predicate Joined(s: State) {
    s.stopped && s.tokens == []
  }

  // ---- Order ----

  function PackedAll(frames: seq<Frame>, encode: seq<byte> -> seq<byte>): seq<Packet> {
    seq(|frames|, i requires 0 <= i < |frames| => Packed(frames[i], encode))
  }

  function FromTokens(tokens: seq<Token>, encode: seq<byte> -> seq<byte>): seq<Packet> {
    seq(|tokens|, i requires 0 <= i < |tokens| =>
      if tokens[i].Encoded? then tokens[i].packet else Packed(tokens[i].frame, encode))
  }

  function FromQueue(queue: seq<Item>, encode: seq<byte> -> seq<byte>): seq<Packet> {
    if queue == [] then [] else
    FromQueue(queue[..|queue| - 1], encode)
    + if queue[|queue| - 1].Queued? then [Packed(queue[|queue| - 1].frame, encode)] else []
  }

  /** What is written, in the pipeline and queued is, in this order, what was accepted. */
  predicate Conserved(s: State, encode: seq<byte> -> seq<byte>) {
    s.written + FromTokens(s.tokens, encode) + FromQueue(s.queue, encode) == PackedAll(s.accepted, encode)
  }

  /** The terminator is the last thing queued. */
  predicate Terminated(s: State) {
    && (s.closing ==> s.holding.None?)
    && (s.stopped ==> s.queue == [] && s.closing)
    && (forall i :: 0 <= i < |s.queue| && s.queue[i].Terminator? ==> i == |s.queue| - 1 && s.closing)
    && (s.closing && !s.stopped ==> s.queue != [] && s.queue[|s.queue| - 1].Terminator?)
  }

  lemma {:induction false} QueueHead(queue: seq<Item>, encode: seq<byte> -> seq<byte>)
    requires queue != []
    ensures FromQueue(queue, encode) ==
      (if queue[0].Queued? then [Packed(queue[0].frame, encode)] else []) + FromQueue(queue[1..], encode)
  {
    if |queue| > 1 {
      QueueHead(queue[..|queue| - 1], encode);
      assert queue[..|queue| - 1][1..] == queue[1..][..|queue| - 2];
    } else {
      assert queue[..0] == [] && queue[1..] == [];
    }
  }

  lemma PushConserves(s: State, u: State, encode: seq<byte> -> seq<byte>)
    requires Conserved(s, encode) && Next(s, Push, u, encode)
    ensures Conserved(u, encode)
  {
    assert u.queue[..|s.queue|] == s.queue;
    assert PackedAll(u.accepted, encode) == PackedAll(s.accepted, encode) + [Packed(s.holding.value, encode)];
  }

  lemma PopConserves(s: State, u: State, encode: seq<byte> -> seq<byte>)
    requires Conserved(s, encode) && Next(s, Pop, u, encode)
    ensures Conserved(u, encode)
  {
    var head, rest := [Packed(s.queue[0].frame, encode)], FromQueue(u.queue, encode);
    QueueHead(s.queue, encode);
    assert FromTokens(u.tokens, encode) == FromTokens(s.tokens, encode) + head;
    assert s.written + FromTokens(s.tokens, encode) + (head + rest) ==
      s.written + (FromTokens(s.tokens, encode) + head) + rest;
  }

  lemma WriteConserves(s: State, u: State, encode: seq<byte> -> seq<byte>)
    requires Conserved(s, encode) && Next(s, Write, u, encode)
    ensures Conserved(u, encode)
  {
    var head, rest := [s.tokens[0].packet], FromTokens(u.tokens, encode);
    assert FromTokens(s.tokens, encode) == head + rest;
    assert s.written + (head + rest) == (s.written + head) + rest;
  }

  lemma CloseConserves(s: State, u: State, encode: seq<byte> -> seq<byte>)
    requires Conserved(s, encode) && Next(s, Close, u, encode)
    ensures Conserved(u, encode)
  {
    assert u.queue[..|s.queue|] == s.queue;
  }

  lemma StopConserves(s: State, u: State, encode: seq<byte> -> seq<byte>)
    requires Conserved(s, encode) && Next(s, Stop, u, encode)
    ensures Conserved(u, encode)
  {
    QueueHead(s.queue, encode);
  }

  /** Taking a packet and encoding into it change no packet that will be written. */
  lemma EncodingConserves(s: State, step: Step, u: State, encode: seq<byte> -> seq<byte>)
    requires Conserved(s, encode) && (step.TakePacket? || step.Encode?) && Next(s, step, u, encode)
    ensures Conserved(u, encode)
  {
    assert FromTokens(u.tokens, encode) == FromTokens(s.tokens, encode);
  }

  lemma StepConserves(s: State, step: Step, u: State, encode: seq<byte> -> seq<byte>)
    requires Conserved(s, encode) && Next(s, step, u, encode)
    ensures Conserved(u, encode)
  {
    match step
    case Push => PushConserves(s, u, encode);
    case Pop => PopConserves(s, u, encode);
    case Write => WriteConserves(s, u, encode);
    case Close => CloseConserves(s, u, encode);
    case Stop => StopConserves(s, u, encode);
    case TakePacket(_) => EncodingConserves(s, step, u, encode);
    case Encode(_) => EncodingConserves(s, step, u, encode);
    case TakeBuffer(_) =>
    case Drop =>
  }

  lemma StepKeepsTerminator(s: State, step: Step, u: State, encode: seq<byte> -> seq<byte>)
    requires Terminated(s) && Next(s, step, u, encode)
    ensures Terminated(u)
  {
  }

  // ---- Counts ----

  function HoldingFrame(tokens: seq<Token>): nat {
    if tokens == [] then 0 else
    HoldingFrame(tokens[..|tokens| - 1]) + if tokens[|tokens| - 1].Encoded? then 0 else 1
  }

  function HoldingPacket(tokens: seq<Token>): nat {
    if tokens == [] then 0 else
    HoldingPacket(tokens[..|tokens| - 1]) + if tokens[|tokens| - 1].Popped? then 0 else 1
  }

  lemma {:induction false} TokenCounts(tokens: seq<Token>)
    ensures HoldingFrame(tokens) <= |tokens| && HoldingPacket(tokens) <= |tokens|
    ensures tokens != [] ==>
      && HoldingFrame(tokens) == HoldingFrame(tokens[1..]) + (if tokens[0].Encoded? then 0 else 1)
      && HoldingPacket(tokens) == HoldingPacket(tokens[1..]) + (if tokens[0].Popped? then 0 else 1)
  {
    if |tokens| > 1 {
      TokenCounts(tokens[..|tokens| - 1]);
      assert tokens[..|tokens| - 1][1..] == tokens[1..][..|tokens| - 2];
    }
  }

  lemma {:induction false} TokenUpdated(tokens: seq<Token>, i: nat, t: Token)
    requires i < |tokens|
    ensures HoldingFrame(tokens[i := t]) - HoldingFrame(tokens) ==
      (if t.Encoded? then 0 else 1) - (if tokens[i].Encoded? then 0 else 1)
    ensures HoldingPacket(tokens[i := t]) - HoldingPacket(tokens) ==
      (if t.Popped? then 0 else 1) - (if tokens[i].Popped? then 0 else 1)
  {
    var n := |tokens| - 1;
    if i < n {
      TokenUpdated(tokens[..n], i, t);
      assert tokens[i := t][..n] == tokens[..n][i := t];
    } else {
      assert tokens[i := t][..n] == tokens[..n];
    }
  }

  function QueuedFrames(s: State): int {
    |s.queue| - if s.closing && !s.stopped then 1 else 0
  }

  predicate FramesCounted(s: State) {
    && |s.queue| <= QUEUE_CAPACITY && |s.tokens| <= MAX_TOKENS && s.unusedFrames <= POOL_CAPACITY
    && s.appended == |s.accepted| + s.dropped + (if s.holding.Some? then 1 else 0)
    && s.frameBuffers == s.unusedFrames + (if s.holding.Some? then 1 else 0) + QueuedFrames(s) + HoldingFrame(s.tokens)
    && s.frameBuffers <= QUEUE_CAPACITY + MAX_TOKENS + 1
  }

  predicate PacketsCounted(s: State) {
    && |s.tokens| <= MAX_TOKENS && s.unusedPackets <= POOL_CAPACITY
    && s.inFlight == HoldingPacket(s.tokens)
    && s.packetBuffers == s.unusedPackets + s.inFlight
    && s.packetBuffers <= MAX_TOKENS
  }

  lemma TakeBufferCountsFrames(s: State, frame: Frame, u: State, encode: seq<byte> -> seq<byte>)
    requires FramesCounted(s) && Terminated(s) && Next(s, TakeBuffer(frame), u, encode)
    ensures FramesCounted(u)
  {
    TokenCounts(s.tokens);
  }

  lemma PushCountsFrames(s: State, u: State, encode: seq<byte> -> seq<byte>)
    requires FramesCounted(s) && Terminated(s) && Next(s, Push, u, encode)
    ensures FramesCounted(u)
  {
  }

  lemma DropCountsFrames(s: State, u: State, encode: seq<byte> -> seq<byte>)
    requires FramesCounted(s) && Terminated(s) && Next(s, Drop, u, encode)
    ensures FramesCounted(u)
  {
  }

  lemma CloseCountsFrames(s: State, u: State, encode: seq<byte> -> seq<byte>)
    requires FramesCounted(s) && Terminated(s) && Next(s, Close, u, encode)
    ensures FramesCounted(u)
  {
  }

  lemma PopCountsFrames(s: State, u: State, encode: seq<byte> -> seq<byte>)
    requires FramesCounted(s) && Terminated(s) && Next(s, Pop, u, encode)
    ensures FramesCounted(u)
  {
    assert u.tokens[..|s.tokens|] == s.tokens;
  }

  lemma StopCountsFrames(s: State, u: State, encode: seq<byte> -> seq<byte>)
    requires FramesCounted(s) && Terminated(s) && Next(s, Stop, u, encode)
    ensures FramesCounted(u)
  {
  }

  lemma TakePacketCountsFrames(s: State, i: nat, u: State, encode: seq<byte> -> seq<byte>)
    requires FramesCounted(s) && Terminated(s) && Next(s, TakePacket(i), u, encode)
    ensures FramesCounted(u)
  {
    TokenUpdated(s.tokens, i, u.tokens[i]);
  }

  lemma EncodeCountsFrames(s: State, i: nat, u: State, encode: seq<byte> -> seq<byte>)
    requires FramesCounted(s) && Terminated(s) && Next(s, Encode(i), u, encode)
    ensures FramesCounted(u)
  {
    TokenUpdated(s.tokens, i, u.tokens[i]);
  }

  lemma WriteCountsFrames(s: State, u: State, encode: seq<byte> -> seq<byte>)
    requires FramesCounted(s) && Terminated(s) && Next(s, Write, u, encode)
    ensures FramesCounted(u)
  {
    TokenCounts(s.tokens);
  }

  lemma StepCountsFrames(s: State, step: Step, u: State, encode: seq<byte> -> seq<byte>)
    requires FramesCounted(s) && Terminated(s) && Next(s, step, u, encode)
    ensures FramesCounted(u)
  {
    match step
    case TakeBuffer(frame) => TakeBufferCountsFrames(s, frame, u, encode);
    case Push => PushCountsFrames(s, u, encode);
    case Drop => DropCountsFrames(s, u, encode);
    case Close => CloseCountsFrames(s, u, encode);
    case Pop => PopCountsFrames(s, u, encode);
    case Stop => StopCountsFrames(s, u, encode);
    case TakePacket(i) => TakePacketCountsFrames(s, i, u, encode);
    case Encode(i) => EncodeCountsFrames(s, i, u, encode);
    case Write => WriteCountsFrames(s, u, encode);
  }

  lemma PopCountsPackets(s: State, u: State, encode: seq<byte> -> seq<byte>)
    requires PacketsCounted(s) && Next(s, Pop, u, encode)
    ensures PacketsCounted(u)
  {
    assert u.tokens[..|s.tokens|] == s.tokens;
  }

  lemma TakePacketCountsPackets(s: State, i: nat, u: State, encode: seq<byte> -> seq<byte>)
    requires PacketsCounted(s) && Next(s, TakePacket(i), u, encode)
    ensures PacketsCounted(u)
  {
    TokenUpdated(s.tokens, i, u.tokens[i]);
    TokenCounts(u.tokens);
  }

  lemma EncodeCountsPackets(s: State, i: nat, u: State, encode: seq<byte> -> seq<byte>)
    requires PacketsCounted(s) && Next(s, Encode(i), u, encode)
    ensures PacketsCounted(u)
  {
    TokenUpdated(s.tokens, i, u.tokens[i]);
  }

  lemma WriteCountsPackets(s: State, u: State, encode: seq<byte> -> seq<byte>)
    requires PacketsCounted(s) && Next(s, Write, u, encode)
    ensures PacketsCounted(u)
  {
    TokenCounts(s.tokens);
  }

  lemma StepCountsPackets(s: State, step: Step, u: State, encode: seq<byte> -> seq<byte>)
    requires PacketsCounted(s) && Next(s, step, u, encode)
    ensures PacketsCounted(u)
  {
    match step
    case Pop => PopCountsPackets(s, u, encode);
    case TakePacket(i) => TakePacketCountsPackets(s, i, u, encode);
    case Encode(i) => EncodeCountsPackets(s, i, u, encode);
    case Write => WriteCountsPackets(s, u, encode);
    case _ =>
  }

  lemma {:induction false} RunInvariant(states: seq<State>, steps: seq<Step>, encode: seq<byte> -> seq<byte>, i: nat)
    requires IsRun(states, steps, encode) && i < |states|
    ensures Conserved(states[i], encode) && Terminated(states[i])
    ensures FramesCounted(states[i]) && PacketsCounted(states[i])
  {
    if i > 0 {
      RunInvariant(states, steps, encode, i - 1);
      assert Next(states[i - 1], steps[i - 1], states[i], encode);
      StepConserves(states[i - 1], steps[i - 1], states[i], encode);
      StepKeepsTerminator(states[i - 1], steps[i - 1], states[i], encode);
      StepCountsFrames(states[i - 1], steps[i - 1], states[i], encode);
      StepCountsPackets(states[i - 1], steps[i - 1], states[i], encode);
    }
  }

  // ---- Over whole runs ----

  /** At any moment the written packets are a prefix, in order, of the accepted frames; once the
      pipeline is joined they are all of them, and every frame appended was written or dropped. */
  lemma WrittenInOrder(states: seq<State>, steps: seq<Step>, encode: seq<byte> -> seq<byte>, i: nat)
    requires IsRun(states, steps, encode) && i < |states|
    ensures var s := states[i];
      && s.written <= PackedAll(s.accepted, encode)
      && (Joined(s) ==> s.written == PackedAll(s.accepted, encode) && s.appended == |s.written| + s.dropped)
    ensures var s := states[i];
      |s.written| <= |s.accepted| && forall j :: 0 <= j < |s.written| ==>
        s.written[j].ts == s.accepted[j].ts && s.written[j].buf == encode(s.accepted[j].img)
  {
    RunInvariant(states, steps, encode, i);
    var s := states[i];
    forall j | 0 <= j < |s.written| ensures s.written[j] == PackedAll(s.accepted, encode)[j] {
    }
  }

  /** The frames appended, in order. */
  function Appended(steps: seq<Step>): seq<Frame> {
    if steps == [] then [] else
    Appended(steps[..|steps| - 1]) + if steps[|steps| - 1].TakeBuffer? then [steps[|steps| - 1].frame] else []
  }

  function Holding(s: State): seq<Frame> {
    if s.holding.Some? then [s.holding.value] else []
  }

  function AcceptedOrHeld(s: State): seq<Frame> {
    s.accepted + Holding(s)
  }

  lemma StepOfAccepted(s: State, step: Step, u: State, encode: seq<byte> -> seq<byte>)
    requires Next(s, step, u, encode)
    ensures step.Drop? ==> s.holding.Some? && AcceptedOrHeld(s) == AcceptedOrHeld(u) + [s.holding.value]
    ensures step.TakeBuffer? ==> AcceptedOrHeld(u) == AcceptedOrHeld(s) + [step.frame]
    ensures !step.Drop? && !step.TakeBuffer? ==> AcceptedOrHeld(u) == AcceptedOrHeld(s)
  {
    assert s.accepted + [] == s.accepted && u.accepted + [] == u.accepted;
  }

  /** A frame is dropped only at a moment when the queue is full, and then it alone. */
  lemma DroppedOnlyWhenFull(s: State, step: Step, u: State, encode: seq<byte> -> seq<byte>)
    requires Next(s, step, u, encode)
    ensures u.dropped != s.dropped ==> |s.queue| >= 300 && u.dropped == s.dropped + 1
    ensures u.dropped != s.dropped ==> s.holding.Some? && AcceptedOrHeld(s) == AcceptedOrHeld(u) + [s.holding.value]
    ensures u.dropped == s.dropped ==>
      AcceptedOrHeld(u) == AcceptedOrHeld(s) + if step.TakeBuffer? then [step.frame] else []
  {
    StepOfAccepted(s, step, u, encode);
    assert AcceptedOrHeld(s) + [] == AcceptedOrHeld(s);
  }

  /** If the queue is never full, every frame appended is accepted, in its order. */
  lemma {:induction false} NothingDropped(states: seq<State>, steps: seq<Step>, encode: seq<byte> -> seq<byte>, i: nat)
    requires IsRun(states, steps, encode) && i < |states|
    requires forall k :: 0 <= k < i ==> |states[k].queue| < 300
    ensures states[i].dropped == 0 && AcceptedOrHeld(states[i]) == Appended(steps[..i])
  {
    if i > 0 {
      NothingDropped(states, steps, encode, i - 1);
      assert Next(states[i - 1], steps[i - 1], states[i - 1 + 1], encode);
      DroppedOnlyWhenFull(states[i - 1], steps[i - 1], states[i], encode);
      assert steps[..i][..i - 1] == steps[..i - 1];
    }
  }

  /** What is dropped is all that is missing: the accepted frames are appended ones, in order. */
  ghost predicate IsSubsequence(a: seq<Frame>, b: seq<Frame>) {
    if a == [] then true
    else b != [] && ((a[|a| - 1] == b[|b| - 1] && IsSubsequence(a[..|a| - 1], b[..|b| - 1]))
                     || IsSubsequence(a, b[..|b| - 1]))
  }

  lemma SubsequenceSkips(a: seq<Frame>, b: seq<Frame>, f: Frame)
    requires IsSubsequence(a, b)
    ensures IsSubsequence(a, b + [f])
  {
    assert (b + [f])[..|b|] == b;
  }

  lemma SubsequenceTakes(a: seq<Frame>, b: seq<Frame>, f: Frame)
    requires IsSubsequence(a, b)
    ensures IsSubsequence(a + [f], b + [f])
  {
    assert (b + [f])[..|b|] == b && (a + [f])[..|a|] == a;
  }

  lemma {:induction false} SubsequenceFront(a: seq<Frame>, f: Frame, b: seq<Frame>)
    requires IsSubsequence(a + [f], b)
    ensures IsSubsequence(a, b)
    decreases |b|
  {
    var most := b[..|b| - 1];
    assert (a + [f])[..|a|] == a && b == most + [b[|b| - 1]];
    if !IsSubsequence(a, most) {
      SubsequenceFront(a, f, most);
    }
    SubsequenceSkips(a, most, b[|b| - 1]);
  }

  lemma StepAccepts(s: State, step: Step, u: State, encode: seq<byte> -> seq<byte>, before: seq<Frame>)
    requires Next(s, step, u, encode) && IsSubsequence(AcceptedOrHeld(s), before)
    ensures IsSubsequence(AcceptedOrHeld(u), before + if step.TakeBuffer? then [step.frame] else [])
  {
    StepOfAccepted(s, step, u, encode);
    if step.TakeBuffer? {
      SubsequenceTakes(AcceptedOrHeld(s), before, step.frame);
    } else {
      assert before + [] == before;
      if step.Drop? {
        SubsequenceFront(AcceptedOrHeld(u), s.holding.value, before);
      }
    }
  }

  lemma RunStepAccepts(states: seq<State>, steps: seq<Step>, encode: seq<byte> -> seq<byte>, i: nat, before: seq<Frame>)
    requires IsRun(states, steps, encode) && i < |steps|
    requires IsSubsequence(AcceptedOrHeld(states[i]), before)
    ensures IsSubsequence(AcceptedOrHeld(states[i + 1]),
              before + if steps[i].TakeBuffer? then [steps[i].frame] else [])
  {
    StepAccepts(states[i], steps[i], states[i + 1], encode, before);
  }

  /** In any run the accepted frames are some of those appended, in their order. */
  lemma {:induction false} AcceptedInOrder(states: seq<State>, steps: seq<Step>, encode: seq<byte> -> seq<byte>, i: nat)
    requires IsRun(states, steps, encode) && i < |states|
    ensures IsSubsequence(AcceptedOrHeld(states[i]), Appended(steps[..i]))
  {
    if i > 0 {
      AcceptedInOrder(states, steps, encode, i - 1);
      RunStepAccepts(states, steps, encode, i - 1, Appended(steps[..i - 1]));
      assert steps[..i][..i - 1] == steps[..i - 1];
    }
  }

  /** Buffers are bounded, and the usage figures reported for the two queues stay within 100. */
  lemma BuffersBounded(states: seq<State>, steps: seq<Step>, encode: seq<byte> -> seq<byte>, i: nat)
    requires IsRun(states, steps, encode) && i < |states|
    ensures var s := states[i];
      && s.frameBuffers <= QUEUE_CAPACITY + MAX_TOKENS + 1
      && s.packetBuffers <= MAX_TOKENS
      && |s.queue| * 100 / QUEUE_CAPACITY <= 100
      && s.inFlight * 100 / MAX_TOKENS <= 100
  {
    RunInvariant(states, steps, encode, i);
    TokenCounts(states[i].tokens);
  }

  /** From camera to reader: once a recording is closed, every frame that was accepted is read
      back from the file, decoded, at its own slot. */
  lemma EndToEnd(states: seq<State>, steps: seq<Step>, encode: seq<byte> -> seq<byte>, decode: seq<byte> -> seq<byte>,
                 n: nat, h: Header, framerate: int, i: nat)
    requires forall x :: decode(encode(x)) == x
    requires IsRun(states, steps, encode) && n < |states| && Joined(states[n])
    requires ValidHeader(h) && i < |states[n].accepted|
    ensures var packets := states[n].written;
      && i < |packets| && Position(framerate, packets, i) < |Slots(framerate, packets)|
      && var r := OneFrame(AvaFile(h, framerate, packets), Slots(framerate, packets), EndOffset(packets),
           Position(framerate, packets, i), true);
      && r.Ok? && decode(r.value) == states[n].accepted[i].img
  {
    WrittenInOrder(states, steps, encode, n);
    var packets := states[n].written;
    assert packets[i] == Packed(states[n].accepted[i], encode);
    OwnSlot(framerate, packets, i);
    PositionsAdvance(framerate, packets, i);
    SlotContents(framerate, packets, i, Position(framerate, packets, i));
    ReadsOwnersBytes(h, framerate, packets, i, Position(framerate, packets, i));
  }
}
