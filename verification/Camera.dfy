/** A camera's recording: the hold, the wait for a gap in the frames, the timeout, appending to
    the recorders, and stopping by itself after a number of frames. */
module Camera {
  import opened Wrappers

  const TRIGGER_GAP: real := 0.2
  const TRIGGER_TIMEOUT: real := 3.0

  /** An image and its time since the first image. */
  datatype Frame = Frame(image: int, ts: real)

  datatype Event =
    | Image(frame: Frame, dt: real)
    | RemoveHold
    | SoftwareTrigger

  /** One recorder: what was appended to it. */
  datatype Recorder = Recorder(frames: seq<Frame>, closed: bool)

  datatype State = State(
    recording: bool, waiting: bool, hold: bool, timedOut: bool,
    remaining: int, delay: real,
    recorders: seq<Recorder>, last: seq<seq<Frame>>)

  function Append(r: Recorder, f: Frame): Recorder {
    if r.closed then r else r.(frames := r.frames + [f])
  }

  function AppendAll(recorders: seq<Recorder>, f: Frame): (r: seq<Recorder>)
    ensures |r| == |recorders|
  {
    seq(|recorders|, i requires 0 <= i < |recorders| => Append(recorders[i], f))
  }

  function Recorded(recorders: seq<Recorder>): seq<seq<Frame>> {
    seq(|recorders|, i requires 0 <= i < |recorders| => recorders[i].frames)
  }

  function Started(s: State, waitForTrigger: bool, frames: int): State {
    if s.recording then s else
    State(true, waitForTrigger, true, false, frames, TRIGGER_TIMEOUT,
      s.recorders + [Recorder([], false), Recorder([], false)], [])
  }

  function Stopped(s: State): State {
    if !s.recording then s.(last := []) else
    s.(recording := false, waiting := false, hold := false, recorders := [], last := Recorded(s.recorders))
  }

  /** Looking for the trigger in one frame. */
  function Sought(s: State, dt: real): State {
    if !s.waiting || s.hold then s else
    var delay := s.delay - dt;
    s.(delay := delay, waiting := dt <= TRIGGER_GAP && delay >= 0.0, timedOut := s.timedOut || delay < 0.0)
  }

  function GotImage(s: State, f: Frame, dt: real): State {
    if !s.recording || s.recorders == [] then s else
    var sought := Sought(s, dt);
    var appended := if sought.waiting then sought else sought.(recorders := AppendAll(sought.recorders, f));
    if s.remaining > 0 && |appended.recorders[0].frames| >= s.remaining then Stopped(appended) else appended
  }

  function Step(s: State, e: Event): State {
    match e
    case Image(f, dt) => GotImage(s, f, dt)
    case RemoveHold => s.(hold := false)
    case SoftwareTrigger => s.(hold := false, waiting := false)
  }

  function Run(s: State, events: seq<Event>): State {
    if events == [] then s else Step(Run(s, events[..|events| - 1]), events[|events| - 1])
  }

  class CameraDevice {
    var recording: bool
    var waitingForTrigger: bool
    var waitingForTriggerHold: bool
    var closingRecorders: bool
    var gotTriggerTimeout: bool
    var framesRemaining: int
    var waitingDelay: real
    var recorders: seq<Recorder>
    var lastSummary: seq<seq<Frame>>
    var imageCounter: nat
    var startTs: real
    var lastTs: real

    constructor ()
      ensures View() == State(false, false, false, false, 0, 0.0, [], []) && imageCounter == 0 && Valid()
    {
      recording, waitingForTrigger, waitingForTriggerHold := false, false, false;
      closingRecorders, gotTriggerTimeout := false, false;
      framesRemaining, waitingDelay, recorders, lastSummary := 0, 0.0, [], [];
      imageCounter, startTs, lastTs := 0, 0.0, 0.0;
    }

    function View(): State
      reads this
    {
      State(recording, waitingForTrigger, waitingForTriggerHold, gotTriggerTimeout, framesRemaining, waitingDelay,
        recorders, lastSummary)
    }

    predicate Valid()
      reads this
    {
      recording ==> !closingRecorders
    }

    method StartRecording(waitForTrigger: bool, frames: int)
      requires Valid()
      modifies this
      ensures Valid() && View() == Started(old(View()), waitForTrigger, frames)
      ensures old(recording) ==> View() == old(View())
      ensures !old(recording) ==>
        && recording && waitingForTriggerHold && waitingForTrigger == waitForTrigger && !gotTriggerTimeout
        && framesRemaining == frames && waitingDelay == TRIGGER_TIMEOUT && lastSummary == []
        && recorders == old(recorders) + [Recorder([], false), Recorder([], false)]
      ensures imageCounter == old(imageCounter) && startTs == old(startTs) && lastTs == old(lastTs)
    {
      if !recording {
        lastSummary := [];
        framesRemaining := frames;
        recorders := recorders + [Recorder([], false)];
        recorders := recorders + [Recorder([], false)];
        gotTriggerTimeout := false;
        closingRecorders := false;
        recording := true;
        waitingDelay := TRIGGER_TIMEOUT;
        waitingForTriggerHold := true;
        waitingForTrigger := waitForTrigger;
      }
    }

    method StopRecording()
      modifies this
      ensures Valid() && View() == Stopped(old(View()))
      ensures !recording && (!old(recording) ==> lastSummary == [])
      ensures old(recording) ==>
        && !waitingForTrigger && !waitingForTriggerHold && recorders == []
        && |lastSummary| == |old(recorders)|
        && forall i :: 0 <= i < |lastSummary| ==> lastSummary[i] == old(recorders)[i].frames
      ensures imageCounter == old(imageCounter) && startTs == old(startTs) && lastTs == old(lastTs)
    {
      lastSummary := [];
      if recording {
        closingRecorders := true;
        var summary: seq<seq<Frame>> := [];
        var i := 0;
        while i < |recorders|
          invariant 0 <= i <= |recorders| == |old(recorders)|
          invariant forall k :: 0 <= k < |recorders| ==> recorders[k].frames == old(recorders)[k].frames
          modifies this`recorders
        {
          recorders := recorders[i := recorders[i].(closed := true)];
          i := i + 1;
        }
        lastSummary := Recorded(recorders);
        assert lastSummary == Recorded(old(recorders));
        recorders := [];
        recording := false;
        waitingForTrigger := false;
        waitingForTriggerHold := false;
      }
    }

    method RemoveRecordingHold()
      requires Valid()
      modifies this`waitingForTriggerHold
      ensures Valid() && View() == Step(old(View()), RemoveHold) && !waitingForTriggerHold
    {
      waitingForTriggerHold := false;
    }

    method TriggerBySoftware()
      requires Valid()
      modifies this`waitingForTriggerHold, this`waitingForTrigger
      ensures Valid() && View() == Step(old(View()), SoftwareTrigger)
      ensures !waitingForTriggerHold && !waitingForTrigger
    {
      waitingForTriggerHold := false;
      waitingForTrigger := false;
    }

    method AppendToRecorders(f: Frame)
      modifies this`recorders
      ensures recorders == AppendAll(old(recorders), f)
    {
      var i := 0;
      while i < |recorders|
        invariant 0 <= i <= |recorders| == |old(recorders)|
        invariant forall k :: 0 <= k < i ==> recorders[k] == Append(old(recorders)[k], f)
        invariant forall k :: i <= k < |recorders| ==> recorders[k] == old(recorders)[k]
      {
        recorders := recorders[i := Append(recorders[i], f)];
        i := i + 1;
      }
    }

    method SeekTrigger(dt: real)
      modifies this`waitingForTrigger, this`waitingDelay, this`gotTriggerTimeout
      ensures View() == Sought(old(View()), dt)
    {
      if waitingForTrigger && !waitingForTriggerHold {
        if dt > TRIGGER_GAP {
          waitingForTrigger := false;
        }
        waitingDelay := waitingDelay - dt;
        if waitingDelay < 0.0 {
          gotTriggerTimeout := true;
          waitingForTrigger := false;
        }
      }
    }

    /** The recording part of got_image. */
    method RecordImage(f: Frame, dt: real)
      requires Valid()
      modifies this
      ensures Valid() && View() == GotImage(old(View()), f, dt)
      ensures imageCounter == old(imageCounter) && startTs == old(startTs) && lastTs == old(lastTs)
    {
      if recording && recorders != [] {
        SeekTrigger(dt);
        if !waitingForTrigger && !closingRecorders {
          AppendToRecorders(f);
        }
        if framesRemaining > 0 && |recorders[0].frames| >= framesRemaining {
          StopRecording();
        }
      }
    }

    /** clock is the time used when the camera gives none. */
    method OnImage(image: int, ts: real, clock: real)
      requires Valid()
      modifies this
      ensures Valid() && imageCounter == old(imageCounter) + 1
      ensures startTs == if old(imageCounter) == 0 then (if ts > 0.0 then ts else clock) else old(startTs)
      ensures lastTs == (if ts > 0.0 then ts else clock) - startTs
      ensures View() == Step(old(View()),
        Image(Frame(image, lastTs), lastTs - if old(imageCounter) == 0 then 0.0 else old(lastTs)))
    {
      var timestamp := if ts > 0.0 then ts else clock;
      if imageCounter == 0 {
        startTs := timestamp;
        lastTs := 0.0;
      }
      timestamp := timestamp - startTs;
      var dt := timestamp - lastTs;
      lastTs := timestamp;
      RecordImage(Frame(image, timestamp), dt);
      imageCounter := imageCounter + 1;
    }
  }

  // ---- Which frames are recorded, said without the machine ----

  function Frames(events: seq<Event>): seq<Frame> {
    if events == [] then [] else
    Frames(events[..|events| - 1]) + if events[|events| - 1].Image? then [events[|events| - 1].frame] else []
  }

  /** Frame time since the hold was removed. */
  function Waited(events: seq<Event>): real {
    if events == [] then 0.0 else
    var most := events[..|events| - 1];
    Waited(most) + if events[|events| - 1].Image? && RemoveHold in most then events[|events| - 1].dt else 0.0
  }

  /** Event j is an image that begins the recording: no trigger was asked for, or one came by
      software, or the hold is gone and either this frame follows a gap or the frame time waited
      exceeds the timeout. */
  predicate Begins(wait: bool, events: seq<Event>, j: nat)
    requires j < |events|
  {
    var before, e := events[..j], events[j];
    && e.Image?
    && (!wait || SoftwareTrigger in before
        || (RemoveHold in before && (e.dt > TRIGGER_GAP || Waited(before) + e.dt > TRIGGER_TIMEOUT)))
  }

  /** The first image that begins the recording. */
  ghost predicate FirstAt(wait: bool, events: seq<Event>, k: nat) {
    && k < |events| && Begins(wait, events, k)
    && forall j :: 0 <= j < k ==> !Begins(wait, events, j)
  }

  ghost predicate NotYet(wait: bool, events: seq<Event>) {
    forall j :: 0 <= j < |events| ==> !Begins(wait, events, j)
  }

  lemma BeginsEarlier(wait: bool, most: seq<Event>, events: seq<Event>)
    requires most <= events
    ensures forall j :: 0 <= j < |most| ==> (Begins(wait, most, j) <==> Begins(wait, events, j))
  {
    forall j | 0 <= j < |most| ensures Begins(wait, most, j) <==> Begins(wait, events, j) {
      assert most[..j] == events[..j];
    }
  }

  function Twice(frames: seq<Frame>): seq<Recorder> {
    [Recorder(frames, false), Recorder(frames, false)]
  }

  ghost predicate StillWaiting(s: State, wait: bool, n: int, events: seq<Event>) {
    && s.recording && s.recorders == Twice([]) && s.remaining == n
    && s.waiting == (wait && SoftwareTrigger !in events)
    && s.hold == (RemoveHold !in events && SoftwareTrigger !in events)
    && (s.waiting ==> s.delay == TRIGGER_TIMEOUT - Waited(events))
  }

  /** frames is everything delivered since the recording began. */
  ghost predicate Taken(s: State, n: int, frames: seq<Frame>) {
    if n > 0 && |frames| >= n then !s.recording && s.last == [frames[..n], frames[..n]] && s.recorders == []
    else s.recording && !s.waiting && s.recorders == Twice(frames) && s.remaining == n
  }

  lemma {:induction false} WaitingInvariant(s: State, wait: bool, n: int, events: seq<Event>)
    requires !s.recording && s.recorders == [] && NotYet(wait, events)
    ensures StillWaiting(Run(Started(s, wait, n), events), wait, n, events)
  {
    if events != [] {
      var most, e := events[..|events| - 1], events[|events| - 1];
      BeginsEarlier(wait, most, events);
      WaitingInvariant(s, wait, n, most);
      assert !Begins(wait, events, |most|);
      assert forall x :: x in events <==> x in most || x == e;
    }
  }

  lemma FirstImage(s: State, wait: bool, n: int, events: seq<Event>, k: nat)
    requires k == |events| - 1 && Begins(wait, events, k) && StillWaiting(s, wait, n, events[..k])
    ensures Taken(Step(s, events[k]), n, [events[k].frame])
  {
    var f, dt := events[k].frame, events[k].dt;
    assert !Sought(s, dt).waiting;
    assert Append(Recorder([], false), f) == Recorder([f], false);
    assert AppendAll(Twice([]), f) == Twice([f]);
    if n == 1 {
      assert [f][..n] == [f];
      assert Recorded(Twice([f])) == [[f], [f]];
    }
  }

  lemma NextEvent(s: State, n: int, frames: seq<Frame>, e: Event)
    requires frames != [] && Taken(s, n, frames)
    ensures Taken(Step(s, e), n, frames + if e.Image? then [e.frame] else [])
  {
    if e.Image? {
      var more := frames + [e.frame];
      if n > 0 && |frames| >= n {
        assert more[..n] == frames[..n];
      } else {
        assert AppendAll(Twice(frames), e.frame) == Twice(more);
        if n > 0 && |more| >= n {
          assert more[..n] == more;
          assert Recorded(Twice(more)) == [more, more];
        }
      }
    } else {
      assert frames + [] == frames;
    }
  }

  /** For every sequence of frames, hold removals and software triggers after a start, nothing is
      recorded before the frame that begins the recording; from it on every frame delivered is
      recorded, by both recorders alike, until the requested number is reached, and then the
      recording stops by itself with exactly that many. */
  lemma {:induction false} RecordingTrace(s: State, wait: bool, n: int, events: seq<Event>, k: nat)
    requires !s.recording && s.recorders == [] && FirstAt(wait, events, k)
    ensures Taken(Run(Started(s, wait, n), events), n, Frames(events[k..]))
    decreases |events|
  {
    var most, e := events[..|events| - 1], events[|events| - 1];
    BeginsEarlier(wait, most, events);
    if k == |events| - 1 {
      WaitingInvariant(s, wait, n, most);
      FirstImage(Run(Started(s, wait, n), most), wait, n, events, k);
      assert events[k..] == [e] && [e][..0] == [] && Frames([e]) == [] + [e.frame] == [e.frame];
    } else {
      RecordingTrace(s, wait, n, most, k);
      assert events[k..][..|events| - 1 - k] == most[k..];
      FramesNotEmpty(most[k..]);
      NextEvent(Run(Started(s, wait, n), most), n, Frames(most[k..]), e);
    }
  }

  lemma {:induction false} FramesNotEmpty(events: seq<Event>)
    requires events != [] && events[0].Image?
    ensures Frames(events) != []
  {
    if |events| > 1 {
      FramesNotEmpty(events[..|events| - 1]);
    }
  }

  /** Until then the camera records nothing and keeps both recorders empty and open. */
  lemma NothingBeforeTrigger(s: State, wait: bool, n: int, events: seq<Event>)
    requires !s.recording && s.recorders == [] && NotYet(wait, events)
    ensures var u := Run(Started(s, wait, n), events); u.recording && Recorded(u.recorders) == [[], []]
  {
    WaitingInvariant(s, wait, n, events);
  }

  // ---- Stopping, and how the wait ended ----

  /** A recording that is stopped by hand keeps everything since it began, in both summaries. */
  lemma StoppedByHand(s: State, wait: bool, n: int, events: seq<Event>, k: nat)
    requires !s.recording && s.recorders == [] && FirstAt(wait, events, k)
    requires n <= 0 || |Frames(events[k..])| < n
    ensures var frames := Frames(events[k..]); Stopped(Run(Started(s, wait, n), events)).last == [frames, frames]
  {
    RecordingTrace(s, wait, n, events, k);
    assert Recorded(Twice(Frames(events[k..]))) == [Frames(events[k..]), Frames(events[k..])];
  }

  /** The frame that begins the recording does so because the wait was over. */
  predicate TimesOut(wait: bool, events: seq<Event>, k: nat)
    requires k < |events|
  {
    var before, e := events[..k], events[k];
    wait && SoftwareTrigger !in before && RemoveHold in before && e.Image? && Waited(before) + e.dt > TRIGGER_TIMEOUT
  }

  lemma TimeoutAtFirst(s: State, wait: bool, n: int, events: seq<Event>, k: nat)
    requires !s.recording && s.recorders == [] && FirstAt(wait, events, k) && k == |events| - 1
    ensures Run(Started(s, wait, n), events).timedOut <==> TimesOut(wait, events, k)
  {
    var most := events[..k];
    BeginsEarlier(wait, most, events);
    WaitingInvariant(s, wait, n, most);
    NoTimeoutYet(s, wait, n, most);
  }

  lemma {:induction false} NoTimeoutYet(s: State, wait: bool, n: int, events: seq<Event>)
    requires !s.recording && s.recorders == [] && NotYet(wait, events)
    ensures !Run(Started(s, wait, n), events).timedOut
  {
    if events != [] {
      var most := events[..|events| - 1];
      BeginsEarlier(wait, most, events);
      WaitingInvariant(s, wait, n, most);
      NoTimeoutYet(s, wait, n, most);
      assert !Begins(wait, events, |most|);
    }
  }

  /** The timeout is reported if and only if it is what began the recording. */
  lemma {:induction false} TimeoutIff(s: State, wait: bool, n: int, events: seq<Event>, k: nat)
    requires !s.recording && s.recorders == [] && FirstAt(wait, events, k)
    ensures Run(Started(s, wait, n), events).timedOut <==> TimesOut(wait, events, k)
    decreases |events|
  {
    if k == |events| - 1 {
      TimeoutAtFirst(s, wait, n, events, k);
    } else {
      var most := events[..|events| - 1];
      BeginsEarlier(wait, most, events);
      TimeoutIff(s, wait, n, most, k);
      RecordingTrace(s, wait, n, most, k);
      assert most[..k] == events[..k];
    }
  }
}
