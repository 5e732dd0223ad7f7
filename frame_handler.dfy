/** The per-frame handler that the camera manager invokes on its capture
    thread: it takes the latest image from the reader (or nothing), runs the
    conversion, colour conversion, edge detection, read-back and texture
    upload inside a try block, counts the frame in a one-second window, and
    closes the image in the finally block. */
module FramePipeline {
  import opened Wrappers
  import opened Nv21Packer

  /** The steps of the try block that can throw, in the order they run. */
  datatype Stage =
    | Convert       // imageToMat
    | ColorConvert  // Mat() and cvtColor to RGBA
    | EdgeDetect    // the native Canny call and wrapping its result
    | Readback      // allocating the direct buffer and copying the result into it
    | Upload        // handing the buffer to the renderer
    | Cleanup       // releasing the three matrices, after the frame is counted

  /** How the try block ended: normally, or with an exception at a step. */
  datatype Outcome = Ok | Fail(stage: Stage)

  /** Length of the frame-rate window, in milliseconds. */
  const FpsWindowMillis := 1000

  /** The two fields the handler keeps for the frame-rate window. */
  datatype FpsWindow = FpsWindow(frameCount: int, lastFpsTime: int)

  /** Counting one frame at `currentTime`: the counter goes up by one, and
      when a full window has elapsed since `lastFpsTime` the window restarts
      at `currentTime` with the counter back at zero. */
  function Tick(w: FpsWindow, currentTime: int): (r: FpsWindow)
    ensures currentTime - w.lastFpsTime >= FpsWindowMillis ==> r == FpsWindow(0, currentTime)
    ensures currentTime - w.lastFpsTime < FpsWindowMillis ==>
              r == FpsWindow(w.frameCount + 1, w.lastFpsTime)
    ensures w.frameCount >= 0 ==> r.frameCount >= 0
    ensures w.lastFpsTime <= currentTime ==>
              r.lastFpsTime <= currentTime < r.lastFpsTime + FpsWindowMillis
  {
    var counted := w.frameCount + 1;
    if currentTime - w.lastFpsTime >= FpsWindowMillis then FpsWindow(0, currentTime)
    else FpsWindow(counted, w.lastFpsTime)
  }

  /** The window after counting frames at the given times, in order. */
  function Run(w: FpsWindow, times: seq<int>): FpsWindow
    decreases |times|
  {
    if |times| == 0 then w
    else Tick(Run(w, times[..|times| - 1]), times[|times| - 1])
  }

  /** On a clock that does not go backwards, the counter of a window started
      at `start` holds the number of frames counted since the frame that last
      restarted it (or since the start), and all of those frames fall inside
      the current one-second window. */
  lemma {:induction false} RunWindow(start: int, times: seq<int>)
    requires forall j :: 0 <= j < |times| ==> start <= times[j]
    requires forall i, j :: 0 <= i < j < |times| ==> times[i] <= times[j]
    ensures var w := Run(FpsWindow(0, start), times);
      && 0 <= w.frameCount <= |times|
      && (w.frameCount == |times| ==> w.lastFpsTime == start)
      && (w.frameCount < |times| ==> times[|times| - w.frameCount - 1] == w.lastFpsTime)
      && forall j :: |times| - w.frameCount <= j < |times| ==>
           w.lastFpsTime <= times[j] < w.lastFpsTime + FpsWindowMillis
    decreases |times|
  {
    if |times| > 0 {
      var n := |times|;
      RunWindow(start, times[..n - 1]);
      var before := Run(FpsWindow(0, start), times[..n - 1]);
      assert before.lastFpsTime <= times[n - 1] by {
        if before.frameCount < n - 1 {
          assert times[..n - 1][n - 1 - before.frameCount - 1] == before.lastFpsTime;
        }
      }
      var w := Run(FpsWindow(0, start), times);
      forall j | n - w.frameCount <= j < n
        ensures w.lastFpsTime <= times[j] < w.lastFpsTime + FpsWindowMillis
      {
        if j < n - 1 {
          assert times[..n - 1][j] == times[j];
        }
      }
    }
  }

  /** What the try block does with one image when the first foreign step to
      throw is `failAt` (none when every step succeeds). */
  function FrameOutcome(image: Image, failAt: Option<Stage>): Outcome
  {
    if !Convertible(image) then Fail(Convert)
    else match failAt
      case None => Ok
      case Some(stage) => Fail(stage)
  }

  /** The try block got as far as the frame counter. */
  predicate ReachesCounter(o: Outcome)
  {
    o == Ok || o == Fail(Cleanup)
  }

  /** The handler's observable state: its two window fields and how many
      images it has acquired and closed. */
  datatype HandlerState = HandlerState(window: FpsWindow, acquired: nat, closes: nat)

  /** One invocation: what `acquireLatestImage` returned, the first foreign
      step that throws, and the clock reading at the counter. */
  datatype FrameEvent = FrameEvent(latest: Option<Image>, failAt: Option<Stage>, currentTime: int)

  /** The invocation counts a frame in the window. */
  predicate Counted(e: FrameEvent)
  {
    e.latest.Some? && ReachesCounter(FrameOutcome(e.latest.value, e.failAt))
  }

  /** One invocation of the handler: with no image nothing happens; with an
      image, the image is acquired and closed exactly once whatever the
      outcome, and the window is ticked only if the counter was reached. */
  function Handle(s: HandlerState, e: FrameEvent): (r: HandlerState)
    ensures e.latest.None? ==> r == s
    ensures e.latest.Some? ==> r.acquired == s.acquired + 1 && r.closes == s.closes + 1
    ensures Counted(e) ==> r.window == Tick(s.window, e.currentTime)
    ensures !Counted(e) ==> r.window == s.window
  {
    match e.latest
    case None => s
    case Some(image) =>
      var window := if Counted(e) then Tick(s.window, e.currentTime) else s.window;
      HandlerState(window, s.acquired + 1, s.closes + 1)
  }

  /** The handler after a sequence of invocations. */
  function HandleAll(s: HandlerState, events: seq<FrameEvent>): HandlerState
    decreases |events|
  {
    if |events| == 0 then s
    else Handle(HandleAll(s, events[..|events| - 1]), events[|events| - 1])
  }

  /** Number of invocations that got an image. */
  function Acquisitions(events: seq<FrameEvent>): nat
    decreases |events|
  {
    if |events| == 0 then 0
    else Acquisitions(events[..|events| - 1]) + (if events[|events| - 1].latest.Some? then 1 else 0)
  }

  /** Clock readings of the invocations that counted a frame, in order. */
  function CountedTimes(events: seq<FrameEvent>): seq<int>
    decreases |events|
  {
    if |events| == 0 then []
    else
      var e := events[|events| - 1];
      CountedTimes(events[..|events| - 1]) + (if Counted(e) then [e.currentTime] else [])
  }

  /** Over any sequence of invocations, every acquired image is closed once:
      N images give N closes, however many of them failed. */
  lemma {:induction false} HandleAllCloses(s: HandlerState, events: seq<FrameEvent>)
    ensures HandleAll(s, events).acquired == s.acquired + Acquisitions(events)
    ensures HandleAll(s, events).closes == s.closes + Acquisitions(events)
    decreases |events|
  {
    if |events| > 0 {
      HandleAllCloses(s, events[..|events| - 1]);
    }
  }

  /** Over any sequence of invocations, the window is the one obtained by
      counting only the frames that reached the counter; failed frames leave
      no trace in it. */
  lemma {:induction false} HandleAllWindow(s: HandlerState, events: seq<FrameEvent>)
    ensures HandleAll(s, events).window == Run(s.window, CountedTimes(events))
    decreases |events|
  {
    if |events| > 0 {
      var n := |events|;
      HandleAllWindow(s, events[..n - 1]);
      var times := CountedTimes(events);
      var earlier := CountedTimes(events[..n - 1]);
      if Counted(events[n - 1]) {
        assert times[..|times| - 1] == earlier;
      } else {
        assert times == earlier;
      }
    }
  }

  /** From the handler's initial state, on a clock that does not go
      backwards, the counter holds the counted frames since the window last
      restarted, and all of them fall inside the current one-second window.
      Every acquired image has been closed. */
  lemma HandlerWindow(startTime: int, events: seq<FrameEvent>)
    requires forall j :: 0 <= j < |CountedTimes(events)| ==> startTime <= CountedTimes(events)[j]
    requires forall i, j :: 0 <= i < j < |CountedTimes(events)| ==>
               CountedTimes(events)[i] <= CountedTimes(events)[j]
    ensures var s, times := HandleAll(HandlerState(FpsWindow(0, startTime), 0, 0), events), CountedTimes(events);
      && s.closes == s.acquired == Acquisitions(events)
      && 0 <= s.window.frameCount <= |times|
      && (s.window.frameCount == |times| ==> s.window.lastFpsTime == startTime)
      && (s.window.frameCount < |times| ==> times[|times| - s.window.frameCount - 1] == s.window.lastFpsTime)
      && forall j :: |times| - s.window.frameCount <= j < |times| ==>
           s.window.lastFpsTime <= times[j] < s.window.lastFpsTime + FpsWindowMillis
  {
    var s0 := HandlerState(FpsWindow(0, startTime), 0, 0);
    HandleAllCloses(s0, events);
    HandleAllWindow(s0, events);
    RunWindow(startTime, CountedTimes(events));
  }

  /** The activity's frame handler: the two window fields the source keeps,
      and ghost counters of the images it has acquired and closed. */
  class FrameHandler {
    var frameCount: int
    var lastFpsTime: int
    ghost var acquired: nat
    ghost var closes: nat

    ghost function State(): HandlerState
      reads this
    {
      HandlerState(FpsWindow(frameCount, lastFpsTime), acquired, closes)
    }

    /** Every acquired image has been closed, and the counter is never negative. */
    ghost predicate Valid()
      reads this
    {
      closes == acquired && frameCount >= 0
    }

    /** The fields' initialisers: no frames counted, the window starting at
        the clock reading taken when the activity is created. */
    constructor (startTime: int)
      ensures Valid()
      ensures State() == HandlerState(FpsWindow(0, startTime), 0, 0)
    {
      frameCount := 0;
      lastFpsTime := startTime;
      acquired := 0;
      closes := 0;
    }

    /** The try block: each step either completes or throws, and a throw
        ends the block with that step as the outcome; the window is updated
        only once every step before the counter has completed. */
    method ProcessFrame(image: Image, failAt: Option<Stage>, currentTime: int)
      returns (outcome: Outcome)
      modifies this`frameCount, this`lastFpsTime
      ensures outcome == FrameOutcome(image, failAt)
      ensures ReachesCounter(outcome) ==>
                FpsWindow(frameCount, lastFpsTime)
                == Tick(FpsWindow(old(frameCount), old(lastFpsTime)), currentTime)
      ensures !ReachesCounter(outcome) ==>
                frameCount == old(frameCount) && lastFpsTime == old(lastFpsTime)
    {
      var yuvMat := ImageToMat(image);
      if yuvMat.Failure? {
        return Fail(Convert);
      }
      // An exception from one of the foreign steps before the counter.
      if failAt.Some? && failAt.value != Cleanup {
        return Fail(failAt.value);
      }
      frameCount := frameCount + 1;
      if currentTime - lastFpsTime >= FpsWindowMillis {
        frameCount := 0;
        lastFpsTime := currentTime;
      }
      if failAt == Some(Cleanup) {
        return Fail(Cleanup);
      }
      return Ok;
    }

    /** `Image.close()`, recorded in the ghost counter. */
    method CloseImage()
      modifies this`closes
      ensures closes == old(closes) + 1
    {
      closes := closes + 1;
    }

    /** One invocation of the handler. With an image, the try block runs,
        an exception is caught and reported as the outcome, and the finally
        block closes the image; without one, nothing happens. */
    method OnFrameAvailable(latest: Option<Image>, failAt: Option<Stage>, currentTime: int)
      returns (reported: Option<Outcome>)
      requires Valid()
      modifies this
      ensures Valid()
      ensures State() == Handle(old(State()), FrameEvent(latest, failAt, currentTime))
      ensures reported == if latest.None? then None else Some(FrameOutcome(latest.value, failAt))
    {
      match latest
      case None =>
        reported := None;
      case Some(image) =>
        acquired := acquired + 1;
        var outcome := ProcessFrame(image, failAt, currentTime);
        CloseImage();
        reported := Some(outcome);
    }
  }
}
