/**
 * The interaction state: a pause-aware clock and the camera parameters. Instants and
 * durations are nanosecond ticks; the caller passes the instant `Instant::now()` would read.
 */
module Camera {
  import opened Scalars

  /** Zoom is kept in thousandths: 1000 stands for 1.0. */
  const ZOOM_ONE: int := 1000

  /** The clock fields of `AppState`. */
  datatype Clock = Clock(startTime: nat, lastFrameTime: nat, pausedTime: nat)

  /** What `update` keeps: the clock started before the last frame, and no more time was paused than has passed. */
  ghost predicate ClockValid(c: Clock)
  {
    c.startTime <= c.lastFrameTime && c.pausedTime <= c.lastFrameTime - c.startTime
  }

  /** `Instant - Instant`, which saturates at zero when `earlier` is in fact later. */
  function InstantSub(later: nat, earlier: nat): (d: nat)
    ensures earlier <= later ==> earlier + d == later
    ensures later < earlier ==> d == 0
  {
    if earlier <= later then later - earlier else 0
  }

  /** `Duration - Duration`, which panics on underflow; `None` stands for the panic. */
  function DurationSub(a: nat, b: nat): (r: Option<nat>)
    ensures r.Some? <==> b <= a
    ensures r.Some? ==> r.value + b == a
  {
    if b <= a then Some(a - b) else None
  }

  /** `now - start_time - paused_time`: the time since start with every paused interval taken out. */
  function Elapsed(c: Clock, now: nat): (r: Option<nat>)
    ensures r.None? <==> InstantSub(now, c.startTime) < c.pausedTime
    ensures r.Some? && c.startTime <= now ==> c.startTime + c.pausedTime + r.value == now
    ensures now < c.startTime ==> r == (if c.pausedTime == 0 then Some(0) else None)
  {
    DurationSub(InstantSub(now, c.startTime), c.pausedTime)
  }

  /**
   * `AppState::update` at instant `now`: while paused, the time since the previous frame
   * is added to the paused total; the frame instant moves to `now`.
   */
  function Tick(c: Clock, paused: bool, now: nat): (r: Clock)
    ensures r.startTime == c.startTime && r.lastFrameTime == now
    ensures c.pausedTime <= r.pausedTime
    ensures !paused ==> r.pausedTime == c.pausedTime
    ensures ClockValid(c) && c.lastFrameTime <= now ==> ClockValid(r)
  {
    Clock(c.startTime, now, if paused then c.pausedTime + InstantSub(now, c.lastFrameTime) else c.pausedTime)
  }

  /** Given the invariant and a clock that does not run backwards, the subtraction never underflows. */
  lemma NoUnderflow(c: Clock, now: nat)
    requires ClockValid(c) && c.lastFrameTime <= now
    ensures Elapsed(c, now) == Some(now - c.startTime - c.pausedTime)
  {
  }

  /** While paused, the elapsed time read at the update instant is the one read at the previous frame. */
  lemma FrozenWhilePaused(c: Clock, now: nat)
    requires ClockValid(c) && c.lastFrameTime <= now
    ensures Elapsed(Tick(c, true, now), now) == Elapsed(c, c.lastFrameTime)
  {
  }

  /** While running, the elapsed time read at the update instant grows by exactly the time since the previous frame. */
  lemma AdvancesWhileRunning(c: Clock, now: nat)
    requires ClockValid(c) && c.lastFrameTime <= now
    ensures Elapsed(c, c.lastFrameTime).Some? && Elapsed(Tick(c, false, now), now).Some?
    ensures Elapsed(Tick(c, false, now), now).value == Elapsed(c, c.lastFrameTime).value + (now - c.lastFrameTime)
  {
  }

  /** One frame as the clock sees it: whether the pause flag was set, and the instant `update` read. */
  datatype FrameTick = FrameTick(paused: bool, now: nat)

  /** The instants of `frames` never go backwards, starting from `from`. */
  ghost predicate Monotone(from: nat, frames: seq<FrameTick>)
    decreases |frames|
  {
    frames == [] || (from <= frames[0].now && Monotone(frames[0].now, frames[1..]))
  }

  /** The clock after one `update` per frame. */
  function Run(c: Clock, frames: seq<FrameTick>): Clock
    decreases |frames|
  {
    if frames == [] then c else Run(Tick(c, frames[0].paused, frames[0].now), frames[1..])
  }

  /** Any run of updates on a monotone clock keeps the invariant and never reduces the paused total. */
  lemma {:induction false} RunKeepsClockValid(c: Clock, frames: seq<FrameTick>)
    requires ClockValid(c) && Monotone(c.lastFrameTime, frames)
    ensures ClockValid(Run(c, frames))
    ensures Run(c, frames).startTime == c.startTime
    ensures c.pausedTime <= Run(c, frames).pausedTime
    ensures c.lastFrameTime <= Run(c, frames).lastFrameTime
    decreases |frames|
  {
    if frames != [] {
      RunKeepsClockValid(Tick(c, frames[0].paused, frames[0].now), frames[1..]);
    }
  }

  /** The elapsed time read at each frame never decreases, whatever the pause flag does between frames. */
  lemma {:induction false} ElapsedNeverDecreases(c: Clock, frames: seq<FrameTick>)
    requires ClockValid(c) && Monotone(c.lastFrameTime, frames)
    ensures ClockValid(Run(c, frames))
    ensures Elapsed(c, c.lastFrameTime).Some? && Elapsed(Run(c, frames), Run(c, frames).lastFrameTime).Some?
    ensures Elapsed(c, c.lastFrameTime).value <= Elapsed(Run(c, frames), Run(c, frames).lastFrameTime).value
    decreases |frames|
  {
    RunKeepsClockValid(c, frames);
    if frames != [] {
      var next := Tick(c, frames[0].paused, frames[0].now);
      ElapsedNeverDecreases(next, frames[1..]);
    }
  }

  /** A run of frames all taken while paused leaves the elapsed time exactly where it was. */
  lemma {:induction false} PausedRunFreezes(c: Clock, frames: seq<FrameTick>)
    requires ClockValid(c) && Monotone(c.lastFrameTime, frames)
    requires forall k :: 0 <= k < |frames| ==> frames[k].paused
    ensures ClockValid(Run(c, frames))
    ensures Elapsed(Run(c, frames), Run(c, frames).lastFrameTime) == Elapsed(c, c.lastFrameTime)
    decreases |frames|
  {
    RunKeepsClockValid(c, frames);
    if frames != [] {
      FrozenWhilePaused(c, frames[0].now);
      PausedRunFreezes(Tick(c, true, frames[0].now), frames[1..]);
    }
  }

  /** The whole interaction state as a value: the pause flag, the clock and the camera. */
  datatype AppView = AppView(
    paused: bool,
    clock: Clock,
    zoom: int,
    zooming: bool,
    offset: (F32, F32),
    followMouse: bool,
    mouseClickPoint: (F64, F64),
    mousePos: (F64, F64))

  /** `AppState`. Zoom is in thousandths; offsets and mouse positions are raw floating-point bits. */
  class AppState {
    var paused: bool
    var startTime: nat
    var lastFrameTime: nat
    var pausedTime: nat
    var zoom: int
    var zooming: bool
    var offset: (F32, F32)
    var followMouse: bool
    var mouseClickPoint: (F64, F64)
    var mousePos: (F64, F64)

    /** The clock fields as one value. */
    function ClockNow(): Clock
      reads this
    {
      Clock(startTime, lastFrameTime, pausedTime)
    }

    ghost predicate Valid()
      reads this
    {
      ClockValid(ClockNow())
    }

    /** `AppState::new` at instant `now`. */
    constructor (now: nat)
      ensures Valid()
      ensures !paused && pausedTime == 0 && startTime == now && lastFrameTime == now
      ensures zoom == ZOOM_ONE && !zooming && offset == (F32_ZERO, F32_ZERO) && !followMouse
      ensures mouseClickPoint == (F64_ZERO, F64_ZERO) && mousePos == (F64_ZERO, F64_ZERO)
    {
      paused := false;
      startTime := now;
      lastFrameTime := now;
      pausedTime := 0;
      zoom := ZOOM_ONE;
      zooming := false;
      offset := (F32_ZERO, F32_ZERO);
      followMouse := false;
      mouseClickPoint := (F64_ZERO, F64_ZERO);
      mousePos := (F64_ZERO, F64_ZERO);
    }

    /** Every field of the interaction state as one value. */
    function View(): AppView
      reads this
    {
      AppView(paused, ClockNow(), zoom, zooming, offset, followMouse, mouseClickPoint, mousePos)
    }

    /**
     * `AppState::update` at instant `now` (the platform clock is monotonic): only
     * `paused_time` and `last_frame_time` change, as `Tick` says.
     */
    method Update(now: nat)
      requires Valid() && lastFrameTime <= now
      modifies this
      ensures Valid()
      ensures ClockNow() == Tick(old(ClockNow()), old(paused), now)
      ensures View() == old(View()).(clock := Tick(old(ClockNow()), old(paused), now))
    {
      if paused {
        pausedTime := pausedTime + (now - lastFrameTime);
      }
      lastFrameTime := now;
    }

    /** `AppState::elapsed_time` at instant `now`, with the value it evidently means to return. */
    function ElapsedTime(now: nat): (r: Option<nat>)
      reads this
      ensures Valid() && lastFrameTime <= now ==> r == Some(now - startTime - pausedTime)
    {
      Elapsed(ClockNow(), now)
    }
  }

  /**
   * `elapsed_time` as written: its body ends with a `let` binding, so it yields `()` and
   * the computed time never reaches the caller.
   */
  function ElapsedTimeAsWritten(c: Clock, now: nat): ()
  {
    var _ := Elapsed(c, now);
    ()
  }

  /** Two reads one second apart differ in the intended elapsed time but not in what the code as written yields. */
  lemma ElapsedTimeAsWrittenLosesTheTime()
    ensures var c := Clock(0, 0, 0);
      && ElapsedTimeAsWritten(c, NANOS_PER_SEC) == ElapsedTimeAsWritten(c, 2 * NANOS_PER_SEC)
      && Elapsed(c, NANOS_PER_SEC) != Elapsed(c, 2 * NANOS_PER_SEC)
  {
  }
}
