/**
 * The per-frame advance: `State` owns the surface manager, the interaction state and the
 * uniform channel, and each redraw advances the clock, steps the zoom, pushes the new
 * payload and only then tries to render.
 */
module Frame {
  import opened Scalars
  import opened Gpu
  import opened UniformChannel
  import opened Camera
  import opened Surface

  /** Zoom steps in thousandths: +0.005 per frame while zooming, -0.05 per frame otherwise. */
  const ZOOM_IN_STEP: int := 5
  const ZOOM_DECAY: int := 50

  /** The zoom one frame later: up by a step while zooming, otherwise down by the decay but never below 1.0. */
  function ZoomStep(zoom: int, zooming: bool): (z: int)
    ensures zooming ==> z - zoom == ZOOM_IN_STEP
    ensures !zooming && zoom - ZOOM_DECAY >= ZOOM_ONE ==> z == zoom - ZOOM_DECAY
    ensures !zooming && zoom - ZOOM_DECAY < ZOOM_ONE ==> z == ZOOM_ONE
    ensures zoom >= ZOOM_ONE ==> z >= ZOOM_ONE
  {
    if zooming then zoom + ZOOM_IN_STEP else if zoom - ZOOM_DECAY > ZOOM_ONE then zoom - ZOOM_DECAY else ZOOM_ONE
  }

  /** The zoom after one frame per flag in `zooming`, in order. */
  function ZoomAfter(zoom: int, zooming: seq<bool>): int
    decreases |zooming|
  {
    if zooming == [] then zoom else ZoomAfter(ZoomStep(zoom, zooming[0]), zooming[1..])
  }

  /** However the zoom-in flag is held and released, the zoom never falls below 1.0 once it starts there. */
  lemma {:induction false} ZoomFloorHolds(zoom: int, zooming: seq<bool>)
    requires zoom >= ZOOM_ONE
    ensures ZoomAfter(zoom, zooming) >= ZOOM_ONE
    decreases |zooming|
  {
    if zooming != [] {
      ZoomFloorHolds(ZoomStep(zoom, zooming[0]), zooming[1..]);
    }
  }

  /** `n` frames without zooming. */
  function Decay(zoom: int, n: nat): int
  {
    ZoomAfter(zoom, seq(n, _ => false))
  }

  /** After `n` frames without zooming the zoom is `max(zoom - n * 0.05, 1.0)`. */
  lemma {:induction false} DecayClosedForm(zoom: int, n: nat)
    requires zoom >= ZOOM_ONE
    ensures Decay(zoom, n) == if zoom - n * ZOOM_DECAY > ZOOM_ONE then zoom - n * ZOOM_DECAY else ZOOM_ONE
    decreases n
  {
    if n > 0 {
      var next := ZoomStep(zoom, false);
      assert seq(n, _ => false)[1..] == seq(n - 1, _ => false);
      assert Decay(zoom, n) == Decay(next, n - 1);
      DecayClosedForm(next, n - 1);
    }
  }

  /** The number of frames without zooming it takes to come back to 1.0: `ceil((zoom - 1.0) / 0.05)`. */
  function FramesToSettle(zoom: int): nat
    requires zoom >= ZOOM_ONE
  {
    (zoom - ZOOM_ONE + ZOOM_DECAY - 1) / ZOOM_DECAY
  }

  /**
   * From any zoom at least 1.0, exactly `FramesToSettle(zoom)` frames without zooming bring
   * it to 1.0: every earlier frame is still above, and every later frame stays at 1.0.
   */
  lemma SettlesAtFloor(zoom: int, n: nat)
    requires zoom >= ZOOM_ONE
    ensures n < FramesToSettle(zoom) ==> Decay(zoom, n) > ZOOM_ONE
    ensures n >= FramesToSettle(zoom) ==> Decay(zoom, n) == ZOOM_ONE
  {
    DecayClosedForm(zoom, n);
  }

  /** Zooming in for `d` frames from 1.0 and then letting go for `d` frames returns the zoom to 1.0. */
  lemma {:induction false} HoldThenRelease(d: nat)
    ensures ZoomAfter(ZOOM_ONE, seq(d, _ => true) + seq(d, _ => false)) == ZOOM_ONE
  {
    ZoomInRun(ZOOM_ONE, d);
    ZoomAfterConcat(ZOOM_ONE, seq(d, _ => true), seq(d, _ => false));
    DecayClosedForm(ZOOM_ONE + d * ZOOM_IN_STEP, d);
  }

  /** Ten frames zooming in from 1.0 reach 1.05; thirty frames without zooming then bring it back to 1.0. */
  lemma TenInThirtyOut()
    ensures ZoomAfter(ZOOM_ONE, seq(10, _ => true)) == 1050
    ensures ZoomAfter(ZOOM_ONE, seq(10, _ => true) + seq(30, _ => false)) == ZOOM_ONE
  {
    ZoomInRun(ZOOM_ONE, 10);
    ZoomAfterConcat(ZOOM_ONE, seq(10, _ => true), seq(30, _ => false));
    DecayClosedForm(1050, 30);
  }

  lemma {:induction false} ZoomInRun(zoom: int, n: nat)
    ensures ZoomAfter(zoom, seq(n, _ => true)) == zoom + n * ZOOM_IN_STEP
    decreases n
  {
    if n > 0 {
      assert seq(n, _ => true)[1..] == seq(n - 1, _ => true);
      ZoomInRun(zoom + ZOOM_IN_STEP, n - 1);
    }
  }

  lemma {:induction false} ZoomAfterConcat(zoom: int, a: seq<bool>, b: seq<bool>)
    ensures ZoomAfter(zoom, a + b) == ZoomAfter(ZoomAfter(zoom, a), b)
    decreases |a|
  {
    if a != [] {
      assert (a + b)[1..] == a[1..] + b;
      ZoomAfterConcat(ZoomStep(zoom, a[0]), a[1..], b);
    } else {
      assert a + b == b;
    }
  }

  /** What the first half of `State::draw` does to the interaction state: the clock update at `now`, then the zoom step. */
  function Advance(v: AppView, now: nat): (r: AppView)
    ensures r.paused == v.paused && r.zooming == v.zooming && r.offset == v.offset
    ensures r.followMouse == v.followMouse && r.mouseClickPoint == v.mouseClickPoint && r.mousePos == v.mousePos
    ensures ClockValid(v.clock) && v.clock.lastFrameTime <= now ==> ClockValid(r.clock) && r.clock.lastFrameTime == now
    ensures v.zoom >= ZOOM_ONE ==> r.zoom >= ZOOM_ONE
  {
    v.(clock := Tick(v.clock, v.paused, now), zoom := ZoomStep(v.zoom, v.zooming))
  }

  /**
   * The elapsed time `State::draw` puts into the payload: the clock is updated at `now`
   * and read again at `later`, with the same paused total.
   */
  function DrawnTime(v: AppView, now: nat, later: nat): (r: Option<nat>)
    ensures ClockValid(v.clock) && v.clock.lastFrameTime <= now <= later ==>
      r == Some(later - v.clock.startTime - Advance(v, now).clock.pausedTime)
  {
    NoUnderflowWhenValid(v, now, later);
    Elapsed(Advance(v, now).clock, later)
  }

  lemma NoUnderflowWhenValid(v: AppView, now: nat, later: nat)
    ensures ClockValid(v.clock) && v.clock.lastFrameTime <= now <= later ==>
      Elapsed(Advance(v, now).clock, later) == Some(later - v.clock.startTime - Advance(v, now).clock.pausedTime)
  {
    if ClockValid(v.clock) && v.clock.lastFrameTime <= now <= later {
      NoUnderflow(Advance(v, now).clock, later);
    }
  }

  /** The elapsed time a draw would put into the payload if it read the clock at the instant it updated it. */
  function UpdateInstantTime(v: AppView, now: nat): Option<nat>
  {
    DrawnTime(v, now, now)
  }

  /** The payload time is the update-instant time plus the gap between the two clock reads, and no less. */
  lemma DrawnTimeSplit(v: AppView, now: nat, later: nat)
    requires ClockValid(v.clock) && v.clock.lastFrameTime <= now <= later
    ensures DrawnTime(v, now, later).Some? && UpdateInstantTime(v, now).Some?
    ensures DrawnTime(v, now, later).value == UpdateInstantTime(v, now).value + (later - now)
  {
  }

  /**
   * Two draws while paused, from a clock that started at 0 and last ticked at 10: the first
   * updates at 10 and reads at 15, the second updates at 20 and reads at 20. The payload
   * time goes from 15 back to 10, although the clock was paused throughout.
   */
  lemma PausedPayloadTimeGoesBack()
    ensures var v := AppView(true, Clock(0, 10, 0), ZOOM_ONE, false, (F32_ZERO, F32_ZERO), false,
                             (F64_ZERO, F64_ZERO), (F64_ZERO, F64_ZERO));
      && ClockValid(v.clock)
      && DrawnTime(v, 10, 15) == Some(15)
      && DrawnTime(Advance(v, 10), 20, 20) == Some(10)
  {
  }

  /**
   * Reading the clock at the update instant instead, the next draw never puts a smaller
   * time into the payload, and while paused it puts the same time.
   */
  lemma UpdateInstantTimeNeverGoesBack(v: AppView, now: nat, next: nat)
    requires ClockValid(v.clock) && v.clock.lastFrameTime <= now <= next
    ensures UpdateInstantTime(v, now).Some? && UpdateInstantTime(Advance(v, now), next).Some?
    ensures UpdateInstantTime(v, now).value <= UpdateInstantTime(Advance(v, now), next).value
    ensures v.paused ==> UpdateInstantTime(Advance(v, now), next) == UpdateInstantTime(v, now)
  {
    var c := Advance(v, now).clock;
    if v.paused {
      FrozenWhilePaused(c, next);
    } else {
      AdvancesWhileRunning(c, next);
    }
  }

  /** Zoom in thousandths as the real number it stands for. */
  function ZoomValue(zoom: int): real
  {
    zoom as real / ZOOM_ONE as real
  }

  /** `State`: the surface manager, the interaction state and the uniform channel. */
  class State {
    const renderState: RenderState
    const appState: AppState
    const uniforms: Uniforms

    ghost predicate Valid()
      reads this, renderState, appState, uniforms, uniforms.buffer
    {
      && renderState.Valid()
      && appState.Valid()
      && uniforms.Valid()
      && appState.zoom >= ZOOM_ONE
    }

    /** `State::new`: a surface manager for the window, fresh interaction state started at `now`, the default payload. */
    constructor (size: PhysicalSize, caps: SurfaceCapabilities, now: nat)
      requires |caps.formats| > 0 && |caps.presentModes| > 0 && |caps.alphaModes| > 0
      ensures Valid() && uniforms.Valid()
      ensures fresh(renderState) && fresh(renderState.device) && fresh(appState) && fresh(uniforms) && fresh(uniforms.buffer)
      ensures renderState.config == InitialConfiguration(size, caps)
      ensures renderState.device.log == [ConfigureSurface(renderState.config)]
      ensures appState.ClockNow() == Clock(now, now, 0) && !appState.paused
      ensures appState.zoom == ZOOM_ONE && !appState.zooming && appState.offset == (F32_ZERO, F32_ZERO)
      ensures uniforms.data == DefaultData()
    {
      renderState := new RenderState(size, caps);
      appState := new AppState(now);
      uniforms := new Uniforms();
    }

    /** `State::resize`: the size goes to the surface manager unchanged. */
    method Resize(newSize: PhysicalSize)
      requires Valid()
      modifies renderState, renderState.device
      ensures Valid()
      ensures renderState.config == Resized(old(renderState.config), newSize)
      ensures renderState.device.log
           == old(renderState.device.log) + (if Drawable(newSize) then [ConfigureSurface(renderState.config)] else [])
    {
      renderState.Resize(newSize);
    }

    /**
     * The first half of `State::draw`: the clock update at `now`, then the zoom step.
     * Nothing else in the interaction state changes.
     */
    method AdvanceCamera(now: nat)
      requires Valid()
      requires appState.lastFrameTime <= now
      modifies appState
      ensures Valid()
      ensures appState.View() == Advance(old(appState.View()), now)
    {
      appState.Update(now);

      if appState.zooming {
        appState.zoom := appState.zoom + ZOOM_IN_STEP;
      } else {
        appState.zoom := if appState.zoom - ZOOM_DECAY > ZOOM_ONE then appState.zoom - ZOOM_DECAY else ZOOM_ONE;
      }
    }

    /**
     * The middle of `State::draw`: the elapsed time read at `later`, the zoom and the offset
     * go into the payload, whose bytes are written to the device.
     */
    method PushPayload(later: nat, toF32: real -> F32)
      requires Valid()
      requires appState.lastFrameTime <= later
      modifies uniforms, uniforms.buffer, renderState.device
      ensures Valid()
      ensures appState.ElapsedTime(later) == Some(later - appState.startTime - appState.pausedTime)
      ensures uniforms.data == UniformData(toF32(Seconds(later - appState.startTime - appState.pausedTime)),
                                           toF32(ZoomValue(appState.zoom)), appState.offset)
      ensures uniforms.Valid()
      ensures renderState.device.log == old(renderState.device.log) + [WriteBuffer(0, Pack(uniforms.data))]
    {
      NoUnderflow(appState.ClockNow(), later);
      var elapsed := appState.ElapsedTime(later);
      uniforms.Update(renderState.device, toF32(Seconds(elapsed.value)), toF32(ZoomValue(appState.zoom)), appState.offset);
    }

    /**
     * `State::draw`. The clock is updated at instant `now` and read again at `later`;
     * `toF32` is the rounding of a real number to `f32`, which is not part of this model.
     * Clock and zoom advance first, whatever the surface does; the payload carries the
     * pause-adjusted elapsed time, the new zoom and the unchanged offset and is written
     * to the device before the frame is attempted.
     */
    method Draw(now: nat, later: nat, acquisition: Acquisition, toF32: real -> F32)
      requires Valid()
      requires appState.lastFrameTime <= now <= later
      modifies appState, uniforms, uniforms.buffer, renderState.device
      ensures Valid() && uniforms.Valid()
      ensures appState.View() == Advance(old(appState.View()), now)
      ensures appState.ElapsedTime(later) == Some(later - appState.startTime - appState.pausedTime)
              == DrawnTime(old(appState.View()), now, later)
      ensures uniforms.data == UniformData(toF32(Seconds(later - appState.startTime - appState.pausedTime)),
                                           toF32(ZoomValue(appState.zoom)), appState.offset)
      ensures renderState.device.log
           == old(renderState.device.log) + [WriteBuffer(0, Pack(uniforms.data))]
              + FrameCommands(uniforms.bindGroup, acquisition)
    {
      ghost var before := appState.View();
      AdvanceCamera(now);
      assert appState.ElapsedTime(later) == DrawnTime(before, now, later);
      PushPayload(later, toF32);
      ghost var written := renderState.device.log;
      renderState.Draw(uniforms.bindGroup, acquisition);
      assert renderState.device.log == written + FrameCommands(uniforms.bindGroup, acquisition);
    }
  }
}
