/**
 * The older single-object design of `src/app.rs`: one `State` owning surface, quad and
 * start instant (no pause, no zoom), and the `App` that receives the window system's
 * callbacks, creates the window and the state once, and dispatches window events.
 */
module LegacyApp {
  import opened Scalars
  import opened Gpu
  import opened Geometry
  import opened Surface
  import Camera

  /** The slot the older draw binds the uniforms to. */
  const UNIFORM_SLOT: nat := 0

  /**
   * The calls the older `State::draw` makes after asking for a frame: the time since
   * start goes into the uniforms and to the device, then one pass clearing to green that
   * draws `indexCount` indices once, then submit, then present.
   */
  function LegacyFrameCommands(acquisition: Acquisition, elapsed: nat, indexCount: nat): (r: seq<Command>)
    ensures acquisition.Failed? <==> r == []
    ensures acquisition.Acquired? ==> r[0] == SetUniformTime(elapsed) && r[|r| - 1] == Present(acquisition.frame)
  {
    match acquisition
    case Failed(_) => []
    case Acquired(frame) =>
      [ SetUniformTime(elapsed), WriteUniformsToGpu,
        BeginRenderPass(Green), SetPipeline, SetBindGroup(UNIFORM_SLOT), SetVertexBuffer(0),
        SetIndexBuffer(Uint16), DrawIndexed(0, indexCount, 0, 0, 1), EndRenderPass,
        Submit, Present(frame) ]
  }

  /** A frame that could not be acquired costs no uniform write, no pass, no submit and no present. */
  lemma LegacyFailedFrameDoesNothing(error: SurfaceError, elapsed: nat, indexCount: nat)
    ensures LegacyFrameCommands(Failed(error), elapsed, indexCount) == []
  {
  }

  /**
   * An acquired frame writes the uniforms first, then opens exactly one pass, then
   * submits exactly once, then presents exactly once; the single indexed draw inside the
   * pass covers `indexCount` indices and one instance.
   */
  lemma LegacyFrameOrder(frame: nat, elapsed: nat, indexCount: nat)
    ensures var log := LegacyFrameCommands(Acquired(frame), elapsed, indexCount);
      && OnlyAt(log, (c: Command) => c.SetUniformTime?, 0)
      && OnlyAt(log, (c: Command) => c.WriteUniformsToGpu?, 1)
      && OnlyAt(log, (c: Command) => c.BeginRenderPass?, 2)
      && OnlyAt(log, (c: Command) => c.DrawIndexed?, 7)
      && OnlyAt(log, (c: Command) => c.EndRenderPass?, 8)
      && OnlyAt(log, (c: Command) => c.Submit?, 9)
      && OnlyAt(log, (c: Command) => c.Present?, 10)
      && log[7].endIndex - log[7].firstIndex == indexCount
      && log[7].endInstance - log[7].firstInstance == 1
  {
  }

  /** What can be observed of one older `State`. */
  datatype StateView = StateView(config: SurfaceConfiguration, log: seq<Command>, startTime: nat, indexCount: nat)

  /** The older `State` after `resize(size)`. */
  function ResizedView(s: StateView, size: PhysicalSize): (r: StateView)
    ensures r.startTime == s.startTime && r.indexCount == s.indexCount
    ensures r.config.(width := s.config.width, height := s.config.height) == s.config
    ensures s.log <= r.log
    ensures Drawable(size) ==> r.config.width == size.width && r.config.height == size.height
    ensures Drawable(size) ==> r.log == s.log + [ConfigureSurface(r.config)]
    ensures !Drawable(size) ==> r == s
  {
    var config := Surface.Resized(s.config, size);
    s.(config := config, log := s.log + if Drawable(size) then [ConfigureSurface(config)] else [])
  }

  /** The older `State` after `draw` at instant `now`. */
  function DrawnView(s: StateView, now: nat, acquisition: Acquisition): (r: StateView)
    ensures r.config == s.config && r.startTime == s.startTime && r.indexCount == s.indexCount
    ensures s.log <= r.log
    ensures acquisition.Failed? <==> r == s
  {
    s.(log := s.log + LegacyFrameCommands(acquisition, Camera.InstantSub(now, s.startTime), s.indexCount))
  }

  /** The older `State` just made by `State::new` at instant `now`: one configure call, the quad's index count. */
  function FreshStateView(size: PhysicalSize, caps: SurfaceCapabilities, now: nat): StateView
    requires |caps.formats| > 0 && |caps.presentModes| > 0 && |caps.alphaModes| > 0
  {
    var config := InitialConfiguration(size, caps);
    StateView(config, [ConfigureSurface(config)], now, |INDICES|)
  }

  /** The older `State`. */
  class State {
    const device: Device
    var config: SurfaceConfiguration
    const quad: Quad
    const startTime: nat
    ghost const capabilities: SurfaceCapabilities

    ghost predicate Valid()
      reads this
    {
      Negotiated(config, capabilities) && quad == NewQuad()
    }

    function View(): StateView
      reads this, device
    {
      StateView(config, device.log, startTime, quad.indexCount)
    }

    /**
     * The older `State::new` at instant `now` for a window of `size` whose surface reports
     * `caps`: the quad, the configuration from the first capabilities, one configure call.
     */
    constructor (size: PhysicalSize, caps: SurfaceCapabilities, now: nat)
      requires |caps.formats| > 0 && |caps.presentModes| > 0 && |caps.alphaModes| > 0
      ensures Valid() && fresh(device)
      ensures View() == FreshStateView(size, caps, now)
    {
      var d := new Device();
      var c := InitialConfiguration(size, caps);
      d.log := [ConfigureSurface(c)];
      device := d;
      quad := NewQuad();
      config := c;
      startTime := now;
      capabilities := caps;
    }

    /** The older `State::resize`: both dimensions positive, or nothing happens. */
    method Resize(newSize: PhysicalSize)
      requires Valid()
      modifies this, device
      ensures Valid()
      ensures View() == ResizedView(old(View()), newSize)
    {
      if newSize.width > 0 && newSize.height > 0 {
        config := config.(width := newSize.width, height := newSize.height);
        device.log := device.log + [ConfigureSurface(config)];
      }
    }

    /**
     * The older `State::draw` at instant `now`: with no frame it returns before touching the
     * uniforms; otherwise it follows `LegacyFrameCommands`.
     */
    method Draw(now: nat, acquisition: Acquisition)
      requires Valid()
      modifies device
      ensures View() == DrawnView(old(View()), now, acquisition)
    {
      var frame;
      match acquisition {
        case Failed(_) => return;
        case Acquired(f) => frame := f;
      }
      var elapsed := Camera.InstantSub(now, startTime);
      device.log := device.log + [SetUniformTime(elapsed), WriteUniformsToGpu];
      device.log := device.log + [BeginRenderPass(Green)];
      device.log := device.log + [SetPipeline, SetBindGroup(UNIFORM_SLOT)];
      device.log := device.log + [SetVertexBuffer(0), SetIndexBuffer(Uint16)];
      device.log := device.log + [DrawIndexed(0, quad.indexCount, 0, 0, 1)];
      device.log := device.log + [EndRenderPass];
      device.log := device.log + [Submit];
      device.log := device.log + [Present(frame)];
    }
  }

  type WindowId = nat

  /** The window events `App` distinguishes; every other event falls under `OtherEvent`. */
  datatype WindowEvent = CloseRequested | Resized(size: PhysicalSize) | RedrawRequested | OtherEvent

  /** How `window_event` ended: it acted, it ignored another window's event, or it panicked unwrapping a missing window. */
  datatype Dispatch = Handled | OtherWindow | Panicked

  /** What can be observed of `App`: its window, its state, the redraws it asked for, and whether it asked to exit. */
  datatype AppView = AppView(window: Option<WindowId>, state: Option<StateView>, redrawRequests: nat, exitRequested: bool)

  /** `App::resumed`: a window and a state are made only the first time. */
  function Resume(v: AppView, id: WindowId, size: PhysicalSize, caps: SurfaceCapabilities, now: nat): (r: AppView)
    requires v.window.None? ==> |caps.formats| > 0 && |caps.presentModes| > 0 && |caps.alphaModes| > 0
    ensures r.window.Some? && r.exitRequested == v.exitRequested
    ensures v.window.Some? ==> r == v
    ensures v.window.None? ==> r.window == Some(id) && r.redrawRequests == v.redrawRequests + 1
    ensures v.window.None? ==> r.state == Some(FreshStateView(size, caps, now))
    ensures v.window.None? ==> Negotiated(r.state.value.config, caps) && r.state.value.indexCount == |INDICES|
                               && r.state.value.log == [ConfigureSurface(r.state.value.config)]
  {
    if v.window.Some? then v
    else
      v.(window := Some(id),
         state := Some(FreshStateView(size, caps, now)),
         redrawRequests := v.redrawRequests + 1)
  }

  /** `App::window_event` for event `e` from window `id`, at instant `now`. */
  function HandleEvent(v: AppView, id: WindowId, e: WindowEvent, now: nat, acquisition: Acquisition): (r: (Dispatch, AppView))
    ensures r.0 == Panicked <==> v.window.None?
    ensures r.0 == OtherWindow <==> v.window.Some? && id != v.window.value
    ensures r.0 != Handled ==> r.1 == v
    ensures r.1.window == v.window
    ensures r.1.exitRequested <==> v.exitRequested || (r.0 == Handled && e.CloseRequested?)
    ensures r.1.state.Some? <==> v.state.Some?
    ensures r.1.redrawRequests
         == v.redrawRequests + (if r.0 == Handled && v.state.Some? && (e.Resized? || e.RedrawRequested?) then 1 else 0)
    ensures r.0 == Handled && v.state.Some? && e.Resized? ==> r.1.state == Some(ResizedView(v.state.value, e.size))
    ensures r.0 == Handled && v.state.Some? && e.RedrawRequested? ==> r.1.state == Some(DrawnView(v.state.value, now, acquisition))
    ensures r.0 == Handled && (e.CloseRequested? || e.OtherEvent?) ==> r.1.state == v.state
  {
    if v.window.None? then (Panicked, v)
    else if id != v.window.value then (OtherWindow, v)
    else
      match e
      case CloseRequested => (Handled, v.(exitRequested := true))
      case Resized(size) =>
        if v.state.Some? then (Handled, v.(state := Some(ResizedView(v.state.value, size)), redrawRequests := v.redrawRequests + 1))
        else (Handled, v)
      case RedrawRequested =>
        if v.state.Some? then (Handled, v.(state := Some(DrawnView(v.state.value, now, acquisition)), redrawRequests := v.redrawRequests + 1))
        else (Handled, v)
      case OtherEvent => (Handled, v)
  }

  /** A second `resumed`, whatever it is given, changes nothing. */
  lemma ResumeOnlyOnce(v: AppView, id: WindowId, size: PhysicalSize, caps: SurfaceCapabilities, now: nat,
                       id': WindowId, size': PhysicalSize, caps': SurfaceCapabilities, now': nat)
    requires v.window.None? ==> |caps.formats| > 0 && |caps.presentModes| > 0 && |caps.alphaModes| > 0
    ensures Resume(v, id, size, caps, now).window.Some?
    ensures Resume(Resume(v, id, size, caps, now), id', size', caps', now') == Resume(v, id, size, caps, now)
  {
  }

  /** Events from any other window leave everything as it was. */
  lemma OtherWindowIgnored(v: AppView, id: WindowId, e: WindowEvent, now: nat, acquisition: Acquisition)
    requires v.window.Some? && id != v.window.value
    ensures HandleEvent(v, id, e, now, acquisition) == (OtherWindow, v)
  {
  }

  /** Without a state, resize and redraw events change nothing. */
  lemma NoStateNoEffect(v: AppView, size: PhysicalSize, now: nat, acquisition: Acquisition)
    requires v.window.Some? && v.state.None?
    ensures HandleEvent(v, v.window.value, Resized(size), now, acquisition) == (Handled, v)
    ensures HandleEvent(v, v.window.value, RedrawRequested, now, acquisition) == (Handled, v)
  {
  }

  /** A redraw with a state draws once and always asks for the next redraw, whether or not a frame was acquired. */
  lemma RedrawKeepsLoopGoing(v: AppView, now: nat, acquisition: Acquisition)
    requires v.window.Some? && v.state.Some?
    ensures var (d, w) := HandleEvent(v, v.window.value, RedrawRequested, now, acquisition);
      && d == Handled && w.redrawRequests == v.redrawRequests + 1
      && w.state == Some(DrawnView(v.state.value, now, acquisition))
      && w.window == v.window && w.exitRequested == v.exitRequested
  {
  }

  /** A resize with a state resizes it and asks for a redraw; window and exit flag stay as they were. */
  lemma ResizeReachesState(v: AppView, size: PhysicalSize, now: nat, acquisition: Acquisition)
    requires v.window.Some? && v.state.Some?
    ensures var (d, w) := HandleEvent(v, v.window.value, Resized(size), now, acquisition);
      && d == Handled && w.redrawRequests == v.redrawRequests + 1
      && w.state == Some(ResizedView(v.state.value, size))
      && w.window == v.window && w.exitRequested == v.exitRequested
  {
  }

  /** `App`, which starts out with neither window nor state (`#[derive(Default)]`). */
  class App {
    var window: Option<WindowId>
    var state: Option<State>
    var redrawRequests: nat
    var exitRequested: bool

    function StateObjects(): set<object>
      reads this
    {
      if state.Some? then {state.value, state.value.device} else {}
    }

    ghost predicate Valid()
      reads this, StateObjects()
    {
      state.Some? ==> window.Some? && state.value.Valid()
    }

    function View(): AppView
      reads this, StateObjects()
    {
      AppView(window, if state.Some? then Some(state.value.View()) else None, redrawRequests, exitRequested)
    }

    constructor ()
      ensures Valid()
      ensures View() == AppView(None, None, 0, false)
    {
      window := None;
      state := None;
      redrawRequests := 0;
      exitRequested := false;
    }

    /**
     * `App::resumed`: the window system supplies the new window's id and size, the surface's
     * capabilities and the instant; they are used only when there is no window yet.
     */
    method Resumed(id: WindowId, size: PhysicalSize, caps: SurfaceCapabilities, now: nat)
      requires Valid()
      requires window.None? ==> |caps.formats| > 0 && |caps.presentModes| > 0 && |caps.alphaModes| > 0
      modifies this
      ensures Valid()
      ensures View() == Resume(old(View()), id, size, caps, now)
      ensures old(window).Some? ==> state == old(state)
      ensures old(window).None? ==> state.Some? && fresh(state.value) && fresh(state.value.device)
    {
      if window.None? {
        window := Some(id);
        var s := new State(size, caps, now);
        state := Some(s);
        redrawRequests := redrawRequests + 1;
      }
    }

    /** `App::window_event` for event `e` from window `id`, at instant `now`. */
    method WindowEvent(id: WindowId, e: WindowEvent, now: nat, acquisition: Acquisition) returns (d: Dispatch)
      requires Valid()
      modifies this, StateObjects()
      ensures Valid()
      ensures state == old(state)
      ensures (d, View()) == HandleEvent(old(View()), id, e, now, acquisition)
    {
      if window.None? {
        return Panicked;
      }
      if id != window.value {
        return OtherWindow;
      }
      d := Handled;
      match e {
        case CloseRequested =>
          exitRequested := true;
        case Resized(size) =>
          if state.Some? {
            state.value.Resize(size);
            redrawRequests := redrawRequests + 1;
          }
        case RedrawRequested =>
          if state.Some? {
            state.value.Draw(now, acquisition);
            redrawRequests := redrawRequests + 1;
          }
        case OtherEvent =>
      }
    }
  }
}
