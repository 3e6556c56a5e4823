/**
 * The surface manager: the swap-chain configuration negotiated at start-up, resizing, and
 * the per-frame protocol acquire, one render pass, submit, present.
 */
module Surface {
  import opened Scalars
  import opened Gpu

  /** Both dimensions of `size` are positive: the only sizes a resize takes. */
  predicate Drawable(size: PhysicalSize)
  {
    size.width > 0 && size.height > 0
  }

  /**
   * The configuration `RenderState::new` chooses: the window's size and the first
   * format, present mode and alpha mode the surface reports.
   */
  function InitialConfiguration(size: PhysicalSize, caps: SurfaceCapabilities): (c: SurfaceConfiguration)
    requires |caps.formats| > 0 && |caps.presentModes| > 0 && |caps.alphaModes| > 0
    ensures Negotiated(c, caps)
    ensures c.width == size.width && c.height == size.height
  {
    SurfaceConfiguration(RenderAttachment, caps.formats[0], size.width, size.height,
                         caps.presentModes[0], caps.alphaModes[0], [], 2)
  }

  /**
   * `config` keeps what was negotiated from `caps` at creation: the first format, present
   * mode and alpha mode, render-attachment usage, no extra view formats, a frame latency of 2.
   */
  ghost predicate Negotiated(config: SurfaceConfiguration, caps: SurfaceCapabilities)
  {
    && |caps.formats| > 0 && |caps.presentModes| > 0 && |caps.alphaModes| > 0
    && config.format == caps.formats[0]
    && config.presentMode == caps.presentModes[0]
    && config.alphaMode == caps.alphaModes[0]
    && config.usage == RenderAttachment
    && config.viewFormats == []
    && config.desiredMaximumFrameLatency == 2
  }

  /**
   * The configuration after `resize(size)`: a size with both dimensions positive sets
   * exactly the width and the height; a zero width or height leaves it as it was.
   */
  function Resized(c: SurfaceConfiguration, size: PhysicalSize): (r: SurfaceConfiguration)
    ensures r.(width := c.width, height := c.height) == c
    ensures Drawable(size) ==> r.width == size.width && r.height == size.height
    ensures !Drawable(size) ==> r == c
  {
    if Drawable(size) then c.(width := size.width, height := size.height) else c
  }

  /** No resize changes the format, present mode, alpha mode, usage, view formats or frame latency. */
  lemma ResizeKeepsNegotiatedFields(c: SurfaceConfiguration, size: PhysicalSize)
    ensures var r := Resized(c, size);
      && r.format == c.format && r.presentMode == c.presentMode && r.alphaMode == c.alphaMode
      && r.usage == c.usage && r.viewFormats == c.viewFormats
      && r.desiredMaximumFrameLatency == c.desiredMaximumFrameLatency
  {
  }

  /** Applying the same size twice is the same as applying it once. */
  lemma ResizeIdempotent(c: SurfaceConfiguration, size: PhysicalSize)
    ensures Resized(Resized(c, size), size) == Resized(c, size)
  {
  }

  /** The calls one `RenderState::draw` makes after asking for a frame. */
  function FrameCommands(bindGroup: BindGroup, acquisition: Acquisition): (r: seq<Command>)
    ensures |r| == if acquisition.Failed? then 0 else 5
    ensures acquisition.Acquired? ==> r[0] == BeginRenderPass(Black) && r[1] == RendererDraw(bindGroup)
                                      && r[4] == Present(acquisition.frame)
  {
    match acquisition
    case Failed(_) => []
    case Acquired(frame) =>
      [BeginRenderPass(Black), RendererDraw(bindGroup), EndRenderPass, Submit, Present(frame)]
  }

  /** A frame that could not be acquired costs no pass, no submit and no present. */
  lemma FailedFrameDoesNothing(bindGroup: BindGroup, error: SurfaceError)
    ensures FrameCommands(bindGroup, Failed(error)) == []
  {
  }

  /**
   * An acquired frame gets exactly one render pass, then exactly one submit, then exactly
   * one present of that frame, and the renderer draws inside the pass.
   */
  lemma AcquiredFrameProtocol(bindGroup: BindGroup, frame: nat)
    ensures var log := FrameCommands(bindGroup, Acquired(frame));
      && OnlyAt(log, (c: Command) => c.BeginRenderPass?, 0)
      && OnlyAt(log, (c: Command) => c.RendererDraw?, 1)
      && OnlyAt(log, (c: Command) => c.EndRenderPass?, 2)
      && OnlyAt(log, (c: Command) => c.Submit?, 3)
      && OnlyAt(log, (c: Command) => c == Present(frame), 4)
      && OnlyAt(log, (c: Command) => c.Present?, 4)
  {
  }

  /** `RenderState`: the device with its queue and surface, and the current configuration. */
  class RenderState {
    const device: Device
    var config: SurfaceConfiguration
    /** The capabilities the surface reported when it was created. */
    ghost const capabilities: SurfaceCapabilities

    /** What was negotiated at creation is still in force; only the size may have moved. */
    ghost predicate Valid()
      reads this
    {
      Negotiated(config, capabilities)
    }

    /**
     * `RenderState::new` for a window of `size` whose surface reports `caps` (a surface
     * compatible with the adapter reports at least one of each); the surface is configured once.
     */
    constructor (size: PhysicalSize, caps: SurfaceCapabilities)
      requires |caps.formats| > 0 && |caps.presentModes| > 0 && |caps.alphaModes| > 0
      ensures Valid() && fresh(device)
      ensures capabilities == caps
      ensures config == InitialConfiguration(size, caps)
      ensures config.width == size.width && config.height == size.height
      ensures device.log == [ConfigureSurface(config)]
    {
      var d := new Device();
      var c := InitialConfiguration(size, caps);
      d.log := [ConfigureSurface(c)];
      device := d;
      config := c;
      capabilities := caps;
    }

    /**
     * `RenderState::resize`: with both dimensions positive, the new width and height are
     * stored and the surface is reconfigured; otherwise nothing happens.
     */
    method Resize(newSize: PhysicalSize)
      requires Valid()
      modifies this, device
      ensures Valid()
      ensures config == Resized(old(config), newSize)
      ensures device.log == old(device.log) + (if Drawable(newSize) then [ConfigureSurface(config)] else [])
    {
      if newSize.width > 0 && newSize.height > 0 {
        config := config.(width := newSize.width, height := newSize.height);
        device.log := device.log + [ConfigureSurface(config)];
      }
    }

    /**
     * `RenderState::draw`: when the surface yields no frame it returns at once; otherwise
     * one pass clearing to black in which the renderer draws, then submit, then present.
     */
    method Draw(bindGroup: BindGroup, acquisition: Acquisition)
      modifies device
      ensures device.log == old(device.log) + FrameCommands(bindGroup, acquisition)
    {
      var frame;
      match acquisition {
        case Failed(_) => return;
        case Acquired(f) => frame := f;
      }
      device.log := device.log + [BeginRenderPass(Black)];
      device.log := device.log + [RendererDraw(bindGroup)];
      device.log := device.log + [EndRenderPass];
      device.log := device.log + [Submit];
      device.log := device.log + [Present(frame)];
    }
  }
}
