/**
 * The graphics driver as the rest of the model sees it: the values `wgpu` hands out
 * (surface capabilities, configurations, bind groups) and a device whose queue, surface
 * and render passes are observed only through the ordered list of calls made on them.
 */
module Gpu {
  import opened Scalars

  /** Opaque codes for the values a surface reports it supports. */
  type TextureFormat = nat
  type PresentMode = nat
  type AlphaMode = nat

  /** What `Surface::get_capabilities` reports, most preferred first. */
  datatype SurfaceCapabilities = SurfaceCapabilities(
    formats: seq<TextureFormat>,
    presentModes: seq<PresentMode>,
    alphaModes: seq<AlphaMode>)

  datatype TextureUsage = RenderAttachment

  /** `wgpu::SurfaceConfiguration`. */
  datatype SurfaceConfiguration = SurfaceConfiguration(
    usage: TextureUsage,
    format: TextureFormat,
    width: u32,
    height: u32,
    presentMode: PresentMode,
    alphaMode: AlphaMode,
    viewFormats: seq<TextureFormat>,
    desiredMaximumFrameLatency: nat)

  /** `winit::dpi::PhysicalSize<u32>`. */
  datatype PhysicalSize = PhysicalSize(width: u32, height: u32)

  /** The clear colours the render passes use. */
  datatype Color = Black | Green

  datatype IndexFormat = Uint16

  datatype ShaderStage = Fragment

  datatype BufferBindingType = UniformBuffer

  /** One entry of a bind-group layout. */
  datatype BindGroupLayoutEntry = BindGroupLayoutEntry(
    binding: nat,
    visibility: ShaderStage,
    bufferType: BufferBindingType,
    hasDynamicOffset: bool)

  /** One entry of a bind group; `wholeBuffer` is `as_entire_binding()`. */
  datatype BindGroupEntry = BindGroupEntry(binding: nat, wholeBuffer: bool)

  datatype BindGroup = BindGroup(layout: seq<BindGroupLayoutEntry>, entries: seq<BindGroupEntry>)

  /** Why `Surface::get_current_texture` gave no frame. */
  datatype SurfaceError = Timeout | Outdated | Lost | OutOfMemory | Other

  /** The outcome of asking the surface for the next frame. */
  datatype Acquisition = Acquired(frame: nat) | Failed(error: SurfaceError)

  /** One call on the device, its queue, the surface or a render pass. */
  datatype Command =
    | ConfigureSurface(config: SurfaceConfiguration)
    | WriteBuffer(offset: nat, bytes: seq<Byte>)
    | SetUniformTime(nanos: nat)
    | WriteUniformsToGpu
    | BeginRenderPass(clear: Color)
    | RendererDraw(bindGroup: BindGroup)
    | SetPipeline
    | SetBindGroup(slot: nat)
    | SetVertexBuffer(slot: nat)
    | SetIndexBuffer(format: IndexFormat)
    | DrawIndexed(firstIndex: nat, endIndex: nat, baseVertex: int, firstInstance: nat, endInstance: nat)
    | EndRenderPass
    | Submit
    | Present(frame: nat)

  /** The device, its queue and the surface, observed through the calls made on them. */
  class Device {
    var log: seq<Command>

    constructor ()
      ensures log == []
    {
      log := [];
    }
  }

  /** The command at position `i` is the only one in `log` that satisfies `p`. */
  ghost predicate OnlyAt(log: seq<Command>, p: Command -> bool, i: nat)
  {
    && i < |log|
    && p(log[i])
    && forall m :: 0 <= m < |log| && m != i ==> !p(log[m])
  }
}
