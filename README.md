# fractal_zoom core, modelled in Dafny

fractal_zoom is a wgpu fractal viewer. Each redraw runs through a small amount of
sequential, stateful logic before any GPU work happens, and this project models that logic:

- **Pause-aware clock and camera** (`AppState`, module `Camera`, `app_state.dfy`).
  - Instants and durations are natural-number nanosecond ticks, and the instant `Instant::now()` would read is a parameter.
  - `update` adds the time since the previous frame to the paused total while paused.
  - The elapsed time is `now - start_time - paused_time`.
- **Per-frame advance** (`State`, module `Frame`, `state.dfy`). `State::draw` does these steps in order:
  - it updates the clock;
  - it steps the zoom, +0.005 while zooming and otherwise `max(zoom - 0.05, 1.0)`, with zoom kept exactly in thousandths;
  - it writes `(elapsed, zoom, offset)` to the uniform payload;
  - only then does it try to render.
- **Uniform payload** (`UniformData`, `Uniforms`, module `UniformChannel`, `uniforms.dfy`).
  - The payload is four 32-bit words, kept as raw bits, in a 16-byte little-endian image.
  - The device buffer is a 16-byte array that `update` overwrites in place.
  - The bind group exposes that buffer at slot 0.
- **Quad geometry** (module `Geometry`, `quad.dfy`). The constant vertex and index tables and the index count.
- **Surface configuration and frame protocol** (`RenderState`, module `Surface`, `render_state.dfy`).
  - `new` negotiates the configuration from the surface's capabilities.
  - `resize` acts only when both dimensions are positive.
  - `draw` either does nothing, when no frame can be acquired, or does one pass, one submit and one present.
  - GPU calls are an abstract, ordered trace of commands on a `Device` (module `Gpu`, `gpu.dfy`).
- **The older single-object design** in `src/app.rs` (module `LegacyApp`, `app.dfy`).
  - Its `State` has `new`, `resize` and `draw`.
  - The `App` event handler creates the window and state once, filters events by window id, and dispatches close, resize and redraw.

Shared scalars (`Option`, `u32`, raw `f32`/`f64` bits, ticks per second) are in `scalars.dfy`.

Each stateful component is a class whose methods are specified against a value-level function of the old state:
- `AppState.Update` is specified by `Tick`;
- `State.Draw` is specified by `Advance`, `DrawnTime`, `Pack` and `FrameCommands`;
- `App.WindowEvent` is specified by `HandleEvent`.

The lemmas beside those functions state what the program promises.

## Model

| member | source | states |
|---|---|---|
| Camera.AppState.constructor | src/app/state/app_state.rs:19-36 | Creation establishes not paused, zero paused time, start instant = last frame instant = `now`, zoom 1.0, offset (0, 0), zooming and follow-mouse false, and the mouse points at the origin. The clock invariant holds. |
| Camera.AppState.Update | src/app/state/app_state.rs:38-46 | Given a monotonic clock, the clock moves as `Tick` says, the clock invariant is kept, and every non-clock field (pause flag, zoom, offset, flags, mouse points) is untouched. |
| Camera.Tick | src/app/state/app_state.rs:38-46 | One update keeps the start instant and moves the frame instant to `now`. The paused total never decreases and is unchanged when not paused. `start <= last` and `paused <= last - start` are preserved when `now >= last`. |
| Camera.NoUnderflow | src/app/state/app_state.rs:51 | Under the clock invariant and `now >= last_frame_time`, `now - start_time - paused_time` does not underflow and equals the plain difference. |
| Camera.FrozenWhilePaused | src/app/state/app_state.rs:41-45 | While paused, the elapsed time read at the update instant equals the elapsed time at the previous frame instant. |
| Camera.AdvancesWhileRunning | src/app/state/app_state.rs:41-45 | While running, the elapsed time at the update instant grows by exactly `now - old last_frame_time`. |
| Camera.RunKeepsClockValid | src/app/state/app_state.rs:38-46 | Any sequence of updates at non-decreasing instants keeps the clock invariant and the start instant, and never lowers the paused total or the frame instant. |
| Camera.ElapsedNeverDecreases | src/app/state/app_state.rs:38-53 | Across any sequence of updates at non-decreasing instants, with the pause flag changing freely, the elapsed time read at each update instant never decreases. (`State::draw` reads it at a later instant instead; see Findings.) |
| Camera.PausedRunFreezes | src/app/state/app_state.rs:41-45 | A run of updates all taken while paused leaves the elapsed time exactly where it was. |
| Camera.InstantSub | src/app/state/app_state.rs:42 | `Instant - Instant` is the exact difference when the earlier instant is not later, and saturates at zero otherwise. |
| Camera.DurationSub | src/app/state/app_state.rs:51 | `Duration - Duration` panics (`None`) exactly when the subtrahend is larger, and otherwise gives the difference. |
| Camera.Elapsed | src/app/state/app_state.rs:51 | `now - start_time - paused_time` panics exactly when more time was paused than has passed since start. Otherwise start + paused + result = `now`, and before the start instant the saturated difference is 0. |
| Camera.AppState.ElapsedTime | src/app/state/app_state.rs:48-53 | Under the clock invariant and a monotonic clock, the elapsed time is `Some(now - start_time - paused_time)`, never the underflow panic. |
| Camera.ElapsedTimeAsWritten | src/app/state/app_state.rs:48-53 | The function as written computes the difference and then yields `()`; its contract is the lemma on the next row. |
| Camera.ElapsedTimeAsWrittenLosesTheTime | src/app/state/app_state.rs:48-53 | The function as written yields the same `()` at 1 s and at 2 s after start, while the intended elapsed times differ. |
| Frame.ZoomStep | src/app/state.rs:42-46 | While zooming, the zoom rises by exactly 0.005. Otherwise it is `max(zoom - 0.05, 1.0)`: down by exactly 0.05 when that stays at or above 1.0, and 1.0 otherwise. A zoom of at least 1.0 stays at least 1.0. |
| Frame.ZoomFloorHolds | src/app/state.rs:42-46 | From any zoom of at least 1.0, any sequence of zooming and non-zooming frames leaves the zoom at least 1.0. |
| Frame.DecayClosedForm | src/app/state.rs:44-45 | After `n` frames without zooming, the zoom is `max(zoom - n * 0.05, 1.0)`. |
| Frame.SettlesAtFloor | src/app/state.rs:44-45 | From zoom `z >= 1.0`, the zoom is still above 1.0 before `ceil((z - 1) / 0.05)` frames without zooming, equals 1.0 at that frame, and stays there afterwards. |
| Frame.ZoomInRun | src/app/state.rs:42-43 | `n` zooming frames raise the zoom by exactly `n * 0.005`. |
| Frame.ZoomAfterConcat | src/app/state.rs:42-46 | Stepping through two runs of frames one after the other is the same as stepping through their concatenation. |
| Frame.HoldThenRelease | src/app/state.rs:42-46 | Zooming for `d` frames from 1.0 and then releasing for `d` frames returns the zoom to 1.0. |
| Frame.TenInThirtyOut | src/app/state.rs:42-46 | Ten zooming frames from 1.0 reach 1.05, and thirty released frames after that return to 1.0. |
| Frame.Advance | src/app/state.rs:40-46 | The clock-and-zoom half of a redraw leaves the pause flag, zooming flag, offset, follow-mouse flag and mouse points unchanged. It keeps the clock invariant with the frame instant at `now`, and keeps the zoom floor. |
| Frame.DrawnTime | src/app/state.rs:40-50 | The time a draw puts into the payload is the clock updated at `now` and read at `later`. From a valid clock with `last <= now <= later` it is `later - start - paused total after the update`, and never the underflow panic. |
| Frame.DrawnTimeSplit | src/app/state.rs:40-50 | The payload time is the update-instant time plus the gap `later - now` between the two clock reads. |
| Frame.PausedPayloadTimeGoesBack | src/app/state.rs:40-50 | Two draws while paused, the first reading the clock 5 ticks after its update and the second at its update instant, put 15 and then 10 into the payload. |
| Frame.UpdateInstantTimeNeverGoesBack | src/app/state/app_state.rs:41-51 | If the clock were read at the update instant, the next draw's time would never be smaller, and would be equal while paused. |
| Frame.State.constructor | src/app/state.rs:21-33 | Creation gives a surface manager configured once from the capabilities, a fresh clock started at `now` with zoom 1.0 and offset (0, 0), and the default payload in the buffer. |
| Frame.State.Resize | src/app/state.rs:35-37 | The size is passed unchanged to the surface manager, which resizes as `Resized` says and reconfigures only for a drawable size. |
| Frame.State.AdvanceCamera | src/app/state.rs:40-46 | The clock update, then the zoom step. The interaction state becomes exactly `Advance` of the old one, and the invariants, including zoom >= 1.0, hold. |
| Frame.State.PushPayload | src/app/state.rs:48-53 | Reading the elapsed time at `later` does not underflow. The payload becomes (that time in seconds, the zoom, the offset), and the device log gains one write of its 16 bytes at offset 0. |
| Frame.State.Draw | src/app/state.rs:39-56 | For every acquisition outcome, the camera advances exactly as `Advance` says. The payload becomes (pause-adjusted elapsed seconds, new zoom, unchanged offset). The time is `DrawnTime` of the old interaction state. The device sees one write of that payload's 16 bytes at offset 0 before the frame commands, and nothing else. |
| UniformChannel.WordBytes | src/app/uniforms.rs:73 | Each 32-bit field becomes four bytes that decode back to the same word. |
| UniformChannel.Pack | src/app/uniforms.rs:3-9 | The payload image is exactly 16 bytes, four 4-byte words with no padding; where each field sits is stated by `UnpackOfPack`. |
| UniformChannel.UnpackOfPack | src/app/uniforms.rs:3-9 | Unpacking a payload image gives back the same four words: time from offset 0, zoom from 4, offset x from 8 and offset y from 12. |
| UniformChannel.PackOfUnpack | src/app/uniforms.rs:3-9 | Every 16-byte image is the image of the payload it unpacks to, so packing is a bijection onto 16-byte images. |
| UniformChannel.PackInjective | src/app/uniforms.rs:3-9 | Two payloads with the same bytes are the same payload. |
| UniformChannel.DefaultData | src/app/uniforms.rs:18-24 | The default payload, time 0.0, zoom 1.0 and offset (0.0, 0.0), has the bytes `00 00 00 00 00 00 80 3F` followed by eight zero bytes. |
| UniformChannel.UniformBindGroup | src/app/uniforms.rs:26-59 | The layout (`UniformLayoutEntry`) has one entry and the bind group has one entry. Both use binding slot 0, the layout entry is a uniform buffer visible to the fragment stage, and the entry covers the whole buffer. |
| UniformChannel.WriteAtStart | src/app/uniforms.rs:70-74 | A buffer write at offset 0 replaces exactly the first `|bytes|` bytes and leaves the rest untouched. |
| UniformChannel.Uniforms.constructor | src/app/uniforms.rs:44-66 | The payload is the default one, and the new buffer holds exactly its 16 bytes. |
| UniformChannel.Uniforms.Update | src/app/uniforms.rs:68-75 | The payload becomes exactly the given triple, the whole buffer now decodes to it, and the device log gains one write of its bytes at offset 0. |
| Geometry.NewQuad | src/app/quad.rs:33-52 | There are 4 vertices and 6 indices, the index count equals the number of indices, and every index names a vertex. |
| Geometry.IndicesInRange | src/app/quad.rs:11-30 | Every index is less than the number of vertices. |
| Geometry.CornersOnce | src/app/quad.rs:11-28 | The positions are the four corners of [-1, 1] x [-1, 1], each exactly once. |
| Geometry.UvFollowsPosition | src/app/quad.rs:11-28 | Each texture coordinate is `(position + 1) / 2`, component by component. |
| Geometry.Triangles | src/app/quad.rs:30 | A triangle list of `3n` indices is `n` triangles, the k-th made of indices `3k`, `3k + 1` and `3k + 2`. |
| Geometry.TwoCounterClockwiseTriangles | src/app/quad.rs:11-30 | The indices form the triangles (0, 1, 2) and (2, 3, 0), both with positive signed area, so both wind counter-clockwise. |
| Geometry.TrianglesCoverQuad | src/app/quad.rs:30 | The two triangles together use all four vertices and share exactly vertices 0 and 2. |
| Surface.InitialConfiguration | src/app/state/render_state.rs:43-55 | The initial configuration has the window's width and height and the first format, present mode and alpha mode, with render-attachment usage, no view formats and frame latency 2. |
| Surface.Resized | src/app/state/render_state.rs:71-76 | A resize changes at most the width and the height. A size with both dimensions positive sets them exactly; a zero width or height leaves the configuration unchanged. |
| Surface.ResizeKeepsNegotiatedFields | src/app/state/render_state.rs:71-76 | No resize changes the format, present mode, alpha mode, usage, view formats or frame latency. |
| Surface.ResizeIdempotent | src/app/state/render_state.rs:71-76 | Resizing to the same size twice gives the same configuration as resizing once. |
| Surface.FrameCommands | src/app/state/render_state.rs:83-121 | A frame that cannot be acquired gives no commands. An acquired frame gives five: a pass cleared to black first, the renderer's draw with the given bind group second, and the present of that frame last. |
| Surface.FailedFrameDoesNothing | src/app/state/render_state.rs:84-88 | A frame that cannot be acquired produces no pass, no submit and no present. |
| Surface.AcquiredFrameProtocol | src/app/state/render_state.rs:100-120 | An acquired frame produces exactly one pass with the renderer's draw inside it, then exactly one submit, then exactly one present of that frame. |
| Surface.RenderState.constructor | src/app/state/render_state.rs:19-69 | The configuration is the negotiated initial one, and the surface is configured exactly once. |
| Surface.RenderState.Resize | src/app/state/render_state.rs:71-77 | The configuration becomes `Resized` of the old one, the negotiated fields still hold, and the surface is reconfigured only for a drawable size. |
| Surface.RenderState.Draw | src/app/state/render_state.rs:83-121 | The device log gains exactly the frame commands for the acquisition outcome: nothing on failure, otherwise pass, draw, end, submit, present. |
| LegacyApp.LegacyFrameCommands | src/app.rs:97-150 | A frame that cannot be acquired gives no commands. An acquired frame's commands start with the time since start and end with the present of that frame. |
| LegacyApp.LegacyFailedFrameDoesNothing | src/app.rs:98-104 | A frame that cannot be acquired produces no uniform update or write, no pass, no submit and no present. |
| LegacyApp.LegacyFrameOrder | src/app.rs:110-149 | An acquired frame first updates and writes the uniforms, then opens exactly one pass, draws, ends the pass, then submits once and presents once. The indexed draw covers `index_count` indices and exactly one instance. |
| LegacyApp.ResizedView | src/app.rs:89-95 | A resize keeps the start instant and the quad, and changes at most the configuration's width and height. A drawable size sets them and logs one configure call with the new configuration; any other size changes nothing. |
| LegacyApp.DrawnView | src/app.rs:97-150 | A draw keeps the configuration, the start instant and the quad, and only appends to the log. It changes nothing exactly when no frame is acquired. |
| LegacyApp.Resume | src/app.rs:160-174 | Afterwards a window exists and the exit request is unchanged. With a window already, nothing changes. Otherwise the window is the new one, one redraw is requested, and the state is exactly a freshly made one: the configuration negotiated from the capabilities, configured once, started at `now`, with the quad's index count. |
| LegacyApp.HandleEvent | src/app.rs:176-201 | It panics exactly when there is no window and ignores exactly the events of other windows, changing nothing in both cases. The window and the presence of a state never change. Exit is requested exactly on a handled close. The redraw count rises by one exactly for a handled resize or redraw with a state, and otherwise stays. A handled resize with a state resizes it, a handled redraw with a state draws it, and close or any other event leaves the state alone. |
| LegacyApp.State.constructor | src/app.rs:32-87 | The quad is built from the tables, the configuration is negotiated from the first capabilities, the surface is configured once, and the start instant is `now`. |
| LegacyApp.State.Resize | src/app.rs:89-95 | Width and height change only when both are positive, the negotiated fields still hold, and the surface is reconfigured only then. |
| LegacyApp.State.Draw | src/app.rs:97-150 | The device log gains nothing on failure. Otherwise it gains the time since start (saturating), the uniform write, and the single green pass with the indexed draw, submit and present. |
| LegacyApp.ResumeOnlyOnce | src/app.rs:160-174 | After `resumed` a window exists, and any later `resumed`, whatever its arguments, changes nothing. |
| LegacyApp.OtherWindowIgnored | src/app.rs:177-179 | An event from any window other than the owned one changes nothing. |
| LegacyApp.NoStateNoEffect | src/app.rs:186-198 | Without a state, resize and redraw events change nothing. |
| LegacyApp.RedrawKeepsLoopGoing | src/app.rs:192-198 | A redraw with a state draws exactly once and always requests the next redraw, whether or not a frame was acquired. The window and the exit request are unchanged. |
| LegacyApp.ResizeReachesState | src/app.rs:186-190 | A resize with a state passes the size to the state's resize and requests one redraw. The window and the exit request are unchanged. |
| LegacyApp.App.constructor | src/app.rs:153-157 | The application starts with no window, no state, no redraw requests and no exit request. |
| LegacyApp.App.Resumed | src/app.rs:160-174 | The application changes exactly as `Resume` says: the first call creates the window and a fresh state and requests one redraw, and later calls leave the state alone. |
| LegacyApp.App.WindowEvent | src/app.rs:176-201 | The outcome and the new application state are exactly what `HandleEvent` gives. That covers a panic without a window, ignoring other windows, close requesting exit, resize and redraw acting only with a state and then requesting a redraw, and other events doing nothing. |

## Left out

- `src/app/shader.rs` holds only constant pipeline descriptors; the fractal mathematics lives in shader files that are not part of this model.
- `src/app/renderer.rs` is not modelled: it is a stale snapshot. Its `update` refers to members its `ShaderBundle` does not have. Its `draw` (renderer.rs:36-38) takes no bind group, although render_state.rs:116 passes one, and reads a `uniform_bind_group` that `ShaderBundle` (shader.rs:5-8) lacks. The abstract `RendererDraw(bindGroup)` command models the call site at render_state.rs:116, not renderer.rs.
- `src/main.rs` only starts the event loop.
- `src/app/vertex.rs` (the vertex buffer layout) is not part of this model.
- Creating the instance, adapter, device and queue is asynchronous driver work with `.unwrap()` panics. The model assumes they succeed, and the capability lists are required non-empty, as a surface compatible with the adapter reports.
- Frame acquisition (`get_frame`, `get_current_texture`) is a parameter of type `Acquisition`. The window system's ids, sizes and instants are also parameters.
- Frame.State.Draw: converting the elapsed ticks and the zoom to `f32` (`as_secs_f32`, `f32` arithmetic) is a parameter `toF32`, not modelled rounding. The payload's words are whatever that rounding yields.
- Frame.ZoomStep: zoom is exact thousandths, not `f32`. The steps 0.005 and 0.05 are not exact in `f32`, so the model does not capture accumulated rounding error. The floor at 1.0 holds either way because of the `max`.
- Camera.AppState.Update: the platform clock is taken to be monotonic (`now >= last_frame_time` is required). `Duration` overflow after 2^64 seconds is not modelled.
- `State::draw` reads the clock twice, once in `update` and once in `elapsed_time`. `Frame.State.Draw` takes both instants, `now <= later`, and models the two reads as written. Because of them the payload time is neither frozen while paused nor monotone (see Findings). The frozen and monotone properties (`Camera.FrozenWhilePaused`, `Camera.PausedRunFreezes`, `Camera.ElapsedNeverDecreases`) hold at the update instant.
- The byte image of the payload assumes a little-endian host, which is what `bytemuck::bytes_of` gives there.
- No code updates `offset`, `paused`, `zooming`, `follow_mouse` or the mouse points after creation, so no pan, pause or zoom input handlers are modelled. The model only proves that drawing leaves them unchanged.
- LegacyApp.State.Draw: the older draw's uniform update and write use `shader_bundle.uniforms` and `shader_bundle.uniform_buffer`, which its `ShaderBundle` does not define. They are modelled as two abstract commands carrying the elapsed ticks, not as a buffer write.
- Logging (`println!`, `eprintln!`), `App::suspended` (which only logs), texture views, encoders and the clear colour beyond black/green appear only as trace commands or not at all.
- LegacyApp.App.WindowEvent: the exit request and redraw requests are recorded as a flag and a counter; the event loop's reaction to them is not modelled.

## Findings

| source | as written | input that shows it | evidently intended | confidence | as-written member | corrected member |
|---|---|---|---|---|---|---|
| src/app/state/app_state.rs:48-53 | `elapsed_time` is declared to return `f32`, but its body ends with a `let` binding. It yields `()` and the computed time is dropped, so the function does not type-check as declared, and `State::draw` (src/app/state.rs:50) would pass no time. | A fresh clock (start 0, paused 0) read at 1 s and at 2 s: both reads yield `()`, while the elapsed times are 1 s and 2 s. | Return `now - start_time - paused_time` (as seconds). | high; not executed | Camera.ElapsedTimeAsWrittenLosesTheTime | Camera.AppState.ElapsedTime |
| src/app/state.rs:40-50 | `draw` updates the clock at one `Instant::now()` (via app_state.rs:39) and reads the elapsed time at a second one (app_state.rs:49). While paused, the gap between the two reads counts as running time until the next update adds it to the paused total, so the time sent to the shader can go backwards while paused. | A paused clock (start 0, last frame 10, paused 0): the first draw updates at 10 and reads at 15, sending 15. The second draw updates at 20 and reads at 20, sending 10. | The elapsed time read at the update instant, which is frozen while paused and never decreases. | medium; not executed | Frame.PausedPayloadTimeGoesBack | Frame.UpdateInstantTimeNeverGoesBack |
