# Mandelbrot renderer: key controls, FPS sampler and overlay quad

The renderer (`fractal.py`) draws an animated Mandelbrot set on the GPU. It
has three keys: Escape quits, S toggles an FPS overlay and F toggles full screen.
Almost all of it is window and GPU plumbing. This project models the three
parts with behaviour that can be stated, and the main loop that ties them together:

- **Input** (`input.dfy`): the key callback. It has the globals `fullscreen`,
  `show_fps`, `windowed_pos` and `windowed_size`, and acts on an abstract
  window: position, size, monitor placement, cursor mode and the should-close
  request. `OnKey` is the pure meaning of one event. `Controller.KeyCallback`
  is the imperative callback, proved against `OnKey`. `Drain` applies the
  events of one poll in order.
- **Fps** (`fps.dfy`): the per-frame counter. Once the clock has moved on by
  a second, it publishes the count as the current rate. While the overlay is
  on, it also makes a new texture showing that rate. The clock is an input
  of type `real`. A texture is `Texture(256, 64, fps)`: its size and the rate
  drawn into it.
- **Overlay** (`overlay.dfy`): the 24-float vertex data of the overlay quad,
  computed over exact reals. It is pinned to the top-left corner of the
  viewport and is 256x64 framebuffer pixels in size. The buffer write is a
  loop into a 24-element array.
- **MainLoop** (`main_loop.dfy`): one pass of the loop (`App.Frame`), in
  source order: poll, framebuffer size, sampler, overlay. Then the `while`
  loop itself (`App.Run`), which runs over a finite supply of passes.

Behaviours of the code that the model keeps:

- The rate published at a boundary counts the boundary frame too, because
  the increment at line 160 comes before the test at line 162. So 56 frames
  inside a window plus the frame that crosses the boundary publish 57
  (`Fps.WindowCount`).
- The old texture is not released when it is replaced. Nothing in the code
  releases it, so nothing in the model does.
- Key events arrive through a callback that runs during `poll_events`.
  `PollEvents` models this as the pending events handled in order.
- A framebuffer of height 0, as with a minimised window, makes
  `width / height` at line 146 raise `ZeroDivisionError` and ends the program.
  A width of 0 does the same at line 181, but only when the overlay is drawn.
  `App.Frame` returns `ZeroDivision` in both cases, and `App.Run` stops there.

## Model

| member | source | states |
|---|---|---|
| Input.OnKey | fractal.py:26-44 | Releases, repeats and other keys change nothing. Escape sets only the close request, and S flips only `show_fps`. F from a window saves the pre-switch position and size, then covers the monitor at (0,0) with the cursor disabled. F from full screen restores the saved geometry with a normal cursor and keeps the restore point. Only F touches `fullscreen` and the restore point. |
| Input.ShowFpsParity | fractal.py:30-31 | After any run of events, `show_fps` equals its old value flipped once per press of S. Two presses cancel out. |
| Input.CloseRequested | fractal.py:28-29 | After a run of events the close request is set iff it was set before or Escape was pressed. |
| Input.KeepRestorePoint | fractal.py:28-44 | Events without a press of F keep `fullscreen`, `windowed_pos` and `windowed_size`. |
| Input.FullscreenRoundTrip | fractal.py:35-44 | F, any other key events, then F again gives back the window's original position and size, windowed with a normal cursor. This holds for any monitor mode and any change to the window's geometry while full screen. |
| Input.Controller.constructor | fractal.py:8-11 | Start-up flags and restore point: windowed, overlay off, (100,100) and (800,600). The window is created 800x600 (line 48). |
| Input.Controller.KeyCallback | fractal.py:26-44 | The imperative callback leaves exactly the state `OnKey` gives. |
| Input.Controller.PollEvents | fractal.py:136 | Polling hands each pending event to the callback in order. The new state is `Drain` of the old one. |
| Fps.Tick | fractal.py:159-172 | Every frame is counted. At `now - last >= 1.0` the count, including this frame, becomes the rate, the counter resets to 0 and the window restarts at `now`. Otherwise the rate and window start do not change. The texture is remade only on a boundary while the overlay is on, and then shows the new rate. Otherwise it stays as it was, stale or absent. |
| Fps.WithinWindow | fractal.py:160-165 | Frames within a second of the window start only raise the counter, by one each, whatever the overlay flag does. |
| Fps.WindowCount | fractal.py:160-172 | The rate published at a boundary is the counter plus the frames in the window, boundary frame included, however the overlay was toggled meanwhile. The counter restarts. The texture is remade iff the overlay is on at the boundary frame. |
| Fps.StartAdvances | fractal.py:162-165 | Each publication moves the window start on by at least a second. The start never passes the latest clock reading. |
| Fps.RefreshesPerSecond | fractal.py:162-165 | Within `span` seconds of a window start the rate is published at most `span` times. |
| Fps.FpsSampler.constructor | fractal.py:14-17 | Counter 0, rate 0, no texture, window starting at the start-up clock reading. |
| Fps.FpsSampler.Update | fractal.py:159-172 | The imperative update leaves exactly the state `Tick` gives. |
| Overlay.Extent | fractal.py:177-183 | The device-coordinate extent is positive and spans exactly `pixels` pixels of the framebuffer side. |
| Overlay.Right | fractal.py:180-181 | The right edge lies to the right of the left edge, -1. |
| Overlay.Bottom | fractal.py:182-183 | The bottom edge lies below the top edge, 1. |
| Overlay.Quad | fractal.py:177-192 | 24 floats, the buffer's reserved 6*4*4 bytes (line 127). The first vertex is (-1,1) with UV (0,1). The last is (Right,Bottom) with UV (1,0). The quad spans exactly as many framebuffer pixels as the 256 by 64 texture has texels. |
| Overlay.QuadVertices | fractal.py:185-192 | Every vertex is a corner of the quad. Its UV follows its position linearly, so the bitmap is upright and unstretched. The two triangles share the top-right/bottom-left diagonal. |
| Overlay.ExtentShrinks | fractal.py:181-183 | A framebuffer side that grows never gives a larger extent, and one that grows strictly gives a strictly smaller extent. |
| Overlay.ExtentScales | fractal.py:181-183 | Scaling a framebuffer side by k divides the extent by k. For example, going from 800 to 1600 wide halves the overlay's width in device coordinates. |
| Overlay.WriteBuffer | fractal.py:193 | The buffer holds exactly the quad's data after the write. |
| MainLoop.App.constructor | fractal.py:126-127 | A 24-float overlay buffer allocated once, with the start-up controller and sampler. |
| MainLoop.App.Frame | fractal.py:135-198 | The controller and the sampler end in the state `Pass` gives: events handled first, the sampler left alone on a zero height (line 146 fails before it) and otherwise ticked with the flag as the events left it. The pass fails exactly when `Fails` holds, a zero height or a zero width with the overlay drawn (line 181), and then leaves the buffer untouched. Otherwise the buffer is rewritten with this frame's quad iff the overlay is on and a texture exists. |
| MainLoop.ClosesAfter | fractal.py:135-136 | After any number of passes, each polling its events into the callback, the close request is set iff it was set before or Escape was pressed in one of them. |
| MainLoop.NoneFailEach | fractal.py:146-181 | In a run with no failing pass, each pass had a non-zero height and did not draw the overlay, as the passes up to it left it, on a zero width. |
| MainLoop.App.Run | fractal.py:135-200 | The controller and the sampler end as `Passes` of the passes that ran. The loop stops early only on a close request or a failure. A pass that divides by zero, at line 146 or at line 181, is the last, and no earlier pass failed. The close request is set iff Escape was pressed. The pass in which Escape is pressed is completed and is the last. |

## Left out

- The Mandelbrot fragment shader (lines 66-88) runs on the GPU in
  single-precision floats, and a real-valued model would not reflect it.
- The animation parameters (lines 142-156) are floating-point sine and cosine.
  Their bounds rest on trigonometric facts that are not available here.
- GLFW and moderngl calls are foreign. They are modelled only as the state
  they change: the window's fields in `WindowState` and the overlay buffer's
  contents. Not modelled: initialisation, context, program, VAO and texture
  creation, viewport, clear, render calls, buffer swap and `glfw.terminate`.
- PIL text rasterisation, the vertical flip, `tobytes`, the nearest filter
  and the font fallback (lines 19-23) are foreign. A texture carries only its
  size and the rate it shows.
- `time.time()` is an input (`now`, `start`). The lemmas do not need it to be
  non-decreasing.
- The window manager's own close button, which also sets should-close, is
  not modelled. Neither are moves and resizes the user makes; they appear
  only as arbitrary geometry in `Input.FullscreenRoundTrip`.
- The `f4` precision of the vertex data: the quad is computed over exact reals.
- MainLoop.App.Run: states the controller's and the sampler's state after the
  run, when it stops and why. The overlay buffer after several passes follows
  pass by pass from `App.Frame`, not from a single summary.
