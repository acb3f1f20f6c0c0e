/** The renderer's main loop: per frame, poll the key events, read the
    framebuffer size, draw the fractal, update the FPS sampler and, when it is
    on and a texture exists, draw the overlay; until the window is asked to close. */
module MainLoop {
  import opened Input
  import opened Fps
  import Overlay

  /** What the outside world supplies to one pass of the loop: the pending key
      events, the primary monitor's mode, the framebuffer size and the clock. */
  datatype FrameInput = FrameInput(
    events: seq<KeyEvent>,
    mode: VideoMode,
    fbWidth: nat,
    fbHeight: nat,
    now: real)

  /** How a pass ends: presented, with or without the overlay, or stopped by
      Python's ZeroDivisionError on a zero-sized framebuffer. */
  datatype FrameOutcome = Presented(overlayDrawn: bool) | ZeroDivision

  /** The overlay is drawn when it is switched on and a texture has been made. */
  predicate OverlayVisible(keys: KeyState, fps: FpsState) {
    keys.showFps && fps.texture.Some?
  }

  /** The key controller and the FPS sampler between two passes. */
  datatype LoopState = LoopState(keys: KeyState, fps: FpsState)

  /** The controller and the sampler after one pass: the events are handled,
      and unless the height is zero the sampler counts the frame with the
      overlay flag as the events left it. */
  function Pass(s: LoopState, input: FrameInput): (r: LoopState)
  {
    var keys := Drain(s.keys, input.events, input.mode);
    LoopState(keys, if input.fbHeight == 0 then s.fps else Tick(s.fps, input.now, keys.showFps))
  }

  /** The controller and the sampler after the passes, in order. */
  function Passes(s: LoopState, frames: seq<FrameInput>): (r: LoopState)
  {
    if frames == [] then s
    else Pass(Passes(s, frames[..|frames| - 1]), frames[|frames| - 1])
  }

  /** The pass that left the controller and the sampler in `after` divides by
      zero: the aspect ratio on a zero height, or the overlay's right edge on a
      zero width when the overlay is drawn. */
  predicate Fails(after: LoopState, input: FrameInput) {
    input.fbHeight == 0 || (input.fbWidth == 0 && OverlayVisible(after.keys, after.fps))
  }

  /** No pass of the run divides by zero. */
  predicate NoneFail(s: LoopState, frames: seq<FrameInput>)
  {
    frames == [] ||
    var before := frames[..|frames| - 1];
    NoneFail(s, before) && !Fails(Passes(s, frames), frames[|frames| - 1])
  }

  /** The passes up to and including pass `n` are those before it, then pass
      `n`; none of them fails iff none before it does and pass `n` does not. */
  lemma PassesStep(s: LoopState, frames: seq<FrameInput>, n: nat)
    requires n < |frames|
    ensures Passes(s, frames[..n + 1]) == Pass(Passes(s, frames[..n]), frames[n])
    ensures NoneFail(s, frames[..n + 1]) <==> NoneFail(s, frames[..n]) && !Fails(Passes(s, frames[..n + 1]), frames[n])
  {
    assert frames[..n + 1][..n] == frames[..n];
  }

  /** After the first `n` passes the close request is set exactly when it was
      set before or Escape was pressed in one of them. */
  lemma {:induction false} ClosesAfter(s: LoopState, frames: seq<FrameInput>, n: nat)
    requires n <= |frames|
    ensures Passes(s, frames[..n]).keys.win.shouldClose <==>
      s.keys.win.shouldClose || exists j :: 0 <= j < n && Presses(frames[j].events, KeyEscape) > 0
  {
    if n > 0 {
      ClosesAfter(s, frames, n - 1);
      PassesStep(s, frames, n - 1);
      var last := frames[n - 1];
      CloseRequested(Passes(s, frames[..n - 1]).keys, last.events, last.mode);
    }
  }

  /** A run whose first `n` passes do not fail: no pass has a zero height, and
      none draws the overlay, as the events and the sampler up to it left it,
      on a zero width. */
  lemma {:induction false} NoneFailEach(s: LoopState, frames: seq<FrameInput>, n: nat)
    requires n <= |frames| && NoneFail(s, frames[..n])
    ensures forall j :: 0 <= j < n ==> !Fails(Passes(s, frames[..j + 1]), frames[j])
  {
    if n > 0 {
      PassesStep(s, frames, n - 1);
      NoneFailEach(s, frames, n - 1);
    }
  }

  class App {
    const keys: Controller
    const sampler: FpsSampler
    /** The overlay's vertex buffer, allocated once at its fixed size. */
    const overlayVbo: array<real>

    ghost predicate Valid()
      reads this
    {
      overlayVbo.Length == Overlay.QuadFloats
    }

    /** The controller's and the sampler's state together. */
    function Current(): LoopState
      reads this, keys, sampler
    {
      LoopState(keys.State(), sampler.State())
    }

    /** Start-up: the window created at `pos`, the clock read as `start`. */
    constructor (pos: (int, int), start: real)
      ensures Valid() && fresh(keys) && fresh(sampler) && fresh(overlayVbo)
      ensures keys.State() == KeyState(false, false, (100, 100), (800, 600),
                                       WindowState(pos, (800, 600), Windowed, CursorNormal, false))
      ensures sampler.State() == FpsState(0, start, 0, None)
    {
      keys := new Controller(pos);
      sampler := new FpsSampler(start);
      overlayVbo := new real[Overlay.QuadFloats];
    }

    /** One pass of the main loop. */
    method Frame(input: FrameInput) returns (outcome: FrameOutcome)
      requires Valid()
      modifies keys, sampler, overlayVbo
      // the events are handled first; a zero height fails before the sampler runs,
      // which otherwise sees this frame with the overlay flag as the events left it
      ensures Current() == Pass(old(Current()), input)
      // a zero height, or a zero width with the overlay drawn, divides by zero
      // and leaves the vertex buffer as it was
      ensures Fails(Current(), input) ==> outcome == ZeroDivision && unchanged(overlayVbo)
      // no overlay: the vertex buffer is left as it was
      ensures !Fails(Current(), input) && !OverlayVisible(keys.State(), sampler.State()) ==>
        outcome == Presented(false) && unchanged(overlayVbo)
      // overlay: the buffer holds this frame's quad
      ensures !Fails(Current(), input) && OverlayVisible(keys.State(), sampler.State()) ==>
        outcome == Presented(true) && overlayVbo[..] == Overlay.Quad(input.fbWidth, input.fbHeight)
    {
      keys.PollEvents(input.events, input.mode);
      if input.fbHeight == 0 {
        return ZeroDivision;
      }
      sampler.Update(input.now, keys.showFps);
      if keys.showFps && sampler.texture.Some? {
        if input.fbWidth == 0 {
          return ZeroDivision;
        }
        var quad := Overlay.Quad(input.fbWidth, input.fbHeight);
        Overlay.WriteBuffer(overlayVbo, quad);
        outcome := Presented(true);
      } else {
        outcome := Presented(false);
      }
    }

    /** The main loop over the passes the outside world supplies: it runs
      `n` of them and stops early when the window is asked to close or a
      pass fails. */
    method Run(frames: seq<FrameInput>) returns (n: nat, failed: bool)
      requires Valid()
      requires !keys.win.shouldClose
      modifies keys, sampler, overlayVbo
      ensures n <= |frames|
      // the controller and the sampler are as the passes that ran left them
      ensures Current() == Passes(old(Current()), frames[..n])
      // a failure ends the loop on the pass that divided by zero, and no earlier pass failed
      ensures failed ==> 0 < n && Fails(Current(), frames[n - 1])
      ensures forall j :: 0 <= j < n - 1 ==> !Fails(Passes(old(Current()), frames[..j + 1]), frames[j])
      ensures !failed ==> forall j :: 0 <= j < n ==> !Fails(Passes(old(Current()), frames[..j + 1]), frames[j])
      // in particular every pass before the last had a framebuffer height
      ensures forall j :: 0 <= j < n - 1 ==> frames[j].fbHeight > 0
      // the loop stops before the supply runs out only when asked to close or on a failure
      ensures n < |frames| ==> failed || keys.win.shouldClose
      // the close request is set exactly when Escape was pressed in a pass that ran
      ensures keys.win.shouldClose <==> exists j :: 0 <= j < n && Presses(frames[j].events, KeyEscape) > 0
      // the pass in which Escape is pressed is completed, and it is the last one
      ensures forall j :: 0 <= j < n - 1 ==> Presses(frames[j].events, KeyEscape) == 0
    {
      ghost var start := Current();
      n, failed := 0, false;
      while n < |frames| && !keys.win.shouldClose
        invariant Valid()
        invariant n <= |frames|
        invariant Current() == Passes(start, frames[..n])
        invariant NoneFail(start, frames[..n])
        invariant forall j :: 0 <= j < n - 1 ==> Presses(frames[j].events, KeyEscape) == 0
      {
        ClosesAfter(start, frames, n);
        PassesStep(start, frames, n);
        var outcome := Frame(frames[n]);
        n := n + 1;
        if outcome == ZeroDivision {
          failed := true;
          break;
        }
      }
      ClosesAfter(start, frames, n);
      ghost var ran := if failed then n - 1 else n;
      NoneFailEach(start, frames, ran);
    }
  }
}
