/** The frames-per-second sampler of the main loop: a frame counter that is
    turned into a rate, and optionally into a text texture, once the clock
    has moved on by a second. */
module Fps {

  datatype Option<T> = None | Some(value: T)

  /** Size in pixels of the bitmap the rate is drawn into. */
  const TextureWidth: nat := 256
  const TextureHeight: nat := 64

  /** Length of a sampling window in seconds. */
  const Period: real := 1.0

  /** An uploaded overlay texture: its size and the rate whose text it shows. */
  datatype Texture = Texture(width: nat, height: nat, fps: nat)

  datatype FpsState = FpsState(counter: nat, lastTime: real, currentFps: nat, texture: Option<Texture>)

  /** The texture made for a rate: "FPS: n" on a transparent 256x64 bitmap. */
  function RateTexture(fps: nat): (t: Texture)
  {
    Texture(TextureWidth, TextureHeight, fps)
  }

  /** The frame at time `now` closes the current sampling window. */
  predicate IsBoundary(s: FpsState, now: real) {
    now - s.lastTime >= Period
  }

  /** One frame's update of the sampler at clock reading `now`. */
  function Tick(s: FpsState, now: real, showFps: bool): (r: FpsState)
    // a boundary frame publishes the count, itself included, and opens a new window at `now`
    ensures IsBoundary(s, now) ==> r.currentFps == s.counter + 1 && r.counter == 0 && r.lastTime == now
    // any other frame is only counted
    ensures !IsBoundary(s, now) ==>
      r.counter == s.counter + 1 && r.lastTime == s.lastTime && r.currentFps == s.currentFps
    // the texture is remade only on a boundary with the overlay on, and then shows the new rate
    ensures IsBoundary(s, now) && showFps ==> r.texture == Some(RateTexture(r.currentFps))
    ensures !(IsBoundary(s, now) && showFps) ==> r.texture == s.texture
  {
    var counted := s.counter + 1;
    if IsBoundary(s, now) then
      var texture := if showFps then Some(RateTexture(counted)) else s.texture;
      FpsState(0, now, counted, texture)
    else
      s.(counter := counted)
  }

  /** What the sampler sees of one frame: the clock reading and the overlay
      flag as the key events of that frame left it. */
  datatype Sample = Sample(now: real, showFps: bool)

  /** The sampler after one frame per sample, in order. */
  function Ticks(s: FpsState, frames: seq<Sample>): (r: FpsState)
  {
    if frames == [] then s
    else
      var last := frames[|frames| - 1];
      Tick(Ticks(s, frames[..|frames| - 1]), last.now, last.showFps)
  }

  /** How many of the frames close a sampling window. */
  function Boundaries(s: FpsState, frames: seq<Sample>): (r: nat)
    ensures r <= |frames|
  {
    if frames == [] then 0
    else
      var before := frames[..|frames| - 1];
      Boundaries(s, before) + (if IsBoundary(Ticks(s, before), frames[|frames| - 1].now) then 1 else 0)
  }

  /** Frames that all fall within a second of the window's start are only
      counted, whatever the overlay flag did meanwhile. */
  lemma {:induction false} WithinWindow(s: FpsState, frames: seq<Sample>)
    requires forall i :: 0 <= i < |frames| ==> frames[i].now - s.lastTime < Period
    ensures Ticks(s, frames) == s.(counter := s.counter + |frames|)
  {
    if frames != [] {
      WithinWindow(s, frames[..|frames| - 1]);
    }
  }

  /** The rate published at the end of a window is the number of frames in
      it: the frames before the boundary and the boundary frame itself. The
      texture is remade only if the overlay is on at the boundary frame. */
  lemma WindowCount(s: FpsState, frames: seq<Sample>, boundary: Sample)
    requires forall i :: 0 <= i < |frames| ==> frames[i].now - s.lastTime < Period
    requires boundary.now - s.lastTime >= Period
    ensures var r := Ticks(s, frames + [boundary]);
      && r.currentFps == s.counter + |frames| + 1
      && r.counter == 0 && r.lastTime == boundary.now
      && r.texture == (if boundary.showFps then Some(RateTexture(r.currentFps)) else s.texture)
  {
    assert (frames + [boundary])[..|frames|] == frames;
    WithinWindow(s, frames);
  }

  /** Each published rate moves the window start on by at least a second, and
      the window start is never later than the latest clock reading seen. */
  lemma {:induction false} StartAdvances(s: FpsState, frames: seq<Sample>, span: real)
    requires span >= 0.0
    requires forall i :: 0 <= i < |frames| ==> frames[i].now <= s.lastTime + span
    ensures Ticks(s, frames).lastTime >= s.lastTime + Boundaries(s, frames) as real
    ensures Ticks(s, frames).lastTime <= s.lastTime + span
  {
    if frames != [] {
      StartAdvances(s, frames[..|frames| - 1], span);
    }
  }

  /** Within `span` seconds of a window's start the rate is published at most
      `span` times: never more than once per second, however the overlay is toggled. */
  lemma RefreshesPerSecond(s: FpsState, frames: seq<Sample>, span: real)
    requires span >= 0.0
    requires forall i :: 0 <= i < |frames| ==> frames[i].now <= s.lastTime + span
    ensures Boundaries(s, frames) as real <= span
  {
    StartAdvances(s, frames, span);
  }

  /** The sampler's globals. */
  class FpsSampler {
    var counter: nat
    var lastTime: real
    var currentFps: nat
    var texture: Option<Texture>

    function State(): FpsState
      reads this
    {
      FpsState(counter, lastTime, currentFps, texture)
    }

    /** The start-up values, with the clock read once at start-up. */
    constructor (start: real)
      ensures State() == FpsState(0, start, 0, None)
    {
      lastTime := start;
      counter := 0;
      currentFps := 0;
      texture := None;
    }

    /** The sampler's part of one pass of the main loop. */
    method Update(now: real, showFps: bool)
      modifies this
      ensures State() == Tick(old(State()), now, showFps)
    {
      counter := counter + 1;
      if now - lastTime >= Period {
        currentFps := counter;
        counter := 0;
        lastTime := now;
        if showFps {
          texture := Some(RateTexture(currentFps));
        }
      }
    }
  }
}
