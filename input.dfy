/** The keyboard controller of the renderer: the flags and the windowed
    restore point that the key callback keeps, and the window state it
    changes through the windowing library. */
module Input {

  // GLFW key codes and the key action (press, as opposed to release or repeat)
  // that the callback compares against
  const KeyEscape: int := 256
  const KeyS: int := 83
  const KeyF: int := 70
  const Press: int := 1

  datatype KeyEvent = KeyEvent(key: int, action: int)

  /** The primary monitor's current video mode. */
  datatype VideoMode = VideoMode(width: int, height: int, refreshRate: int)

  /** Whether the window is a plain window or full-screen on the primary monitor. */
  datatype Placement = Windowed | OnPrimary(refreshRate: int)

  datatype CursorMode = CursorNormal | CursorDisabled

  /** The part of the window's state that the callback reads or writes. */
  datatype WindowState = WindowState(
    pos: (int, int),
    size: (int, int),
    placement: Placement,
    cursor: CursorMode,
    shouldClose: bool)

  /** The controller's flags, its restore point and the window. */
  datatype KeyState = KeyState(
    fullscreen: bool,
    showFps: bool,
    windowedPos: (int, int),
    windowedSize: (int, int),
    win: WindowState)

  predicate IsPress(e: KeyEvent, key: int) {
    e.key == key && e.action == Press
  }

  /** The events the callback reacts to; every other one is ignored. */
  predicate Handled(e: KeyEvent) {
    IsPress(e, KeyEscape) || IsPress(e, KeyS) || IsPress(e, KeyF)
  }

  /** The effect of one key event on the controller and the window. */
  function OnKey(s: KeyState, e: KeyEvent, mode: VideoMode): (r: KeyState)
    // releases, repeats and other keys change nothing
    ensures !Handled(e) ==> r == s
    // Escape only requests that the window close
    ensures IsPress(e, KeyEscape) ==> r == s.(win := s.win.(shouldClose := true))
    // S only flips the overlay flag
    ensures IsPress(e, KeyS) ==> r.showFps == !s.showFps && r == s.(showFps := r.showFps)
    // F from a window: the restore point is the geometry from BEFORE the switch,
    // and the window then covers the monitor with the cursor disabled
    ensures IsPress(e, KeyF) && !s.fullscreen ==>
      && r.fullscreen && r.showFps == s.showFps
      && r.windowedPos == s.win.pos && r.windowedSize == s.win.size
      && r.win == WindowState((0, 0), (mode.width, mode.height), OnPrimary(mode.refreshRate),
                              CursorDisabled, s.win.shouldClose)
    // F from full screen: the window goes back to the saved restore point,
    // which itself stays as it was
    ensures IsPress(e, KeyF) && s.fullscreen ==>
      && !r.fullscreen && r.showFps == s.showFps
      && r.windowedPos == s.windowedPos && r.windowedSize == s.windowedSize
      && r.win == WindowState(s.windowedPos, s.windowedSize, Windowed, CursorNormal, s.win.shouldClose)
    // only F touches the fullscreen flag and the restore point
    ensures !IsPress(e, KeyF) ==>
      r.fullscreen == s.fullscreen && r.windowedPos == s.windowedPos && r.windowedSize == s.windowedSize
  {
    if IsPress(e, KeyEscape) then
      s.(win := s.win.(shouldClose := true))
    else if IsPress(e, KeyS) then
      s.(showFps := !s.showFps)
    else if IsPress(e, KeyF) then
      if !s.fullscreen then
        var saved := s.(windowedPos := s.win.pos, windowedSize := s.win.size);
        saved.(win := saved.win.(pos := (0, 0), size := (mode.width, mode.height),
                                 placement := OnPrimary(mode.refreshRate), cursor := CursorDisabled),
               fullscreen := true)
      else
        s.(win := s.win.(pos := s.windowedPos, size := s.windowedSize,
                         placement := Windowed, cursor := CursorNormal),
           fullscreen := false)
    else
      s
  }

  /** The events of one poll, handled in the order they arrived. */
  function Drain(s: KeyState, events: seq<KeyEvent>, mode: VideoMode): (r: KeyState)
  {
    if events == [] then s
    else OnKey(Drain(s, events[..|events| - 1], mode), events[|events| - 1], mode)
  }

  /** How many of the events are presses of the given key. */
  function Presses(events: seq<KeyEvent>, key: int): (r: nat)
    ensures r <= |events|
  {
    if events == [] then 0
    else Presses(events[..|events| - 1], key) + (if IsPress(events[|events| - 1], key) then 1 else 0)
  }

  /** After a run of events the overlay is shown exactly when it was shown
      before and S was pressed an even number of times, or it was hidden and
      S was pressed an odd number of times; two presses of S cancel out. */
  lemma {:induction false} ShowFpsParity(s: KeyState, events: seq<KeyEvent>, mode: VideoMode)
    ensures Drain(s, events, mode).showFps == (s.showFps != (Presses(events, KeyS) % 2 == 1))
  {
    if events != [] {
      ShowFpsParity(s, events[..|events| - 1], mode);
    }
  }

  /** The close request is set after a run of events exactly when it was set
      before or Escape was pressed in the run; nothing clears it. */
  lemma {:induction false} CloseRequested(s: KeyState, events: seq<KeyEvent>, mode: VideoMode)
    ensures Drain(s, events, mode).win.shouldClose <==> s.win.shouldClose || Presses(events, KeyEscape) > 0
  {
    if events != [] {
      CloseRequested(s, events[..|events| - 1], mode);
    }
  }

  /** Events without a press of F keep the fullscreen flag and the restore point. */
  lemma {:induction false} KeepRestorePoint(s: KeyState, events: seq<KeyEvent>, mode: VideoMode)
    requires Presses(events, KeyF) == 0
    ensures var r := Drain(s, events, mode);
      r.fullscreen == s.fullscreen && r.windowedPos == s.windowedPos && r.windowedSize == s.windowedSize
  {
    if events != [] {
      KeepRestorePoint(s, events[..|events| - 1], mode);
    }
  }

  /** Going full screen and back restores the window's position and size
      exactly, whatever the monitor's mode, whatever happened to the window's
      geometry while it was full screen, and whatever other keys were pressed
      in between. */
  lemma {:induction false} FullscreenRoundTrip(s: KeyState, enter: VideoMode, pos: (int, int), size: (int, int),
                            between: seq<KeyEvent>, leave: VideoMode)
    requires !s.fullscreen
    requires Presses(between, KeyF) == 0
    ensures
      var full := OnKey(s, KeyEvent(KeyF, Press), enter);
      var moved := full.(win := full.win.(pos := pos, size := size));
      var back := OnKey(Drain(moved, between, enter), KeyEvent(KeyF, Press), leave);
      && full.fullscreen
      && !back.fullscreen
      && back.win.pos == s.win.pos && back.win.size == s.win.size
      && back.win.placement == Windowed && back.win.cursor == CursorNormal
      && back.windowedPos == s.win.pos && back.windowedSize == s.win.size
  {
    var full := OnKey(s, KeyEvent(KeyF, Press), enter);
    var moved := full.(win := full.win.(pos := pos, size := size));
    KeepRestorePoint(moved, between, enter);
  }

  /** The key callback's globals together with the window it acts on. */
  class Controller {
    var fullscreen: bool
    var showFps: bool
    var windowedPos: (int, int)
    var windowedSize: (int, int)
    var win: WindowState

    function State(): KeyState
      reads this
    {
      KeyState(fullscreen, showFps, windowedPos, windowedSize, win)
    }

    /** The start-up values: windowed, overlay hidden, restore point 100,100
        and 800x600, and a freshly created 800x600 window at `pos`. */
    constructor (pos: (int, int))
      ensures State() == KeyState(false, false, (100, 100), (800, 600),
                                  WindowState(pos, (800, 600), Windowed, CursorNormal, false))
    {
      fullscreen := false;
      showFps := false;
      windowedSize := (800, 600);
      windowedPos := (100, 100);
      win := WindowState(pos, (800, 600), Windowed, CursorNormal, false);
    }

    /** The key callback; `mode` is the primary monitor's video mode. */
    method KeyCallback(e: KeyEvent, mode: VideoMode)
      modifies this
      ensures State() == OnKey(old(State()), e, mode)
    {
      if e.key == KeyEscape && e.action == Press {
        win := win.(shouldClose := true);
      } else if e.key == KeyS && e.action == Press {
        showFps := !showFps;
      } else if e.key == KeyF && e.action == Press {
        if !fullscreen {
          windowedPos := win.pos;
          windowedSize := win.size;
          win := win.(pos := (0, 0), size := (mode.width, mode.height), placement := OnPrimary(mode.refreshRate));
          win := win.(cursor := CursorDisabled);
          fullscreen := true;
        } else {
          win := win.(pos := windowedPos, size := windowedSize, placement := Windowed);
          win := win.(cursor := CursorNormal);
          fullscreen := false;
        }
      }
    }

    /** Polling the window system delivers the pending key events to the callback in order. */
    method PollEvents(events: seq<KeyEvent>, mode: VideoMode)
      modifies this
      ensures State() == Drain(old(State()), events, mode)
    {
      for i := 0 to |events|
        invariant State() == Drain(old(State()), events[..i], mode)
      {
        assert events[..i + 1][..i] == events[..i];
        KeyCallback(events[i], mode);
      }
      assert events[..|events|] == events;
    }
  }
}
