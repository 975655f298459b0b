/**
 * The keyboard-side gesture hook (`useGestureRecognition` in
 * src/hooks/useGestureRecognition.ts): runs the hover detector on each frame,
 * debounces fist -> backspace and peace -> space, and publishes a display
 * record. The React refs are fields of a class; callbacks are returned as
 * events, in the order the source invokes them.
 */
module KeyboardGestures {
  import opened Wrappers
  import opened GestureClassifier
  import opened VirtualKeyboard

  /** The display record (`GestureRecognitionState`). */
  datatype RecognitionState = RecognitionState(
    currentGesture: Gesture,
    fingerPosition: Option<Position>,
    hoveredKey: Option<string>,
    hoverProgress: real,
    isHandDetected: bool)

  const InitialState := RecognitionState(NoGesture, None, None, 0.0, false)

  /** The optional callbacks of `GestureActions`. */
  datatype KeyboardEvent = GestureChanged(gesture: Gesture) | Backspace | Space | KeyTyped(key: string)

  /** Minimum milliseconds between two backspaces (fist). */
  const BackspaceDebounce: int := 500
  /** Minimum milliseconds between two spaces (peace). */
  const SpaceDebounce: int := 800

  /** The four refs `lastBackspaceTime`, `lastSpaceTime`, `gestureHoldTime`, `lastGesture`. */
  datatype DebounceTimers = DebounceTimers(lastBackspaceTime: int, lastSpaceTime: int, gestureHoldTime: int, lastGesture: Gesture)

  const InitialTimers := DebounceTimers(0, 0, 0, NoGesture)

  /**
   * Lines 45-61 on a frame classified as `g` at time `now`: gesture-change
   * notification, then the two debounced actions.
   */
  function DebounceStep(t: DebounceTimers, g: Gesture, now: int): (out: (DebounceTimers, seq<KeyboardEvent>))
  {
    var changed := g != t.lastGesture;
    var backspace := g == Fist && now - t.lastBackspaceTime > BackspaceDebounce;
    var space := g == Peace && now - t.lastSpaceTime > SpaceDebounce;
    (DebounceTimers(
       if backspace then now else t.lastBackspaceTime,
       if space then now else t.lastSpaceTime,
       if changed then now else t.gestureHoldTime,
       g),
     (if changed then [GestureChanged(g)] else []) +
     (if backspace then [Backspace] else []) +
     (if space then [Space] else []))
  }

  /**
   * What DebounceStep promises: a change notice exactly on a change of label,
   * a backspace exactly on a fist more than 500 ms after the last one, a
   * space exactly on a peace more than 800 ms after the last one; never both
   * actions, and neither for any other label. The notice comes first and no
   * event occurs twice. Timers move only when their
   * event fires.
   */
  lemma DebounceStepSpec(t: DebounceTimers, g: Gesture, now: int)
    ensures var (t', events) := DebounceStep(t, g, now);
      && (GestureChanged(g) in events <==> g != t.lastGesture)
      && (g != t.lastGesture ==> events[0] == GestureChanged(g))
      && |events| == (if g != t.lastGesture then 1 else 0) + (if Backspace in events || Space in events then 1 else 0)
      && (forall h :: GestureChanged(h) in events ==> h == g)
      && (Backspace in events <==> g == Fist && now - t.lastBackspaceTime > 500)
      && (Space in events <==> g == Peace && now - t.lastSpaceTime > 800)
      && !(Backspace in events && Space in events)
      && (g !in {Fist, Peace} ==> Backspace !in events && Space !in events)
      && (forall e :: e in events ==> !e.KeyTyped?)
      && t'.lastGesture == g
      && t'.gestureHoldTime == (if g != t.lastGesture then now else t.gestureHoldTime)
      && t'.lastBackspaceTime == (if Backspace in events then now else t.lastBackspaceTime)
      && t'.lastSpaceTime == (if Space in events then now else t.lastSpaceTime)
  {
    var (t', events) := DebounceStep(t, g, now);
    var changed := g != t.lastGesture;
    var backspace := g == Fist && now - t.lastBackspaceTime > BackspaceDebounce;
    var space := g == Peace && now - t.lastSpaceTime > SpaceDebounce;
    assert events == (if changed then [GestureChanged(g)] else []) +
                     (if backspace then [Backspace] else []) + (if space then [Space] else []);
  }

  /** One frame of a trace: the label it was classified as and the clock. */
  datatype Frame = Frame(gesture: Gesture, now: int)

  /** The clock readings of the frames on which DebounceStep emits `e`. */
  function FiringTimes(t: DebounceTimers, frames: seq<Frame>, e: KeyboardEvent): seq<int>
    decreases |frames|
  {
    if frames == [] then []
    else
      var step := DebounceStep(t, frames[0].gesture, frames[0].now);
      (if e in step.1 then [frames[0].now] else []) + FiringTimes(step.0, frames[1..], e)
  }

  /** The debounce window of a debounced event, and the timer that guards it. */
  function Window(e: KeyboardEvent): int {
    if e == Backspace then BackspaceDebounce else SpaceDebounce
  }

  function LastFired(t: DebounceTimers, e: KeyboardEvent): int {
    if e == Backspace then t.lastBackspaceTime else t.lastSpaceTime
  }

  /** Every time in `s` is more than `window` after `start` and after every earlier time in `s`. */
  predicate Spaced(s: seq<int>, start: int, window: int) {
    && (forall i :: 0 <= i < |s| ==> start + window < s[i])
    && (forall i, j :: 0 <= i < j < |s| ==> s[i] + window < s[j])
  }

  /**
   * Over any trace, whatever the clock does, two backspaces are more than
   * 500 ms apart and two spaces more than 800 ms apart, and the first one
   * comes more than the window after the timer's starting value.
   */
  lemma {:induction false} FiringsAreSpaced(t: DebounceTimers, frames: seq<Frame>, e: KeyboardEvent)
    requires e == Backspace || e == Space
    ensures Spaced(FiringTimes(t, frames, e), LastFired(t, e), Window(e))
    decreases |frames|
  {
    if frames != [] {
      var step := DebounceStep(t, frames[0].gesture, frames[0].now);
      DebounceStepSpec(t, frames[0].gesture, frames[0].now);
      FiringsAreSpaced(step.0, frames[1..], e);
      var rest := FiringTimes(step.0, frames[1..], e);
      if e in step.1 {
        assert LastFired(step.0, e) == frames[0].now;
        assert FiringTimes(t, frames, e) == [frames[0].now] + rest;
      } else {
        assert LastFired(step.0, e) == LastFired(t, e);
        assert FiringTimes(t, frames, e) == rest;
      }
    }
  }

  /**
   * No key is ever typed: whenever the detector reports `shouldType` its
   * hovered key is already null, so the guard `shouldType && hoveredKey`
   * of line 64 never holds.
   */
  lemma KeyTypeNeverFires(h: HoverState, keys: seq<KeyboardKey>, landmarks: seq<Landmark>,
                          canvasWidth: real, canvasHeight: real)
    requires Inv(h)
    ensures var r := Detect(h, keys, landmarks, canvasWidth, canvasHeight).1;
      !(r.shouldType && r.hoveredKey.Some? && r.hoveredKey.value != "")
  {
  }

  class GestureRecognition {
    const detector: VirtualKeyboardDetector
    var lastBackspaceTime: int
    var lastSpaceTime: int
    var gestureHoldTime: int
    var lastGesture: Gesture
    var state: RecognitionState

    ghost predicate Valid()
      reads this, detector
    {
      detector.Valid()
    }

    function Timers(): DebounceTimers
      reads this
    {
      DebounceTimers(lastBackspaceTime, lastSpaceTime, gestureHoldTime, lastGesture)
    }

    constructor ()
      ensures Valid() && fresh(detector)
      ensures detector.hoverState == Idle && detector.keyboardKeys == []
      ensures Timers() == InitialTimers && state == InitialState
    {
      detector := new VirtualKeyboardDetector();
      lastBackspaceTime, lastSpaceTime, gestureHoldTime := 0, 0, 0;
      lastGesture := NoGesture;
      state := InitialState;
    }

    /**
     * `processHandLandmarks`: one camera frame with a hand in it. The
     * detector reads the same clock value `now`.
     */
    method ProcessHandLandmarks(landmarks: seq<Landmark>, canvasWidth: real, canvasHeight: real, now: int)
      returns (events: seq<KeyboardEvent>)
      requires Valid()
      modifies this, detector
      ensures Valid()
      ensures var d := Detect(old(detector.hoverState), old(detector.keyboardKeys), landmarks, canvasWidth, canvasHeight);
        && detector.hoverState == d.0
        && DebounceStep(old(Timers()), d.1.gesture, now) == (Timers(), events)
        && state == RecognitionState(d.1.gesture, d.1.fingerPosition, d.1.hoveredKey, d.0.confidence, true)
      ensures detector.keyboardKeys == old(detector.keyboardKeys)
      ensures state.isHandDetected && state.hoverProgress == detector.hoverState.confidence
      ensures forall e :: e in events ==> !e.KeyTyped?
    {
      var result := detector.DetectKeyHover(landmarks, canvasWidth, canvasHeight, now);
      events := [];
      ghost var changed := result.gesture != lastGesture;
      ghost var backspace := result.gesture == Fist && now - lastBackspaceTime > BackspaceDebounce;
      ghost var space := result.gesture == Peace && now - lastSpaceTime > SpaceDebounce;

      if result.gesture != lastGesture {
        lastGesture := result.gesture;
        gestureHoldTime := now;
        events := events + [GestureChanged(result.gesture)];
      }

      if result.gesture == Fist && now - lastBackspaceTime > BackspaceDebounce {
        events := events + [Backspace];
        lastBackspaceTime := now;
      }

      if result.gesture == Peace && now - lastSpaceTime > SpaceDebounce {
        events := events + [Space];
        lastSpaceTime := now;
      }

      assert events == (if changed then [GestureChanged(result.gesture)] else []) +
                       (if backspace then [Backspace] else []) + (if space then [Space] else []);
      match result.hoveredKey {
        case Some(key) =>
          if result.shouldType && key != "" {
            events := events + [KeyTyped(key)];
          }
        case None =>
      }

      var progress := detector.GetHoverProgress();
      state := RecognitionState(result.gesture, result.fingerPosition, result.hoveredKey, progress, true);
      DebounceStepSpec(old(Timers()), result.gesture, now);
    }

    /** `setKeyboardLayout`: hands the layout to the detector. */
    method SetKeyboardLayout(keys: seq<KeyboardKey>)
      requires Valid()
      modifies detector
      ensures Valid()
      ensures detector.keyboardKeys == keys && detector.hoverState == old(detector.hoverState)
    {
      detector.SetKeyboardLayout(keys);
    }

    /**
     * `resetDetection`: only the display record returns to its initial
     * value; the detector's hover record and all four refs are kept.
     */
    method ResetDetection()
      requires Valid()
      modifies this`state
      ensures Valid()
      ensures state == InitialState
      ensures Timers() == old(Timers())
      ensures unchanged(detector)
    {
      state := InitialState;
    }
  }
}
