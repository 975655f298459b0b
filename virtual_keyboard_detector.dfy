/**
 * The hover-to-type state machine (`VirtualKeyboardDetector` in
 * src/lib/virtualKeyboardDetector.ts). A pointing fingertip that stays over
 * the same key rectangle for 30 consecutive frames "types" that key.
 */
module VirtualKeyboard {
  import opened Wrappers
  import opened GestureClassifier

  /** An on-screen key rectangle in canvas pixels. */
  datatype KeyboardKey = KeyboardKey(key: string, x: real, y: real, width: real, height: real)

  /** The `{key, confidence, duration}` record; `duration` counts frames. */
  datatype HoverState = HoverState(key: Option<string>, confidence: real, duration: nat)

  /** What `detectKeyHover` returns for one frame. */
  datatype HoverResult = HoverResult(
    hoveredKey: Option<string>,
    gesture: Gesture,
    shouldType: bool,
    fingerPosition: Option<Position>)

  /** Frames of continuous hovering that make a key press (`hoverThreshold`). */
  const HoverThreshold: nat := 30

  const Idle := HoverState(None, 0.0, 0)

  /** The rectangle contains the point; all four edges are inclusive. */
  predicate Contains(k: KeyboardKey, x: real, y: real) {
    x >= k.x && x <= k.x + k.width && y >= k.y && y <= k.y + k.height
  }

  /** The key of the first rectangle in layout order that contains the point. */
  function KeyAt(keys: seq<KeyboardKey>, x: real, y: real): Option<string>
  {
    if keys == [] then None
    else if Contains(keys[0], x, y) then Some(keys[0].key)
    else KeyAt(keys[1..], x, y)
  }

  /** KeyAt is "first match wins"; no match (e.g. an empty layout) gives no key. */
  lemma {:induction false} KeyAtIsFirstMatch(keys: seq<KeyboardKey>, x: real, y: real)
    ensures KeyAt(keys, x, y).None? <==> forall i :: 0 <= i < |keys| ==> !Contains(keys[i], x, y)
    ensures KeyAt(keys, x, y).Some? ==>
      exists i :: 0 <= i < |keys| && Contains(keys[i], x, y) && KeyAt(keys, x, y).value == keys[i].key &&
        forall j :: 0 <= j < i ==> !Contains(keys[j], x, y)
  {
    if keys != [] && !Contains(keys[0], x, y) {
      KeyAtIsFirstMatch(keys[1..], x, y);
      if KeyAt(keys, x, y).Some? {
        var i :| 0 <= i < |keys[1..]| && Contains(keys[1..][i], x, y) && KeyAt(keys[1..], x, y).value == keys[1..][i].key &&
          forall j :: 0 <= j < i ==> !Contains(keys[1..][j], x, y);
        assert forall j :: 0 <= j < i + 1 ==> !Contains(keys[j], x, y) by {
          forall j | 0 <= j < i + 1 ensures !Contains(keys[j], x, y) {
            if j > 0 { assert keys[j] == keys[1..][j - 1]; }
          }
        }
      } else {
        forall i | 0 <= i < |keys| ensures !Contains(keys[i], x, y) {
          if i > 0 { assert keys[i] == keys[1..][i - 1]; }
        }
      }
    }
  }

  /** `Math.min`. */
  function Min(a: real, b: real): real {
    if a <= b then a else b
  }

  /**
   * One pointing frame whose fingertip lies over `hovered` (lines 49-80):
   * the new hover record and whether a key press fires. A hovered key that is
   * the empty string is falsy in the source and counts as no key.
   */
  function HoverStep(h: HoverState, hovered: Option<string>): (HoverState, bool)
  {
    var next :=
      if hovered.Some? && hovered.value != "" then
        if h.key == hovered then
          HoverState(h.key, Min(100.0, (h.duration + 1) as real / HoverThreshold as real * 100.0), h.duration + 1)
        else
          HoverState(hovered, 0.0, 1)
      else Idle;
    var fire := next.duration >= HoverThreshold;
    (if fire then Idle else next, fire)
  }

  /** The confidence a record of `duration` frames carries: 0 for a fresh key. */
  function Progress(duration: nat): real {
    if duration <= 1 then 0.0 else duration as real * 100.0 / HoverThreshold as real
  }

  /**
   * The invariant kept between calls: fewer than 30 frames, a key exactly
   * when some frames were counted, a non-empty key, and the confidence that
   * goes with the frame count (so within 0..100).
   */
  predicate Inv(h: HoverState) {
    && h.duration < HoverThreshold
    && (h.key.None? <==> h.duration == 0)
    && (h.key.Some? ==> h.key.value != "")
    && h.confidence == Progress(h.duration)
    && 0.0 <= h.confidence <= 100.0
  }

  /**
   * One frame from a record that keeps the invariant: the invariant is kept;
   * a new non-empty key restarts at one frame and confidence 0; the same key
   * counts one more frame, firing (and going idle) exactly at the 30th; no
   * key, or the empty key, resets without firing.
   */
  lemma HoverStepKeepsInv(h: HoverState, hovered: Option<string>)
    requires Inv(h)
    ensures Inv(HoverStep(h, hovered).0)
    ensures HoverStep(h, hovered).1 ==> HoverStep(h, hovered).0 == Idle
    ensures hovered.Some? && hovered.value != "" && h.key != hovered ==>
      HoverStep(h, hovered) == (HoverState(hovered, 0.0, 1), false)
    ensures hovered.Some? && hovered.value != "" && h.key == hovered && h.duration + 1 < HoverThreshold ==>
      HoverStep(h, hovered) == (HoverState(hovered, Progress(h.duration + 1), h.duration + 1), false)
    ensures hovered.Some? && hovered.value != "" && h.key == hovered && h.duration + 1 == HoverThreshold ==>
      HoverStep(h, hovered) == (Idle, true)
    ensures hovered.None? || hovered == Some("") ==> HoverStep(h, hovered) == (Idle, false)
  {
    var d := h.duration + 1;
    if hovered.Some? && hovered.value != "" && h.key == hovered && d < HoverThreshold {
      assert (d as real) / 30.0 * 100.0 == d as real * 100.0 / 30.0;
      assert d as real * 100.0 / 30.0 <= 100.0;
    }
  }

  /** `n` copies of `x`. */
  function Repeat<T>(x: T, n: nat): (s: seq<T>)
    ensures |s| == n && forall i :: 0 <= i < n ==> s[i] == x
  {
    if n == 0 then [] else Repeat(x, n - 1) + [x]
  }

  /** Feed HoverStep a sequence of hovered keys; the final record and the fire flags. */
  function HoverRun(h: HoverState, hovered: seq<Option<string>>): (HoverState, seq<bool>)
  {
    if hovered == [] then (h, [])
    else
      var (h1, fired) := HoverRun(h, hovered[..|hovered| - 1]);
      var (h2, f) := HoverStep(h1, hovered[|hovered| - 1]);
      (h2, fired + [f])
  }

  /** From idle, 1 <= n < 30 frames over one key count n frames and fire nothing. */
  lemma {:induction false} DwellBelowThreshold(key: string, n: nat)
    requires key != "" && 1 <= n < HoverThreshold
    ensures HoverRun(Idle, Repeat(Some(key), n)) == (HoverState(Some(key), Progress(n), n), Repeat(false, n))
  {
    var s := Repeat(Some(key), n);
    assert s[..n - 1] == Repeat(Some(key), n - 1);
    if n > 1 {
      DwellBelowThreshold(key, n - 1);
      assert (n as real) / 30.0 * 100.0 == n as real * 100.0 / 30.0;
    }
  }

  /**
   * Dwell-to-type: from idle, the 30th consecutive frame over one key is the
   * first that fires, and it leaves the detector idle again.
   */
  lemma DwellFiresAtThreshold(key: string)
    requires key != ""
    ensures HoverRun(Idle, Repeat(Some(key), HoverThreshold)) == (Idle, Repeat(false, HoverThreshold - 1) + [true])
  {
    var s := Repeat(Some(key), HoverThreshold);
    assert s[..HoverThreshold - 1] == Repeat(Some(key), HoverThreshold - 1);
    DwellBelowThreshold(key, HoverThreshold - 1);
  }

  /**
   * `detectKeyHover` on one frame (lines 30-88), with the previous hover
   * record and the layout: the new hover record and the result.
   */
  function Detect(h: HoverState, keys: seq<KeyboardKey>, landmarks: seq<Landmark>,
                  canvasWidth: real, canvasHeight: real): (out: (HoverState, HoverResult))
    requires Inv(h)
    ensures Inv(out.0)
    ensures out.1.gesture == ClassifyGesture(landmarks)
    ensures out.1.shouldType ==> out.1.hoveredKey.None? && out.0 == Idle
    ensures out.1.hoveredKey == out.0.key
    ensures out.1.gesture != Point ==>
      out.0 == Idle && out.1 == HoverResult(None, out.1.gesture, false, GetFingerTipPosition(landmarks, 1))
    ensures out.1.gesture == Point ==>
      GetFingerTipPosition(landmarks, 1).Some? &&
      var canvas := ToCanvas(GetFingerTipPosition(landmarks, 1).value, canvasWidth, canvasHeight);
      var step := HoverStep(h, KeyAt(keys, canvas.x, canvas.y));
      out.0 == step.0 && out.1 == HoverResult(step.0.key, Point, step.1, Some(canvas))
  {
    var gesture := ClassifyGesture(landmarks);
    var fingerPos := GetFingerTipPosition(landmarks, 1);
    if fingerPos.None? || gesture != Point then
      (Idle, HoverResult(None, gesture, false, fingerPos))
    else
      var canvas := ToCanvas(fingerPos.value, canvasWidth, canvasHeight);
      var step := HoverStep(h, KeyAt(keys, canvas.x, canvas.y));
      HoverStepKeepsInv(h, KeyAt(keys, canvas.x, canvas.y));
      (step.0, HoverResult(step.0.key, gesture, step.1, Some(canvas)))
  }

  class VirtualKeyboardDetector {
    var hoverState: HoverState
    var keyboardKeys: seq<KeyboardKey>
    /** Written on every gesture change and never read. */
    var lastGesture: Gesture
    /** Written on every gesture change and never read. */
    var gestureChangeTime: int

    ghost predicate Valid()
      reads this
    {
      Inv(hoverState)
    }

    constructor ()
      ensures Valid()
      ensures hoverState == Idle && keyboardKeys == []
      ensures lastGesture == NoGesture && gestureChangeTime == 0
    {
      hoverState := Idle;
      keyboardKeys := [];
      lastGesture := NoGesture;
      gestureChangeTime := 0;
    }

    /** Replaces the layout; the hover record is kept as it is. */
    method SetKeyboardLayout(keys: seq<KeyboardKey>)
      requires Valid()
      modifies this
      ensures Valid()
      ensures keyboardKeys == keys
      ensures hoverState == old(hoverState)
      ensures lastGesture == old(lastGesture) && gestureChangeTime == old(gestureChangeTime)
    {
      keyboardKeys := keys;
    }

    /** `findHoveredKey`: scans the layout and returns at the first hit. */
    method FindHoveredKey(x: real, y: real) returns (key: Option<string>)
      ensures key == KeyAt(keyboardKeys, x, y)
    {
      for i := 0 to |keyboardKeys|
        invariant KeyAt(keyboardKeys[i..], x, y) == KeyAt(keyboardKeys, x, y)
      {
        assert keyboardKeys[i..][1..] == keyboardKeys[i + 1..];
        if Contains(keyboardKeys[i], x, y) {
          return Some(keyboardKeys[i].key);
        }
      }
      return None;
    }

    method ResetHover()
      modifies this
      ensures hoverState == Idle
      ensures keyboardKeys == old(keyboardKeys)
      ensures lastGesture == old(lastGesture) && gestureChangeTime == old(gestureChangeTime)
    {
      hoverState := Idle;
    }

    /** `getHoverProgress`: the current confidence, a percentage. */
    method GetHoverProgress() returns (progress: real)
      requires Valid()
      ensures progress == hoverState.confidence
      ensures 0.0 <= progress <= 100.0
    {
      progress := hoverState.confidence;
    }

    /**
     * `detectKeyHover`. The clock reading `now` is a parameter; it only
     * reaches `gestureChangeTime`, which nothing reads.
     */
    method DetectKeyHover(landmarks: seq<Landmark>, canvasWidth: real, canvasHeight: real, now: int)
      returns (result: HoverResult)
      requires Valid()
      modifies this
      ensures Valid()
      ensures (hoverState, result) == Detect(old(hoverState), keyboardKeys, landmarks, canvasWidth, canvasHeight)
      ensures keyboardKeys == old(keyboardKeys)
      ensures lastGesture == result.gesture
      ensures gestureChangeTime == if result.gesture != old(lastGesture) then now else old(gestureChangeTime)
    {
      var gesture := ClassifyGesture(landmarks);
      if gesture != lastGesture {
        lastGesture := gesture;
        gestureChangeTime := now;
      }

      var fingerPos := GetFingerTipPosition(landmarks, 1);
      if fingerPos.None? || gesture != Point {
        ResetHover();
        return HoverResult(None, gesture, false, fingerPos);
      }

      var canvas := ToCanvas(fingerPos.value, canvasWidth, canvasHeight);
      var hoveredKey := FindHoveredKey(canvas.x, canvas.y);

      if hoveredKey.Some? && hoveredKey.value != "" {
        if hoverState.key == hoveredKey {
          hoverState := hoverState.(duration := hoverState.duration + 1);
          hoverState := hoverState.(confidence :=
            Min(100.0, hoverState.duration as real / HoverThreshold as real * 100.0));
        } else {
          hoverState := HoverState(hoveredKey, 0.0, 1);
        }
      } else {
        ResetHover();
      }

      var shouldType := hoverState.duration >= HoverThreshold;
      if shouldType {
        ResetHover();
      }
      result := HoverResult(hoverState.key, gesture, shouldType, Some(canvas));
    }
  }
}
