/**
 * The browser-side gesture hook (`useBrowserGestureRecognition` in
 * src/hooks/useBrowserGestureRecognition.ts): classifies each frame, passes
 * the label and the wrist height to the action debouncer, and publishes a
 * display record.
 */
module BrowserRecognition {
  import opened Wrappers
  import opened GestureClassifier
  import opened BrowserControls

  /** The display record (`BrowserGestureState`). */
  datatype BrowserGestureState = BrowserGestureState(
    currentGesture: Gesture,
    handPosition: Option<Position>,
    isHandDetected: bool,
    gestureConfidence: real)

  const InitialBrowserState := BrowserGestureState(NoGesture, None, false, 0.0)

  /**
   * The display record after one frame (lines 42-56): with a hand, the
   * label, the wrist scaled to the canvas and a fixed confidence; without
   * one, the previous label and position with detection off.
   */
  function NextState(prev: BrowserGestureState, landmarks: seq<Landmark>,
                     canvasWidth: real, canvasHeight: real): (s: BrowserGestureState)
    ensures s.isHandDetected <==> |landmarks| == LandmarkCount
    ensures s.gestureConfidence ==
      if |landmarks| != LandmarkCount then 0.0
      else if s.currentGesture != NoGesture then 0.8 else 0.3
    ensures |landmarks| == LandmarkCount ==>
      && s.currentGesture == ClassifyGesture(landmarks)
      && s.handPosition == Some(ToCanvas(Position(landmarks[0].x, landmarks[0].y), canvasWidth, canvasHeight))
    ensures |landmarks| != LandmarkCount ==>
      s.currentGesture == prev.currentGesture && s.handPosition == prev.handPosition
  {
    var gesture := ClassifyGesture(landmarks);
    var handCenter := GetHandCenter(landmarks);
    if handCenter.Some? then
      BrowserGestureState(
        gesture,
        Some(ToCanvas(handCenter.value, canvasWidth, canvasHeight)),
        true,
        if gesture != NoGesture then 0.8 else 0.3)
    else
      prev.(isHandDetected := false, gestureConfidence := 0.0)
  }

  class BrowserGestureRecognition {
    var state: BrowserGestureState
    const controls: BrowserGestureControls

    constructor ()
      ensures state == InitialBrowserState && fresh(controls)
      ensures controls.State() == InitialControls
    {
      state := InitialBrowserState;
      controls := new BrowserGestureControls();
    }

    /**
     * `processHandLandmarks`: with 21 landmarks the debouncer runs exactly
     * once, on the label and the wrist's normalised y; otherwise it does not
     * run at all.
     */
    method ProcessHandLandmarks(landmarks: seq<Landmark>, canvasWidth: real, canvasHeight: real,
                                now: int, frame: FrameAccess)
      returns (events: seq<ControlEvent>)
      modifies this, controls
      ensures state == NextState(old(state), landmarks, canvasWidth, canvasHeight)
      ensures |landmarks| == LandmarkCount ==>
        (controls.State(), events) ==
          ControlStep(old(controls.State()), ClassifyGesture(landmarks), landmarks[0].y, now, frame)
      ensures |landmarks| != LandmarkCount ==> events == [] && controls.State() == old(controls.State())
    {
      var gesture := ClassifyGesture(landmarks);
      var handCenter := GetHandCenter(landmarks);
      if handCenter.Some? {
        var normalized := handCenter.value;
        events := controls.ExecuteGestureAction(gesture, normalized.y, now, frame);
        state := BrowserGestureState(
          gesture,
          Some(ToCanvas(normalized, canvasWidth, canvasHeight)),
          true,
          if gesture != NoGesture then 0.8 else 0.3);
      } else {
        events := [];
        state := state.(isHandDetected := false, gestureConfidence := 0.0);
      }
    }

    /** `resetDetection`: the display record only; the debouncer's refs are kept. */
    method ResetDetection()
      modifies this`state
      ensures state == InitialBrowserState
      ensures unchanged(controls)
    {
      state := InitialBrowserState;
    }
  }
}
