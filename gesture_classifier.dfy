/**
 * The rule-based gesture classifier (`GestureClassifier` in
 * src/lib/gestureClassifier.ts): 21 hand landmarks become five
 * "finger up" bits, and the bits become one gesture label.
 */
module GestureClassifier {
  import opened Wrappers

  /** One MediaPipe hand landmark; x and y are normalised to the frame. */
  datatype Landmark = Landmark(x: real, y: real, z: real)

  /** A 2-D point, normalised or in canvas pixels depending on the caller. */
  datatype Position = Position(x: real, y: real)

  /** Normalised coordinates scaled to canvas pixels. */
  function ToCanvas(p: Position, canvasWidth: real, canvasHeight: real): Position {
    Position(p.x * canvasWidth, p.y * canvasHeight)
  }

  /** The labels `'point' | 'fist' | 'peace' | 'open_hand' | 'thumbs_up' | 'none'`. */
  datatype Gesture = Point | Fist | Peace | OpenHand | ThumbsUp | NoGesture

  const LandmarkCount: nat := 21

  /** Tips of thumb, index, middle, ring and pinky. */
  const FingerTipIds: seq<nat> := [4, 8, 12, 16, 20]

  /** The joint each tip is compared with (for the thumb the joint just below its tip). */
  const FingerPipIds: seq<nat> := [3, 6, 10, 14, 18]

  /** The bit `getFingersUp` stores for finger `i` (0 = thumb, ..., 4 = pinky). */
  function FingerBit(landmarks: seq<Landmark>, i: nat): (bit: int)
    requires |landmarks| == LandmarkCount && i < 5
    ensures bit == 0 || bit == 1
  {
    if i == 0 then
      (if landmarks[FingerTipIds[0]].x > landmarks[FingerTipIds[0] - 1].x then 1 else 0)
    else
      (if landmarks[FingerTipIds[i]].y < landmarks[FingerPipIds[i]].y then 1 else 0)
  }

  /** The five bits `[thumb, index, middle, ring, pinky]` that `getFingersUp` returns. */
  function FingersUp(landmarks: seq<Landmark>): (fingers: seq<int>)
    requires |landmarks| == LandmarkCount
  {
    [FingerBit(landmarks, 0), FingerBit(landmarks, 1), FingerBit(landmarks, 2),
     FingerBit(landmarks, 3), FingerBit(landmarks, 4)]
  }

  /**
   * `getFingersUp`: starts from five zeros and sets the thumb bit, then the
   * other four bits in a loop.
   */
  method GetFingersUp(landmarks: seq<Landmark>) returns (fingers: seq<int>)
    requires |landmarks| == LandmarkCount
    ensures |fingers| == 5
    ensures forall i :: 0 <= i < 5 ==> (fingers[i] == 0 || fingers[i] == 1)
    ensures forall i :: 0 <= i < 5 ==> (fingers[i] == 1 <==> Up(landmarks, i))
    ensures fingers == FingersUp(landmarks)
  {
    var bits := new int[5](_ => 0);
    if landmarks[FingerTipIds[0]].x > landmarks[FingerTipIds[0] - 1].x {
      bits[0] := 1;
    }
    for i := 1 to 5
      invariant bits[0] == FingerBit(landmarks, 0)
      invariant forall j :: 1 <= j < i ==> bits[j] == FingerBit(landmarks, j)
      invariant forall j :: i <= j < 5 ==> bits[j] == 0
    {
      if landmarks[FingerTipIds[i]].y < landmarks[FingerPipIds[i]].y {
        bits[i] := 1;
      }
    }
    fingers := bits[..];
    FingerBitIsUp(landmarks);
  }

  /** The precedence chain of `classifyGesture` over the finger bits. */
  function ClassifyFingers(fingers: seq<int>): Gesture
    requires |fingers| == 5
  {
    var count := fingers[0] + fingers[1] + fingers[2] + fingers[3] + fingers[4];
    if count == 0 then Fist
    else if count == 1 && fingers[1] == 1 then Point
    else if count == 2 && fingers[1] == 1 && fingers[2] == 1 then Peace
    else if count == 1 && fingers[0] == 1 then ThumbsUp
    else if count >= 4 then OpenHand
    else NoGesture
  }

  /** `classifyGesture`: anything but exactly 21 landmarks is `none`. */
  function ClassifyGesture(landmarks: seq<Landmark>): (g: Gesture)
    ensures |landmarks| != LandmarkCount ==> g == NoGesture
  {
    if |landmarks| != LandmarkCount then NoGesture
    else ClassifyFingers(FingersUp(landmarks))
  }

  /**
   * Finger `i` is up, stated on the landmark indices themselves: the thumb
   * tip (4) lies right of joint 3; finger i's tip (4i+4) lies strictly above
   * its joint 4i+2 (smaller y is higher in the image).
   */
  predicate Up(landmarks: seq<Landmark>, i: nat)
    requires |landmarks| == LandmarkCount && i < 5
  {
    if i == 0 then landmarks[4].x > landmarks[3].x
    else landmarks[4 * i + 4].y < landmarks[4 * i + 2].y
  }

  lemma FingerBitIsUp(landmarks: seq<Landmark>)
    requires |landmarks| == LandmarkCount
    ensures forall i :: 0 <= i < 5 ==> (FingerBit(landmarks, i) == 1 <==> Up(landmarks, i))
  {
    forall i | 0 <= i < 5
      ensures FingerBit(landmarks, i) == 1 <==> Up(landmarks, i)
    {
      assert FingerTipIds[i] == 4 * i + 4;
      assert i > 0 ==> FingerPipIds[i] == 4 * i + 2;
    }
  }

  /**
   * What each label means, in terms of which fingers are up. No smoothing:
   * the label is decided by the five `Up` facts alone, so a single finger
   * other than the index, or three fingers, give `none`.
   */
  lemma ClassifyGestureCases(landmarks: seq<Landmark>)
    requires |landmarks| == LandmarkCount
    ensures ClassifyGesture(landmarks) == Fist <==>
      forall i :: 0 <= i < 5 ==> !Up(landmarks, i)
    ensures ClassifyGesture(landmarks) == Point <==>
      Up(landmarks, 1) && forall i :: 0 <= i < 5 && i != 1 ==> !Up(landmarks, i)
    ensures ClassifyGesture(landmarks) == Peace <==>
      Up(landmarks, 1) && Up(landmarks, 2) && !Up(landmarks, 0) && !Up(landmarks, 3) && !Up(landmarks, 4)
    ensures ClassifyGesture(landmarks) == ThumbsUp <==>
      Up(landmarks, 0) && forall i :: 1 <= i < 5 ==> !Up(landmarks, i)
    ensures ClassifyGesture(landmarks) == OpenHand <==>
      forall i, j :: 0 <= i < j < 5 ==> Up(landmarks, i) || Up(landmarks, j)
  {
    FingerBitIsUp(landmarks);
    var u0, u1, u2, u3, u4 := Up(landmarks, 0), Up(landmarks, 1), Up(landmarks, 2), Up(landmarks, 3), Up(landmarks, 4);
    assert FingersUp(landmarks) == [if u0 then 1 else 0, if u1 then 1 else 0, if u2 then 1 else 0,
                                    if u3 then 1 else 0, if u4 then 1 else 0];
  }

  /**
   * The label depends on the five finger facts only: two hands that agree
   * on them get the same label whatever else differs (z is never read).
   */
  lemma ClassifyDependsOnlyOnFingers(a: seq<Landmark>, b: seq<Landmark>)
    requires |a| == LandmarkCount && |b| == LandmarkCount
    requires forall i :: 0 <= i < 5 ==> (Up(a, i) <==> Up(b, i))
    ensures ClassifyGesture(a) == ClassifyGesture(b)
  {
    FingerBitIsUp(a);
    FingerBitIsUp(b);
    assert FingersUp(a) == FingersUp(b);
  }

  /** `getFingerTipPosition`: the x, y of the tip landmark 4 * (fingerIndex + 1). */
  function GetFingerTipPosition(landmarks: seq<Landmark>, fingerIndex: int): (p: Option<Position>)
    ensures p.None? <==> |landmarks| != LandmarkCount || fingerIndex < 0 || fingerIndex > 4
    ensures p.Some? ==>
      p.value == Position(landmarks[4 * fingerIndex + 4].x, landmarks[4 * fingerIndex + 4].y)
  {
    if |landmarks| != LandmarkCount || fingerIndex < 0 || fingerIndex > 4 then None
    else
      var tip := landmarks[FingerTipIds[fingerIndex]];
      Some(Position(tip.x, tip.y))
  }

  /** `getHandCenter`: the wrist (landmark 0) stands for the centre of the hand. */
  function GetHandCenter(landmarks: seq<Landmark>): (p: Option<Position>)
    ensures p.None? <==> |landmarks| != LandmarkCount
    ensures p.Some? ==> p.value == Position(landmarks[0].x, landmarks[0].y)
  {
    if |landmarks| != LandmarkCount then None
    else Some(Position(landmarks[0].x, landmarks[0].y))
  }
}
