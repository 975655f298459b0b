/**
 * The older classifier `recognizeGesture` (src/utils/gestureRecognition.ts).
 * It tests other joints than `GestureClassifier` (tips against the base
 * joints, the thumb vertically), uses another precedence, and attaches a
 * fixed confidence to each label.
 */
module LegacyRecognizer {
  import opened Wrappers

  /** `HandLandmark` of src/types/handDetection.ts: z is optional. */
  datatype HandLandmark = HandLandmark(x: real, y: real, z: Option<real>)

  /** `'point' | 'fist' | 'peace' | 'palm' | 'unknown'`. */
  datatype GestureKind = Point | Fist | Peace | Palm | Unknown

  /** `HandGesture`: the label, its confidence and, when recognised, the input. */
  datatype HandGesture = HandGesture(kind: GestureKind, confidence: real, landmarks: Option<seq<HandLandmark>>)

  /** `filter(Boolean).length`. */
  function CountTrue(flags: seq<bool>): (n: nat)
    ensures n <= |flags|
  {
    if flags == [] then 0 else (if flags[0] then 1 else 0) + CountTrue(flags[1..])
  }

  function RecognizeGesture(landmarks: seq<HandLandmark>): (g: HandGesture)
    ensures |landmarks| < 21 ==> g == HandGesture(Unknown, 0.0, None)
  {
    if |landmarks| < 21 then HandGesture(Unknown, 0.0, None)
    else
      var isThumbUp := landmarks[4].y < landmarks[3].y;
      var isIndexUp := landmarks[8].y < landmarks[5].y;
      var isMiddleUp := landmarks[12].y < landmarks[9].y;
      var isRingUp := landmarks[16].y < landmarks[13].y;
      var isPinkyUp := landmarks[20].y < landmarks[17].y;
      var extendedFingers := CountTrue([isThumbUp, isIndexUp, isMiddleUp, isRingUp, isPinkyUp]);
      if isIndexUp && !isMiddleUp && !isRingUp && !isPinkyUp then HandGesture(Point, 0.9, Some(landmarks))
      else if isIndexUp && isMiddleUp && !isRingUp && !isPinkyUp then HandGesture(Peace, 0.85, Some(landmarks))
      else if extendedFingers <= 1 then HandGesture(Fist, 0.8, Some(landmarks))
      else if extendedFingers >= 4 then HandGesture(Palm, 0.75, Some(landmarks))
      else HandGesture(Unknown, 0.5, Some(landmarks))
  }

  /**
   * Finger `i` is extended, on the landmark indices: the thumb tip (4) is
   * above joint 3; finger i's tip (4i+4) is strictly above its base joint
   * (4i+1).
   */
  predicate Extended(landmarks: seq<HandLandmark>, i: nat)
    requires |landmarks| >= 21 && i < 5
  {
    if i == 0 then landmarks[4].y < landmarks[3].y
    else landmarks[4 * i + 4].y < landmarks[4 * i + 1].y
  }

  /** The confidence attached to each recognised label. */
  function Confidence(kind: GestureKind): real {
    match kind
    case Point => 0.9
    case Peace => 0.85
    case Fist => 0.8
    case Palm => 0.75
    case Unknown => 0.5
  }

  /**
   * What each label means for 21 or more landmarks: point and peace ignore
   * the thumb; fist is "at most one finger extended, and not the index"
   * (so thumb-only is a fist); palm is "no two fingers folded"; the
   * confidence is fixed per label and the input is attached.
   */
  lemma RecognizeGestureCases(landmarks: seq<HandLandmark>)
    requires |landmarks| >= 21
    ensures var g := RecognizeGesture(landmarks);
      && g.landmarks == Some(landmarks)
      && g.confidence == Confidence(g.kind)
      && (g.kind == Point <==>
            Extended(landmarks, 1) && !Extended(landmarks, 2) && !Extended(landmarks, 3) && !Extended(landmarks, 4))
      && (g.kind == Peace <==>
            Extended(landmarks, 1) && Extended(landmarks, 2) && !Extended(landmarks, 3) && !Extended(landmarks, 4))
      && (g.kind == Fist <==>
            !Extended(landmarks, 1) && forall i, j :: 0 <= i < j < 5 ==> !(Extended(landmarks, i) && Extended(landmarks, j)))
      && (g.kind == Palm <==>
            forall i, j :: 0 <= i < j < 5 ==> Extended(landmarks, i) || Extended(landmarks, j))
  {
    var e0, e1, e2, e3, e4 := Extended(landmarks, 0), Extended(landmarks, 1), Extended(landmarks, 2),
                              Extended(landmarks, 3), Extended(landmarks, 4);
    CountTrueOfFive([e0, e1, e2, e3, e4]);
  }

  lemma CountTrueOfFive(f: seq<bool>)
    requires |f| == 5
    ensures CountTrue(f) ==
      (if f[0] then 1 else 0) + (if f[1] then 1 else 0) + (if f[2] then 1 else 0) +
      (if f[3] then 1 else 0) + (if f[4] then 1 else 0)
  {
    assert f[4..][1..] == [];
    assert f[3..][1..] == f[4..];
    assert f[2..][1..] == f[3..];
    assert f[1..][1..] == f[2..];
    assert CountTrue(f[4..]) == (if f[4] then 1 else 0);
    assert CountTrue(f[3..]) == (if f[3] then 1 else 0) + CountTrue(f[4..]);
    assert CountTrue(f[2..]) == (if f[2] then 1 else 0) + CountTrue(f[3..]);
    assert CountTrue(f[1..]) == (if f[1] then 1 else 0) + CountTrue(f[2..]);
  }

  /** A raised thumb alone is a fist to this classifier. */
  lemma ThumbOnlyIsFist(landmarks: seq<HandLandmark>)
    requires |landmarks| >= 21
    requires Extended(landmarks, 0) && forall i :: 1 <= i < 5 ==> !Extended(landmarks, i)
    ensures RecognizeGesture(landmarks).kind == Fist && RecognizeGesture(landmarks).confidence == 0.8
  {
    RecognizeGestureCases(landmarks);
    assert !Extended(landmarks, 1) && !Extended(landmarks, 2) && !Extended(landmarks, 3) && !Extended(landmarks, 4);
  }

  /** Landmarks past the 21st are ignored. */
  lemma ExtraLandmarksIgnored(landmarks: seq<HandLandmark>, extra: seq<HandLandmark>)
    requires |landmarks| >= 21
    ensures RecognizeGesture(landmarks + extra).kind == RecognizeGesture(landmarks).kind
    ensures RecognizeGesture(landmarks + extra).confidence == RecognizeGesture(landmarks).confidence
  {
    var joined := landmarks + extra;
    assert forall i :: 0 <= i < 21 ==> joined[i] == landmarks[i];
  }
}
