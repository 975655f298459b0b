/**
 * The browser-side action debouncer (`executeGestureAction` of
 * `useBrowserGestureControls` in src/hooks/useBrowserGestureControls.ts).
 * Effects on the embedded frame (`scrollBy`, `postMessage`) and the action
 * callbacks are returned as events, in the order the source performs them.
 */
module BrowserControls {
  import opened Wrappers
  import opened GestureClassifier

  /** The callbacks of `BrowserGestureActions`. */
  datatype BrowserAction = ScrollUp | ScrollDown | ZoomIn | ZoomOut | GoBack

  /** The `action` of a `{type: 'zoom'}` message posted to the frame. */
  datatype ZoomCommand = In | Out | Reset

  datatype ControlEvent =
    | FrameScroll(dy: int)          // iframeDoc.body.scrollBy(0, dy)
    | FrameZoom(command: ZoomCommand)  // contentWindow.postMessage
    | Notify(action: BrowserAction)  // actions?.onXxx()

  /**
   * The embedded frame as `executeGestureAction` finds it: absent
   * (`iframeRef.current` is null), present but its document cannot be
   * reached (a cross-origin access throws), or reachable.
   */
  datatype FrameAccess = NoFrame | AccessBlocked | Accessible

  /** The refs `lastGestureTime`, `gestureHoldTime` and `currentGesture`. */
  datatype ControlState = ControlState(lastGestureTime: int, gestureHoldTime: int, currentGesture: Gesture)

  const InitialControls := ControlState(0, 0, NoGesture)

  /** Milliseconds that must pass after an action before the next call does anything. */
  const DebounceTime: int := 300
  /** A fist held longer than this goes back instead of zooming out. */
  const GoBackHold: int := 1000
  /** Open hand above this height (normalised y) scrolls up. */
  const ScrollUpBelow: real := 0.4
  /** Open hand below this height scrolls down. */
  const ScrollDownAbove: real := 0.6
  /** Pixels per scroll step. */
  const ScrollStep: int := 100

  /** The action callback among `events`, if any. */
  function Callbacks(events: seq<ControlEvent>): seq<BrowserAction>
  {
    if events == [] then []
    else (if events[0].Notify? then [events[0].action] else []) + Callbacks(events[1..])
  }

  /** A frame effect followed by a callback yields that one callback. */
  lemma CallbacksOfPair(effect: ControlEvent, callback: ControlEvent)
    requires !effect.Notify? && callback.Notify?
    ensures Callbacks([effect, callback]) == [callback.action]
  {
    assert [callback][1..] == [];
    assert Callbacks([callback]) == [callback.action] + Callbacks([]);
    assert [effect, callback][1..] == [callback];
    assert Callbacks([effect, callback]) == [] + Callbacks([callback]);
  }

  /**
   * One call of `executeGestureAction(gesture, handY)` at time `now`
   * (lines 21-92): the new refs and what was done.
   */
  function ControlStep(c: ControlState, gesture: Gesture, handY: real, now: int, frame: FrameAccess)
    : (out: (ControlState, seq<ControlEvent>))
  {
    if now - c.lastGestureTime < DebounceTime then (c, [])
    else
      var tracked := if gesture != c.currentGesture then ControlState(c.lastGestureTime, now, gesture) else c;
      if frame != Accessible then (tracked, [])
      else
        var acted := tracked.(lastGestureTime := now);
        match gesture
        case OpenHand =>
          if handY < ScrollUpBelow then (acted, [FrameScroll(-ScrollStep), Notify(ScrollUp)])
          else if handY > ScrollDownAbove then (acted, [FrameScroll(ScrollStep), Notify(ScrollDown)])
          else (acted, [])
        case ThumbsUp => (acted, [FrameZoom(In), Notify(ZoomIn)])
        case Fist =>
          if now - tracked.gestureHoldTime > GoBackHold then (acted, [Notify(GoBack)])
          else (acted, [FrameZoom(Out), Notify(ZoomOut)])
        case Peace => (acted, [FrameZoom(Reset)])
        case _ => (tracked, [])
  }

  /**
   * Within 300 ms of the last action nothing happens at all; exactly 300 ms
   * later the call goes through. Outside the window a new label becomes
   * `currentGesture` with its hold starting now.
   */
  lemma DebounceWindow(c: ControlState, gesture: Gesture, handY: real, now: int, frame: FrameAccess)
    ensures now - c.lastGestureTime < 300 ==> ControlStep(c, gesture, handY, now, frame) == (c, [])
    ensures now - c.lastGestureTime >= 300 ==>
      && ControlStep(c, gesture, handY, now, frame).0.currentGesture == gesture
      && ControlStep(c, gesture, handY, now, frame).0.gestureHoldTime ==
           (if gesture != c.currentGesture then now else c.gestureHoldTime)
  {
  }

  /**
   * The outcome by label, for a call outside the debounce window with the
   * frame reachable: open hand scrolls the frame by 100 pixels up or down by
   * height with a dead zone 0.4..0.6, thumbs up zooms the frame in, a fist held more than 1000 ms goes back and
   * otherwise zooms out, peace only resets the frame's zoom; these four
   * record the time, while point and none do nothing. A missing or
   * unreachable frame does nothing and leaves `lastGestureTime` alone.
   */
  lemma ControlStepActions(c: ControlState, gesture: Gesture, handY: real, now: int, frame: FrameAccess)
    requires now - c.lastGestureTime >= DebounceTime
    ensures var (c', events) := ControlStep(c, gesture, handY, now, frame);
      var hold := now - (if gesture != c.currentGesture then now else c.gestureHoldTime);
      && (frame != Accessible ==> events == [] && c'.lastGestureTime == c.lastGestureTime)
      && (frame == Accessible ==>
        && (gesture in {OpenHand, ThumbsUp, Fist, Peace} <==> c'.lastGestureTime == now)
        && (gesture in {Point, NoGesture} ==> events == [] && c'.lastGestureTime == c.lastGestureTime)
        && (gesture == OpenHand ==>
             && (handY < 0.4 <==> Callbacks(events) == [ScrollUp])
             && (handY > 0.6 <==> Callbacks(events) == [ScrollDown])
             && (0.4 <= handY <= 0.6 <==> events == []))
        && (gesture == OpenHand && handY < 0.4 ==> events == [FrameScroll(-100), Notify(ScrollUp)])
        && (gesture == OpenHand && handY > 0.6 ==> events == [FrameScroll(100), Notify(ScrollDown)])
        && (gesture == ThumbsUp ==> Callbacks(events) == [ZoomIn] && events == [FrameZoom(In), Notify(ZoomIn)])
        && (gesture == Fist ==> Callbacks(events) == (if hold > 1000 then [GoBack] else [ZoomOut]))
        && (gesture == Fist ==>
             events == (if hold > 1000 then [Notify(GoBack)] else [FrameZoom(Out), Notify(ZoomOut)]))
        && (gesture == Fist && gesture != c.currentGesture ==> Callbacks(events) == [ZoomOut])
        && (gesture == Peace ==> Callbacks(events) == [] && events == [FrameZoom(Reset)]))
  {
    assert c.lastGestureTime <= now - 300;
    var (c', events) := ControlStep(c, gesture, handY, now, frame);
    if frame == Accessible {
      match gesture
      case OpenHand =>
        CallbacksOfPair(FrameScroll(-ScrollStep), Notify(ScrollUp));
        CallbacksOfPair(FrameScroll(ScrollStep), Notify(ScrollDown));
      case ThumbsUp =>
        CallbacksOfPair(FrameZoom(In), Notify(ZoomIn));
      case Fist =>
        CallbacksOfPair(FrameZoom(Out), Notify(ZoomOut));
        assert Callbacks([Notify(GoBack)]) == [GoBack];
      case Peace =>
        assert Callbacks(events) == [];
      case _ =>
    }
  }

  /** At most one callback per call, and the time is recorded whenever one fires. */
  lemma AtMostOneCallback(c: ControlState, gesture: Gesture, handY: real, now: int, frame: FrameAccess)
    ensures |Callbacks(ControlStep(c, gesture, handY, now, frame).1)| <= 1
    ensures |Callbacks(ControlStep(c, gesture, handY, now, frame).1)| == 1 ==>
      ControlStep(c, gesture, handY, now, frame).0.lastGestureTime == now && now >= c.lastGestureTime + 300
  {
    if now - c.lastGestureTime >= DebounceTime {
      ControlStepActions(c, gesture, handY, now, frame);
    }
  }

  /** One call of a trace: label, wrist height, clock and frame. */
  datatype Call = Call(gesture: Gesture, handY: real, now: int, frame: FrameAccess)

  /** The clock readings of the calls in a trace that fire a callback. */
  function DispatchTimes(c: ControlState, calls: seq<Call>): seq<int>
    decreases |calls|
  {
    if calls == [] then []
    else
      var k := calls[0];
      var step := ControlStep(c, k.gesture, k.handY, k.now, k.frame);
      (if |Callbacks(step.1)| > 0 then [k.now] else []) + DispatchTimes(step.0, calls[1..])
  }

  /** Every time in `s` is at least `window` after `start` and after every earlier time in `s`. */
  predicate AtLeastApart(s: seq<int>, start: int, window: int) {
    && (forall i :: 0 <= i < |s| ==> start + window <= s[i])
    && (forall i, j :: 0 <= i < j < |s| ==> s[i] + window <= s[j])
  }

  /** `lastGestureTime` never moves back, and moves only to a time 300 ms past it. */
  lemma LastGestureTimeAdvances(c: ControlState, gesture: Gesture, handY: real, now: int, frame: FrameAccess)
    ensures var c' := ControlStep(c, gesture, handY, now, frame).0;
      c'.lastGestureTime == c.lastGestureTime || c'.lastGestureTime >= c.lastGestureTime + 300
  {
  }

  /** Putting a time in front keeps the spacing when it is far enough from both ends. */
  lemma PrependSpaced(t: int, rest: seq<int>, start: int, mid: int, window: int)
    requires AtLeastApart(rest, mid, window)
    requires 0 <= window && start + window <= t && t <= mid
    ensures AtLeastApart([t] + rest, start, window)
  {
    var s := [t] + rest;
    forall i | 0 <= i < |s| ensures start + window <= s[i] {
      if i > 0 { assert s[i] == rest[i - 1]; }
    }
    forall i, j | 0 <= i < j < |s| ensures s[i] + window <= s[j] {
      assert s[j] == rest[j - 1];
      if i > 0 { assert s[i] == rest[i - 1]; }
    }
  }

  /**
   * Over any trace, whatever the clock does, two dispatched callbacks are at
   * least 300 ms apart, and the first comes at least 300 ms after the
   * starting `lastGestureTime`.
   */
  lemma {:induction false} DispatchesAreSpaced(c: ControlState, calls: seq<Call>)
    ensures AtLeastApart(DispatchTimes(c, calls), c.lastGestureTime, DebounceTime)
    decreases |calls|
  {
    if calls != [] {
      var k := calls[0];
      var step := ControlStep(c, k.gesture, k.handY, k.now, k.frame);
      AtMostOneCallback(c, k.gesture, k.handY, k.now, k.frame);
      LastGestureTimeAdvances(c, k.gesture, k.handY, k.now, k.frame);
      DispatchesAreSpaced(step.0, calls[1..]);
      var rest := DispatchTimes(step.0, calls[1..]);
      if |Callbacks(step.1)| > 0 {
        assert DispatchTimes(c, calls) == [k.now] + rest;
        PrependSpaced(k.now, rest, c.lastGestureTime, step.0.lastGestureTime, DebounceTime);
      } else {
        assert DispatchTimes(c, calls) == rest;
        assert c.lastGestureTime <= step.0.lastGestureTime;
      }
    }
  }

  class BrowserGestureControls {
    var lastGestureTime: int
    var gestureHoldTime: int
    var currentGesture: Gesture

    function State(): ControlState
      reads this
    {
      ControlState(lastGestureTime, gestureHoldTime, currentGesture)
    }

    constructor ()
      ensures State() == InitialControls
    {
      lastGestureTime, gestureHoldTime, currentGesture := 0, 0, NoGesture;
    }

    /** `executeGestureAction(gesture, handY)`, with the clock and the frame as inputs. */
    method ExecuteGestureAction(gesture: Gesture, handY: real, now: int, frame: FrameAccess)
      returns (events: seq<ControlEvent>)
      modifies this
      ensures (State(), events) == ControlStep(old(State()), gesture, handY, now, frame)
    {
      events := [];
      if now - lastGestureTime < DebounceTime {
        return;
      }

      if gesture != currentGesture {
        currentGesture := gesture;
        gestureHoldTime := now;
      }

      if frame == NoFrame {
        return;
      }
      if frame == AccessBlocked {
        // reading the frame's document throws; the error is logged and swallowed
        return;
      }

      match gesture {
        case OpenHand =>
          if handY < ScrollUpBelow {
            events := [FrameScroll(-ScrollStep), Notify(ScrollUp)];
          } else if handY > ScrollDownAbove {
            events := [FrameScroll(ScrollStep), Notify(ScrollDown)];
          }
          lastGestureTime := now;
        case ThumbsUp =>
          events := [FrameZoom(In), Notify(ZoomIn)];
          lastGestureTime := now;
        case Fist =>
          var holdDuration := now - gestureHoldTime;
          if holdDuration > GoBackHold {
            events := [Notify(GoBack)];
          } else {
            events := [FrameZoom(Out), Notify(ZoomOut)];
          }
          lastGestureTime := now;
        case Peace =>
          events := [FrameZoom(Reset)];
          lastGestureTime := now;
        case _ =>
      }
    }
  }
}
