# AirBoard gesture pipeline in Dafny

A model of the gesture pipeline of the AirBoard workspace, a browser demo in
which hand gestures seen by a camera drive a notepad, an on-screen keyboard
and an embedded browser frame. Each video frame yields 21 hand landmarks;
the model covers what happens to them:

- **Classification** (`GestureClassifier`): five "finger up" bits, then one of
  `point`, `fist`, `peace`, `open_hand`, `thumbs_up`, `none`; and the older
  classifier `recognizeGesture` (`LegacyRecognizer`) with its other joints,
  precedence and fixed confidences.
- **Hover-to-type** (`VirtualKeyboard`): the detector class that counts
  consecutive `point` frames over the same key rectangle, fires at the 30th
  and resets.
- **Keyboard-side hook** (`KeyboardGestures`): fist -> backspace at more than
  500 ms, peace -> space at more than 800 ms, gesture-change notices, and the
  display record.
- **Browser-side hook** (`BrowserControls`, `BrowserRecognition`): a 300 ms
  debounce for all actions, scroll direction by wrist height with a dead zone,
  and go-back versus zoom-out by how long the fist has been held.
- **Notepad and address bar** (`Workspace`, `Browser`): the text edits behind
  key presses and gestures, the export guard, the character count and the
  address formatting.

State that the source keeps in objects or React refs (the detector, the
hooks' refs, the address bar) is a Dafny `class` whose methods are proved
against pure step functions (`Detect`, `DebounceStep`, `ControlStep`,
`NextState`); the properties are lemmas about those functions, including
properties of whole traces (dwell-to-type, spacing of debounced actions).
The clock (`Date.now()`) is an integer parameter `now`; coordinates are exact
reals; the callbacks a hook invokes, and the effects on the embedded frame,
are returned as sequences of events in the order the source performs them.

Behaviour of the code that the proofs make explicit:

- `classifyGesture` gives `fist` only when no finger is up; a lone thumb is
  `thumbs_up` and a lone middle, ring or pinky finger is `none`.
- `detectKeyHover` resets the hover record before it reads the key it
  returns, so a frame with `shouldType` always reports no key and the hook's
  `onKeyType` callback can never run (`KeyboardGestures.KeyTypeNeverFires`).
- The first frame over a new key has confidence 0, not 1/30 of 100.
- A key rectangle whose label is the empty string never accumulates hover
  time, because the empty string is falsy in the test `if (hoveredKey)`.
- The keyboard hook's `resetDetection` clears only the display record; the
  hover record, both debounce timers and the last gesture survive.

## Model

| member | source | states |
|---|---|---|
| `GestureClassifier.FingerBit` | src/lib/gestureClassifier.ts:43-52 | each finger's entry in the bit vector is 0 or 1 |
| `GestureClassifier.GetFingersUp` | src/lib/gestureClassifier.ts:39-55 | the loop yields five bits, each 0 or 1, and bit i is 1 exactly when finger i is up (`Up`: the thumb iff landmark 4 lies right of landmark 3 in x, finger i iff tip 4i+4 lies strictly above joint 4i+2 in y; equal values count as down) |
| `GestureClassifier.FingerBitIsUp` | src/lib/gestureClassifier.ts:11-12 | the tip and joint tables select exactly the joints 4/3 for the thumb and 4i+4/4i+2 for the other fingers |
| `GestureClassifier.ClassifyGesture` | src/lib/gestureClassifier.ts:15-18 | any landmark sequence whose length is not exactly 21 is `none` |
| `GestureClassifier.ClassifyGestureCases` | src/lib/gestureClassifier.ts:20-36 | for 21 landmarks: `fist` iff no finger up; `point` iff only the index; `peace` iff only index and middle; `thumbs_up` iff only the thumb; `open_hand` iff no two fingers down (four or more up); every other combination is `none` |
| `GestureClassifier.ClassifyDependsOnlyOnFingers` | src/lib/gestureClassifier.ts:20-36 | two hands with the same five finger facts get the same label (z and every other coordinate are irrelevant) |
| `GestureClassifier.ClassifyFingers` | src/lib/gestureClassifier.ts:21-36 | the count and precedence chain on the five bits; its meaning per label is stated by `ClassifyGestureCases` |
| `GestureClassifier.GetFingerTipPosition` | src/lib/gestureClassifier.ts:57-67 | null iff the length is not 21 or the finger index is outside 0..4; otherwise the x, y of tip landmark 4(i+1) |
| `GestureClassifier.GetHandCenter` | src/lib/gestureClassifier.ts:69-79 | null iff the length is not 21; otherwise the wrist's (landmark 0) x, y |
| `VirtualKeyboard.KeyAt` | src/lib/virtualKeyboardDetector.ts:90-98 | the key lookup; `KeyAtIsFirstMatch` states it is the first containing rectangle, edges inclusive |
| `VirtualKeyboard.KeyAtIsFirstMatch` | src/lib/virtualKeyboardDetector.ts:90-98 | the hovered key is the first rectangle in layout order containing the point, edges inclusive; none iff no rectangle contains it (always for an empty layout) |
| `VirtualKeyboard.HoverStep` | src/lib/virtualKeyboardDetector.ts:65-80 | the per-frame hover update and fire test; `HoverStepKeepsInv` states each transition and the invariant, `DwellBelowThreshold` and `DwellFiresAtThreshold` its runs |
| `VirtualKeyboard.HoverStepKeepsInv` | src/lib/virtualKeyboardDetector.ts:65-80 | a pointing frame keeps the invariant (duration below 30, key iff duration > 0, non-empty key, confidence = min(100, duration/30*100) with 0 for a fresh key, so within 0..100); a different non-empty key restarts at one frame with confidence 0 and does not fire, also in the middle of a dwell; the same key counts one more frame and fires, ending idle, exactly when that makes 30; no key or the empty key resets to idle without firing |
| `VirtualKeyboard.DwellBelowThreshold` | src/lib/virtualKeyboardDetector.ts:65-74 | from idle, n < 30 consecutive frames over one key give duration n, the matching confidence, and no firing |
| `VirtualKeyboard.DwellFiresAtThreshold` | src/lib/virtualKeyboardDetector.ts:76-80 | from idle, the 30th consecutive frame over one key is the first to fire, and it leaves the detector idle, so the next frame starts again at 1 |
| `VirtualKeyboard.Detect` | src/lib/virtualKeyboardDetector.ts:30-88 | one frame keeps the invariant; a frame that is not `point` (or has no fingertip) resets to idle and returns no key, no typing and the unscaled fingertip; whenever `shouldType` holds the returned key is null; a `point` frame scales the index tip to the canvas, looks up the key there and takes one `HoverStep`, whose record it keeps and whose key and fire flag it returns |
| `VirtualKeyboard.VirtualKeyboardDetector.constructor` | src/lib/virtualKeyboardDetector.ts:19-28 | starts idle with an empty layout and last gesture `none` |
| `VirtualKeyboard.VirtualKeyboardDetector.SetKeyboardLayout` | src/lib/virtualKeyboardDetector.ts:24-26 | replaces the layout and leaves the hover record unchanged |
| `VirtualKeyboard.VirtualKeyboardDetector.FindHoveredKey` | src/lib/virtualKeyboardDetector.ts:90-98 | the early-return loop returns the first-match key of the layout |
| `VirtualKeyboard.VirtualKeyboardDetector.ResetHover` | src/lib/virtualKeyboardDetector.ts:100-102 | the hover record becomes `{null, 0, 0}` and nothing else changes |
| `VirtualKeyboard.VirtualKeyboardDetector.GetHoverProgress` | src/lib/virtualKeyboardDetector.ts:104-106 | returns the current confidence, which lies within 0..100 |
| `VirtualKeyboard.VirtualKeyboardDetector.DetectKeyHover` | src/lib/virtualKeyboardDetector.ts:30-88 | the new hover record and result are those of `Detect`; the layout is kept; `lastGesture`/`gestureChangeTime` are updated on a change but no result depends on them |
| `KeyboardGestures.DebounceStep` | src/hooks/useGestureRecognition.ts:45-61 | the change notice and the two debounced actions of one frame; `DebounceStepSpec` states them both ways and `FiringsAreSpaced` their spacing over traces |
| `KeyboardGestures.DebounceStepSpec` | src/hooks/useGestureRecognition.ts:45-61 | a change notice exactly when the label differs from the previous one (hold time and last gesture move only then); backspace exactly on a fist more than 500 ms after the last backspace; space exactly on a peace more than 800 ms after the last space; never both; nothing for the other labels; the notice comes first and no event occurs more than once; each timer records `now` exactly when its action fires |
| `KeyboardGestures.FiringsAreSpaced` | src/hooks/useGestureRecognition.ts:51-61 | over any trace of frames, whatever the clock does, any two backspaces are more than 500 ms apart and any two spaces more than 800 ms apart |
| `KeyboardGestures.KeyTypeNeverFires` | src/hooks/useGestureRecognition.ts:63-66 | the guard `shouldType && hoveredKey` is false on every frame, so `onKeyType` is never invoked |
| `KeyboardGestures.GestureRecognition.constructor` | src/hooks/useGestureRecognition.ts:22-34 | a fresh idle detector, all timers 0, last gesture `none`, the initial display record |
| `KeyboardGestures.GestureRecognition.ProcessHandLandmarks` | src/hooks/useGestureRecognition.ts:36-75 | runs the detector once, then the debounced actions of `DebounceStep` on its label; the display record shows the detector's result with `isHandDetected` true and `hoverProgress` equal to the detector's confidence; no key-typed event is emitted |
| `KeyboardGestures.GestureRecognition.SetKeyboardLayout` | src/hooks/useGestureRecognition.ts:77-79 | hands the layout to the detector, whose hover record stays as it was |
| `KeyboardGestures.GestureRecognition.ResetDetection` | src/hooks/useGestureRecognition.ts:81-89 | only the display record returns to its initial value; the detector, both timers, the hold time and the last gesture are unchanged |
| `BrowserControls.ControlStep` | src/hooks/useBrowserGestureControls.ts:21-91 | one call of `executeGestureAction`; `DebounceWindow`, `ControlStepActions` and `AtMostOneCallback` state its cases, `DispatchesAreSpaced` its spacing over traces |
| `BrowserControls.DebounceWindow` | src/hooks/useBrowserGestureControls.ts:22-33 | less than 300 ms after the last action the call changes nothing and emits nothing; at 300 ms or later the label becomes `currentGesture`, with its hold starting now if it changed |
| `BrowserControls.ControlStepActions` | src/hooks/useBrowserGestureControls.ts:35-91 | outside the window: a missing or unreachable frame emits nothing and keeps `lastGestureTime`; open hand scrolls the frame by -100 then notifies scroll-up iff y < 0.4, by +100 then scroll-down iff y > 0.6, nothing in 0.4..0.6; thumbs up posts zoom `in` then notifies zoom-in; a fist held more than 1000 ms only notifies go-back, otherwise posts zoom `out` then notifies zoom-out, and a fist that just started always zooms out; peace only posts a zoom reset; these four set `lastGestureTime` to now, point and none leave it |
| `BrowserControls.AtMostOneCallback` | src/hooks/useBrowserGestureControls.ts:41-88 | a call fires at most one callback, and only at least 300 ms after `lastGestureTime`, recording `now` |
| `BrowserControls.LastGestureTimeAdvances` | src/hooks/useBrowserGestureControls.ts:25-27 | `lastGestureTime` either stays or moves forward by at least 300 ms |
| `BrowserControls.DispatchesAreSpaced` | src/hooks/useBrowserGestureControls.ts:21-91 | over any trace of calls, whatever the clock does, any two fired callbacks are at least 300 ms apart |
| `BrowserControls.BrowserGestureControls.constructor` | src/hooks/useBrowserGestureControls.ts:17-19 | refs start at 0, 0 and `none` |
| `BrowserControls.BrowserGestureControls.ExecuteGestureAction` | src/hooks/useBrowserGestureControls.ts:21-92 | the early-return and switch code updates the refs and emits the events exactly as `ControlStep` says |
| `BrowserRecognition.NextState` | src/hooks/useBrowserGestureRecognition.ts:42-56 | with 21 landmarks: the label, the wrist scaled by canvas width and height, detection on, confidence 0.8 unless the label is `none` (then 0.3); otherwise detection off, confidence 0, label and position kept |
| `BrowserRecognition.BrowserGestureRecognition.constructor` | src/hooks/useBrowserGestureRecognition.ts:17-24 | the initial display record and fresh controls |
| `BrowserRecognition.BrowserGestureRecognition.ProcessHandLandmarks` | src/hooks/useBrowserGestureRecognition.ts:26-58 | with 21 landmarks the action debouncer runs exactly once, on the label and the wrist's y; otherwise it does not run and nothing is emitted; the display record becomes `NextState` |
| `BrowserRecognition.BrowserGestureRecognition.ResetDetection` | src/hooks/useBrowserGestureRecognition.ts:60-67 | restores the initial display record and leaves the controls' refs untouched |
| `LegacyRecognizer.RecognizeGesture` | src/utils/gestureRecognition.ts:5-7 | fewer than 21 landmarks give `unknown` with confidence 0 and no landmarks attached |
| `LegacyRecognizer.RecognizeGestureCases` | src/utils/gestureRecognition.ts:20-39 | for 21 or more: thumb up iff tip 4 above joint 3 (y), other fingers compare tip with base joint 5/9/13/17; `point` iff index up and middle, ring, pinky down (any thumb); `peace` iff index and middle up, ring and pinky down; `fist` iff at most one finger extended and not the index; `palm` iff no two folded; confidences 0.9/0.85/0.8/0.75/0.5; the input attached |
| `LegacyRecognizer.ThumbOnlyIsFist` | src/utils/gestureRecognition.ts:33-34 | a lone raised thumb is a fist at 0.8 |
| `LegacyRecognizer.ExtraLandmarksIgnored` | src/utils/gestureRecognition.ts:5-26 | landmarks after the 21st do not change the label or its confidence |
| `Workspace.DropLast` | src/components/AirBoardWorkspace.tsx:35 | `slice(0, -1)` leaves "" alone and otherwise removes exactly the last character |
| `Workspace.KeyPress` | src/components/AirBoardWorkspace.tsx:33-43 | the text edit of one key; `KeyPressEdits` and `BackspaceUndoesOneCharacter` state what it does |
| `Workspace.KeyPressEdits` | src/components/AirBoardWorkspace.tsx:33-43 | BACKSPACE removes exactly the last character (nothing on ""); SPACE appends one blank, ENTER one newline, any other key its own text, keeping the old text as prefix |
| `Workspace.BackspaceUndoesOneCharacter` | src/components/AirBoardWorkspace.tsx:34-41 | BACKSPACE after a key that adds one character restores the text |
| `Workspace.GestureBackspace` | src/components/AirBoardWorkspace.tsx:54-55 | the fist handler's text update; `GestureHandlersMatchKeys` states it equals the BACKSPACE key |
| `Workspace.GestureSpace` | src/components/AirBoardWorkspace.tsx:63-64 | the peace handler's text update; `GestureHandlersMatchKeys` states it equals the SPACE key |
| `Workspace.GestureHandlersMatchKeys` | src/components/AirBoardWorkspace.tsx:54-64 | the fist and peace handlers edit the text exactly as the BACKSPACE and SPACE keys |
| `Workspace.CharacterCount` | src/components/AirBoardWorkspace.tsx:232 | the displayed character count; `CharacterCountAfterKeyPress` states how each key moves it |
| `Workspace.CharacterCountAfterKeyPress` | src/components/AirBoardWorkspace.tsx:232 | the displayed count is the text length: one less after BACKSPACE (not below 0), one more after SPACE/ENTER, the key's length more otherwise |
| `Workspace.Trim` | src/components/AirBoardWorkspace.tsx:77 | JavaScript `trim()`; `TrimStart` and `TrimEnd` leave no white space or line terminator at the respective end, and `TrimEmptyIffBlank` states when the result is empty |
| `Workspace.TrimEmptyIffBlank` | src/components/AirBoardWorkspace.tsx:77 | `trim()` yields "" exactly for text made only of white space and line terminators |
| `Workspace.HandleExport` | src/components/AirBoardWorkspace.tsx:76-106 | the export decision; `ExportGuard` states when it refuses and what a text export carries |
| `Workspace.ExportGuard` | src/components/AirBoardWorkspace.tsx:76-106 | export is refused exactly for empty or all-white-space text; a text export downloads the untrimmed content |
| `Browser.FormatUrl` | src/components/AirBoardBrowser.tsx:26-30 | the result starts with `http://` or `https://`; it ends with the typed address; it equals the typed address iff that already has one of the two schemes, and otherwise is `https://` followed by the typed address |
| `Browser.FormatUrlIdempotent` | src/components/AirBoardBrowser.tsx:28-30 | formatting a formatted address changes nothing |
| `Browser.FormatUrlIsCaseSensitive` | src/components/AirBoardBrowser.tsx:28 | `HTTP://x` becomes `https://HTTP://x` |
| `Browser.AirBoardBrowser.constructor` | src/components/AirBoardBrowser.tsx:16-18 | both addresses start at `https://www.google.com`, not loading |
| `Browser.AirBoardBrowser.SetUrl` | src/components/AirBoardBrowser.tsx:147 | the address input replaces `url` |
| `Browser.AirBoardBrowser.HandleNavigate` | src/components/AirBoardBrowser.tsx:22-38 | an empty address changes nothing; otherwise loading starts and `currentUrl` becomes the formatted address, so it always carries a scheme |
| `Browser.AirBoardBrowser.HandleHome` | src/components/AirBoardBrowser.tsx:74-78 | `url` and `currentUrl` become `https://www.google.com` and loading starts |

## Left out

- Camera and model plumbing (`useMediaPipe`, `useCamera`, `useHandDetection`, `cameraUtils`, `mediaPipeUtils`): foreign library calls and asynchronous I/O; the model starts from the landmark sequence they deliver.
- Rendering (`CameraPreview`, `CameraPreviewSimple`, `GestureOverlay`, `canvasUtils`, `GestureControls`, `VirtualKeyboard`, `VirtualKeyboardModal`, `Index`): JSX and canvas drawing.
- Sign-in (`SignIn`, `SignInDialog`), the `cn` helper and logging wrapper in `src/lib/utils.ts`, and the type-only `src/types/handDetection.ts` (its shapes are datatypes here).
- `calculateDistance`: it takes a square root and nothing in the core calls it.
- Floating point: coordinates, canvas scaling and the confidence ratio are exact reals, so rounding is not modelled.
- The clock: `Date.now()` is the parameter `now`. `detectKeyHover` and the keyboard hook read the clock separately; the model gives both the same value, which only reaches the never-read `gestureChangeTime`.
- The keyboard hook calls each handler only if it is given (`actions?.onBackspace?.()`); the model emits the event whether or not a handler is registered.
- The browser hook takes an optional actions object whose five handlers its type requires (`actions?.onScrollUp()`). The model emits the `Notify` event and records the time whether or not the object is given; a caller that bypasses the type and leaves a handler out, whose call then throws into the `catch` before `lastGestureTime` is set, is not modelled.
- GestureClassifier.GetFingerTipPosition: takes an integer finger index; the source takes any number, and a fraction within 0..4 passes its guard and then throws on the undefined table entry. The only caller passes 1.
- The embedded frame: `scrollBy` and `postMessage` are emitted events, and the document access is the input `FrameAccess`. A reachable frame whose `body` is missing, or whose `contentWindow` is null, is not modelled.
- `recognizeGesture`'s `catch` branch: with 21 or more landmark objects no access can throw, so the branch is unreachable in the model.
- The unused `FINGER_MCP_IDS` table of `GestureClassifier`.
- Text is a sequence of Unicode scalar values, while JavaScript strings count UTF-16 code units: for characters beyond U+FFFF the source's `length` and `slice(0, -1)` (which can split a surrogate pair) are not modelled.
- The word count next to the character count (a regular-expression split).
- Export side effects: the Blob and anchor download, the date-stamped file name and all toasts; `handleGestureKeyType`'s toast.
- The address bar's one-second timer that clears `isLoading`, and the iframe reload that `handleHome` triggers through `handleRefresh`; `handleBack`, `handleForward` and `handleRefresh` themselves are frame navigation.
