# native: the Win32 event and window layer, modelled in Dafny

This project models the decision logic of the Windows backend of `native`, a small Rust
crate. The crate opens native windows and delivers their events to one user callback.
Four parts are modelled:

- **Message translation** (`mouse_translate.dfy`, `win_event.dfy`). Raw
  `(message code, WPARAM, LPARAM)` triples are classified and decoded into the crate's
  `Event`, `KeyEvent`, `MouseEvent` and `MouseEventType` values. Decoding covers:
  - bit 30 of a key message, which tells a first press from a repeat;
  - the X1/X2 test on the high part of the WPARAM;
  - the wheel delta divided by 120 with Rust's truncating division;
  - the `Ignore` fallback.

  `MouseButton::buttons_down` is an imperative method, proved against a specification
  function. The decoders are proved against an encoder: decoding an encoded event gives
  the event back.
- **Dispatch** (`win_event.dfy`, `legacy_event.dfy`, `app.dfy`). The thread's single
  handler slot is a class. The routing closure `run` installs is a function from a message
  to the list of Win32 calls it makes, in order. Those calls are default processing, a
  callback invocation, `DestroyWindow`, storing user data, posting quit, and filling the
  background. The window procedure is a method over the handler slot and the per-window
  user data, and the message pump is a loop over the messages it delivers. The older copy
  of the layer (`src/windows/event.rs`) is the same generic definitions used with a plain
  value as the state.
- **Close permission and shared state** (`events.dfy`). `IntoEventResult` is a function.
  `State<T>` is a class, so every clone is the same reference and a write through one
  clone is read through all of them.
- **Window records** (`window.dfy`). The thread-local `Vec<Window>` is a `Registry` class
  holding a sequence of `Window` objects. The model covers:
  - lookup by handle, with a loop;
  - in-place fullscreen toggling of the found record;
  - creation, which appends a record and has an early return for each system failure;
  - closing, which removes a record;
  - the theme-subscription bookkeeping;
  - the builder's setters.

Win32 and WinRT calls are recorded as values in the order they are made. What the system
answers is a parameter: query results, error codes, the dark-mode flag, the new window
handle and subscription tokens. Machine words are integers restricted to their range, and
bit tests are written with division and remainder. Window styles are `bv32`, and button
discriminants are `bv8`.

## Model

| member | source | states |
|---|---|---|
| Basics.TruncDiv | src/windows/event/mouse.rs:51-52 | the quotient's magnitude is `|a| / d` and it has the sign of `a`, as Rust's `/` rounds toward zero |
| Basics.TruncDivOfNotches | src/windows/event/mouse.rs:51-52 | a whole number of 120-unit notches divides back to that number, negative ones included |
| Basics.MakeWordSplits | src/windows/event/mouse.rs:25-29 | `loword` and `hiword` recover the two 16-bit halves of a packed word |
| Basics.I16RoundTrip | src/windows/event/mouse.rs:51-52 | reading 16 bits as `i16` and writing an `i16` as 16 bits are inverse |
| Mouse.DiscriminantIsSingleBit | src/event/mouse.rs:2-10 | every button discriminant is a non-zero single bit |
| Mouse.DiscriminantsShareNoBit | src/event/mouse.rs:2-10 | two different buttons never share a bit |
| Mouse.DiscriminantsCoverLowSevenBits | src/event/mouse.rs:2-10 | the bitwise OR of the seven discriminants is 0x7F |
| Mouse.MaskIsDiscriminant | src/event/mouse.rs:2-10 | the numeric mask used against machine words is the discriminant |
| MouseTranslate.MouseMessagesAreTheEighteenCodes | src/windows/event/mouse.rs:12-20 | the classifier accepts exactly 18 distinct codes, listed independently, and rejects every other code |
| MouseTranslate.XButton | src/windows/event/mouse.rs:93-99 | the result is X1 or X2, and X1 exactly when the word shifted right by 16 is 1, so a high part of 0, of 2 or above 0xFFFF gives X2 |
| MouseTranslate.XButtonCodesConsultHighWord | src/windows/event/mouse.rs:36-49 | the three X-button codes report X1 for high word XBUTTON1 and X2 for any other high word |
| MouseTranslate.PlainButtonsIgnoreWParam | src/windows/event/mouse.rs:36-48 | left, middle and right codes decode the same whatever the WPARAM, to a Left/Middle/Right button |
| MouseTranslate.MouseEventTypeFrom | src/windows/event/mouse.rs:33-64 | definition of `MouseEventType::from`; its properties are in `IgnoreExactlyWithoutArm`, `PlainButtonsIgnoreWParam`, `XButtonCodesConsultHighWord`, `WheelRoundTrip` and `TypeRoundTrip` |
| MouseTranslate.MouseEventFrom | src/windows/event/mouse.rs:23-31 | definition of `MouseEvent::from`; its properties are in `MouseRoundTrip` |
| MouseTranslate.IgnoreExactlyWithoutArm | src/windows/event/mouse.rs:33-63 | the decoder gives `Ignore` exactly for codes without their own arm, including 533, WM_MOUSELEAVE and WM_CAPTURECHANGED |
| MouseTranslate.Pressed | src/windows/event/mouse.rs:67-91 | definition of the pressed-button sequence `buttons_down` computes; its properties are in `PressedCharacterised` and `PressedIgnoresHighBits` |
| MouseTranslate.ButtonsDown | src/windows/event/mouse.rs:67-91 | the seven conditional pushes build exactly the pressed-button sequence of the mask |
| MouseTranslate.PressedCharacterised | src/windows/event/mouse.rs:67-91 | a button is in the result exactly when its bit is set; the result follows the order Left, Right, Middle, X1, X2, Control, Shift, has no repeats and at most 7 elements |
| MouseTranslate.PressedIgnoresHighBits | src/windows/event/mouse.rs:67-91 | bits above 0x7F never change the result |
| MouseTranslate.PressedOfNothing | src/windows/event/mouse.rs:67-91 | mask 0 gives the empty sequence |
| MouseTranslate.PressedLeftAndMiddle | src/windows/event/mouse.rs:67-91 | mask 0x01 \| 0x10 gives exactly `[Left, Middle]` |
| MouseTranslate.WheelRoundTrip | src/windows/event/mouse.rs:51-52 | a wheel WPARAM carrying `n` notches decodes to `n` through the signed high word and truncating division |
| MouseTranslate.TypeRoundTrip | src/windows/event/mouse.rs:33-63 | every event kind a message can carry is decoded back from the message encoding it |
| MouseTranslate.MouseRoundTrip | src/windows/event/mouse.rs:23-31 | a mouse event's position comes from the low and high 16 bits of the LPARAM, and the whole event round-trips through its encoding |
| Events.IntoEventResult | src/event/mod.rs:13-27 | unit permits closing; a boolean permits exactly when true; only `false` refuses |
| Events.State.constructor | src/event/mod.rs:67-70 | a new cell holds the value it was given |
| Events.State.Read | src/event/mod.rs:72-74 | reading returns what the cell holds |
| Events.State.Write | src/event/mod.rs:76-78 | writing replaces the cell's value |
| Events.State.Clone | src/event/mod.rs:65-66 | a clone is the same cell, not a copy |
| Events.DefaultState | src/event/mod.rs:80-84 | the default state is a fresh cell holding unit |
| Events.WriteThroughClone | src/event/mod.rs:65-78 | a value written through one clone is what a read through another clone returns |
| WinEvent.KeyEventFrom | src/windows/event/mod.rs:49-63 | definition of `KeyEvent::from`; its properties are in `KeyDecodingSeesOnlyBit30`, `KeyUpIgnoresLParam`, `PreviousStateBitTurnsDownIntoHold` and `KeyRoundTrip` |
| WinEvent.EventFrom | src/windows/event/mod.rs:66-74 | definition of `Event::from`; its properties are in `EventFromDispatchesByClassifier` and `EventRoundTrip` |
| WinEvent.ClassifiersAreDisjoint | src/windows/event/mod.rs:76-78 | no code is both a keyboard and a mouse message |
| WinEvent.LifecycleIsNotInput | src/windows/event/mod.rs:76-78 | create, destroy, paint, close and erase messages are not input |
| WinEvent.EventFromDispatchesByClassifier | src/windows/event/mod.rs:66-74 | the translated event is a keyboard event exactly for keyboard codes, and a mouse event carrying the mouse decoder's result exactly for mouse codes |
| WinEvent.KeyDecodingSeesOnlyBit30 | src/windows/event/mod.rs:49-63 | two LPARAMs that agree on bit 30 decode a key message the same way |
| WinEvent.KeyUpIgnoresLParam | src/windows/event/mod.rs:59-59 | key-up codes decode to `KeyUp` of the WPARAM's key whatever the LPARAM is |
| WinEvent.PreviousStateBitTurnsDownIntoHold | src/windows/event/mod.rs:52-58 | the same key-down message with bit 30 clear and then set decodes to `KeyDown` and then `KeyHold` |
| WinEvent.KeyRoundTrip | src/windows/event/mod.rs:49-63 | every key event is decoded back from a key message encoding it |
| WinEvent.EventRoundTrip | src/windows/event/mod.rs:66-74 | every event an input message can carry is decoded back from its encoding, which the input classifier accepts |
| WinEvent.Route | src/windows/event/mod.rs:101-122 | definition of the closure `run` installs; its properties are in `RouteInvokesOnce`, `RouteCarriesState`, `RouteDestroysOnlyOnPermittedClose`, `RouteDefaultProcessingFirst` and `CloseFollowsTheCallbacksAnswer` |
| WinEvent.RouteInvokesOnce | src/windows/event/mod.rs:101-122 | the callback runs once with the translated event for input, with `Close` for a close request, with `Repaint` for a paint, and never otherwise |
| WinEvent.RouteCarriesState | src/windows/event/mod.rs:101-122 | every invocation is for the message's window and carries the installed state |
| WinEvent.RouteDestroysOnlyOnPermittedClose | src/windows/event/mod.rs:110-116 | `DestroyWindow` is called exactly for a close request the callback permits, and only on that window |
| WinEvent.RouteDefaultProcessingFirst | src/windows/event/mod.rs:101-122 | input and paint ask for default processing once and before the callback; close and other messages never do |
| WinEvent.CloseFollowsTheCallbacksAnswer | src/windows/event/mod.rs:110-116 | a callback answering `false` to `Close` causes no `DestroyWindow`; one answering unit always does |
| WinEvent.Handler.constructor | src/windows/event/mod.rs:25-28 | the default slot is empty |
| WinEvent.Handler.SetHandler | src/windows/event/mod.rs:31-36 | installing a handler replaces whatever was there |
| WinEvent.Handler.Handle | src/windows/event/mod.rs:38-42 | with a handler its routing runs; with none nothing happens |
| WinEvent.ReplaceHandler | src/windows/event/mod.rs:31-36 | after two installations only the second handler remains |
| WinEvent.EraseColor | src/windows/event/mod.rs:153-177 | definition of the erase colour; its properties are in `EraseColorByTheme` and `CreateThenErase` |
| WinEvent.EraseColorByTheme | src/windows/event/mod.rs:153-177 | erase fills with the dark colour exactly for Dark, or for Auto in dark mode, taken from the window's options or from the defaults when its user data is null |
| WinEvent.CreateThenErase | src/windows/event/mod.rs:142-177 | `WM_CREATE` stores the creation options, returns 0, and a later erase of that window fills with the colour those options choose and returns 0 |
| WinEvent.WndProcAsWritten | src/windows/event/mod.rs:131-181 | definition of `wnd_proc` as written; its properties are in `CloseVetoOverriddenAsWritten`, `InputProcessedTwiceAsWritten` and `DestroyPostsQuit` |
| WinEvent.WndProcStep | src/windows/event/mod.rs:131-181 | definition of the corrected window procedure; its properties are in `CloseHonoursCallback`, `DefaultProcessingAtMostOnce`, `WndProcInvokes`, `CreateThenErase` and `DestroyPostsQuit` |
| WinEvent.DestroyPostsQuit | src/windows/event/mod.rs:149-152 | `WM_DESTROY` yields exactly the quit message and returns 0, with or without a handler, leaves the user data alone, and the written and corrected procedures agree on it |
| WinEvent.CloseVetoOverriddenAsWritten | src/windows/event/mod.rs:131-181 | as written, a callback refusing `Close` gets no `DestroyWindow` from the handler, yet the close request still reaches `DefWindowProcW`, which destroys the window |
| WinEvent.InputProcessedTwiceAsWritten | src/windows/event/mod.rs:131-181 | as written, a key press with a handler installed is passed to `DefWindowProcW` twice |
| WinEvent.CloseHonoursCallback | src/windows/event/mod.rs:110-116 | in the window procedure the model uses, a window with a handler ends exactly when the callback permits |
| WinEvent.DefaultProcessingAtMostOnce | src/windows/event/mod.rs:131-181 | in the corrected window procedure, each message is default-processed at most once: never for create, destroy, erase or a close the handler decided, once otherwise |
| WinEvent.WndProcInvokes | src/windows/event/mod.rs:131-141 | the window procedure hands the callback exactly the routed event, and nothing when no handler is installed |
| WinEvent.WndProc | src/windows/event/mod.rs:131-181 | the corrected window procedure: runs the handler, then the message's own arm unless the handler settled the message; its effects, result and the new user data are those of `WndProcStep` |
| WinEvent.DispatchAll | src/windows/event/mod.rs:126-128 | definition of the message loop over the delivered messages; its properties are in `DispatchAllCarriesState`, `NoHandlerNoInvocation` and `Run` |
| WinEvent.StepDestroysOnlyOnClose | src/windows/event/mod.rs:110-116 | a window-procedure step calls `DestroyWindow` only for a close request, and only on that window |
| WinEvent.DispatchAllCarriesState | src/windows/event/mod.rs:99-128 | over any sequence of delivered messages every invocation carries the state `run` installed, and every destroyed window received a close request |
| WinEvent.NoHandlerNoInvocation | src/windows/event/mod.rs:38-42 | without a handler no delivered message reaches a callback |
| WinEvent.Run | src/windows/event/mod.rs:80-129 | installs the routing over the callback and state, then dispatches every delivered message in order through the corrected window procedure; the effects and user data are those of the dispatch fold |
| LegacyEvent.Run | src/windows/event.rs:59-98 | the same loop with a plain value, dispatched through the corrected window procedure; every invocation receives a copy of the initial value. The older `wnd_proc` (src/windows/event.rs:100-150) has the same fall-through to `DefWindowProcW` as the newer one, so the first two findings apply to it too |
| LegacyEvent.CallbacksSeeTheInitialValue | src/windows/event.rs:68-93 | every invocation carries the initial value, and each close is decided by the callback's answer for that value |
| App.AppRun | src/event/mod.rs:95-102 | `App::run` starts the loop with a fresh unit state installed in the slot |
| App.AppRunWith | src/event/mod.rs:104-123 | `run_with` and `run` wrap the initial value in a fresh `State`, and every invocation shares that one cell |
| App.CloseById | src/event/mod.rs:46-55 | `close(id)` is `WM_CLOSE` with zero parameters through the corrected window procedure, and leaves the user data as it was |
| App.CloseByIdEndsWindowIffPermitted | src/event/mod.rs:46-55 | through the corrected window procedure, closing by id hands the callback `Close` once and ends the window exactly when the callback permits; with no handler installed the default processing ends it. As written, the window ends even when the callback refuses (`WinEvent.CloseVetoOverriddenAsWritten`) |
| WinWindow.FullscreenStep | src/windows/window.rs:122-173 | definition of one fullscreen toggle; its properties are in `EnterCoversMonitor`, `LeaveRestores`, `TwoTogglesRestore` and `FailedCaptureArmsRestore` |
| WinWindow.EnterCoversMonitor | src/windows/window.rs:138-151 | entering fullscreen saves the placement, strips the overlapped-window bits and sizes the window to the monitor: width `right - left`, height `bottom - top` |
| WinWindow.StripClears | src/windows/window.rs:139-143 | the stripped style has no overlapped-window bit and keeps every other bit |
| WinWindow.LeaveRestores | src/windows/window.rs:157-172 | leaving fullscreen sets the overlapped-window bits, reapplies the saved placement and forgets it |
| WinWindow.WithFrameIsIdentityIff | src/windows/window.rs:159-159 | setting the overlapped-window bits leaves a style unchanged exactly when it already had all of them |
| WinWindow.TwoTogglesRestore | src/windows/window.rs:122-173 | two toggles return the saved placement to none and the window to its original placement; the style equals the original exactly when the original had all overlapped-window bits |
| WinWindow.FailedCaptureArmsRestore | src/windows/window.rs:124-137 | when a query fails the toggle changes nothing on screen but still saves a placement, so the next toggle takes the leaving branch |
| WinWindow.Window.Fullscreen | src/windows/window.rs:122-173 | the record's saved placement and the calls made follow the two-state toggle; no other field changes |
| WinWindow.ThemeStepAsWritten | src/windows/window.rs:238-303 | definition of `set_theme` as written; its properties are in `ThemeStepAsWrittenBookkeeping` and `AutoTwiceThenLightLeaksAsWritten` |
| WinWindow.ThemeStep | src/windows/window.rs:238-303 | definition of the corrected `set_theme` bookkeeping; its properties are in `ThemeStepKeepsSubscriptionsTracked`, `ThemeStepsAgreeWithoutCookie` and `ThemeAttributeValue` |
| WinWindow.ThemeStepAsWrittenBookkeeping | src/windows/window.rs:238-303 | as written, Light/Dark remove a held subscription but keep its token and write 0 or 1; Auto stores the new token and writes the system's mode; a failed removal or subscription stops before the attribute |
| WinWindow.AutoTwiceThenLightLeaksAsWritten | src/windows/window.rs:254-287 | as written, Auto, Auto, Light leaves the first subscription live and the record holding a token that is no longer live |
| WinWindow.ThemeStepKeepsSubscriptionsTracked | src/windows/window.rs:238-303 | in the bookkeeping the model uses, whatever the system answers, exactly the record's token is live after each call, so none is live after a successful Light or Dark |
| WinWindow.ThemeStepsAgreeWithoutCookie | src/windows/window.rs:230-230 | on a record with no subscription, which is how creation calls it, the written and the corrected bookkeeping coincide |
| WinWindow.ThemeAttributeValue | src/windows/window.rs:239-300 | on success the last call writes attribute value 0 for Light, 1 for Dark, and the system's mode for Auto |
| WinWindow.Window.SetTheme | src/windows/window.rs:238-303 | the record's token, the calls and the result are those of the corrected bookkeeping step |
| WinWindow.Window.constructor | src/windows/window.rs:184-191 | a new record has null handles, the given class name and options, no saved placement and no token |
| WinWindow.FindFirst | src/windows/window.rs:41-41 | the position of the first record with the handle, with every earlier record having a different handle, or the length when there is none |
| WinWindow.Registry.Position | src/windows/window.rs:347-347 | the scan stops at the first record with the handle |
| WinWindow.Registry.ToggleFullscreen | src/windows/window.rs:37-45 | only the first record with the handle toggles, and only its saved placement changes; nothing happens when there is none, the sequence is unchanged and every other record is unchanged |
| WinWindow.Registry.Create | src/windows/window.rs:179-236 | appends exactly one fresh record with class `Window-StoryTree-` plus the identifier, no saved placement and no token until the theme is applied; a failure of the module or cursor query, a null window or a theme failure returns that error and the record stays; the module handle is stored when the query succeeds; on success the theme is applied and the window shown if asked |
| WinWindow.Registry.CloseAsWritten | src/windows/window.rs:344-352 | as written, removes the first record with the handle, keeping the others in order, whatever the native answer, then calls `CloseWindow`, which minimizes |
| WinWindow.Registry.Close | src/windows/window.rs:344-352 | removes the first record with the handle in the same way and destroys the window; the result is the native call's error, if any |
| WinWindow.RemoveAtKeepsOthers | src/windows/window.rs:348-348 | removing one position drops exactly that record and keeps every other record, in order |
| WinWindow.CloseShiftsPointerAsWritten | src/windows/window.rs:182-224 | as written, after create A, create B, close A, create C, the pointer B's window procedure reads gives C's options |
| WinWindow.LookupByHandleSurvivesOthers | src/windows/event/mod.rs:153-163 | found by handle, a window's options are unaffected by other windows being created or closed |
| WinWindow.LookupByHandleFindsNewRecord | src/windows/window.rs:184-191 | a record pushed with a new handle is found with its own options |
| WinWindow.WithTitle | src/windows/window.rs:68-71 | definition of the builder's `title`; its properties are in `SettersTouchOnlyTheirField` |
| WinWindow.WithTheme | src/windows/window.rs:73-76 | definition of the builder's `theme`; its properties are in `SettersTouchOnlyTheirField` |
| WinWindow.WithBackground | src/windows/window.rs:78-81 | definition of the builder's `background`; its properties are in `SettersTouchOnlyTheirField` |
| WinWindow.WithIcon | src/windows/window.rs:83-90 | definition of the builder's `icon`; its properties are in `IconAcceptsOnlyIco` |
| WinWindow.SettersTouchOnlyTheirField | src/windows/window.rs:68-81 | the title, theme and background setters change their own field and nothing else |
| WinWindow.IconAcceptsOnlyIco | src/windows/window.rs:83-90 | the icon setter accepts exactly the paths ending in `.ico` (case-sensitive) and records the path |
| WinWindow.Show | src/windows/window.rs:96-99 | `show` creates with the show flag set, and on success the last call shows the window |

## Left out

- Win32 and WinRT calls have no modelled behaviour: they are recorded calls, and their
  answers are parameters. This covers `DefWindowProcW`, `DestroyWindow`,
  `PostQuitMessage`, `ShowWindow`, `SetWindowPos`, `GetWindowPlacement`,
  `GetMonitorInfoW`, `DwmSetWindowAttribute`, `RegisterClassW`, `CreateWindowExW` and
  `GetModuleHandleW`. The one exception is a documented fact used by the findings:
  default processing of `WM_CLOSE` destroys the window.
- The `GetMessageW`/`DispatchMessageW` pump is the finite sequence of messages it
  delivers, since the queue belongs to the system.
- The show, hide, minimize, maximize and restore wrappers (src/windows/window.rs:310-342)
  each make one system call and have no logic of their own.
- `icon()` (src/windows/window.rs:356-377) loads a file through the system. The model
  records only the optional path given to the class registration.
- The closure registered for colour-scheme changes (src/windows/window.rs:256-287) runs on
  a system thread. Only the subscription token bookkeeping is modelled.
- The `hide-console` feature block and `quit` are left out: they are process-level
  system calls.
- `Arc`, `RwLock`, `Mutex`, `RefCell` and `thread_local` are left out. The model keeps
  their sequential meaning: one shared cell, one slot, one registry.
- WinEvent.Handler: one slot stands for the per-thread `thread_local!` slots
  (src/windows/event/mod.rs:45-46). A window procedure running on another thread sees
  that thread's empty slot; the model expresses this only by passing `None` as the slot.
- Diagnostics and panics of system calls are left out: the debug `eprintln!` for an
  unknown mouse code (src/windows/event/mouse.rs:59) and the panic of
  `GetClientRect(...).unwrap()` in the erase arm (src/windows/event/mod.rs:166,
  src/windows/event.rs:135).
- Events.State.Write: lock poisoning and re-entrant locking are not modelled.
- The random identifier in class names is a parameter of `WinWindow.Registry.Create`.
- The keyboard module (`KeyEvent::message`, `KeyCode::from`, `KeyboardEvent`) is not part
  of this model.
- WinEvent.IsKeyMessage: taken to accept exactly the four codes the keyboard decoder
  handles. A key code is the raw WPARAM word.
- The older layer's `KeyboardEvent::from` is taken to decode like `KeyEvent::from`.
- `loword`, `hiword`, `get_wheel_delta_wparam`, `is_dark_mode`, `swap_rb` and
  `Background::light`/`dark`/`color` come from files that are not part of this model:
  - the word helpers are given their usual definitions;
  - a background is the pair of colours it yields;
  - the dark-mode flag is a parameter;
  - the default theme and background are parameters of the window procedure's
    environment;
  - colour byte-swapping is left out.
- WinWindow.EnterCoversMonitor: the width and height are unbounded integers, so a 32-bit
  overflow of `right - left` is not modelled. Real monitor rectangles are far from that
  bound.
- Callbacks are pure functions of their arguments in the model. What a callback does
  through its `State` is covered separately by `Events.WriteThroughClone`.
- A `Vec` reallocation on `push`, which also leaves the options pointer dangling, is not
  modelled. Only the shift caused by `remove` is.
- src/windows/modal/color.rs, src/lib.rs and the example programs are dialog wrappers,
  forwarding code and demos.

Some behaviours of the code that the model keeps as they are:

- `WM_DESTROY` of any window posts the quit message, so closing one window ends the message
  loop of every window (src/windows/event/mod.rs:149-152, `WinEvent.DestroyPostsQuit`).
- The colour-scheme notification calls the window procedure with `WM_ERASEBKGND` and
  `WM_PAINT` on the system thread that runs it (src/windows/window.rs:268-283). The
  handler slot is thread-local (src/windows/event/mod.rs:45-46), so that thread's slot is
  empty. The background is filled, the paint goes only to `DefWindowProcW`, and the user
  callback is never called. In the model this is the window procedure with slot `None`
  (`WinEvent.WndProcInvokes` gives no invocation without a handler).
- When a fullscreen query fails, the saved placement set at src/windows/window.rs:124-125
  stays set, so the next toggle takes the leaving branch
  (`WinWindow.FailedCaptureArmsRestore`).
- The result of `RegisterClassW` is checked only by a debug assertion
  (src/windows/window.rs:207-208). Of class registration and window creation, only a null
  window handle fails (src/windows/window.rs:227-229).
- Closing a window through the window procedure does not touch the registry
  (src/windows/event/mod.rs:142-181). Only `close` removes a record
  (src/windows/window.rs:344-352).

## Findings

| source | as written | input that shows it | evidently intended | confidence | as-written member | corrected member |
|---|---|---|---|---|---|---|
| src/windows/event/mod.rs:131-181, src/windows/event.rs:100-150 | after the handler has decided a close request, `WM_CLOSE` falls to the `_` arm and is passed to `DefWindowProcW`, whose default handling destroys the window | a callback returning `false` for `Close`, then `WM_CLOSE` for its window | a refused close leaves the window alive, and a permitted one destroys it once | not executed; high, from the documented default handling of `WM_CLOSE` | WinEvent.CloseVetoOverriddenAsWritten | WinEvent.CloseHonoursCallback |
| src/windows/event/mod.rs:101-181, src/windows/event.rs:70-150 | input and paint messages are passed to `DefWindowProcW` by the handler and then again by the `_` arm | `WM_KEYDOWN` with a handler installed | each message receives default processing once | not executed; medium, because a second default processing is harmless for some messages | WinEvent.InputProcessedTwiceAsWritten | WinEvent.DefaultProcessingAtMostOnce |
| src/windows/window.rs:238-287 | Auto stores a new subscription token over a held one without removing it; Light and Dark remove the subscription but keep its token | `set_theme(Auto)`, `set_theme(Auto)`, `set_theme(Light)`, all succeeding | switching away from Auto leaves no subscription, and the record holds only a live token | not executed; medium, because in these files only `create` calls it, on a record with no token | WinWindow.AutoTwiceThenLightLeaksAsWritten | WinWindow.ThemeStepKeepsSubscriptionsTracked |
| src/windows/window.rs:344-352 | `close` removes the record and then calls `CloseWindow`, which minimizes the window rather than destroying it | `close(id)` on a live window | the window is destroyed | not executed; high, from the documented behaviour of `CloseWindow` | WinWindow.Registry.CloseAsWritten | WinWindow.Registry.Close |
| src/windows/window.rs:182-224 | the window's user data is a pointer into the registry's vector, and a later `remove` shifts the records it points at | create A, create B, close A, create C; then erase B's background | each window's erase uses its own options, found by its handle | not executed; high, because `Vec::remove` moves later elements | WinWindow.CloseShiftsPointerAsWritten | WinWindow.LookupByHandleSurvivesOthers |

For each finding, the rest of the model uses the corrected behaviour:

- The window procedure (`WinEvent.WndProc`) does not pass a message the handler settled
  to default processing again.
- `WinWindow.Window.SetTheme` removes a held subscription before it subscribes again, and
  forgets a removed token.
- `WinWindow.Registry.Close` destroys the window.
- The window procedure's user data (`WinEvent.UserData`, which `WinEvent.WndProc` reads
  and writes) is a map keyed by window handle that holds the options by value. The
  `WinWindow.Storage` model exists only to exhibit the fifth finding. Its
  `WinWindow.OptionsByHandle` lookup is the same correction stated on a list of records,
  and the window procedure does not use it.
