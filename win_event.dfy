/** The Win32 dispatch layer: classification and translation of raw messages into events,
    the single handler slot, the routing rule `run` installs in it, and the window procedure
    every message of every window passes through. Calls into Win32 are recorded as effects
    in the order they are made; what the operating system answers is a parameter. */
module WinEvent {
  import opened Basics
  import opened Win32
  import opened Mouse
  import opened MouseTranslate
  import opened Events
  import opened Style

  // ---------------------------------------------------------------- translation

  /** The keyboard classifier: the four codes the keyboard decoder handles. */
  predicate IsKeyMessage(m: MessageCode) {
    m == WM_KEYDOWN || m == WM_SYSKEYDOWN || m == WM_KEYUP || m == WM_SYSKEYUP
  }

  /** Bit 30 of a key message's LPARAM, the previous key state: set when the key was
      already down, so the message is an auto-repeat. */
  predicate WasDown(l: Word) {
    (l / 0x4000_0000) % 2 == 1
  }

  /** `KeyEvent::from`; any other code panics, hence the precondition. */
  function KeyEventFrom(code: MessageCode, w: Word, l: Word): KeyEvent
    requires IsKeyMessage(code)
  {
    if code == WM_KEYDOWN || code == WM_SYSKEYDOWN then
      if !WasDown(l) then KeyDown(w) else KeyHold(w)
    else
      KeyUp(w)
  }

  /** `input_message`: a keyboard or a mouse message. */
  predicate InputMessage(m: MessageCode) {
    IsKeyMessage(m) || IsMouseMessage(m)
  }

  /** `Event::from`: the keyboard classifier is consulted first, then the mouse classifier;
      an unclassified code panics, hence the precondition. */
  function EventFrom(code: MessageCode, w: Word, l: Word): Event
    requires InputMessage(code)
  {
    if IsKeyMessage(code) then Keyboard(KeyEventFrom(code, w, l))
    else Mouse(MouseEventFrom(code, w, l))
  }

  lemma ClassifiersAreDisjoint(m: MessageCode)
    ensures !(IsKeyMessage(m) && IsMouseMessage(m))
  {
  }

  /** Window lifecycle, paint and erase messages are never input. */
  lemma LifecycleIsNotInput(m: MessageCode)
    requires m in {WM_CREATE, WM_DESTROY, WM_PAINT, WM_CLOSE, WM_ERASEBKGND}
    ensures !InputMessage(m)
  {
  }

  /** A translated event is a keyboard event exactly for a keyboard code, and a mouse
      event carries the position and kind the mouse decoder gives. */
  lemma EventFromDispatchesByClassifier(code: MessageCode, w: Word, l: Word)
    requires InputMessage(code)
    ensures EventFrom(code, w, l).Keyboard? <==> IsKeyMessage(code)
    ensures EventFrom(code, w, l).Mouse? <==> IsMouseMessage(code)
    ensures IsMouseMessage(code) ==> EventFrom(code, w, l).mouseEvent == MouseEventFrom(code, w, l)
  {
    ClassifiersAreDisjoint(code);
  }

  /** Only bit 30 of the LPARAM matters to the keyboard decoder. */
  lemma KeyDecodingSeesOnlyBit30(code: MessageCode, w: Word, l: Word, l': Word)
    requires IsKeyMessage(code) && WasDown(l) == WasDown(l')
    ensures KeyEventFrom(code, w, l) == KeyEventFrom(code, w, l')
  {
  }

  /** Key-up codes decode to `KeyUp` whatever the LPARAM holds. */
  lemma KeyUpIgnoresLParam(code: MessageCode, w: Word, l: Word)
    requires code == WM_KEYUP || code == WM_SYSKEYUP
    ensures KeyEventFrom(code, w, l) == KeyUp(w)
  {
  }

  /** The same key-down message with the previous-state bit clear and then set decodes to
      `KeyDown` and then `KeyHold`. */
  lemma PreviousStateBitTurnsDownIntoHold(code: MessageCode, w: Word, l: Word)
    requires code == WM_KEYDOWN || code == WM_SYSKEYDOWN
    requires !WasDown(l)
    ensures l + 0x4000_0000 < 0x1_0000_0000_0000_0000
    ensures KeyEventFrom(code, w, l) == KeyDown(w)
    ensures KeyEventFrom(code, w, l + 0x4000_0000) == KeyHold(w)
  {
    var q := l / 0x4000_0000;
    assert q < 0x4_0000_0000 && q % 2 == 0;
    assert l < (q + 1) * 0x4000_0000 <= (0x4_0000_0000 - 1) * 0x4000_0000;
    assert (l + 0x4000_0000) / 0x4000_0000 == l / 0x4000_0000 + 1;
  }

  /** A key message carrying `e`: the system or the plain code, the key in the WPARAM, and
      the previous-state bit set for a repeat (bits 30 and 31 for a release). */
  function KeyMessage(e: KeyEvent, system: bool): (MessageCode, Word, Word) {
    match e
    case KeyDown(k) => (if system then WM_SYSKEYDOWN else WM_KEYDOWN, k, 0)
    case KeyHold(k) => (if system then WM_SYSKEYDOWN else WM_KEYDOWN, k, 0x4000_0000)
    case KeyUp(k) => (if system then WM_SYSKEYUP else WM_KEYUP, k, 0xC000_0000)
  }

  lemma KeyRoundTrip(e: KeyEvent, system: bool)
    ensures IsKeyMessage(KeyMessage(e, system).0)
    ensures KeyEventFrom(KeyMessage(e, system).0, KeyMessage(e, system).1, KeyMessage(e, system).2) == e
  {
  }

  /** The events a raw input message can carry. */
  predicate Translatable(e: Event) {
    match e
    case Keyboard(_) => true
    case Mouse(m) => Encodable(m.etype)
    case _ => false
  }

  /** An input message for `e`: the partner `Event::from` is proved against. */
  function InputMessageOf(e: Event): (MessageCode, Word, Word)
    requires Translatable(e)
  {
    match e
    case Keyboard(k) => KeyMessage(k, false)
    case Mouse(m) => Encode(m)
  }

  lemma {:induction false} EventRoundTrip(e: Event)
    requires Translatable(e)
    ensures InputMessage(InputMessageOf(e).0)
    ensures EventFrom(InputMessageOf(e).0, InputMessageOf(e).1, InputMessageOf(e).2) == e
  {
    match e
    case Keyboard(k) =>
      KeyRoundTrip(k, false);
    case Mouse(m) =>
      MouseRoundTrip(m);
      ClassifiersAreDisjoint(Encode(m).0);
  }

  // ---------------------------------------------------------------- routing

  /** The user callback with the state it is handed on every invocation. */
  datatype Listener<!S> = Listener(callback: (HWnd, Event, S) -> CallbackResult, state: S)

  /** The calls the dispatch layer makes, in order. */
  datatype Effect<S> =
    | DefaultProcessing(hwnd: HWnd, code: MessageCode, wparam: Word, lparam: Word)
    | Invoke(hwnd: HWnd, event: Event, state: S)
    | DestroyWindow(hwnd: HWnd)
    | StoreUserData(hwnd: HWnd, options: Option<WindowOptions>)
    | PostQuit
    | FillBackground(hdc: Word, color: Color)

  /** Whether the callback permits closing `hwnd`. */
  predicate Permits<S>(l: Listener<S>, hwnd: HWnd) {
    IntoEventResult(l.callback(hwnd, Close, l.state))
  }

  /** The closure `run` installs: input goes to default processing and then to the callback;
      a close request goes to the callback, whose answer decides `DestroyWindow`; a paint
      goes to default processing and then to the callback as `Repaint`; nothing else reaches
      the callback. */
  function Route<S>(l: Listener<S>, hwnd: HWnd, code: MessageCode, w: Word, lp: Word): seq<Effect<S>> {
    if InputMessage(code) then
      [DefaultProcessing(hwnd, code, w, lp), Invoke(hwnd, EventFrom(code, w, lp), l.state)]
    else if code == WM_CLOSE then
      [Invoke(hwnd, Close, l.state)] + (if Permits(l, hwnd) then [DestroyWindow(hwnd)] else [])
    else if code == WM_PAINT then
      [DefaultProcessing(hwnd, code, w, lp), Invoke(hwnd, Repaint, l.state)]
    else
      []
  }

  /** The events a list of effects hands to the callback, in order. */
  function Invoked<S>(effects: seq<Effect<S>>): seq<Event> {
    if effects == [] then []
    else (if effects[0].Invoke? then [effects[0].event] else []) + Invoked(effects[1..])
  }

  /** How many times a list of effects asks for default processing. */
  function DefaultCount<S>(effects: seq<Effect<S>>): nat {
    if effects == [] then 0
    else (if effects[0].DefaultProcessing? then 1 else 0) + DefaultCount(effects[1..])
  }

  lemma {:induction false} InvokedAppend<S>(a: seq<Effect<S>>, b: seq<Effect<S>>)
    ensures Invoked(a + b) == Invoked(a) + Invoked(b)
  {
    if a != [] {
      assert (a + b)[1..] == a[1..] + b;
      InvokedAppend(a[1..], b);
    } else {
      assert a + b == b;
    }
  }

  lemma {:induction false} DefaultCountAppend<S>(a: seq<Effect<S>>, b: seq<Effect<S>>)
    ensures DefaultCount(a + b) == DefaultCount(a) + DefaultCount(b)
  {
    if a != [] {
      assert (a + b)[1..] == a[1..] + b;
      DefaultCountAppend(a[1..], b);
    } else {
      assert a + b == b;
    }
  }

  /** Invocations and default processing in one- and two-element effect lists. */
  lemma EffectsOfPair<S>(a: Effect<S>, b: Effect<S>)
    ensures Invoked([a]) == (if a.Invoke? then [a.event] else [])
    ensures Invoked([a, b]) == Invoked([a]) + (if b.Invoke? then [b.event] else [])
    ensures DefaultCount([a]) == (if a.DefaultProcessing? then 1 else 0)
    ensures DefaultCount([a, b]) == DefaultCount([a]) + (if b.DefaultProcessing? then 1 else 0)
  {
    assert [a][1..] == [];
    assert [a, b][1..] == [b];
    assert [b][1..] == [];
  }

  /** The event the routing rule hands to the callback for a message, if any. */
  function RoutedEvent(code: MessageCode, w: Word, lp: Word): Option<Event> {
    if InputMessage(code) then Some(EventFrom(code, w, lp))
    else if code == WM_CLOSE then Some(Close)
    else if code == WM_PAINT then Some(Repaint)
    else None
  }

  /** The callback runs at most once per message: with the translated event for input, with
      `Close` for a close request, with `Repaint` for a paint, and not at all otherwise. */
  lemma RouteInvokesOnce<S>(l: Listener<S>, hwnd: HWnd, code: MessageCode, w: Word, lp: Word)
    ensures Invoked(Route(l, hwnd, code, w, lp))
            == (if RoutedEvent(code, w, lp).Some? then [RoutedEvent(code, w, lp).value] else [])
  {
    var r := Route(l, hwnd, code, w, lp);
    if InputMessage(code) || code == WM_PAINT || (code == WM_CLOSE && Permits(l, hwnd)) {
      EffectsOfPair(r[0], r[1]);
    } else if code == WM_CLOSE {
      EffectsOfPair(r[0], r[0]);
    }
  }

  /** Every invocation is for the message's window and carries the installed state. */
  lemma RouteCarriesState<S>(l: Listener<S>, hwnd: HWnd, code: MessageCode, w: Word, lp: Word)
    ensures forall e <- Route(l, hwnd, code, w, lp) :: e.Invoke? ==> e.hwnd == hwnd && e.state == l.state
  {
  }

  /** `DestroyWindow` is called exactly for a close request the callback permits, and only
      on the message's own window. */
  lemma RouteDestroysOnlyOnPermittedClose<S>(l: Listener<S>, hwnd: HWnd, code: MessageCode, w: Word, lp: Word)
    ensures DestroyWindow(hwnd) in Route(l, hwnd, code, w, lp) <==> code == WM_CLOSE && Permits(l, hwnd)
    ensures forall e <- Route(l, hwnd, code, w, lp) :: e.DestroyWindow? ==> e.hwnd == hwnd
  {
  }

  /** Default processing, when asked for, comes first and comes once; a close request never
      asks for it. */
  lemma RouteDefaultProcessingFirst<S>(l: Listener<S>, hwnd: HWnd, code: MessageCode, w: Word, lp: Word)
    ensures DefaultCount(Route(l, hwnd, code, w, lp)) == (if InputMessage(code) || code == WM_PAINT then 1 else 0)
    ensures DefaultCount(Route(l, hwnd, code, w, lp)) == 1 ==>
              Route(l, hwnd, code, w, lp)[0] == DefaultProcessing(hwnd, code, w, lp)
  {
    var r := Route(l, hwnd, code, w, lp);
    if InputMessage(code) || code == WM_PAINT || (code == WM_CLOSE && Permits(l, hwnd)) {
      EffectsOfPair(r[0], r[1]);
    } else if code == WM_CLOSE {
      EffectsOfPair(r[0], r[0]);
    }
  }

  /** The close-permission contract: a callback answering `false` to `Close` does not
      destroy the window, one answering unit always does. */
  lemma CloseFollowsTheCallbacksAnswer<S>(l: Listener<S>, hwnd: HWnd)
    ensures l.callback(hwnd, Close, l.state) == Bool(false) ==> DestroyWindow(hwnd) !in Route(l, hwnd, WM_CLOSE, 0, 0)
    ensures l.callback(hwnd, Close, l.state) == Unit ==> DestroyWindow(hwnd) in Route(l, hwnd, WM_CLOSE, 0, 0)
  {
    RouteDestroysOnlyOnPermittedClose(l, hwnd, WM_CLOSE, 0, 0);
  }

  /** The thread's single handler slot (`Handler`). */
  class Handler<S> {
    var slot: Option<Listener<S>>

    /** `Handler::default`: no handler installed. */
    constructor ()
      ensures slot == None
    {
      slot := None;
    }

    /** `set_handler`: the new handler replaces whatever was installed. */
    method SetHandler(l: Listener<S>)
      modifies this
      ensures slot == Some(l)
    {
      slot := Some(l);
    }

    /** `handle`: run the installed handler, or do nothing when there is none. */
    method Handle(hwnd: HWnd, code: MessageCode, w: Word, lp: Word) returns (effects: seq<Effect<S>>)
      ensures effects == Dispatch(slot, hwnd, code, w, lp)
    {
      if slot.Some? {
        effects := Route(slot.value, hwnd, code, w, lp);
      } else {
        effects := [];
      }
    }
  }

  /** What `handle` does with the slot's contents. */
  function Dispatch<S>(slot: Option<Listener<S>>, hwnd: HWnd, code: MessageCode, w: Word, lp: Word)
    : seq<Effect<S>>
  {
    match slot
    case None => []
    case Some(l) => Route(l, hwnd, code, w, lp)
  }

  /** Installing a handler twice leaves only the second one. */
  method ReplaceHandler<S>(h: Handler<S>, first: Listener<S>, second: Listener<S>)
    modifies h
    ensures h.slot == Some(second)
  {
    h.SetHandler(first);
    h.SetHandler(second);
  }

  // ---------------------------------------------------------------- the window procedure

  /** What the operating system supplies to one call of the window procedure: the creation
      parameter a `WM_CREATE` carries (the options pointer given to `CreateWindowExW`, or
      null), whether the system is in dark mode, and the default theme and background used
      when a window has no user data. */
  datatype Env = Env(created: Option<WindowOptions>, osDark: bool, defaultTheme: Theme, defaultBackground: Background)

  /** `LRESULT(0)`, or whatever `DefWindowProcW` answered. */
  datatype LResult = Zero | FromDefault

  /** One call of the window procedure: its effects, its result, and the per-window user-data
      slots afterwards (a missing entry is a null pointer). */
  datatype Step<S> = Step(effects: seq<Effect<S>>, result: LResult, userData: map<HWnd, WindowOptions>)

  function UserDataOf(userData: map<HWnd, WindowOptions>, hwnd: HWnd): Option<WindowOptions> {
    if hwnd in userData then Some(userData[hwnd]) else None
  }

  /** The `WM_ERASEBKGND` colour: the theme and background of the window's options, or the
      defaults when its user data is null; Light and Dark pick their colour, Auto follows the
      system. */
  function EraseColor(data: Option<WindowOptions>, env: Env): Color {
    var theme := if data.Some? then data.value.theme else env.defaultTheme;
    var background := if data.Some? then data.value.background else env.defaultBackground;
    match theme
    case Light => LightOf(background)
    case Dark => DarkOf(background)
    case Auto => ColorOf(background, env.osDark)
  }

  /** The erase colour is the dark colour exactly for a Dark theme or an Auto theme in dark
      mode, taken from the window's own background unless its user data is null. */
  lemma EraseColorByTheme(data: Option<WindowOptions>, env: Env)
    ensures var o := if data.Some? then (data.value.theme, data.value.background)
                     else (env.defaultTheme, env.defaultBackground);
            EraseColor(data, env)
              == (if o.0 == Dark || (o.0 == Auto && env.osDark) then o.1.darkColor else o.1.lightColor)
  {
  }

  /** The message-specific arms of `wnd_proc`, after the handler has run. */
  function ProcArms<S>(userData: map<HWnd, WindowOptions>, env: Env, hwnd: HWnd, code: MessageCode, w: Word, lp: Word)
    : Step<S>
  {
    if code == WM_CREATE then
      Step([StoreUserData(hwnd, env.created)], Zero,
           if env.created.Some? then userData[hwnd := env.created.value] else userData - {hwnd})
    else if code == WM_DESTROY then
      Step([PostQuit], Zero, userData)
    else if code == WM_ERASEBKGND then
      Step([FillBackground(w, EraseColor(UserDataOf(userData, hwnd), env))], Zero, userData)
    else
      Step([DefaultProcessing(hwnd, code, w, lp)], FromDefault, userData)
  }

  /** `wnd_proc` as written: the handler runs, then every message other than `WM_CREATE`,
      `WM_DESTROY` and `WM_ERASEBKGND` is passed to `DefWindowProcW`, including the ones
      the handler already passed there and `WM_CLOSE`. */
  function WndProcAsWritten<S>(slot: Option<Listener<S>>, userData: map<HWnd, WindowOptions>, env: Env,
                               hwnd: HWnd, code: MessageCode, w: Word, lp: Word): Step<S>
  {
    var handled := Dispatch(slot, hwnd, code, w, lp);
    var arm := ProcArms<S>(userData, env, hwnd, code, w, lp);
    Step(handled + arm.effects, arm.result, arm.userData)
  }

  /** Whether a message was already settled by the installed handler: it forwarded input
      and paint messages to default processing itself, and decided a close request. */
  predicate SettledByHandler<S>(slot: Option<Listener<S>>, code: MessageCode) {
    slot.Some? && (InputMessage(code) || code == WM_PAINT || code == WM_CLOSE)
  }

  /** The window procedure with the handler's decision respected: a message the handler
      settled is not passed to `DefWindowProcW` a second time. */
  function WndProcStep<S>(slot: Option<Listener<S>>, userData: map<HWnd, WindowOptions>, env: Env,
                          hwnd: HWnd, code: MessageCode, w: Word, lp: Word): Step<S>
  {
    var handled := Dispatch(slot, hwnd, code, w, lp);
    if SettledByHandler(slot, code) then
      Step(handled, if code == WM_CLOSE then Zero else FromDefault, userData)
    else
      var arm := ProcArms<S>(userData, env, hwnd, code, w, lp);
      Step(handled + arm.effects, arm.result, arm.userData)
  }

  /** Effects that end the life of `hwnd`: `DestroyWindow`, or default processing of
      `WM_CLOSE`, which by its documented behaviour calls `DestroyWindow`. */
  predicate Destroys<S>(e: Effect<S>, hwnd: HWnd) {
    e == DestroyWindow(hwnd) || (e.DefaultProcessing? && e.hwnd == hwnd && e.code == WM_CLOSE)
  }

  /** As written, a callback that answers `false` to `Close` still loses its window: the
      close request is passed on to `DefWindowProcW`. */
  lemma CloseVetoOverriddenAsWritten<S>(l: Listener<S>, hwnd: HWnd, userData: map<HWnd, WindowOptions>, env: Env)
    requires l.callback(hwnd, Close, l.state) == Bool(false)
    ensures DestroyWindow(hwnd) !in WndProcAsWritten(Some(l), userData, env, hwnd, WM_CLOSE, 0, 0).effects
    ensures exists e <- WndProcAsWritten(Some(l), userData, env, hwnd, WM_CLOSE, 0, 0).effects :: Destroys(e, hwnd)
  {
    var s := WndProcAsWritten(Some(l), userData, env, hwnd, WM_CLOSE, 0, 0);
    assert s.effects == [Invoke(hwnd, Close, l.state), DefaultProcessing(hwnd, WM_CLOSE, 0, 0)];
    assert Destroys(s.effects[1], hwnd);
  }

  /** As written, a key press with a handler installed is passed to `DefWindowProcW` twice. */
  lemma InputProcessedTwiceAsWritten<S>(l: Listener<S>, userData: map<HWnd, WindowOptions>, env: Env,
                                        hwnd: HWnd, w: Word, lp: Word)
    ensures DefaultCount(WndProcAsWritten(Some(l), userData, env, hwnd, WM_KEYDOWN, w, lp).effects) == 2
  {
    var r := Route(l, hwnd, WM_KEYDOWN, w, lp);
    var arm := ProcArms<S>(userData, env, hwnd, WM_KEYDOWN, w, lp);
    EffectsOfPair(r[0], r[1]);
    EffectsOfPair(arm.effects[0], arm.effects[0]);
    DefaultCountAppend(r, arm.effects);
  }

  /** With a handler installed, the window ends exactly when the callback permits it. */
  lemma CloseHonoursCallback<S>(l: Listener<S>, hwnd: HWnd, userData: map<HWnd, WindowOptions>, env: Env,
                                w: Word, lp: Word)
    ensures (exists e <- WndProcStep(Some(l), userData, env, hwnd, WM_CLOSE, w, lp).effects :: Destroys(e, hwnd))
            <==> Permits(l, hwnd)
  {
    var s := WndProcStep(Some(l), userData, env, hwnd, WM_CLOSE, w, lp);
    if Permits(l, hwnd) {
      assert s.effects == [Invoke(hwnd, Close, l.state), DestroyWindow(hwnd)];
      assert Destroys(s.effects[1], hwnd);
    } else {
      assert s.effects == [Invoke(hwnd, Close, l.state)];
    }
  }

  /** Every message is passed to default processing at most once, and exactly once unless
      the window procedure or the handler settles it itself. */
  lemma DefaultProcessingAtMostOnce<S>(slot: Option<Listener<S>>, userData: map<HWnd, WindowOptions>, env: Env,
                                       hwnd: HWnd, code: MessageCode, w: Word, lp: Word)
    ensures DefaultCount(WndProcStep(slot, userData, env, hwnd, code, w, lp).effects)
            == (if code in {WM_CREATE, WM_DESTROY, WM_ERASEBKGND} || (code == WM_CLOSE && slot.Some?) then 0 else 1)
  {
    var handled := Dispatch(slot, hwnd, code, w, lp);
    var arm := ProcArms<S>(userData, env, hwnd, code, w, lp);
    if slot.Some? {
      RouteDefaultProcessingFirst(slot.value, hwnd, code, w, lp);
    }
    if !SettledByHandler(slot, code) {
      DefaultCountAppend(handled, arm.effects);
      EffectsOfPair(arm.effects[0], arm.effects[0]);
    }
  }

  /** The window procedure hands the callback exactly what the routing rule routes, and
      only when a handler is installed. */
  lemma WndProcInvokes<S>(slot: Option<Listener<S>>, userData: map<HWnd, WindowOptions>, env: Env,
                          hwnd: HWnd, code: MessageCode, w: Word, lp: Word)
    ensures Invoked(WndProcStep(slot, userData, env, hwnd, code, w, lp).effects)
            == (if slot.Some? && RoutedEvent(code, w, lp).Some? then [RoutedEvent(code, w, lp).value] else [])
  {
    var handled := Dispatch(slot, hwnd, code, w, lp);
    var arm := ProcArms<S>(userData, env, hwnd, code, w, lp);
    if slot.Some? {
      RouteInvokesOnce(slot.value, hwnd, code, w, lp);
    }
    if !SettledByHandler(slot, code) {
      InvokedAppend(handled, arm.effects);
      EffectsOfPair(arm.effects[0], arm.effects[0]);
    }
  }

  /** `WM_CREATE` stores the creation parameter as the window's user data, and a later
      `WM_ERASEBKGND` for that window fills with the colour its options choose. */
  lemma CreateThenErase<S>(slot: Option<Listener<S>>, userData: map<HWnd, WindowOptions>, env: Env, env': Env,
                           hwnd: HWnd, hdc: Word, o: WindowOptions)
    requires env.created == Some(o)
    ensures var s := WndProcStep(slot, userData, env, hwnd, WM_CREATE, 0, 0);
            var t := WndProcStep(slot, s.userData, env', hwnd, WM_ERASEBKGND, hdc, 0);
            s.result == Zero && t.result == Zero
            && t.effects == Dispatch(slot, hwnd, WM_ERASEBKGND, hdc, 0) + [FillBackground(hdc, EraseColor(Some(o), env'))]
  {
  }

  /** `WM_DESTROY` posts the quit message and returns 0, whether or not a handler is
      installed; it reaches neither the callback nor default processing, and the written and
      the corrected window procedure agree on it. */
  lemma DestroyPostsQuit<S>(slot: Option<Listener<S>>, userData: map<HWnd, WindowOptions>, env: Env,
                            hwnd: HWnd, w: Word, lp: Word)
    ensures var s := WndProcStep(slot, userData, env, hwnd, WM_DESTROY, w, lp);
            s.effects == [PostQuit] && s.result == Zero && s.userData == userData
            && WndProcAsWritten(slot, userData, env, hwnd, WM_DESTROY, w, lp) == s
  {
    LifecycleIsNotInput(WM_DESTROY);
    assert Dispatch(slot, hwnd, WM_DESTROY, w, lp) == [];
  }

  /** The user-data slots of the current thread's windows, which `WM_CREATE` writes. */
  class UserData {
    var slots: map<HWnd, WindowOptions>

    constructor ()
      ensures slots == map[]
    {
      slots := map[];
    }
  }

  /** `wnd_proc`: run the handler, then the message's own arm. */
  method WndProc<S>(h: Handler<S>, data: UserData, env: Env, hwnd: HWnd, code: MessageCode, w: Word, lp: Word)
    returns (effects: seq<Effect<S>>, result: LResult)
    modifies data
    ensures var s := WndProcStep(h.slot, old(data.slots), env, hwnd, code, w, lp);
            effects == s.effects && result == s.result && data.slots == s.userData
  {
    var handled := h.Handle(hwnd, code, w, lp);
    if SettledByHandler(h.slot, code) {
      effects := handled;
      result := if code == WM_CLOSE then Zero else FromDefault;
    } else if code == WM_CREATE {
      effects := handled + [StoreUserData(hwnd, env.created)];
      if env.created.Some? {
        data.slots := data.slots[hwnd := env.created.value];
      } else {
        data.slots := data.slots - {hwnd};
      }
      result := Zero;
    } else if code == WM_DESTROY {
      effects := handled + [PostQuit];
      result := Zero;
    } else if code == WM_ERASEBKGND {
      var color := EraseColor(UserDataOf(data.slots, hwnd), env);
      effects := handled + [FillBackground(w, color)];
      result := Zero;
    } else {
      effects := handled + [DefaultProcessing(hwnd, code, w, lp)];
      result := FromDefault;
    }
  }

  // ---------------------------------------------------------------- run and the message pump

  /** A message as the pump delivers it, with what the system supplies alongside. */
  datatype Delivery = Delivery(hwnd: HWnd, code: MessageCode, wparam: Word, lparam: Word, env: Env)

  /** The effects of dispatching `ds` in order, and the user-data slots afterwards. */
  function DispatchAll<S>(slot: Option<Listener<S>>, userData: map<HWnd, WindowOptions>, ds: seq<Delivery>)
    : (seq<Effect<S>>, map<HWnd, WindowOptions>)
    decreases |ds|
  {
    if ds == [] then ([], userData)
    else
      var d := ds[0];
      var s := WndProcStep(slot, userData, d.env, d.hwnd, d.code, d.wparam, d.lparam);
      var rest := DispatchAll(slot, s.userData, ds[1..]);
      (s.effects + rest.0, rest.1)
  }

  lemma {:induction false} DispatchAllSnoc<S>(slot: Option<Listener<S>>, userData: map<HWnd, WindowOptions>,
                                              ds: seq<Delivery>, d: Delivery)
    ensures var before := DispatchAll(slot, userData, ds);
            var s := WndProcStep(slot, before.1, d.env, d.hwnd, d.code, d.wparam, d.lparam);
            DispatchAll(slot, userData, ds + [d]) == (before.0 + s.effects, s.userData)
    decreases |ds|
  {
    if ds == [] {
      assert ds + [d] == [d];
      assert [d][1..] == [];
      var s := WndProcStep(slot, userData, d.env, d.hwnd, d.code, d.wparam, d.lparam);
      assert DispatchAll(slot, s.userData, []) == ([], s.userData);
      assert [] + s.effects == s.effects + [];
    } else {
      var s0 := WndProcStep(slot, userData, ds[0].env, ds[0].hwnd, ds[0].code, ds[0].wparam, ds[0].lparam);
      assert (ds + [d])[1..] == ds[1..] + [d];
      DispatchAllSnoc(slot, s0.userData, ds[1..], d);
      var mid := DispatchAll(slot, s0.userData, ds[1..]);
      var s := WndProcStep(slot, mid.1, d.env, d.hwnd, d.code, d.wparam, d.lparam);
      assert (ds + [d])[0] == ds[0];
      assert s0.effects + (mid.0 + s.effects) == (s0.effects + mid.0) + s.effects;
    }
  }

  /** One step of the window procedure destroys at most the window of a close request. */
  lemma StepDestroysOnlyOnClose<S>(slot: Option<Listener<S>>, userData: map<HWnd, WindowOptions>, env: Env,
                                   hwnd: HWnd, code: MessageCode, w: Word, lp: Word)
    ensures forall e <- WndProcStep(slot, userData, env, hwnd, code, w, lp).effects ::
              e.DestroyWindow? ==> e.hwnd == hwnd && code == WM_CLOSE
  {
    if slot.Some? {
      RouteDestroysOnlyOnPermittedClose(slot.value, hwnd, code, w, lp);
    }
  }

  /** Whatever the messages, every callback invocation carries the installed state and no
      window but a closed one is destroyed by the handler. */
  lemma {:induction false} DispatchAllCarriesState<S>(l: Listener<S>, userData: map<HWnd, WindowOptions>,
                                                      ds: seq<Delivery>)
    ensures forall e <- DispatchAll(Some(l), userData, ds).0 :: e.Invoke? ==> e.state == l.state
    ensures forall e <- DispatchAll(Some(l), userData, ds).0 ::
              e.DestroyWindow? ==> exists d <- ds :: d.hwnd == e.hwnd && d.code == WM_CLOSE
    decreases |ds|
  {
    if ds != [] {
      var d := ds[0];
      var s := WndProcStep(Some(l), userData, d.env, d.hwnd, d.code, d.wparam, d.lparam);
      RouteCarriesState(l, d.hwnd, d.code, d.wparam, d.lparam);
      StepDestroysOnlyOnClose(Some(l), userData, d.env, d.hwnd, d.code, d.wparam, d.lparam);
      DispatchAllCarriesState(l, s.userData, ds[1..]);
      assert forall x <- ds[1..] :: x in ds;
    }
  }

  /** Without a handler, nothing reaches a callback. */
  lemma {:induction false} NoHandlerNoInvocation<S>(userData: map<HWnd, WindowOptions>, ds: seq<Delivery>)
    ensures forall e <- DispatchAll<S>(None, userData, ds).0 :: !e.Invoke?
    decreases |ds|
  {
    if ds != [] {
      var d := ds[0];
      var s := WndProcStep<S>(None, userData, d.env, d.hwnd, d.code, d.wparam, d.lparam);
      NoHandlerNoInvocation<S>(s.userData, ds[1..]);
    }
  }

  /** `run`: install the routing closure over `callback` and `state` in the slot, then
      dispatch what the pump delivers until the quit message (the delivered sequence). */
  method Run<S>(h: Handler<S>, data: UserData, state: S, callback: (HWnd, Event, S) -> CallbackResult,
                ds: seq<Delivery>)
    returns (effects: seq<Effect<S>>)
    modifies h, data
    ensures h.slot == Some(Listener(callback, state))
    ensures (effects, data.slots) == DispatchAll(h.slot, old(data.slots), ds)
  {
    h.SetHandler(Listener(callback, state));
    effects := [];
    var i := 0;
    while i < |ds|
      invariant 0 <= i <= |ds|
      invariant h.slot == Some(Listener(callback, state))
      invariant (effects, data.slots) == DispatchAll(h.slot, old(data.slots), ds[..i])
    {
      var d := ds[i];
      var more, _ := WndProc(h, data, d.env, d.hwnd, d.code, d.wparam, d.lparam);
      DispatchAllSnoc(h.slot, old(data.slots), ds[..i], d);
      assert ds[..i + 1] == ds[..i] + [d];
      effects := effects + more;
      i := i + 1;
    }
    assert ds[..i] == ds;
  }
}
