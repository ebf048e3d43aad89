/** The Win32 window records: the thread's registry of windows, the fullscreen toggle of a
    record, the theme-subscription bookkeeping, window creation and closing, and the builder
    that collects creation options. Win32 and WinRT calls are recorded as `NativeCall`s in
    the order they are made; what the system answers is a parameter. */
module WinWindow {
  import opened Basics
  import opened Win32
  import opened Style

  /** An `EventRegistrationToken` value identifying one settings-change subscription. */
  type Cookie = int

  /** A window style as its 32 bits (`GetWindowLongW(GWL_STYLE)` returns it as an `i32`). */
  type WindowStyle = bv32

  datatype Rect = Rect(left: int, top: int, right: int, bottom: int)

  /** `WINDOWPLACEMENT`: the show state and the restored position of a window. */
  datatype Placement = Placement(showCmd: int, normal: Rect)

  /** `WINDOWPLACEMENT::default()`. */
  const DefaultPlacement := Placement(0, Rect(0, 0, 0, 0))

  /** An error carrying the system's error code. */
  datatype Error = Error(code: int)

  datatype NativeCall =
    | SetStyle(hwnd: HWnd, style: WindowStyle)
    | SetPos(hwnd: HWnd, x: int, y: int, cx: int, cy: int)
    | SetPlacement(hwnd: HWnd, placement: Placement)
    | RefreshFrame(hwnd: HWnd)
    | RemoveSubscription(cookie: Cookie)
    | Subscribe(hwnd: HWnd)
    | SetDarkMode(hwnd: HWnd, value: int)
    | RegisterClass(className: string, icon: Option<string>)
    | CreateWindow(className: string, title: string)
    | ShowWindow(hwnd: HWnd)
    | MinimizeWindow(hwnd: HWnd)
    | DestroyWindow(hwnd: HWnd)

  // ---------------------------------------------------------------- fullscreen

  /** The style without the overlapped-window bits (title bar, border, menus, sizing). */
  function Strip(style: WindowStyle): WindowStyle {
    style & !WS_OVERLAPPEDWINDOW
  }

  /** The style with every overlapped-window bit set. */
  function WithFrame(style: WindowStyle): WindowStyle {
    style | WS_OVERLAPPEDWINDOW
  }

  /** One `fullscreen` toggle of a record whose saved placement is `prev`, given the current
      style and what `GetWindowPlacement` and `GetMonitorInfoW` answer (None for failure).
      Entering saves the placement, strips the overlapped-window bits and covers the monitor;
      if either query fails the record still holds a saved placement and nothing is applied.
      Leaving puts the bits back, reapplies the saved placement and forgets it. */
  function FullscreenStep(prev: Option<Placement>, hwnd: HWnd, style: WindowStyle,
                          captured: Option<Placement>, monitor: Option<Rect>)
    : (Option<Placement>, seq<NativeCall>)
  {
    if prev.None? then
      if captured.Some? && monitor.Some? then
        var m := monitor.value;
        (Some(captured.value),
         [SetStyle(hwnd, Strip(style)),
          SetPos(hwnd, m.left, m.top, m.right - m.left, m.bottom - m.top)])
      else
        (Some(if captured.Some? then captured.value else DefaultPlacement), [])
    else
      (None, [SetStyle(hwnd, WithFrame(style)), SetPlacement(hwnd, prev.value), RefreshFrame(hwnd)])
  }

  /** The part of a native window the toggle changes: its style and its placement. */
  datatype NativeWindow = NativeWindow(style: WindowStyle, placement: Placement)

  /** The effect of one recorded call on the native window. `SetWindowPos` with a size
      moves the restored rectangle to the given origin and extent. */
  function ApplyOne(nw: NativeWindow, call: NativeCall): NativeWindow {
    if call.SetStyle? then nw.(style := call.style)
    else if call.SetPos? then
      nw.(placement := nw.placement.(normal := Rect(call.x, call.y, call.x + call.cx, call.y + call.cy)))
    else if call.SetPlacement? then nw.(placement := call.placement)
    else nw
  }

  /** The effect of the recorded calls, in order. */
  function Apply(nw: NativeWindow, calls: seq<NativeCall>): NativeWindow
    decreases |calls|
  {
    if calls == [] then nw else Apply(ApplyOne(nw, calls[0]), calls[1..])
  }

  lemma ApplyPair(nw: NativeWindow, a: NativeCall, b: NativeCall)
    ensures Apply(nw, [a, b]) == ApplyOne(ApplyOne(nw, a), b)
  {
    assert [a, b][1..] == [b];
    assert Apply(nw, [a, b]) == Apply(ApplyOne(nw, a), [b]);
    ApplySingle(ApplyOne(nw, a), b);
  }

  lemma ApplySingle(nw: NativeWindow, a: NativeCall)
    ensures Apply(nw, [a]) == ApplyOne(nw, a)
  {
    assert [a][1..] == [];
  }

  lemma ApplyTriple(nw: NativeWindow, a: NativeCall, b: NativeCall, c: NativeCall)
    ensures Apply(nw, [a, b, c]) == ApplyOne(ApplyOne(ApplyOne(nw, a), b), c)
  {
    assert [a, b, c][1..] == [b, c];
    ApplyPair(ApplyOne(nw, a), b, c);
  }

  /** Entering fullscreen with both queries answered saves the placement, covers the
      monitor exactly (its width is `right - left`, its height `bottom - top`) and strips
      the overlapped-window bits. */
  lemma EnterCoversMonitor(hwnd: HWnd, nw: NativeWindow, monitor: Rect)
    ensures var enter := FullscreenStep(None, hwnd, nw.style, Some(nw.placement), Some(monitor));
            && enter.0 == Some(nw.placement)
            && Apply(nw, enter.1) == NativeWindow(Strip(nw.style), nw.placement.(normal := monitor))
  {
    var m := monitor;
    var a := SetStyle(hwnd, Strip(nw.style));
    var b := SetPos(hwnd, m.left, m.top, m.right - m.left, m.bottom - m.top);
    assert FullscreenStep(None, hwnd, nw.style, Some(nw.placement), Some(monitor)).1 == [a, b];
    ApplyPair(nw, a, b);
  }

  /** The stripped style has no overlapped-window bit and keeps every other bit. */
  lemma StripClears(s: WindowStyle)
    ensures Strip(s) & WS_OVERLAPPEDWINDOW == 0
    ensures Strip(s) | WS_OVERLAPPEDWINDOW == s | WS_OVERLAPPEDWINDOW
  {
    StripHasNoFrame(s);
    StripKeepsTheRest(s);
  }

  lemma StripHasNoFrame(s: WindowStyle)
    ensures Strip(s) & WS_OVERLAPPEDWINDOW == 0
  {
  }

  lemma StripKeepsTheRest(s: WindowStyle)
    ensures WithFrame(Strip(s)) == WithFrame(s)
  {
  }

  /** Setting the overlapped-window bits changes a style exactly when it lacks one of them. */
  lemma WithFrameIsIdentityIff(s: WindowStyle)
    ensures WithFrame(s) == s <==> s & WS_OVERLAPPEDWINDOW == WS_OVERLAPPEDWINDOW
  {
  }

  /** Leaving fullscreen reapplies the saved placement, sets the overlapped-window bits and
      forgets the saved placement, whatever the queries would answer. */
  lemma LeaveRestores(hwnd: HWnd, nw: NativeWindow, saved: Placement, captured: Option<Placement>,
                      monitor: Option<Rect>)
    ensures var leave := FullscreenStep(Some(saved), hwnd, nw.style, captured, monitor);
            && leave.0 == None
            && Apply(nw, leave.1) == NativeWindow(WithFrame(nw.style), saved)
  {
    var a := SetStyle(hwnd, WithFrame(nw.style));
    assert FullscreenStep(Some(saved), hwnd, nw.style, captured, monitor).1
        == [a, SetPlacement(hwnd, saved), RefreshFrame(hwnd)];
    ApplyTriple(nw, a, SetPlacement(hwnd, saved), RefreshFrame(hwnd));
  }

  /** Two toggles from a window whose queries succeed: the saved placement is forgotten
      again, the placement is the original one, and the style is the original style with
      the overlapped-window bits set, equal to the original exactly when it had them all. */
  lemma TwoTogglesRestore(hwnd: HWnd, nw: NativeWindow, monitor: Rect, captured2: Option<Placement>,
                          monitor2: Option<Rect>)
    ensures var first := FullscreenStep(None, hwnd, nw.style, Some(nw.placement), Some(monitor));
            var nw1 := Apply(nw, first.1);
            var second := FullscreenStep(first.0, hwnd, nw1.style, captured2, monitor2);
            var nw2 := Apply(nw1, second.1);
            && second.0 == None
            && nw2 == NativeWindow(WithFrame(nw.style), nw.placement)
            && (nw2 == nw <==> nw.style & WS_OVERLAPPEDWINDOW == WS_OVERLAPPEDWINDOW)
  {
    var first := FullscreenStep(None, hwnd, nw.style, Some(nw.placement), Some(monitor));
    EnterCoversMonitor(hwnd, nw, monitor);
    var nw1 := Apply(nw, first.1);
    LeaveRestores(hwnd, nw1, nw.placement, captured2, monitor2);
    StripKeepsTheRest(nw.style);
    WithFrameIsIdentityIff(nw.style);
  }

  /** A failed query still leaves a saved placement behind, so the next toggle takes the
      leaving branch: it puts the overlapped-window bits back and applies that placement. */
  lemma FailedCaptureArmsRestore(hwnd: HWnd, style: WindowStyle, captured: Option<Placement>,
                                 monitor: Option<Rect>, style2: WindowStyle)
    requires captured.None? || monitor.None?
    ensures var (p1, c1) := FullscreenStep(None, hwnd, style, captured, monitor);
            && c1 == []
            && p1 == Some(if captured.Some? then captured.value else DefaultPlacement)
            && FullscreenStep(p1, hwnd, style2, captured, monitor).1
               == [SetStyle(hwnd, WithFrame(style2)), SetPlacement(hwnd, p1.value), RefreshFrame(hwnd)]
  {
  }

  // ---------------------------------------------------------------- theme

  /** What the system answers to `set_theme`'s calls: the outcome of removing a
      subscription, the token of a new subscription or its error, whether the system is in
      dark mode, and the outcome of setting the dark-mode attribute. */
  datatype ThemeOs = ThemeOs(remove: Option<Error>, subscribe: Result<Cookie, Error>, isDark: bool,
                             attribute: Option<Error>)

  /** The outcome of one `set_theme`: the record's cookie afterwards, the calls made, and
      the result. */
  datatype ThemeOutcome = ThemeOutcome(cookie: Option<Cookie>, calls: seq<NativeCall>, result: Result<(), Error>)

  /** Setting the dark-mode attribute (attribute 20) to `value` ends the step. */
  function SetAttribute(cookie: Option<Cookie>, before: seq<NativeCall>, hwnd: HWnd, value: int, os: ThemeOs)
    : ThemeOutcome
  {
    ThemeOutcome(cookie, before + [SetDarkMode(hwnd, value)],
                 if os.attribute.Some? then Err(os.attribute.value) else Ok(()))
  }

  /** `set_theme` as written: Light and Dark remove a held subscription but keep its token in
      the record; Auto stores a new subscription's token over whatever the record held. */
  function ThemeStepAsWritten(cookie: Option<Cookie>, hwnd: HWnd, theme: Theme, os: ThemeOs): ThemeOutcome {
    match theme
    case Light | Dark =>
      var value := if theme == Dark then 1 else 0;
      if cookie.Some? then
        if os.remove.Some? then ThemeOutcome(cookie, [RemoveSubscription(cookie.value)], Err(os.remove.value))
        else SetAttribute(cookie, [RemoveSubscription(cookie.value)], hwnd, value, os)
      else SetAttribute(cookie, [], hwnd, value, os)
    case Auto =>
      if os.subscribe.Err? then ThemeOutcome(cookie, [Subscribe(hwnd)], Err(os.subscribe.error))
      else SetAttribute(Some(os.subscribe.value), [Subscribe(hwnd)], hwnd, if os.isDark then 1 else 0, os)
  }

  /** `set_theme` with its subscription kept track of: a removed subscription's token is
      forgotten, and Auto removes a held subscription before it subscribes again. */
  function ThemeStep(cookie: Option<Cookie>, hwnd: HWnd, theme: Theme, os: ThemeOs): ThemeOutcome {
    var removal := Removal(cookie);
    if cookie.Some? && os.remove.Some? then
      ThemeOutcome(cookie, removal, Err(os.remove.value))
    else
      match theme
      case Light => SetAttribute(None, removal, hwnd, 0, os)
      case Dark => SetAttribute(None, removal, hwnd, 1, os)
      case Auto =>
        if os.subscribe.Err? then ThemeOutcome(None, removal + [Subscribe(hwnd)], Err(os.subscribe.error))
        else SetAttribute(Some(os.subscribe.value), removal + [Subscribe(hwnd)], hwnd, if os.isDark then 1 else 0, os)
  }

  /** The live subscriptions after one call, given the system's answers: a removal that
      succeeds ends its subscription, a subscription that succeeds adds its token. */
  function LiveStep(live: set<Cookie>, call: NativeCall, os: ThemeOs): set<Cookie> {
    if call.RemoveSubscription? then
      if os.remove.None? then live - {call.cookie} else live
    else if call.Subscribe? then
      if os.subscribe.Ok? then live + {os.subscribe.value} else live
    else live
  }

  /** The live subscriptions after the calls of one step. */
  function LiveAfter(live: set<Cookie>, calls: seq<NativeCall>, os: ThemeOs): set<Cookie>
    decreases |calls|
  {
    if calls == [] then live else LiveAfter(LiveStep(live, calls[0], os), calls[1..], os)
  }

  /** The record accounts for every live subscription: exactly its own token is live. */
  predicate Tracked(live: set<Cookie>, cookie: Option<Cookie>) {
    live == if cookie.Some? then {cookie.value} else {}
  }

  lemma {:induction false} LiveAfterAppend(live: set<Cookie>, a: seq<NativeCall>, b: seq<NativeCall>, os: ThemeOs)
    ensures LiveAfter(live, a + b, os) == LiveAfter(LiveAfter(live, a, os), b, os)
    decreases |a|
  {
    if a == [] {
      assert a + b == b;
    } else {
      assert (a + b)[0] == a[0];
      assert (a + b)[1..] == a[1..] + b;
      LiveAfterAppend(LiveStep(live, a[0], os), a[1..], b, os);
    }
  }

  lemma LiveAfterOne(live: set<Cookie>, call: NativeCall, os: ThemeOs)
    ensures LiveAfter(live, [call], os) == LiveStep(live, call, os)
  {
    assert [call][1..] == [];
  }

  lemma LiveAfterPair(live: set<Cookie>, a: NativeCall, b: NativeCall, os: ThemeOs)
    ensures LiveAfter(live, [a, b], os) == LiveStep(LiveStep(live, a, os), b, os)
  {
    assert [a, b][1..] == [b];
    assert LiveAfter(live, [a, b], os) == LiveAfter(LiveStep(live, a, os), [b], os);
    LiveAfterOne(LiveStep(live, a, os), b, os);
  }

  /** The removal `set_theme` starts with, when the record holds a token. */
  function Removal(cookie: Option<Cookie>): seq<NativeCall> {
    if cookie.Some? then [RemoveSubscription(cookie.value)] else []
  }

  /** A removal that succeeds, on a record that accounts for its subscriptions, leaves none. */
  lemma RemovalClears(live: set<Cookie>, cookie: Option<Cookie>, os: ThemeOs)
    requires Tracked(live, cookie)
    requires cookie.Some? ==> os.remove.None?
    ensures LiveAfter(live, Removal(cookie), os) == {}
  {
    if cookie.Some? {
      LiveAfterOne(live, RemoveSubscription(cookie.value), os);
    }
  }

  /** What follows the removal in a step that gets past it. */
  lemma AfterRemoval(cookie: Option<Cookie>, hwnd: HWnd, theme: Theme, os: ThemeOs)
    requires cookie.Some? ==> os.remove.None?
    ensures var out := ThemeStep(cookie, hwnd, theme, os);
            out.calls == Removal(cookie) + out.calls[|Removal(cookie)|..]
            && LiveAfter({}, out.calls[|Removal(cookie)|..], os)
               == (if theme == Auto && os.subscribe.Ok? then {os.subscribe.value} else {})
            && out.cookie == (if theme == Auto && os.subscribe.Ok? then Some(os.subscribe.value) else None)
  {
    var out := ThemeStep(cookie, hwnd, theme, os);
    var removal := Removal(cookie);
    var rest: seq<NativeCall>;
    if theme == Auto && os.subscribe.Ok? {
      rest := [Subscribe(hwnd), SetDarkMode(hwnd, if os.isDark then 1 else 0)];
      assert out.calls == removal + [Subscribe(hwnd)] + [SetDarkMode(hwnd, if os.isDark then 1 else 0)];
      assert out.calls == removal + rest;
      LiveAfterPair({}, rest[0], rest[1], os);
    } else if theme == Auto {
      rest := [Subscribe(hwnd)];
      assert out.calls == removal + rest;
      LiveAfterOne({}, rest[0], os);
    } else {
      rest := [SetDarkMode(hwnd, if theme == Dark then 1 else 0)];
      assert out.calls == removal + rest;
      LiveAfterOne({}, rest[0], os);
    }
    assert out.calls[|removal|..] == rest;
  }

  /** Whatever the system answers, `set_theme` keeps the record's token in step with the
      live subscriptions. A new token never collides with a live one, because the held
      subscription is removed first and none is live when `Subscribe` runs. So after a
      successful switch to Light or Dark no subscription is left. */
  lemma ThemeStepKeepsSubscriptionsTracked(live: set<Cookie>, cookie: Option<Cookie>, hwnd: HWnd, theme: Theme,
                                           os: ThemeOs)
    requires Tracked(live, cookie)
    ensures var out := ThemeStep(cookie, hwnd, theme, os);
            Tracked(LiveAfter(live, out.calls, os), out.cookie)
    ensures var out := ThemeStep(cookie, hwnd, theme, os);
            theme != Auto && out.result.Ok? ==> LiveAfter(live, out.calls, os) == {}
  {
    var out := ThemeStep(cookie, hwnd, theme, os);
    if cookie.Some? && os.remove.Some? {
      LiveAfterOne(live, RemoveSubscription(cookie.value), os);
    } else {
      RemovalClears(live, cookie, os);
      AfterRemoval(cookie, hwnd, theme, os);
      LiveAfterAppend(live, Removal(cookie), out.calls[|Removal(cookie)|..], os);
    }
  }

  /** As written, choosing Auto twice and then Light leaves the first subscription live
      while the record no longer holds its token. */
  lemma AutoTwiceThenLightLeaksAsWritten(hwnd: HWnd, c1: Cookie, c2: Cookie)
    requires c1 != c2
    ensures var ok1 := ThemeOs(None, Ok(c1), false, None);
            var ok2 := ThemeOs(None, Ok(c2), false, None);
            var s1 := ThemeStepAsWritten(None, hwnd, Auto, ok1);
            var s2 := ThemeStepAsWritten(s1.cookie, hwnd, Auto, ok2);
            var s3 := ThemeStepAsWritten(s2.cookie, hwnd, Light, ok2);
            && s1.result.Ok? && s2.result.Ok? && s3.result.Ok?
            && LiveAfter(LiveAfter(LiveAfter({}, s1.calls, ok1), s2.calls, ok2), s3.calls, ok2) == {c1}
            && s3.cookie == Some(c2)
  {
    var ok1 := ThemeOs(None, Ok(c1), false, None);
    var ok2 := ThemeOs(None, Ok(c2), false, None);
    var s1 := ThemeStepAsWritten(None, hwnd, Auto, ok1);
    assert s1.calls == [Subscribe(hwnd), SetDarkMode(hwnd, 0)] && s1.cookie == Some(c1);
    var s2 := ThemeStepAsWritten(s1.cookie, hwnd, Auto, ok2);
    assert s2.calls == [Subscribe(hwnd), SetDarkMode(hwnd, 0)] && s2.cookie == Some(c2);
    var s3 := ThemeStepAsWritten(s2.cookie, hwnd, Light, ok2);
    assert s3.calls == [RemoveSubscription(c2), SetDarkMode(hwnd, 0)];
    LiveAfterPair({}, Subscribe(hwnd), SetDarkMode(hwnd, 0), ok1);
    LiveAfterPair({c1}, Subscribe(hwnd), SetDarkMode(hwnd, 0), ok2);
    LiveAfterPair({c1, c2}, RemoveSubscription(c2), SetDarkMode(hwnd, 0), ok2);
    assert LiveAfter({}, s1.calls, ok1) == {c1};
    assert LiveAfter({c1}, s2.calls, ok2) == {c1, c2};
    assert {c1, c2} - {c2} == {c1};
    assert LiveAfter({c1, c2}, s3.calls, ok2) == {c1};
  }

  /** As written, Light and Dark remove a held subscription yet leave its token in the
      record and write 0 or 1; Auto subscribes first and, once that succeeds, replaces the
      token and writes the system's mode. A failed removal or subscription stops the step
      before the attribute is written. */
  lemma ThemeStepAsWrittenBookkeeping(cookie: Option<Cookie>, hwnd: HWnd, theme: Theme, os: ThemeOs)
    ensures var out := ThemeStepAsWritten(cookie, hwnd, theme, os);
            && (theme != Auto ==>
                  && out.cookie == cookie
                  && |out.calls| > 0
                  && (out.calls[0].RemoveSubscription? <==> cookie.Some?)
                  && (cookie.Some? ==> out.calls[0] == RemoveSubscription(cookie.value))
                  && (cookie.Some? && os.remove.Some? ==> |out.calls| == 1 && out.result == Err(os.remove.value))
                  && (!(cookie.Some? && os.remove.Some?) ==>
                        out.calls[|out.calls| - 1] == SetDarkMode(hwnd, if theme == Dark then 1 else 0)))
            && (theme == Auto ==>
                  && out.calls[0] == Subscribe(hwnd)
                  && (os.subscribe.Err? ==> out.cookie == cookie && out.result == Err(os.subscribe.error) && |out.calls| == 1)
                  && (os.subscribe.Ok? ==>
                        out.cookie == Some(os.subscribe.value)
                        && out.calls == [Subscribe(hwnd), SetDarkMode(hwnd, if os.isDark then 1 else 0)]))
  {
  }

  /** On a record that holds no subscription, which is how window creation calls it, the
      written and the tracked `set_theme` do the same. */
  lemma ThemeStepsAgreeWithoutCookie(hwnd: HWnd, theme: Theme, os: ThemeOs)
    ensures ThemeStep(None, hwnd, theme, os) == ThemeStepAsWritten(None, hwnd, theme, os)
  {
  }

  /** The attribute written is 0 for Light, 1 for Dark, and the system's mode for Auto. */
  lemma ThemeAttributeValue(cookie: Option<Cookie>, hwnd: HWnd, theme: Theme, os: ThemeOs)
    requires ThemeStep(cookie, hwnd, theme, os).result.Ok?
    ensures var calls := ThemeStep(cookie, hwnd, theme, os).calls;
            calls[|calls| - 1] == SetDarkMode(hwnd, match theme case Light => 0 case Dark => 1
                                                   case Auto => if os.isDark then 1 else 0)
  {
  }

  // ---------------------------------------------------------------- records

  /** One window record. */
  class Window {
    var handle: HWnd
    var className: string
    var instance: int
    var options: WindowOptions
    var prevStyle: Option<Placement>
    var themeCookie: Option<Cookie>

    /** The record `create` pushes: null handles, a fresh class name, no saved placement and
        no subscription. */
    constructor (className: string, options: WindowOptions)
      ensures handle == 0 && instance == 0 && this.className == className && this.options == options
      ensures prevStyle == None && themeCookie == None
    {
      handle := 0;
      this.className := className;
      instance := 0;
      this.options := options;
      prevStyle := None;
      themeCookie := None;
    }

    /** `Window::fullscreen`, given the current style and the answers of the two queries. */
    method Fullscreen(style: WindowStyle, captured: Option<Placement>, monitor: Option<Rect>)
      returns (calls: seq<NativeCall>)
      modifies this
      ensures (prevStyle, calls) == FullscreenStep(old(prevStyle), handle, style, captured, monitor)
      ensures handle == old(handle) && className == old(className) && instance == old(instance)
      ensures options == old(options) && themeCookie == old(themeCookie)
    {
      if prevStyle.None? {
        prevStyle := Some(DefaultPlacement);
        if captured.Some? {
          prevStyle := captured;
        }
        if captured.Some? && monitor.Some? {
          var m := monitor.value;
          calls := [SetStyle(handle, Strip(style)),
                    SetPos(handle, m.left, m.top, m.right - m.left, m.bottom - m.top)];
        } else {
          calls := [];
        }
      } else {
        calls := [SetStyle(handle, WithFrame(style)), SetPlacement(handle, prevStyle.value),
                  RefreshFrame(handle)];
        prevStyle := None;
      }
    }

    /** `set_theme`, with the subscription bookkeeping of `ThemeStep`. */
    method SetTheme(theme: Theme, os: ThemeOs) returns (result: Result<(), Error>, calls: seq<NativeCall>)
      modifies this
      ensures ThemeOutcome(themeCookie, calls, result) == ThemeStep(old(themeCookie), handle, theme, os)
      ensures handle == old(handle) && className == old(className) && instance == old(instance)
      ensures options == old(options) && prevStyle == old(prevStyle)
    {
      calls := [];
      if themeCookie.Some? {
        calls := [RemoveSubscription(themeCookie.value)];
        if os.remove.Some? {
          return Err(os.remove.value), calls;
        }
        themeCookie := None;
      }
      var value := 0;
      if theme == Dark {
        value := 1;
      } else if theme == Auto {
        calls := calls + [Subscribe(handle)];
        if os.subscribe.Err? {
          return Err(os.subscribe.error), calls;
        }
        themeCookie := Some(os.subscribe.value);
        value := if os.isDark then 1 else 0;
      }
      calls := calls + [SetDarkMode(handle, value)];
      result := if os.attribute.Some? then Err(os.attribute.value) else Ok(());
    }
  }

  /** The position of the first record whose handle is `id`, or the length when none is. */
  function FindFirst(ws: seq<Window>, id: HWnd): (k: nat)
    reads ws
    ensures k <= |ws|
    ensures k < |ws| ==> ws[k].handle == id
    ensures forall j :: 0 <= j < k ==> ws[j].handle != id
    decreases |ws|
  {
    if ws == [] then 0
    else if ws[0].handle == id then 0
    else 1 + FindFirst(ws[1..], id)
  }

  /** The class-name prefix of every window class this backend registers. */
  const ClassPrefix := "Window-StoryTree-"

  /** What the system answers while a window is created. */
  datatype CreateOs = CreateOs(instance: Result<int, Error>, cursor: Option<Error>, hwnd: HWnd, lastError: Error,
                               theme: ThemeOs)

  /** The thread's registry of window records. */
  class Registry {
    var windows: seq<Window>

    /** Each record is held once. */
    ghost predicate Valid()
      reads this
    {
      forall i, j :: 0 <= i < j < |windows| ==> windows[i] != windows[j]
    }

    constructor ()
      ensures windows == [] && Valid()
    {
      windows := [];
    }

    /** The position `iter().position` / `iter_mut().find` reaches for `id`. */
    method Position(id: HWnd) returns (k: nat)
      ensures k == FindFirst(windows, id)
    {
      k := 0;
      while k < |windows| && windows[k].handle != id
        invariant k <= |windows|
        invariant forall j :: 0 <= j < k ==> windows[j].handle != id
        decreases |windows| - k
      {
        k := k + 1;
      }
    }

    /** `toggle_fullscreen(id)`: the first record with handle `id` toggles; no other record
        changes, and nothing happens when no record has that handle. */
    method ToggleFullscreen(id: HWnd, style: WindowStyle, captured: Option<Placement>, monitor: Option<Rect>)
      returns (calls: seq<NativeCall>)
      requires Valid()
      modifies windows
      ensures Valid() && windows == old(windows)
      ensures var k := old(FindFirst(windows, id));
              && (k == |windows| ==> calls == [])
              && (k < |windows| ==>
                    (windows[k].prevStyle, calls)
                    == FullscreenStep(old(windows[k].prevStyle), windows[k].handle, style, captured, monitor))
              && (k < |windows| ==>
                    && windows[k].handle == old(windows[k].handle)
                    && windows[k].className == old(windows[k].className)
                    && windows[k].instance == old(windows[k].instance)
                    && windows[k].options == old(windows[k].options)
                    && windows[k].themeCookie == old(windows[k].themeCookie))
              && (forall i :: 0 <= i < |windows| && i != k ==> unchanged(windows[i]))
    {
      var k := Position(id);
      if k < |windows| {
        calls := windows[k].Fullscreen(style, captured, monitor);
      } else {
        calls := [];
      }
    }

    /** `Window::create`: push a fresh record, then ask the system for the module, the cursor,
        the class and the window; a failure returns early and leaves the record in the
        registry. Then the theme is applied and the window shown if asked. */
    method Create(options: WindowOptions, uuid: string, os: CreateOs)
      returns (result: Result<HWnd, Error>, calls: seq<NativeCall>)
      requires Valid()
      modifies this
      ensures Valid()
      ensures |windows| == |old(windows)| + 1 && windows[..|old(windows)|] == old(windows)
      ensures var w := windows[|old(windows)|];
              && fresh(w)
              && w.className == ClassPrefix + uuid && w.options == options && w.prevStyle == None
              && (os.instance.Err? ==>
                    result == Err(os.instance.error) && calls == [] && w.handle == 0 && w.instance == 0
                    && w.themeCookie == None)
              && (os.instance.Ok? ==> w.instance == os.instance.value)
              && (os.instance.Ok? && os.cursor.Some? ==>
                    result == Err(os.cursor.value) && calls == [] && w.handle == 0 && w.themeCookie == None)
              && (os.instance.Ok? && os.cursor.None? ==>
                    |calls| >= 2 && calls[..2] == [RegisterClass(w.className, options.icon), CreateWindow(w.className, options.title)]
                    && w.handle == os.hwnd)
              && (os.instance.Ok? && os.cursor.None? && os.hwnd == 0 ==>
                    result == Err(os.lastError) && |calls| == 2 && w.themeCookie == None)
              && (os.instance.Ok? && os.cursor.None? && os.hwnd != 0 ==>
                    var theme := ThemeStep(None, os.hwnd, options.theme, os.theme);
                    && w.themeCookie == theme.cookie
                    && result == (if theme.result.Err? then Err(theme.result.error) else Ok(os.hwnd))
                    && calls == calls[..2] + theme.calls
                                + (if theme.result.Ok? && options.show then [ShowWindow(os.hwnd)] else []))
    {
      var w := new Window(ClassPrefix + uuid, options);
      windows := windows + [w];
      calls := [];
      if os.instance.Err? {
        return Err(os.instance.error), calls;
      }
      w.instance := os.instance.value;
      if os.cursor.Some? {
        return Err(os.cursor.value), calls;
      }
      calls := [RegisterClass(w.className, options.icon), CreateWindow(w.className, options.title)];
      w.handle := os.hwnd;
      if w.handle == 0 {
        return Err(os.lastError), calls;
      }
      var themeResult, themeCalls := w.SetTheme(options.theme, os.theme);
      calls := calls + themeCalls;
      if themeResult.Err? {
        return Err(themeResult.error), calls;
      }
      if options.show {
        calls := calls + [ShowWindow(w.handle)];
      }
      result := Ok(w.handle);
    }

    /** `Window::close(id)` as written: the first record with handle `id` is removed, then
        `CloseWindow` is called, which minimizes the window and does not destroy it. */
    method CloseAsWritten(id: HWnd, nativeError: Option<Error>) returns (result: Result<(), Error>, calls: seq<NativeCall>)
      requires Valid()
      modifies this
      ensures Valid()
      ensures var k := old(FindFirst(windows, id));
              windows == if k < |old(windows)| then old(windows[..k] + windows[k + 1..]) else old(windows)
      ensures calls == [MinimizeWindow(id)]
      ensures result == if nativeError.Some? then Err(nativeError.value) else Ok(())
    {
      var k := Position(id);
      if k < |windows| {
        windows := windows[..k] + windows[k + 1..];
      }
      calls := [MinimizeWindow(id)];
      result := if nativeError.Some? then Err(nativeError.value) else Ok(());
    }

    /** `Window::close(id)` destroying the window: the first record with handle `id` is
        removed whatever the system answers, and the window is destroyed. */
    method Close(id: HWnd, nativeError: Option<Error>) returns (result: Result<(), Error>, calls: seq<NativeCall>)
      requires Valid()
      modifies this
      ensures Valid()
      ensures var k := old(FindFirst(windows, id));
              windows == if k < |old(windows)| then old(windows[..k] + windows[k + 1..]) else old(windows)
      ensures calls == [DestroyWindow(id)]
      ensures result == if nativeError.Some? then Err(nativeError.value) else Ok(())
    {
      var k := Position(id);
      if k < |windows| {
        windows := windows[..k] + windows[k + 1..];
      }
      calls := [DestroyWindow(id)];
      result := if nativeError.Some? then Err(nativeError.value) else Ok(());
    }
  }

  /** Removing position `k` of a sequence of distinct records drops exactly that record and
      keeps the others in their order. */
  lemma RemoveAtKeepsOthers(ws: seq<Window>, k: nat)
    requires k < |ws|
    requires forall i, j :: 0 <= i < j < |ws| ==> ws[i] != ws[j]
    ensures var rest := ws[..k] + ws[k + 1..];
            && |rest| == |ws| - 1
            && ws[k] !in rest
            && (forall i :: 0 <= i < k ==> rest[i] == ws[i])
            && (forall i :: k <= i < |rest| ==> rest[i] == ws[i + 1])
            && (forall w :: w in ws && w != ws[k] ==> w in rest)
  {
    var rest := ws[..k] + ws[k + 1..];
    forall w | w in ws && w != ws[k]
      ensures w in rest
    {
      var i :| 0 <= i < |ws| && ws[i] == w;
      if i < k {
        assert rest[i] == w;
      } else {
        assert rest[i - 1] == w;
      }
    }
  }

  // ---------------------------------------------------------------- user data

  /** The registry's storage as the window procedure sees it: the records' handles and
      options in their slots, and for each window the slot its user-data pointer was taken
      from, which is the slot its record occupied when it was created. */
  datatype Entry = Entry(handle: HWnd, options: WindowOptions)

  datatype Storage = Storage(entries: seq<Entry>, pointer: map<HWnd, nat>)

  /** `create` pushes a record and hands the window a pointer to that slot's options. */
  function PushEntry(st: Storage, hwnd: HWnd, options: WindowOptions): Storage {
    Storage(st.entries + [Entry(hwnd, options)], st.pointer[hwnd := |st.entries|])
  }

  function FirstEntry(entries: seq<Entry>, hwnd: HWnd): (k: nat)
    ensures k <= |entries|
    ensures k < |entries| ==> entries[k].handle == hwnd
    ensures forall j :: 0 <= j < k ==> entries[j].handle != hwnd
    decreases |entries|
  {
    if entries == [] then 0
    else if entries[0].handle == hwnd then 0
    else 1 + FirstEntry(entries[1..], hwnd)
  }

  /** `close` removes the first record with the handle; later records shift down one slot
      and the pointers stay where they were. */
  function RemoveEntry(st: Storage, hwnd: HWnd): Storage {
    var k := FirstEntry(st.entries, hwnd);
    if k < |st.entries| then Storage(st.entries[..k] + st.entries[k + 1..], st.pointer) else st
  }

  /** The options `WM_ERASEBKGND` reads through the stored pointer; None where the pointer
      lies past the records. */
  function OptionsThroughPointer(st: Storage, hwnd: HWnd): Option<WindowOptions> {
    if hwnd in st.pointer && st.pointer[hwnd] < |st.entries| then Some(st.entries[st.pointer[hwnd]].options)
    else None
  }

  /** The options of the window's own record, found by its handle. */
  function OptionsByHandle(st: Storage, hwnd: HWnd): Option<WindowOptions> {
    var k := FirstEntry(st.entries, hwnd);
    if k < |st.entries| then Some(st.entries[k].options) else None
  }

  /** Create A, create B, close A, create C: B's pointer now reads C's options. */
  lemma CloseShiftsPointerAsWritten(a: HWnd, b: HWnd, c: HWnd, oa: WindowOptions, ob: WindowOptions,
                                    oc: WindowOptions)
    requires a != b && b != c && a != c
    ensures var st := PushEntry(RemoveEntry(PushEntry(PushEntry(Storage([], map[]), a, oa), b, ob), a), c, oc);
            && OptionsThroughPointer(st, b) == Some(oc)
            && OptionsByHandle(st, b) == Some(ob)
  {
    var st1 := PushEntry(PushEntry(Storage([], map[]), a, oa), b, ob);
    assert st1.entries == [Entry(a, oa), Entry(b, ob)];
    assert FirstEntry(st1.entries, a) == 0;
    var st2 := RemoveEntry(st1, a);
    assert st2.entries == [Entry(b, ob)];
    var st := PushEntry(st2, c, oc);
    assert st.entries == [Entry(b, ob), Entry(c, oc)];
    assert st.pointer[b] == 1;
    assert FirstEntry(st.entries, b) == 0;
  }

  /** Found by handle, a window's options are the ones it was created with for as long as
      its record stays: other windows' creation and closing do not change them. */
  lemma LookupByHandleSurvivesOthers(st: Storage, hwnd: HWnd, other: HWnd, options: WindowOptions)
    requires other != hwnd
    ensures OptionsByHandle(PushEntry(st, other, options), hwnd) == OptionsByHandle(st, hwnd)
    ensures OptionsByHandle(RemoveEntry(st, other), hwnd) == OptionsByHandle(st, hwnd)
  {
    var es := st.entries;
    var k := FirstEntry(es, hwnd);
    FirstEntryAppend(es, Entry(other, options), hwnd);
    var r := FirstEntry(es, other);
    if r < |es| {
      FirstEntryAfterRemoval(es, r, hwnd);
    }
  }

  /** A window pushed with a handle no record has is found with its own options. */
  lemma LookupByHandleFindsNewRecord(st: Storage, hwnd: HWnd, options: WindowOptions)
    requires forall i :: 0 <= i < |st.entries| ==> st.entries[i].handle != hwnd
    ensures OptionsByHandle(PushEntry(st, hwnd, options), hwnd) == Some(options)
  {
    FirstEntryAppend(st.entries, Entry(hwnd, options), hwnd);
  }

  lemma FirstEntryAppend(es: seq<Entry>, e: Entry, hwnd: HWnd)
    ensures FirstEntry(es + [e], hwnd) == if FirstEntry(es, hwnd) < |es| || e.handle == hwnd then FirstEntry(es, hwnd)
                                         else |es| + 1
  {
    var k := FirstEntry(es, hwnd);
    assert forall j :: 0 <= j < |es| ==> (es + [e])[j] == es[j];
    assert (es + [e])[|es|] == e;
  }

  lemma FirstEntryAfterRemoval(es: seq<Entry>, r: nat, hwnd: HWnd)
    requires r < |es| && es[r].handle != hwnd
    ensures var rest := es[..r] + es[r + 1..];
            var k := FirstEntry(es, hwnd);
            var m := FirstEntry(rest, hwnd);
            (k < |es| <==> m < |rest|) && (k < |es| ==> rest[m] == es[k])
  {
    var rest := es[..r] + es[r + 1..];
    var k := FirstEntry(es, hwnd);
    var m := FirstEntry(rest, hwnd);
    if k < |es| {
      var kk := if k < r then k else k - 1;
      assert rest[kk] == es[k];
      assert m <= kk;
      var mm := if m < r then m else m + 1;
      assert es[mm] == rest[m];
      assert mm >= k;
      assert m == kk;
    }
  }

  // ---------------------------------------------------------------- builder

  /** `Builder`: the options collected for `create`. */
  datatype Builder = Builder(options: WindowOptions)

  function WithTitle(b: Builder, title: string): Builder {
    Builder(b.options.(title := title))
  }

  function WithTheme(b: Builder, theme: Theme): Builder {
    Builder(b.options.(theme := theme))
  }

  function WithBackground(b: Builder, background: Background): Builder {
    Builder(b.options.(background := background))
  }

  /** Whether `path` ends with the four characters ".ico" (case matters). */
  predicate EndsWithIco(path: string) {
    |path| >= 4 && path[|path| - 4..] == ".ico"
  }

  /** `Builder::icon`: None stands for the panic on a path not ending in ".ico". */
  function WithIcon(b: Builder, icon: string): Option<Builder> {
    if !EndsWithIco(icon) then None else Some(Builder(b.options.(icon := Some(icon))))
  }

  /** Each setter changes its own field and no other. */
  lemma SettersTouchOnlyTheirField(b: Builder, title: string, theme: Theme, background: Background)
    ensures var o := WithTitle(b, title).options;
            o.title == title && o.(title := b.options.title) == b.options
    ensures var o := WithTheme(b, theme).options;
            o.theme == theme && o.(theme := b.options.theme) == b.options
    ensures var o := WithBackground(b, background).options;
            o.background == background && o.(background := b.options.background) == b.options
  {
  }

  /** The icon setter accepts exactly the paths ending in ".ico", records the path and
      changes nothing else; an upper-case extension is refused. */
  lemma IconAcceptsOnlyIco(b: Builder, icon: string)
    ensures WithIcon(b, icon).Some? <==> |icon| >= 4 && icon[|icon| - 4..] == ".ico"
    ensures WithIcon(b, icon).Some? ==>
              WithIcon(b, icon).value.options == b.options.(icon := Some(icon))
    ensures WithIcon(b, "app.ICO").None? && WithIcon(b, "app.ico").Some?
  {
    assert "app.ICO"[3..] == ".ICO";
    assert "app.ico"[3..] == ".ico";
  }

  /** `Builder::show`: create with the show flag set. */
  method Show(r: Registry, b: Builder, uuid: string, os: CreateOs) returns (result: Result<HWnd, Error>, calls: seq<NativeCall>)
    requires r.Valid()
    modifies r
    ensures r.Valid()
    ensures |r.windows| == |old(r.windows)| + 1 && r.windows[|old(r.windows)|].options == b.options.(show := true)
    ensures result.Ok? ==> |calls| > 0 && calls[|calls| - 1] == ShowWindow(os.hwnd)
  {
    result, calls := r.Create(b.options.(show := true), uuid, os);
    if result.Ok? {
      var theme := ThemeStep(None, os.hwnd, b.options.theme, os.theme);
      assert calls == calls[..2] + theme.calls + [ShowWindow(os.hwnd)];
    }
  }
}
