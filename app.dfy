/** The public entry points: starting the event loop with a fresh shared state, and closing a
    window by synthesising the close message a user's close would send. */
module App {
  import opened Basics
  import opened Win32
  import opened Events
  import opened Style
  import opened WinEvent

  /** `App::run`: the loop starts with the default unit state. */
  method AppRun(h: Handler<State<()>>, data: UserData, callback: (HWnd, Event, State<()>) -> CallbackResult,
                ds: seq<Delivery>)
    returns (state: State<()>, effects: seq<Effect<State<()>>>)
    modifies h, data
    ensures fresh(state) && state.value == ()
    ensures h.slot == Some(Listener(callback, state))
    ensures (effects, data.slots) == DispatchAll(h.slot, old(data.slots), ds)
  {
    state := DefaultState();
    effects := WinEvent.Run(h, data, state, callback, ds);
  }

  /** `App::run_with` and the free `run`: the initial value is wrapped in a fresh `State`,
      whose one cell every invocation then shares. */
  method AppRunWith<T>(h: Handler<State<T>>, data: UserData, initial: T,
                       callback: (HWnd, Event, State<T>) -> CallbackResult, ds: seq<Delivery>)
    returns (state: State<T>, effects: seq<Effect<State<T>>>)
    modifies h, data
    ensures fresh(state) && state.value == initial
    ensures h.slot == Some(Listener(callback, state))
    ensures (effects, data.slots) == DispatchAll(h.slot, old(data.slots), ds)
    ensures forall e <- effects :: e.Invoke? ==> e.state == state
  {
    state := new State(initial);
    effects := WinEvent.Run(h, data, state, callback, ds);
    DispatchAllCarriesState(Listener(callback, state), old(data.slots), ds);
  }

  /** `close(id)`: `WM_CLOSE` with zero parameters through the window procedure, the path a
      close requested by the user takes. */
  method CloseById<S>(h: Handler<S>, data: UserData, env: Env, id: HWnd)
    returns (effects: seq<Effect<S>>, result: LResult)
    modifies data
    ensures var s := WndProcStep(h.slot, old(data.slots), env, id, WM_CLOSE, 0, 0);
            effects == s.effects && result == s.result
    ensures data.slots == old(data.slots)
  {
    effects, result := WndProc(h, data, env, id, WM_CLOSE, 0, 0);
  }

  /** Closing a window by id ends it exactly when the installed callback permits, after
      handing the callback `Close` once; with no handler installed the default processing of
      the close message ends it. */
  lemma CloseByIdEndsWindowIffPermitted<S>(slot: Option<Listener<S>>, userData: map<HWnd, WindowOptions>,
                                           env: Env, id: HWnd)
    ensures var s := WndProcStep(slot, userData, env, id, WM_CLOSE, 0, 0);
            && Invoked(s.effects) == (if slot.Some? then [Close] else [])
            && ((exists e <- s.effects :: Destroys(e, id)) <==> slot.None? || Permits(slot.value, id))
  {
    var s := WndProcStep(slot, userData, env, id, WM_CLOSE, 0, 0);
    WndProcInvokes(slot, userData, env, id, WM_CLOSE, 0, 0);
    if slot.Some? {
      CloseHonoursCallback(slot.value, id, userData, env, 0, 0);
    } else {
      assert s.effects == [DefaultProcessing(id, WM_CLOSE, 0, 0)];
      assert Destroys(s.effects[0], id);
    }
  }
}
