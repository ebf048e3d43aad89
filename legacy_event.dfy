/** The older copy of the dispatch layer, which hands the callback a plain value instead of
    a shared `State` handle. Its handler slot, translation, classifier, routing closure and
    window procedure are the same as the current layer's, so they are the `WinEvent`
    definitions used at a value type; what differs is how the state reaches the callback. */
module LegacyEvent {
  import opened Basics
  import opened Win32
  import opened Events
  import opened Style
  import opened WinEvent

  /** `run` with a plain value: the closure captures `state` and clones it for every call. */
  method Run<T>(h: Handler<T>, data: UserData, state: T, callback: (HWnd, Event, T) -> CallbackResult,
                ds: seq<Delivery>)
    returns (effects: seq<Effect<T>>)
    modifies h, data
    ensures h.slot == Some(Listener(callback, state))
    ensures (effects, data.slots) == DispatchAll(h.slot, old(data.slots), ds)
    ensures forall e <- effects :: e.Invoke? ==> e.state == state
  {
    effects := WinEvent.Run(h, data, state, callback, ds);
    DispatchAllCarriesState(Listener(callback, state), old(data.slots), ds);
  }

  /** Every invocation receives a copy of the value `run` started with: nothing a callback
      does to its copy reaches a later invocation, and a close request is decided by the
      callback's answer for that same initial value. */
  lemma {:induction false} CallbacksSeeTheInitialValue<T>(callback: (HWnd, Event, T) -> CallbackResult, state: T,
                                                          userData: map<HWnd, WindowOptions>, ds: seq<Delivery>)
    ensures forall e <- DispatchAll(Some(Listener(callback, state)), userData, ds).0 ::
              e.Invoke? ==> e.state == state
    ensures forall hwnd: HWnd ::
              DestroyWindow(hwnd) in Route(Listener(callback, state), hwnd, WM_CLOSE, 0, 0)
              <==> IntoEventResult(callback(hwnd, Close, state))
  {
    DispatchAllCarriesState(Listener(callback, state), userData, ds);
    forall hwnd: HWnd
      ensures DestroyWindow(hwnd) in Route(Listener(callback, state), hwnd, WM_CLOSE, 0, 0)
              <==> IntoEventResult(callback(hwnd, Close, state))
    {
      RouteDestroysOnlyOnPermittedClose(Listener(callback, state), hwnd, WM_CLOSE, 0, 0);
    }
  }
}
