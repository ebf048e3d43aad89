/** The platform-neutral event vocabulary, the close-permission conversion of a callback's
    result, and the shared state cell every callback invocation receives. */
module Events {
  import opened Basics
  import opened Mouse

  /** A key code. The conversion of the raw WPARAM into a named key is not part of this
      model, so a key is identified by that raw word. */
  type KeyCode = Word

  datatype KeyEvent = KeyDown(key: KeyCode) | KeyHold(key: KeyCode) | KeyUp(key: KeyCode)

  datatype Event =
    | Close
    | Repaint
    | Keyboard(keyEvent: KeyEvent)
    | Mouse(mouseEvent: MouseEvent)

  /** What a callback may return: the two implementors of `IntoEventResult`. */
  datatype CallbackResult = Unit | Bool(b: bool)

  /** `into_event_result`: whether the callback permits the window to close. Only an explicit
      `false` refuses. */
  function IntoEventResult(r: CallbackResult): (allow: bool)
    ensures allow <==> r != Bool(false)
    ensures r.Unit? ==> allow
    ensures r.Bool? ==> allow == r.b
  {
    match r
    case Unit => true
    case Bool(b) => b
  }

  /** `State<T>`: one shared, mutable cell. Cloning the handle copies the reference, never the
      value, so every clone reads what any clone last wrote. */
  class State<T> {
    var value: T

    /** `State::new`. */
    constructor (v: T)
      ensures value == v
    {
      value := v;
    }

    /** `as_ref`: what the cell holds now. */
    method Read() returns (v: T)
      ensures v == value
    {
      v := value;
    }

    /** A write through `as_mut`. */
    method Write(v: T)
      modifies this
      ensures value == v
    {
      value := v;
    }

    /** The derived `Clone`: another handle on the same cell. */
    method Clone() returns (c: State<T>)
      ensures c == this
    {
      c := this;
    }
  }

  /** `State::<()>::default()`: a fresh cell holding unit. */
  method DefaultState() returns (s: State<()>)
    ensures fresh(s) && s.value == ()
  {
    s := new State(());
  }

  /** A value written through one clone is what a read through any other clone returns. */
  method WriteThroughClone<T>(s: State<T>, v: T) returns (seen: T)
    modifies s
    ensures seen == v && s.value == v
  {
    var c := s.Clone();
    var d := s.Clone();
    c.Write(v);
    seen := d.Read();
  }
}
