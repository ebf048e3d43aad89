/** The platform-neutral mouse vocabulary: buttons with their bit-flag values, the
    kinds of mouse event, and a positioned mouse event. */
module Mouse {
  import opened Basics

  datatype MouseButton = Control | Shift | Left | Right | Middle | X1 | X2

  /** The enum discriminant of each button: its bit in the platform's button/modifier mask. */
  function Discriminant(b: MouseButton): bv8 {
    match b
    case Control => 0x08
    case Shift => 0x04
    case Left => 0x01
    case Right => 0x02
    case Middle => 0x10
    case X1 => 0x20
    case X2 => 0x40
  }

  /** The discriminant as a number, for testing it against a machine word. */
  function Mask(b: MouseButton): (m: nat) {
    match b
    case Control => 0x08
    case Shift => 0x04
    case Left => 0x01
    case Right => 0x02
    case Middle => 0x10
    case X1 => 0x20
    case X2 => 0x40
  }

  lemma MaskIsDiscriminant(b: MouseButton)
    ensures Mask(b) == Discriminant(b) as int
  {
  }

  lemma DiscriminantIsSingleBit(b: MouseButton)
    ensures Discriminant(b) != 0 && Discriminant(b) & (Discriminant(b) - 1) == 0
  {
  }

  lemma DiscriminantsShareNoBit(b: MouseButton, c: MouseButton)
    requires b != c
    ensures Discriminant(b) & Discriminant(c) == 0
  {
  }

  lemma DiscriminantsCoverLowSevenBits()
    ensures Discriminant(Left) | Discriminant(Right) | Discriminant(Shift) | Discriminant(Control)
            | Discriminant(Middle) | Discriminant(X1) | Discriminant(X2) == 0x7F
  {
  }

  datatype MouseEventType =
    | Ignore
    | Down(button: MouseButton)
    | Up(button: MouseButton)
    | Double(button: MouseButton)
    | Move
    | Hover
    | Scroll(notches: I16)
    | HScroll(notches: I16)

  /** A mouse event at client position (x, y). */
  datatype MouseEvent = MouseEvent(x: U16, y: U16, etype: MouseEventType)
}
