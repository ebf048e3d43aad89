/** Decoding of Win32 mouse messages into the mouse vocabulary: the classifier, the
    event-kind and position decoders, X-button disambiguation and the split of a
    button mask into the buttons it holds. An encoder of events into messages is the
    partner the decoders are proved against. */
module MouseTranslate {
  import opened Basics
  import opened Win32
  import opened Mouse

  /** `MouseEvent::message`: the codes the dispatch layer treats as mouse input. */
  predicate IsMouseMessage(m: MessageCode) {
    || m == WM_LBUTTONDBLCLK || m == WM_LBUTTONDOWN || m == WM_LBUTTONUP
    || m == WM_MBUTTONDBLCLK || m == WM_MBUTTONDOWN || m == WM_MBUTTONUP
    || m == WM_RBUTTONDBLCLK || m == WM_RBUTTONDOWN || m == WM_RBUTTONUP
    || m == WM_XBUTTONDBLCLK || m == WM_XBUTTONDOWN || m == WM_XBUTTONUP
    || m == WM_MOUSEMOVE || m == WM_MOUSEWHEEL || m == WM_MOUSEHOVER
    || m == WM_MOUSELEAVE || m == WM_MOUSEHWHEEL || m == WM_CAPTURECHANGED
  }

  /** The eighteen classified codes, listed independently of the classifier. */
  const MouseCodes: seq<MessageCode> := [
    0x0203, 0x0201, 0x0202, 0x0209, 0x0207, 0x0208, 0x0206, 0x0204, 0x0205,
    0x020D, 0x020B, 0x020C, 0x0200, 0x020A, 0x02A1, 0x02A3, 0x020E, 0x0215
  ]

  lemma MouseMessagesAreTheEighteenCodes(m: MessageCode)
    ensures |MouseCodes| == 18
    ensures forall i, j :: 0 <= i < j < |MouseCodes| ==> MouseCodes[i] != MouseCodes[j]
    ensures IsMouseMessage(m) <==> m in MouseCodes
  {
  }

  /** `MouseButton::xbutton`: X1 exactly when the word shifted right by 16 is 1. */
  function XButton(w: Word): (b: MouseButton)
    ensures b == X1 || b == X2
    ensures b == X1 <==> w / 0x1_0000 == 1
  {
    if w / 0x1_0000 == 1 then X1 else X2
  }

  /** `MouseEventType::from`: the kind of event from the code and the WPARAM. */
  function MouseEventTypeFrom(code: MessageCode, w: Word): MouseEventType {
    if code == WM_LBUTTONDBLCLK then Double(Left)
    else if code == WM_MBUTTONDBLCLK then Double(Middle)
    else if code == WM_RBUTTONDBLCLK then Double(Right)
    else if code == WM_XBUTTONDBLCLK then Double(XButton(w))
    else if code == WM_LBUTTONDOWN then Down(Left)
    else if code == WM_MBUTTONDOWN then Down(Middle)
    else if code == WM_RBUTTONDOWN then Down(Right)
    else if code == WM_XBUTTONDOWN then Down(XButton(w))
    else if code == WM_LBUTTONUP then Up(Left)
    else if code == WM_MBUTTONUP then Up(Middle)
    else if code == WM_RBUTTONUP then Up(Right)
    else if code == WM_XBUTTONUP then Up(XButton(w))
    else if code == WM_MOUSEWHEEL then Scroll(TruncDiv(WheelDelta(w), WHEEL_DELTA))
    else if code == WM_MOUSEHWHEEL then HScroll(TruncDiv(WheelDelta(w), WHEEL_DELTA))
    else if code == WM_MOUSEMOVE then Move
    else if code == WM_MOUSEHOVER then Hover
    else if code == 533 then Ignore
    else Ignore
  }

  /** `MouseEvent::from`: position from the LPARAM, kind from the code and WPARAM. */
  function MouseEventFrom(code: MessageCode, w: Word, l: Word): MouseEvent {
    MouseEvent(LoWord(l), HiWord(l), MouseEventTypeFrom(code, w))
  }

  /** The codes with a decoding arm of their own (533 aside, whose arm yields Ignore). */
  predicate HasDecodingArm(code: MessageCode) {
    IsMouseMessage(code) && code != WM_MOUSELEAVE && code != WM_CAPTURECHANGED
  }

  lemma IgnoreExactlyWithoutArm(code: MessageCode, w: Word)
    ensures MouseEventTypeFrom(code, w) == Ignore <==> !HasDecodingArm(code)
  {
  }

  /** The left, middle and right button codes do not consult the WPARAM. */
  lemma PlainButtonsIgnoreWParam(code: MessageCode, w: Word, w': Word)
    requires code in {WM_LBUTTONDBLCLK, WM_LBUTTONDOWN, WM_LBUTTONUP, WM_MBUTTONDBLCLK, WM_MBUTTONDOWN,
                      WM_MBUTTONUP, WM_RBUTTONDBLCLK, WM_RBUTTONDOWN, WM_RBUTTONUP}
    ensures MouseEventTypeFrom(code, w) == MouseEventTypeFrom(code, w')
    ensures MouseEventTypeFrom(code, w).button in {Left, Middle, Right}
  {
  }

  /** An X-button code reports X1 for XBUTTON1 in the high word and X2 for anything else. */
  lemma XButtonCodesConsultHighWord(code: MessageCode, lo: U16, hi: U16)
    requires code in {WM_XBUTTONDBLCLK, WM_XBUTTONDOWN, WM_XBUTTONUP}
    ensures MouseEventTypeFrom(code, MakeWord(lo, hi)).button == (if hi == XBUTTON1 then X1 else X2)
  {
  }

  // ---------------------------------------------------------------- buttons_down

  /** The fixed order in which `buttons_down` tests the mask. */
  const ButtonOrder: seq<MouseButton> := [Left, Right, Middle, X1, X2, Control, Shift]

  function Rank(b: MouseButton): (r: nat)
    ensures r < |ButtonOrder| && ButtonOrder[r] == b
  {
    match b
    case Left => 0
    case Right => 1
    case Middle => 2
    case X1 => 3
    case X2 => 4
    case Control => 5
    case Shift => 6
  }

  predicate IsDown(v: Word, b: MouseButton) {
    HasFlag(v, Mask(b))
  }

  /** The buttons of `order` whose bit is set in `v`, in the order of `order`. */
  function PressedAmong(order: seq<MouseButton>, v: Word): seq<MouseButton> {
    if order == [] then []
    else (if IsDown(v, order[0]) then [order[0]] else []) + PressedAmong(order[1..], v)
  }

  function Pressed(v: Word): seq<MouseButton> {
    PressedAmong(ButtonOrder, v)
  }

  /** `MouseButton::buttons_down`: one conditional push per button. */
  method ButtonsDown(v: Word) returns (buttons: seq<MouseButton>)
    ensures buttons == Pressed(v)
  {
    buttons := [];
    ghost var before := buttons;
    buttons := buttons + if HasFlag(v, 0x01) then [Left] else [];
    Advance(v, 0, before, buttons);
    before := buttons;
    buttons := buttons + if HasFlag(v, 0x02) then [Right] else [];
    Advance(v, 1, before, buttons);
    before := buttons;
    buttons := buttons + if HasFlag(v, 0x10) then [Middle] else [];
    Advance(v, 2, before, buttons);
    before := buttons;
    buttons := buttons + if HasFlag(v, 0x20) then [X1] else [];
    Advance(v, 3, before, buttons);
    before := buttons;
    buttons := buttons + if HasFlag(v, 0x40) then [X2] else [];
    Advance(v, 4, before, buttons);
    before := buttons;
    buttons := buttons + if HasFlag(v, 0x08) then [Control] else [];
    Advance(v, 5, before, buttons);
    before := buttons;
    buttons := buttons + if HasFlag(v, 0x04) then [Shift] else [];
    Advance(v, 6, before, buttons);
    assert ButtonOrder[..7] == ButtonOrder;
  }

  /** One push of `ButtonsDown`: if `before` is the answer for the first `i` buttons of
      `ButtonOrder`, then `now` is the answer for the first `i + 1`. */
  lemma Advance(v: Word, i: nat, before: seq<MouseButton>, now: seq<MouseButton>)
    requires i < |ButtonOrder|
    requires before == PressedAmong(ButtonOrder[..i], v)
    requires now == before + (if IsDown(v, ButtonOrder[i]) then [ButtonOrder[i]] else [])
    ensures now == PressedAmong(ButtonOrder[..i + 1], v)
  {
    assert ButtonOrder[..i + 1] == ButtonOrder[..i] + [ButtonOrder[i]];
    PressedAmongAppend(ButtonOrder[..i], ButtonOrder[i], v);
  }

  /** Testing one more button at the end of the order appends it when it is down. */
  lemma {:induction false} PressedAmongAppend(order: seq<MouseButton>, b: MouseButton, v: Word)
    ensures PressedAmong(order + [b], v) == PressedAmong(order, v) + (if IsDown(v, b) then [b] else [])
  {
    if order == [] {
      assert [] + [b] == [b];
      assert [b][1..] == [];
    } else {
      assert (order + [b])[1..] == order[1..] + [b];
      PressedAmongAppend(order[1..], b, v);
    }
  }

  lemma {:induction false} PressedAmongMembership(order: seq<MouseButton>, v: Word, b: MouseButton)
    ensures b in PressedAmong(order, v) <==> b in order && IsDown(v, b)
  {
    if order != [] {
      PressedAmongMembership(order[1..], v, b);
      assert order == [order[0]] + order[1..];
    }
  }

  lemma {:induction false} PressedAmongLength(order: seq<MouseButton>, v: Word)
    ensures |PressedAmong(order, v)| <= |order|
  {
    if order != [] {
      PressedAmongLength(order[1..], v);
    }
  }

  predicate RankIncreasing(s: seq<MouseButton>) {
    forall i, j :: 0 <= i < j < |s| ==> Rank(s[i]) < Rank(s[j])
  }

  lemma {:induction false} PressedAmongKeepsOrder(order: seq<MouseButton>, v: Word)
    requires RankIncreasing(order)
    ensures RankIncreasing(PressedAmong(order, v))
  {
    if order != [] {
      var rest := PressedAmong(order[1..], v);
      PressedAmongKeepsOrder(order[1..], v);
      forall b | b in rest
        ensures Rank(order[0]) < Rank(b)
      {
        PressedAmongMembership(order[1..], v, b);
        var k :| 0 <= k < |order[1..]| && order[1..][k] == b;
        assert order[k + 1] == b;
      }
      var head := if IsDown(v, order[0]) then [order[0]] else [];
      var all := head + rest;
      forall i, j | 0 <= i < j < |all|
        ensures Rank(all[i]) < Rank(all[j])
      {
        if i < |head| {
          assert all[j] == rest[j - |head|];
          assert all[j] in rest;
        } else {
          assert all[i] == rest[i - |head|] && all[j] == rest[j - |head|];
        }
      }
    }
  }

  /** The result holds each button exactly when its bit is set, in the fixed order, without
      repeats, and never more than seven buttons. */
  lemma PressedCharacterised(v: Word)
    ensures forall b :: b in Pressed(v) <==> IsDown(v, b)
    ensures forall i, j :: 0 <= i < j < |Pressed(v)| ==> Rank(Pressed(v)[i]) < Rank(Pressed(v)[j])
    ensures forall i, j :: 0 <= i < j < |Pressed(v)| ==> Pressed(v)[i] != Pressed(v)[j]
    ensures |Pressed(v)| <= 7
  {
    forall b
      ensures b in Pressed(v) <==> IsDown(v, b)
    {
      PressedAmongMembership(ButtonOrder, v, b);
      assert ButtonOrder[Rank(b)] == b;
    }
    ButtonOrderRankIncreasing();
    PressedAmongKeepsOrder(ButtonOrder, v);
    PressedAmongLength(ButtonOrder, v);
    var p := Pressed(v);
    assert forall i, j :: 0 <= i < j < |p| ==> Rank(p[i]) < Rank(p[j]);
  }

  lemma ButtonOrderRankIncreasing()
    ensures RankIncreasing(ButtonOrder)
  {
    forall i | 0 <= i < |ButtonOrder|
      ensures Rank(ButtonOrder[i]) == i
    {
    }
  }

  /** A button's bit reads the same in `v` and in `v` reduced modulo 0x80. */
  lemma IsDownBelowSeventhBit(v: Word, b: MouseButton)
    ensures IsDown(v, b) == IsDown(v % 0x80, b)
  {
    match b
    case Left => FlagBelowMultiple(v, 0x01, 0x40);
    case Right => FlagBelowMultiple(v, 0x02, 0x20);
    case Shift => FlagBelowMultiple(v, 0x04, 0x10);
    case Control => FlagBelowMultiple(v, 0x08, 0x08);
    case Middle => FlagBelowMultiple(v, 0x10, 0x04);
    case X1 => FlagBelowMultiple(v, 0x20, 0x02);
    case X2 => FlagBelowMultiple(v, 0x40, 0x01);
  }

  /** The bit `m` of `v` is unchanged by reducing `v` modulo any even multiple of `m`. */
  lemma FlagBelowMultiple(v: Word, m: nat, j: nat)
    requires m > 0 && j > 0
    ensures (v / m) % 2 == ((v % (2 * j * m)) / m) % 2
  {
    var n := 2 * j * m;
    var q, r := v / n, v % n;
    assert v == q * n + r;
    assert q * n == (2 * j * q) * m;
    DivOfMultiplePlus(2 * j * q, r, m);
    assert v / m == 2 * (j * q) + r / m;
  }

  /** Dividing `a * m + b` by `m` splits into `a` plus `b / m`. */
  lemma DivOfMultiplePlus(a: nat, b: nat, m: nat)
    requires m > 0
    ensures (a * m + b) / m == a + b / m
  {
    var t, s := b / m, b % m;
    assert b == t * m + s;
    assert a * m + b == (a + t) * m + s by {
      assert a * m + t * m == (a + t) * m;
    }
    DivUnique(a * m + b, m, a + t, s);
  }

  /** The Euclidean quotient is the only `q` with `x == q * m + r` and `0 <= r < m`. */
  lemma DivUnique(x: int, m: int, q: int, r: int)
    requires m > 0 && 0 <= r < m && x == q * m + r
    ensures x / m == q
  {
    var q', r' := x / m, x % m;
    assert x == q' * m + r';
    assert (q - q') * m == r' - r by {
      assert (q - q') * m == q * m - q' * m;
    }
    assert (q' - q) * m == r - r' by {
      assert (q' - q) * m == q' * m - q * m;
    }
    if q > q' {
      MulAtLeast(q - q', m);
    } else if q < q' {
      MulAtLeast(q' - q, m);
    }
  }

  lemma MulAtLeast(k: int, m: int)
    requires k >= 1 && m > 0
    ensures k * m >= m
  {
    assert k * m == (k - 1) * m + m;
  }

  lemma {:induction false} PressedAmongIgnoresHighBits(order: seq<MouseButton>, v: Word)
    ensures PressedAmong(order, v) == PressedAmong(order, v % 0x80)
  {
    if order != [] {
      IsDownBelowSeventhBit(v, order[0]);
      PressedAmongIgnoresHighBits(order[1..], v);
    }
  }

  /** Bits above 0x7F never make a button appear. */
  lemma PressedIgnoresHighBits(v: Word)
    ensures Pressed(v) == Pressed(v % 0x80)
  {
    PressedAmongIgnoresHighBits(ButtonOrder, v);
  }

  lemma PressedOfNothing()
    ensures Pressed(0) == []
  {
    PressedCharacterised(0);
  }

  /** The mask 0x01 | 0x10. */
  lemma PressedLeftAndMiddle()
    ensures Pressed(0x11) == [Left, Middle]
  {
    var o := ButtonOrder;
    assert o[1..][1..][1..][1..][1..][1..][1..] == [];
  }

  // ---------------------------------------------------------------- encoding, the decoders' partner

  /** The events a mouse message can carry: no message reports a Shift or Control button,
      and a wheel delta must fit the signed 16-bit high word. */
  predicate Encodable(t: MouseEventType) {
    match t
    case Down(b) => b in {Left, Right, Middle, X1, X2}
    case Up(b) => b in {Left, Right, Middle, X1, X2}
    case Double(b) => b in {Left, Right, Middle, X1, X2}
    case Scroll(n) => -273 <= n <= 273
    case HScroll(n) => -273 <= n <= 273
    case _ => true
  }

  function XWord(b: MouseButton): Word {
    if b == X1 then MakeWord(0, XBUTTON1) else MakeWord(0, XBUTTON2)
  }

  function WheelWord(n: int): Word
    requires -273 <= n <= 273
  {
    MakeWord(0, BitsOfI16(n * WHEEL_DELTA))
  }

  /** A message (code, WPARAM) that carries the event kind `t`. */
  function EncodeType(t: MouseEventType): (MessageCode, Word)
    requires Encodable(t)
  {
    match t
    case Ignore => (WM_MOUSELEAVE, 0)
    case Move => (WM_MOUSEMOVE, 0)
    case Hover => (WM_MOUSEHOVER, 0)
    case Scroll(n) => (WM_MOUSEWHEEL, WheelWord(n))
    case HScroll(n) => (WM_MOUSEHWHEEL, WheelWord(n))
    case Down(b) =>
      if b == Left then (WM_LBUTTONDOWN, 0) else if b == Right then (WM_RBUTTONDOWN, 0)
      else if b == Middle then (WM_MBUTTONDOWN, 0) else (WM_XBUTTONDOWN, XWord(b))
    case Up(b) =>
      if b == Left then (WM_LBUTTONUP, 0) else if b == Right then (WM_RBUTTONUP, 0)
      else if b == Middle then (WM_MBUTTONUP, 0) else (WM_XBUTTONUP, XWord(b))
    case Double(b) =>
      if b == Left then (WM_LBUTTONDBLCLK, 0) else if b == Right then (WM_RBUTTONDBLCLK, 0)
      else if b == Middle then (WM_MBUTTONDBLCLK, 0) else (WM_XBUTTONDBLCLK, XWord(b))
  }

  lemma WheelRoundTrip(n: int)
    requires -273 <= n <= 273
    ensures TruncDiv(WheelDelta(WheelWord(n)), WHEEL_DELTA) == n
  {
    MakeWordSplits(0, BitsOfI16(n * WHEEL_DELTA));
    I16RoundTrip(n * WHEEL_DELTA, 0);
    TruncDivOfNotches(n);
  }

  lemma TypeRoundTrip(t: MouseEventType)
    requires Encodable(t)
    ensures IsMouseMessage(EncodeType(t).0)
    ensures MouseEventTypeFrom(EncodeType(t).0, EncodeType(t).1) == t
  {
    match t
    case Scroll(n) => WheelRoundTrip(n);
    case HScroll(n) => WheelRoundTrip(n);
    case _ =>
  }

  /** A full message (code, WPARAM, LPARAM) for the event `e`. */
  function Encode(e: MouseEvent): (MessageCode, Word, Word)
    requires Encodable(e.etype)
  {
    var (code, w) := EncodeType(e.etype);
    (code, w, MakeWord(e.x, e.y))
  }

  lemma {:induction false} MouseRoundTrip(e: MouseEvent)
    requires Encodable(e.etype)
    ensures IsMouseMessage(Encode(e).0)
    ensures MouseEventFrom(Encode(e).0, Encode(e).1, Encode(e).2) == e
  {
    TypeRoundTrip(e.etype);
    MakeWordSplits(e.x, e.y);
  }
}
