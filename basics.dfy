/** Machine words and the small helpers the Win32 backend uses to pick them apart.
    Words are unbounded integers restricted to their range; a bit test `v & m == m`
    with a single-bit mask `m` is written as `(v / m) % 2 == 1`. */
module Basics {

  datatype Option<T> = None | Some(value: T)

  datatype Result<T, E> = Ok(value: T) | Err(error: E)

  /** A 64-bit machine word: WPARAM (usize), or the bit pattern of an LPARAM (isize). */
  type Word = x: int | 0 <= x < 0x1_0000_0000_0000_0000

  /** A 32-bit window-message code (u32). */
  type MessageCode = x: int | 0 <= x < 0x1_0000_0000

  type U16 = x: int | 0 <= x < 0x1_0000

  type I16 = x: int | -0x8000 <= x < 0x8000

  /** A window handle value (`HWND.0`, an `isize`). */
  type HWnd = int

  /** True when every bit of the single-bit mask `flag` is set in `v`. */
  predicate HasFlag(v: Word, flag: nat)
    requires flag > 0
  {
    (v / flag) % 2 == 1
  }

  /** The low 16 bits of a word (`loword`). */
  function LoWord(v: Word): U16 {
    v % 0x1_0000
  }

  /** Bits 16..31 of a word (`hiword`). */
  function HiWord(v: Word): U16 {
    (v / 0x1_0000) % 0x1_0000
  }

  /** A word whose low word is `lo`, whose high word is `hi` and whose other bits are clear. */
  function MakeWord(lo: U16, hi: U16): (w: Word)
    ensures w < 0x1_0000_0000
  {
    hi * 0x1_0000 + lo
  }

  lemma MakeWordSplits(lo: U16, hi: U16)
    ensures LoWord(MakeWord(lo, hi)) == lo && HiWord(MakeWord(lo, hi)) == hi
  {
  }

  /** Reinterprets 16 bits as a two's-complement `i16` (`as i16`). */
  function AsI16(h: U16): (s: I16)
    ensures s >= 0 <==> h < 0x8000
    ensures (s - h) % 0x1_0000 == 0
  {
    if h < 0x8000 then h else h - 0x1_0000
  }

  /** The 16-bit pattern of an `i16` (`as u16`). */
  function BitsOfI16(s: I16): (h: U16)
    ensures (s - h) % 0x1_0000 == 0
  {
    if s >= 0 then s else s + 0x1_0000
  }

  lemma I16RoundTrip(s: I16, h: U16)
    ensures AsI16(BitsOfI16(s)) == s
    ensures BitsOfI16(AsI16(h)) == h
  {
  }

  /** `get_wheel_delta_wparam`: the signed high word of the wheel message's WPARAM. */
  function WheelDelta(w: Word): I16 {
    AsI16(HiWord(w))
  }

  function Abs(a: int): nat {
    if a < 0 then -a else a
  }

  /** Rust's integer `/`: the quotient rounded toward zero (Dafny's `/` is Euclidean),
      so its magnitude is that of |a| / d and its sign is the sign of `a`. */
  function TruncDiv(a: int, d: int): (q: int)
    requires d > 0
    ensures Abs(q) == Abs(a) / d
    ensures q > 0 ==> a > 0
    ensures q < 0 ==> a < 0
  {
    if a >= 0 then a / d else -((-a) / d)
  }

  /** A whole number of 120-unit wheel notches divides back to that number. */
  lemma TruncDivOfNotches(n: int)
    ensures TruncDiv(n * 120, 120) == n
  {
  }
}
