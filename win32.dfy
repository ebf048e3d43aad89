/** The Win32 constants the backend matches on, with the values of the Windows SDK headers. */
module Win32 {

  const WM_CREATE := 0x0001
  const WM_DESTROY := 0x0002
  const WM_PAINT := 0x000F
  const WM_CLOSE := 0x0010
  const WM_ERASEBKGND := 0x0014

  const WM_KEYDOWN := 0x0100
  const WM_KEYUP := 0x0101
  const WM_SYSKEYDOWN := 0x0104
  const WM_SYSKEYUP := 0x0105

  const WM_MOUSEMOVE := 0x0200
  const WM_LBUTTONDOWN := 0x0201
  const WM_LBUTTONUP := 0x0202
  const WM_LBUTTONDBLCLK := 0x0203
  const WM_RBUTTONDOWN := 0x0204
  const WM_RBUTTONUP := 0x0205
  const WM_RBUTTONDBLCLK := 0x0206
  const WM_MBUTTONDOWN := 0x0207
  const WM_MBUTTONUP := 0x0208
  const WM_MBUTTONDBLCLK := 0x0209
  const WM_MOUSEWHEEL := 0x020A
  const WM_XBUTTONDOWN := 0x020B
  const WM_XBUTTONUP := 0x020C
  const WM_XBUTTONDBLCLK := 0x020D
  const WM_MOUSEHWHEEL := 0x020E
  /** 0x0215 = 533, the code the mouse decoder names by number. */
  const WM_CAPTURECHANGED := 0x0215
  const WM_MOUSEHOVER := 0x02A1
  const WM_MOUSELEAVE := 0x02A3

  /** WS_OVERLAPPED | WS_CAPTION | WS_SYSMENU | WS_THICKFRAME | WS_MINIMIZEBOX | WS_MAXIMIZEBOX. */
  const WS_OVERLAPPEDWINDOW: bv32 := 0x00CF_0000

  /** The XBUTTON1 / XBUTTON2 values carried in the high word of an X-button message's WPARAM. */
  const XBUTTON1 := 0x0001
  const XBUTTON2 := 0x0002

  /** One wheel notch (WHEEL_DELTA). */
  const WHEEL_DELTA := 120

  /** DWMWA_USE_IMMERSIVE_DARK_MODE, the attribute `DwmSetWindowAttribute` is called with. */
  const DWMWA_USE_IMMERSIVE_DARK_MODE := 20
}
