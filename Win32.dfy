/** The part of the Win32 surface the hook manager touches: hook-type and
    message constants, virtual-key codes, and the shapes of the answers the
    operating system gives. The calls themselves are not modelled; the
    manager receives their outcomes as parameters. */
module Win32 {

  /** Hook types passed to SetWindowsHookEx. */
  const WH_KEYBOARD_LL: int := 13
  const WH_MOUSE_LL: int := 14

  /** Message identifiers carried in wParam by the low-level hooks. */
  const WM_KEYDOWN: int := 0x0100
  const WM_KEYUP: int := 0x0101
  const WM_RBUTTONDOWN: int := 0x0204

  /** Virtual-key codes of the Ctrl key: generic, left and right. */
  const VK_CONTROL: int := 0x11
  const VK_LCONTROL: int := 0xA2
  const VK_RCONTROL: int := 0xA3

  /** A screen position, as GetCursorPos writes it into its POINT. */
  datatype Point = Point(x: int, y: int)

  /** What one call of SetHook does: it returns a hook handle (zero when
      SetWindowsHookEx refused the registration) or it throws, before any
      registration was made (the process and module lookups and the
      delegate marshalling come first). */
  datatype SetHookResult = Returned(handle: int) | Threw

  /** The keys the manager treats as "Ctrl". */
  predicate IsCtrlKey(vkCode: int)
  {
    vkCode == VK_CONTROL || vkCode == VK_LCONTROL || vkCode == VK_RCONTROL
  }
}
