/** Sequences of calls on a fresh GlobalHookManager, proved from the
    contracts of its methods alone: the behaviours the design expects of the
    hook manager, and the places where the code does something else (no
    rollback after a partial failure, a leaked registration on retry, a Ctrl
    flag that survives a reinstall, installing after Dispose). */
module Scenarios {
  import opened Win32
  import opened Callbacks
  import opened Hooks

  /** A stand-in for CallNextHookEx; its answer does not matter here. */
  function NextHook(hhk: int, nCode: int, wParam: int, lParam: int): int
  {
    0
  }

  /** Installing twice with no uninstall in between: both calls return true
      and only the first one registers anything. */
  method InstallTwiceRegistersOnce(k1: int, m1: int, k2: int, m2: int)
    returns (first: bool, second: bool, keyboardHookId: int, mouseHookId: int,
             ghost registrations: seq<int>)
    requires k1 != 0 && m1 != 0
    ensures first && second
    ensures keyboardHookId == k1 && mouseHookId == m1
    ensures registrations == [k1, m1]
  {
    var m := new GlobalHookManager();
    first := m.InstallHooks(Returned(k1), Returned(m1));
    second := m.InstallHooks(Returned(k2), Returned(m2));
    keyboardHookId, mouseHookId, registrations := m.keyboardHookId, m.mouseHookId, m.registrations;
  }

  /** Uninstalling a manager that was never installed, twice: nothing is
      unhooked and it stays uninstalled. */
  method UninstallWhenNeverInstalled() returns (installed: bool, ghost unhooks: seq<int>)
    ensures !installed
    ensures unhooks == []
  {
    var m := new GlobalHookManager();
    m.UninstallHooks();
    m.UninstallHooks();
    installed, unhooks := m.IsInstalled, m.unhookCalls;
  }

  /** Uninstalling twice after a successful install: the first call unhooks
      both registrations, keyboard first; the second unhooks nothing. */
  method UninstallTwice(k: int, h: int)
    returns (installed: bool, keyboardHookId: int, mouseHookId: int, ghost unhooks: seq<int>)
    requires k != 0 && h != 0
    ensures !installed && keyboardHookId == 0 && mouseHookId == 0
    ensures unhooks == [k, h]
  {
    var m := new GlobalHookManager();
    var _ := m.InstallHooks(Returned(k), Returned(h));
    m.UninstallHooks();
    m.UninstallHooks();
    installed, keyboardHookId, mouseHookId, unhooks :=
      m.IsInstalled, m.keyboardHookId, m.mouseHookId, m.unhookCalls;
  }

  /** Ctrl down then Ctrl up (any of the three Ctrl codes, in any pairing)
      ends released; left Ctrl down alone ends pressed. */
  method ChordPressRelease(down: int, up: int) returns (afterDownUp: bool, afterLeftDown: bool)
    requires IsCtrlKey(down) && IsCtrlKey(up)
    ensures !afterDownUp && afterLeftDown
  {
    var m := new GlobalHookManager();
    var _ := m.KeyboardProc(0, WM_KEYDOWN, 0, down, NextHook);
    var _ := m.KeyboardProc(0, WM_KEYUP, 0, up, NextHook);
    afterDownUp := m.ctrlPressed;
    var m2 := new GlobalHookManager();
    var _ := m2.KeyboardProc(0, WM_KEYDOWN, 0, VK_LCONTROL, NextHook);
    afterLeftDown := m2.ctrlPressed;
  }

  /** Ctrl down, then a right-button press with the cursor at (400, 300):
      exactly one activation, at (400, 300). */
  method TriggerAt400x300() returns (ghost raised: seq<HotkeyEventArgs>)
    ensures raised == [HotkeyEventArgs(400, 300)]
  {
    var m := new GlobalHookManager();
    var _ := m.KeyboardProc(0, WM_KEYDOWN, 0, VK_CONTROL, NextHook);
    var _ := m.MouseProc(0, WM_RBUTTONDOWN, 0, Point(400, 300), NextHook);
    raised := m.activations;
  }

  /** A right-button press with no Ctrl key-down before it raises nothing. */
  method NoFalseTrigger(cursor: Point) returns (ghost raised: seq<HotkeyEventArgs>)
    ensures raised == []
  {
    var m := new GlobalHookManager();
    var _ := m.MouseProc(0, WM_RBUTTONDOWN, 0, cursor, NextHook);
    raised := m.activations;
  }

  /** The keyboard hook registers and the mouse hook is refused (handle 0):
      InstallHooks returns false and the manager is not installed, but the
      keyboard registration is not rolled back; it is only removed by a
      later UninstallHooks. */
  method PartialFailureKeepsKeyboardHook(k: int)
    returns (ok: bool, installed: bool, keyboardHookId: int,
             ghost registrations: seq<int>, ghost unhooks: seq<int>)
    requires k != 0
    ensures !ok && !installed && keyboardHookId == k
    ensures registrations == [k] && unhooks == [k]
  {
    var m := new GlobalHookManager();
    ok := m.InstallHooks(Returned(k), Returned(0));
    installed, keyboardHookId := m.IsInstalled, m.keyboardHookId;
    m.UninstallHooks();
    registrations, unhooks := m.registrations, m.unhookCalls;
  }

  /** The mouse SetHook throws after the keyboard hook registered:
      InstallHooks returns false and the keyboard handle is kept. */
  method MouseSetHookThrows(k: int) returns (ok: bool, installed: bool, keyboardHookId: int, mouseHookId: int)
    requires k != 0
    ensures !ok && !installed && keyboardHookId == k && mouseHookId == 0
  {
    var m := new GlobalHookManager();
    ok := m.InstallHooks(Returned(k), Threw);
    installed, keyboardHookId, mouseHookId := m.IsInstalled, m.keyboardHookId, m.mouseHookId;
  }

  /** Retrying after a partial failure overwrites the first keyboard handle
      without unhooking it: after the retry and an uninstall, that
      registration was made and never unhooked. */
  method RetryAfterPartialFailureLeaks(k1: int, k2: int, h: int)
    returns (first: bool, second: bool, ghost registrations: seq<int>, ghost unhooks: seq<int>)
    requires k1 != 0 && k2 != 0 && h != 0 && k1 != k2 && k1 != h
    ensures !first && second
    ensures registrations == [k1, k2, h] && unhooks == [k2, h]
    ensures k1 in registrations && k1 !in unhooks
  {
    var m := new GlobalHookManager();
    first := m.InstallHooks(Returned(k1), Returned(0));
    second := m.InstallHooks(Returned(k2), Returned(h));
    m.UninstallHooks();
    registrations, unhooks := m.registrations, m.unhookCalls;
  }

  /** Install does not reset the Ctrl flag: Ctrl held across an uninstall
      and a reinstall makes the first right-button press an activation. */
  method CtrlSurvivesReinstall(k: int, h: int, cursor: Point)
    returns (held: bool, ghost raised: seq<HotkeyEventArgs>)
    requires k != 0 && h != 0
    ensures held
    ensures raised == [HotkeyEventArgs(cursor.x, cursor.y)]
  {
    var m := new GlobalHookManager();
    var _ := m.InstallHooks(Returned(k), Returned(h));
    var _ := m.KeyboardProc(0, WM_KEYDOWN, 0, VK_RCONTROL, NextHook);
    m.UninstallHooks();
    var _ := m.InstallHooks(Returned(k), Returned(h));
    held := m.ctrlPressed;
    var _ := m.MouseProc(0, WM_RBUTTONDOWN, 0, cursor, NextHook);
    raised := m.activations;
  }

  /** Disposing twice frees each delegate pin once; InstallHooks does not
      look at the disposed flag, so it can install again afterwards, with
      both delegates unpinned. */
  method DisposeTwiceThenInstall(k: int, h: int)
    returns (disposed: bool, ok: bool, pinned: bool, ghost freed: seq<HookKind>)
    requires k != 0 && h != 0
    ensures disposed && ok && !pinned
    ensures freed == [Keyboard, Mouse]
  {
    var m := new GlobalHookManager();
    m.Dispose();
    m.Dispose();
    ok := m.InstallHooks(Returned(k), Returned(h));
    disposed, pinned, freed := m.disposed, m.keyboardProcPinned || m.mouseProcPinned, m.freedPins;
  }

  /** Both callbacks hand CallNextHookEx their own hook handle and the
      arguments they received, and return its answer. */
  method CallbacksForward(k: int, h: int, nCode: int, wParam: int, lParam: int,
                          vkCode: int, cursor: Point, callNext: (int, int, int, int) -> int)
    returns (fromKeyboard: int, fromMouse: int)
    ensures fromKeyboard == callNext(k, nCode, wParam, lParam)
    ensures fromMouse == callNext(h, nCode, wParam, lParam)
  {
    var m := new GlobalHookManager();
    var _ := m.InstallHooks(Returned(k), Returned(h));
    fromKeyboard := m.KeyboardProc(nCode, wParam, lParam, vkCode, callNext);
    fromMouse := m.MouseProc(nCode, wParam, lParam, cursor, callNext);
  }
}
