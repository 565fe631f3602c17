/** The global hook manager: the two low-level hook registrations, the
    Ctrl-chord flag, the pinned callback delegates and the disposed flag,
    updated in place by its lifecycle methods and by the two callbacks the
    operating system invokes.

    The Win32 calls are not modelled; their outcomes are parameters:
    the SetHookResult arguments of InstallHooks are what SetHook answers,
    callNext(hhk, nCode, wParam, lParam) is what CallNextHookEx returns,
    vkCode is what Marshal.ReadInt32(lParam) reads, and cursor is the point
    GetCursorPos writes. UnhookWindowsHookEx is recorded by the ghost log
    unhookCalls and each registration made by the ghost log registrations. */
module Hooks {
  import opened Win32
  import opened Callbacks

  /** The two pinned callback delegates. */
  datatype HookKind = Keyboard | Mouse

  /** The registration a handle returned by SetWindowsHookEx stands for:
      none when the handle is zero. */
  function Registration(handle: int): seq<int>
  {
    if handle != 0 then [handle] else []
  }

  /** The pins whose flag is set, in the order Dispose frees them. */
  function Pins(keyboardPinned: bool, mousePinned: bool): seq<HookKind>
  {
    (if keyboardPinned then [Keyboard] else []) + (if mousePinned then [Mouse] else [])
  }

  class GlobalHookManager {
    /** The hook handles; zero means "not installed". */
    var keyboardHookId: int
    var mouseHookId: int
    var IsInstalled: bool
    /** Whether some Ctrl key is held, as seen by the keyboard hook. */
    var ctrlPressed: bool
    /** GCHandle.IsAllocated of the two delegate pins. */
    var keyboardProcPinned: bool
    var mouseProcPinned: bool
    var disposed: bool

    /** The non-zero handles SetWindowsHookEx has returned, in order: each
        one is a registration made. */
    ghost var registrations: seq<int>
    /** The handles passed to UnhookWindowsHookEx, in order. */
    ghost var unhookCalls: seq<int>
    /** The delegate pins freed, in order. */
    ghost var freedPins: seq<HookKind>
    /** The HotkeyActivated events raised, in order. */
    ghost var activations: seq<HotkeyEventArgs>

    /** The object invariant: "installed" means both handles are non-zero;
        a non-zero handle is one SetWindowsHookEx returned; each delegate pin
        is held until Dispose and then freed exactly once. */
    ghost predicate Valid()
      reads this`IsInstalled, this`keyboardHookId, this`mouseHookId, this`registrations
      reads this`keyboardProcPinned, this`mouseProcPinned, this`disposed, this`freedPins
    {
      (IsInstalled ==> keyboardHookId != 0 && mouseHookId != 0) &&
      (keyboardHookId != 0 ==> keyboardHookId in registrations) &&
      (mouseHookId != 0 ==> mouseHookId in registrations) &&
      keyboardProcPinned == !disposed && mouseProcPinned == !disposed &&
      freedPins == (if disposed then [Keyboard, Mouse] else [])
    }

    /** A fresh manager: nothing installed, Ctrl released, both delegates
        pinned. */
    constructor ()
      ensures Valid()
      ensures keyboardHookId == 0 && mouseHookId == 0 && !IsInstalled
      ensures !ctrlPressed && !disposed
      ensures keyboardProcPinned && mouseProcPinned
      ensures registrations == [] && unhookCalls == [] && freedPins == [] && activations == []
    {
      keyboardHookId, mouseHookId, IsInstalled := 0, 0, false;
      ctrlPressed, disposed := false, false;
      keyboardProcPinned, mouseProcPinned := true, true;
      registrations, unhookCalls, freedPins, activations := [], [], [], [];
    }

    /** Installs the keyboard hook, then the mouse hook. Already installed:
        true, and nothing happens. A SetHook that throws ends the attempt
        with false, keeping whatever the earlier steps assigned. Otherwise
        IsInstalled becomes "both handles are non-zero" and is returned.
        There is no rollback: a handle that was obtained stays in its field
        and stays registered when the other one fails, and a non-zero
        handle left over from an earlier attempt is overwritten without
        being unhooked. The Ctrl flag is not reset. keyboard and mouse are
        what SetHook(WH_KEYBOARD_LL) and SetHook(WH_MOUSE_LL) answer; the
        second is only asked when the first did not throw. */
    method InstallHooks(keyboard: SetHookResult, mouse: SetHookResult) returns (ok: bool)
      requires Valid()
      modifies this`keyboardHookId, this`mouseHookId, this`IsInstalled, this`registrations
      ensures Valid()
      ensures ok == IsInstalled
      ensures old(IsInstalled) ==>
        ok && keyboardHookId == old(keyboardHookId) && mouseHookId == old(mouseHookId) &&
        registrations == old(registrations)
      ensures !old(IsInstalled) && keyboard.Threw? ==>
        keyboardHookId == old(keyboardHookId) && mouseHookId == old(mouseHookId) &&
        !IsInstalled && registrations == old(registrations)
      ensures !old(IsInstalled) && keyboard.Returned? && mouse.Threw? ==>
        keyboardHookId == keyboard.handle && mouseHookId == old(mouseHookId) &&
        !IsInstalled &&
        registrations == old(registrations) + Registration(keyboardHookId)
      ensures !old(IsInstalled) && keyboard.Returned? && mouse.Returned? ==>
        keyboardHookId == keyboard.handle &&
        mouseHookId == mouse.handle &&
        IsInstalled == (keyboardHookId != 0 && mouseHookId != 0) &&
        registrations == old(registrations) + Registration(keyboardHookId) + Registration(mouseHookId)
    {
      if IsInstalled {
        return true;
      }
      if keyboard.Threw? {
        return false;
      }
      keyboardHookId := keyboard.handle;
      registrations := registrations + Registration(keyboardHookId);
      if mouse.Threw? {
        return false;
      }
      mouseHookId := mouse.handle;
      registrations := registrations + Registration(mouseHookId);
      IsInstalled := keyboardHookId != 0 && mouseHookId != 0;
      ok := IsInstalled;
    }

    /** Unhooks each handle that is non-zero, keyboard first, zeroes both and
        clears IsInstalled. */
    method UninstallHooks()
      requires Valid()
      modifies this`keyboardHookId, this`mouseHookId, this`IsInstalled, this`unhookCalls
      ensures Valid()
      ensures keyboardHookId == 0 && mouseHookId == 0 && !IsInstalled
      ensures unhookCalls == old(unhookCalls) +
        (if old(keyboardHookId) != 0 then [old(keyboardHookId)] else []) +
        (if old(mouseHookId) != 0 then [old(mouseHookId)] else [])
    {
      if keyboardHookId != 0 {
        unhookCalls := unhookCalls + [keyboardHookId];
        keyboardHookId := 0;
      }
      if mouseHookId != 0 {
        unhookCalls := unhookCalls + [mouseHookId];
        mouseHookId := 0;
      }
      IsInstalled := false;
    }

    /** The keyboard callback. With a non-negative hook code, a Ctrl key
        going down sets the flag and one going up clears it; every other
        event leaves it. The event is always passed on to the next hook with
        this manager's keyboard handle and the unchanged arguments. */
    method KeyboardProc(nCode: int, wParam: int, lParam: int, vkCode: int,
                        callNext: (int, int, int, int) -> int) returns (r: int)
      modifies this`ctrlPressed
      ensures r == callNext(keyboardHookId, nCode, wParam, lParam)
      ensures nCode >= 0 && wParam == WM_KEYDOWN && IsCtrlKey(vkCode) ==> ctrlPressed
      ensures nCode >= 0 && wParam == WM_KEYUP && IsCtrlKey(vkCode) ==> !ctrlPressed
      ensures !(nCode >= 0 && (wParam == WM_KEYDOWN || wParam == WM_KEYUP) && IsCtrlKey(vkCode)) ==>
        ctrlPressed == old(ctrlPressed)
    {
      if nCode >= 0 {
        if wParam == WM_KEYDOWN && IsCtrlKey(vkCode) {
          ctrlPressed := true;
        } else if wParam == WM_KEYUP && IsCtrlKey(vkCode) {
          ctrlPressed := false;
        }
      }
      r := callNext(keyboardHookId, nCode, wParam, lParam);
    }

    /** The mouse callback. A right-button press with a non-negative hook
        code while Ctrl is held raises one HotkeyActivated carrying the
        cursor position; nothing else raises anything. The event is always
        passed on to the next hook with this manager's mouse handle and the
        unchanged arguments. */
    method MouseProc(nCode: int, wParam: int, lParam: int, cursor: Point,
                     callNext: (int, int, int, int) -> int) returns (r: int)
      modifies this`activations
      ensures r == callNext(mouseHookId, nCode, wParam, lParam)
      ensures nCode >= 0 && wParam == WM_RBUTTONDOWN && ctrlPressed ==>
        activations == old(activations) + [HotkeyEventArgs(cursor.x, cursor.y)]
      ensures !(nCode >= 0 && wParam == WM_RBUTTONDOWN && ctrlPressed) ==>
        activations == old(activations)
    {
      if nCode >= 0 {
        if wParam == WM_RBUTTONDOWN {
          if ctrlPressed {
            activations := activations + [HotkeyEventArgs(cursor.x, cursor.y)];
          }
        }
      }
      r := callNext(mouseHookId, nCode, wParam, lParam);
    }

    /** The first call uninstalls both hooks, frees each delegate pin that
        is still allocated and marks the manager disposed; later calls do
        nothing. */
    method Dispose()
      requires Valid()
      modifies this
      ensures Valid()
      ensures old(disposed) ==> unchanged(this)
      ensures !old(disposed) ==>
        disposed && keyboardHookId == 0 && mouseHookId == 0 && !IsInstalled &&
        !keyboardProcPinned && !mouseProcPinned &&
        freedPins == old(freedPins) + Pins(old(keyboardProcPinned), old(mouseProcPinned)) &&
        registrations == old(registrations) &&
        unhookCalls == old(unhookCalls) +
          (if old(keyboardHookId) != 0 then [old(keyboardHookId)] else []) +
          (if old(mouseHookId) != 0 then [old(mouseHookId)] else [])
      ensures ctrlPressed == old(ctrlPressed) && activations == old(activations)
    {
      if !disposed {
        UninstallHooks();
        if keyboardProcPinned {
          freedPins := freedPins + [Keyboard];
          keyboardProcPinned := false;
        }
        if mouseProcPinned {
          freedPins := freedPins + [Mouse];
          mouseProcPinned := false;
        }
        disposed := true;
      }
    }
  }

  /** Running the value-level model on the result of the callback that
      handles the call. */
  function Forwarded(keyboardHookId: int, mouseHookId: int, call: HookCall,
                     callNext: (int, int, int, int) -> int): int
  {
    match call
    case KeyboardCall(nCode, wParam, lParam, _) => callNext(keyboardHookId, nCode, wParam, lParam)
    case MouseCall(nCode, wParam, lParam, _) => callNext(mouseHookId, nCode, wParam, lParam)
  }

  /** The operating system invoking the callback of the hook the call
      belongs to: one step of the value-level model. */
  method Dispatch(m: GlobalHookManager, call: HookCall, callNext: (int, int, int, int) -> int)
    returns (r: int)
    modifies m`ctrlPressed, m`activations
    ensures m.ctrlPressed == Step(old(m.ctrlPressed), call)
    ensures m.activations == old(m.activations) + Emitted(old(m.ctrlPressed), call)
    ensures r == Forwarded(m.keyboardHookId, m.mouseHookId, call, callNext)
  {
    match call {
      case KeyboardCall(nCode, wParam, lParam, vkCode) =>
        r := m.KeyboardProc(nCode, wParam, lParam, vkCode, callNext);
      case MouseCall(nCode, wParam, lParam, cursor) =>
        r := m.MouseProc(nCode, wParam, lParam, cursor, callNext);
    }
  }

  /** The operating system invoking the two callbacks for the calls in t,
      one after another: the manager's Ctrl flag and activations are then
      those of the value-level model (module Callbacks), and nothing else
      changed. */
  method Deliver(m: GlobalHookManager, t: seq<HookCall>, callNext: (int, int, int, int) -> int)
    modifies m`ctrlPressed, m`activations
    ensures m.ctrlPressed == CtrlAfter(old(m.ctrlPressed), t)
    ensures m.activations == old(m.activations) + Activations(old(m.ctrlPressed), t)
  {
    ghost var ctrl0 := m.ctrlPressed;
    ghost var acts0 := m.activations;
    var i := 0;
    while i < |t|
      invariant 0 <= i <= |t|
      invariant m.ctrlPressed == CtrlAfter(ctrl0, t[..i])
      invariant m.activations == acts0 + Activations(ctrl0, t[..i])
    {
      RunPrefix(ctrl0, t, i);
      var _ := Dispatch(m, t[i], callNext);
      i := i + 1;
    }
    assert t[..|t|] == t;
  }
}
