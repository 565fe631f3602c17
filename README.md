# FlowerGUI global hook manager, modelled in Dafny

FlowerGUI opens a radial menu when the user holds Ctrl and clicks the right
mouse button anywhere on the screen. The part that detects the chord is
`GlobalHookManager`. It installs two Windows low-level hooks, one for the
keyboard (`WH_KEYBOARD_LL`, 13) and one for the mouse (`WH_MOUSE_LL`, 14).
Its keyboard callback tracks whether a Ctrl key (`VK_CONTROL` 0x11,
`VK_LCONTROL` 0xA2, `VK_RCONTROL` 0xA3) is held. Its mouse callback raises
`HotkeyActivated(x, y)` on a right-button press (`WM_RBUTTONDOWN`, 0x0204)
while Ctrl is held. `Dispose` unhooks both hooks and frees the `GCHandle`s
that keep the callback delegates from being collected.

The project has four modules:

- `Win32` (Win32.dfy): the hook-type, message and virtual-key constants, the
  `Point` that `GetCursorPos` fills in, and `SetHookResult`. A
  `SetHookResult` is what one `SetHook` call does: it returns a handle,
  zero when Windows refused, or it throws.
- `Callbacks` (Callbacks.dfy): what the two callbacks compute, written as
  functions. `CtrlStep` is one keyboard event. `Emitted` is one mouse event.
  `CtrlAfter` and `Activations` fold these over any sequence of callback
  invocations. The lemmas say what the folds amount to.
- `Hooks` (GlobalHookManager.dfy): the class `GlobalHookManager`. It has the
  source's fields: both hook handles (zero means not installed),
  `IsInstalled`, the Ctrl flag, the two `IsAllocated` flags of the delegate
  pins, and `disposed`. Its methods update these fields in place, as the
  C# code does. Ghost logs record what the manager does to the system:
  - `registrations`: the handles `SetWindowsHookEx` returned;
  - `unhookCalls`: the handles given to `UnhookWindowsHookEx`;
  - `freedPins`: the delegate pins freed;
  - `activations`: the `HotkeyActivated` events raised.

  `Deliver` makes the callbacks run for a whole sequence of operating-system
  events. It proves that the class's Ctrl flag and activations are the ones
  `CtrlAfter` and `Activations` compute.
- `Scenarios` (Scenarios.dfy): call sequences on a fresh manager, proved
  from the method contracts alone. They cover the expected behaviours: a
  double install, uninstalling when nothing was installed, press and
  release, a trigger at (400, 300), and no false trigger. They also cover
  the places where the code does not do what a cleaner design would; see
  below.

The Win32 calls are not modelled. Their outcomes are parameters:

- `InstallHooks` receives what the two `SetHook` calls answer.
- The callbacks receive `callNext`, a function giving `CallNextHookEx`'s
  answer for the handle and arguments it is called with.
- `KeyboardProc` receives the `vkCode` that `Marshal.ReadInt32(lParam)`
  reads.
- `MouseProc` receives the point `GetCursorPos` writes.

The class invariant `Valid()` says three things:

- `IsInstalled` implies both handles are non-zero.
- Every non-zero handle is one that `SetWindowsHookEx` returned.
- Each delegate pin is held until `Dispose` and then freed exactly once.

### Where the code does something other than a cleaner design

The model follows the code. These behaviours are stated in contracts or
shown in scenarios:

- **No rollback after a partial install.** Say the keyboard hook registers
  and the mouse hook gets handle 0 or throws. `InstallHooks` then returns
  false and `IsInstalled` stays false, but the keyboard handle stays in its
  field and stays registered (`PartialFailureKeepsKeyboardHook`,
  `MouseSetHookThrows`).
- **A retry leaks a registration.** A second `InstallHooks` overwrites the
  leftover keyboard handle without unhooking it. That registration is then
  never unhooked (`RetryAfterPartialFailureLeaks`).
- **The Ctrl flag is not reset on install.** A Ctrl key held across an
  uninstall and a reinstall makes the next right-click an activation
  (`CtrlSurvivesReinstall`).
- **No disposed check in `InstallHooks`.** After `Dispose`, `InstallHooks`
  installs again even though both delegates are unpinned
  (`DisposeTwiceThenInstall`).
- **The cursor query is not checked.** `GetCursorPos`'s boolean result is
  ignored, so an activation is raised with whatever point it wrote. The
  model raises the activation with the `cursor` it is given.

## Model

| member | source | states |
|---|---|---|
| `Hooks.GlobalHookManager.constructor` | FlowerGUIListener/Services/GlobalHookManager.cs:54-62 | A new manager has both handles zero, is not installed, has Ctrl released and is not disposed; both delegates are pinned; nothing has been registered, unhooked, freed or raised. |
| `Hooks.GlobalHookManager.InstallHooks` | FlowerGUIListener/Services/GlobalHookManager.cs:64-96 | Already installed: returns true, leaves both handles alone and registers nothing. Keyboard `SetHook` throws: returns false and changes nothing. Mouse `SetHook` throws: the keyboard handle is stored and registered, the mouse handle is kept, and the call returns false. Otherwise both handles are stored, `IsInstalled` becomes "both non-zero" and is returned, and exactly the non-zero handles are added to the registrations. No rollback, and the Ctrl flag and pins are untouched. |
| `Hooks.GlobalHookManager.UninstallHooks` | FlowerGUIListener/Services/GlobalHookManager.cs:98-113 | Unhooks only the handles that are non-zero, keyboard first. Afterwards both handles are zero and `IsInstalled` is false; nothing else changes. |
| `Hooks.GlobalHookManager.KeyboardProc` | FlowerGUIListener/Services/GlobalHookManager.cs:115-135 | With nCode >= 0, key-down of 0x11/0xA2/0xA3 sets the Ctrl flag and key-up of one clears it. Any other event, or nCode < 0, leaves the flag as it was. Only the flag can change. Returns `CallNextHookEx(keyboard handle, nCode, wParam, lParam)`. |
| `Hooks.GlobalHookManager.MouseProc` | FlowerGUIListener/Services/GlobalHookManager.cs:137-157 | Appends exactly one `HotkeyEventArgs(cursor.x, cursor.y)` when nCode >= 0, wParam == 0x0204 and Ctrl is held; otherwise appends nothing. Only the activation log can change (so never the Ctrl flag). Returns `CallNextHookEx(mouse handle, nCode, wParam, lParam)`. |
| `Hooks.GlobalHookManager.Dispose` | FlowerGUIListener/Services/GlobalHookManager.cs:203-217 | The first call uninstalls both hooks as `UninstallHooks` does, frees each pin still allocated (keyboard, then mouse) and sets `disposed`. Any later call changes nothing. With `Valid()`, each pin is freed exactly once over the manager's life. |
| `Hooks.Dispatch` | FlowerGUIListener/Services/GlobalHookManager.cs:115-157 | The operating system invoking the callback that owns an event: the Ctrl flag and activations follow one step of the functional model, and the event is forwarded with that hook's own handle. |
| `Hooks.Deliver` | FlowerGUIListener/Services/GlobalHookManager.cs:115-157 | After any sequence of callback invocations, the manager's Ctrl flag is `CtrlAfter` of the old flag, and its activations are the old ones followed by `Activations` of the sequence. |
| `Callbacks.RunPrefix` | FlowerGUIListener/Services/GlobalHookManager.cs:115-157 | Adding one more callback invocation to a sequence changes the flag and the activations by exactly that callback's own step. |
| `Callbacks.StepMeaning` | FlowerGUIListener/Services/GlobalHookManager.cs:117-133 | A single keyboard event that is not a Ctrl down/up with nCode >= 0 leaves the flag unchanged. A single one that is sets the flag to "it was a key-down". |
| `Callbacks.CtrlAfterIsLastTransition` | FlowerGUIListener/Services/GlobalHookManager.cs:117-133 | After any sequence of callbacks, the Ctrl flag equals "the last Ctrl event with nCode >= 0 was a key-down". With no such event it keeps its earlier value. |
| `Callbacks.CtrlAfterAppend` | FlowerGUIListener/Services/GlobalHookManager.cs:25 | The flag is plain state carried from one callback to the next: running a + b gives the same flag as running b from where a left off. |
| `Callbacks.NoActivationWithoutCtrlDown` | FlowerGUIListener/Services/GlobalHookManager.cs:137-157 | Start released, with no Ctrl key-down anywhere in the sequence: the flag stays false and no activation is raised, whatever the mouse does. |
| `Callbacks.ActivationsAtMostRightClicks` | FlowerGUIListener/Services/GlobalHookManager.cs:143-153 | A sequence raises no more activations than it has right-button presses with nCode >= 0. |
| `Callbacks.ActivationsComeFromRightClicks` | FlowerGUIListener/Services/GlobalHookManager.cs:143-153 | Every activation carries the cursor position of some right-button press (nCode >= 0) in the sequence. |
| `Scenarios.InstallTwiceRegistersOnce` | FlowerGUIListener/Services/GlobalHookManager.cs:64-96 | Installing twice with no uninstall between: both calls return true and only the first call's two handles are registered. |
| `Scenarios.UninstallWhenNeverInstalled` | FlowerGUIListener/Services/GlobalHookManager.cs:98-113 | Uninstalling twice when nothing was installed unhooks nothing and leaves the manager uninstalled. |
| `Scenarios.UninstallTwice` | FlowerGUIListener/Services/GlobalHookManager.cs:98-113 | Uninstalling twice after an install unhooks each handle once, keyboard first, and leaves both handles zero. |
| `Scenarios.ChordPressRelease` | FlowerGUIListener/Services/GlobalHookManager.cs:115-133 | Ctrl down then Ctrl up ends released, in any pairing of the three codes; left Ctrl down alone ends pressed. |
| `Scenarios.TriggerAt400x300` | FlowerGUIListener/Services/GlobalHookManager.cs:137-157 | Ctrl down, then a right-button press at (400, 300), raises exactly one activation, at (400, 300). |
| `Scenarios.NoFalseTrigger` | FlowerGUIListener/Services/GlobalHookManager.cs:143-153 | A right-button press with no Ctrl down before it raises nothing. |
| `Scenarios.PartialFailureKeepsKeyboardHook` | FlowerGUIListener/Services/GlobalHookManager.cs:73-88 | The keyboard hook registers and the mouse hook gets handle 0: the call returns false and the manager is not installed. The keyboard handle stays registered until a later uninstall removes it. |
| `Scenarios.MouseSetHookThrows` | FlowerGUIListener/Services/GlobalHookManager.cs:73-95 | The mouse `SetHook` throws after the keyboard hook registered: the call returns false, the manager is not installed, and the keyboard handle is kept. |
| `Scenarios.RetryAfterPartialFailureLeaks` | FlowerGUIListener/Services/GlobalHookManager.cs:73-113 | After a partial failure, a successful retry and an uninstall, the first keyboard registration was made and never unhooked. |
| `Scenarios.CtrlSurvivesReinstall` | FlowerGUIListener/Services/GlobalHookManager.cs:64-157 | Install does not reset the Ctrl flag. Ctrl held across uninstall and reinstall makes the next right-button press an activation. |
| `Scenarios.DisposeTwiceThenInstall` | FlowerGUIListener/Services/GlobalHookManager.cs:64-217 | Disposing twice frees each pin once. A later install still succeeds, with both delegates unpinned. |
| `Scenarios.CallbacksForward` | FlowerGUIListener/Services/GlobalHookManager.cs:134-156 | Each callback calls `CallNextHookEx` with its own hook handle and the arguments it received, and returns that call's answer. |

## Left out

- `IsRunningElevated` (GlobalHookManager.cs:40-52): a Windows identity and role query through a foreign API. It holds no state and no logic beyond "false on exception".
- `SetHook`'s process and module lookup, `GetFunctionPointerForDelegate` and the P/Invoke declarations (GlobalHookManager.cs:159-201): foreign calls. Their outcome is the `SetHookResult` parameter.
- `UnhookWindowsHookEx`'s boolean result, which the code ignores: every unhook is recorded as issued, and a failed unhook is not distinguished.
- `GetCursorPos`'s boolean result, which the code ignores: the callback takes the point it wrote as a parameter.
- `Marshal.GetLastWin32Error` and all `Debug.WriteLine` logging: diagnostics only.
- Subscribers of `HotkeyActivated`: the log records each raise. It does not model having no subscribers (`?.Invoke` then does nothing visible) or a subscriber that throws.
- The delegate fields `_keyboardProc` and `_mouseProc`: only whether their pins are allocated is modelled.
- The operating-system callback thread, and the lack of any locking between callbacks and install/uninstall: concurrency is not modelled. Neither is the use-after-free hazard of a callback running after `Dispose`.
- Integer widths: handles, `nCode`, `wParam` and `lParam` are unbounded integers. The code only compares them and does no arithmetic on them, so wrap-around never matters.
- `Hooks.Deliver`: does not list the values returned for each call in the sequence. Forwarding is stated per call by `KeyboardProc`, `MouseProc` and `Dispatch`.
- App.xaml.cs, PetalActionService.cs, FlowerGUIWindow.xaml.cs, TrayIconManager.cs, Settings.cs, PetalButtonData.cs and PetalAction.cs: startup glue, process launching, file and clipboard I/O, WPF layout in floating point, the tray icon and JSON settings. None of them is part of this model.
