/** What the two low-level hook callbacks compute, as functions of the
    state they read: the Ctrl-chord flag that KeyboardProc maintains, and the
    activations that MouseProc raises. The class in module Hooks is proved to
    follow these functions call by call; the lemmas here say what they
    amount to over any sequence of callbacks. */
module Callbacks {
  import opened Win32

  /** The payload of the HotkeyActivated event: the cursor position. */
  datatype HotkeyEventArgs = HotkeyEventArgs(x: int, y: int)

  /** One invocation of a callback by the operating system. For the keyboard
      hook, vkCode is the first 32-bit field of the KBDLLHOOKSTRUCT that
      lParam points to; for the mouse hook, cursor is where GetCursorPos
      reports the pointer while the callback runs. */
  datatype HookCall =
    | KeyboardCall(nCode: int, wParam: int, lParam: int, vkCode: int)
    | MouseCall(nCode: int, wParam: int, lParam: int, cursor: Point)

  /** The new Ctrl flag after KeyboardProc sees one event. */
  function CtrlStep(ctrl: bool, nCode: int, wParam: int, vkCode: int): bool
  {
    if nCode >= 0 then
      if wParam == WM_KEYDOWN && IsCtrlKey(vkCode) then true
      else if wParam == WM_KEYUP && IsCtrlKey(vkCode) then false
      else ctrl
    else ctrl
  }

  /** The events that decide the Ctrl flag: a Ctrl key going down or up,
      seen with a non-negative hook code. */
  predicate IsCtrlTransition(call: HookCall)
  {
    call.KeyboardCall? && call.nCode >= 0 && IsCtrlKey(call.vkCode) &&
    (call.wParam == WM_KEYDOWN || call.wParam == WM_KEYUP)
  }

  /** A Ctrl key going down, seen with a non-negative hook code. */
  predicate IsCtrlDown(call: HookCall)
  {
    IsCtrlTransition(call) && call.wParam == WM_KEYDOWN
  }

  /** True when MouseProc raises HotkeyActivated for this invocation. */
  predicate Fires(ctrl: bool, nCode: int, wParam: int)
  {
    nCode >= 0 && wParam == WM_RBUTTONDOWN && ctrl
  }

  /** The right-button presses the mouse callback acts on. */
  predicate IsRightClick(call: HookCall)
  {
    call.MouseCall? && call.nCode >= 0 && call.wParam == WM_RBUTTONDOWN
  }

  /** The Ctrl flag after one callback; the mouse callback never changes it. */
  function Step(ctrl: bool, call: HookCall): bool
  {
    match call
    case KeyboardCall(nCode, wParam, _, vkCode) => CtrlStep(ctrl, nCode, wParam, vkCode)
    case MouseCall(_, _, _, _) => ctrl
  }

  /** The activations one callback raises when the Ctrl flag is ctrl. */
  function Emitted(ctrl: bool, call: HookCall): seq<HotkeyEventArgs>
  {
    match call
    case KeyboardCall(_, _, _, _) => []
    case MouseCall(nCode, wParam, _, cursor) =>
      if Fires(ctrl, nCode, wParam) then [HotkeyEventArgs(cursor.x, cursor.y)] else []
  }

  /** The Ctrl flag after the calls in t, starting from ctrl. */
  function CtrlAfter(ctrl: bool, t: seq<HookCall>): bool
    decreases |t|
  {
    if t == [] then ctrl else Step(CtrlAfter(ctrl, t[..|t| - 1]), t[|t| - 1])
  }

  /** The activations raised, in order, by the calls in t, starting from ctrl. */
  function Activations(ctrl: bool, t: seq<HookCall>): seq<HotkeyEventArgs>
    decreases |t|
  {
    if t == [] then []
    else
      var prefix := t[..|t| - 1];
      Activations(ctrl, prefix) + Emitted(CtrlAfter(ctrl, prefix), t[|t| - 1])
  }

  /** The number of right-button presses in t. */
  function RightClicks(t: seq<HookCall>): nat
    decreases |t|
  {
    if t == [] then 0
    else RightClicks(t[..|t| - 1]) + (if IsRightClick(t[|t| - 1]) then 1 else 0)
  }

  /** Extending a prefix of t by one call runs that call from where the
      prefix left off. */
  lemma RunPrefix(ctrl: bool, t: seq<HookCall>, i: nat)
    requires i < |t|
    ensures CtrlAfter(ctrl, t[..i + 1]) == Step(CtrlAfter(ctrl, t[..i]), t[i])
    ensures Activations(ctrl, t[..i + 1]) ==
      Activations(ctrl, t[..i]) + Emitted(CtrlAfter(ctrl, t[..i]), t[i])
  {
    assert t[..i + 1][..i] == t[..i];
  }

  /** i is the position of the last Ctrl transition in t. */
  ghost predicate LastTransitionAt(t: seq<HookCall>, i: int)
  {
    0 <= i < |t| && IsCtrlTransition(t[i]) &&
    forall j :: i < j < |t| ==> !IsCtrlTransition(t[j])
  }

  /** One callback that is not a Ctrl transition leaves the flag alone, and
      one that is sets it to "the key went down". */
  lemma StepMeaning(ctrl: bool, call: HookCall)
    ensures !IsCtrlTransition(call) ==> Step(ctrl, call) == ctrl
    ensures IsCtrlTransition(call) ==> Step(ctrl, call) == (call.wParam == WM_KEYDOWN)
  {
  }

  /** After any sequence of callbacks the Ctrl flag is "the last Ctrl
      transition was a key-down"; with no Ctrl transition at all it keeps
      the value it had before the sequence. */
  lemma {:induction false} CtrlAfterIsLastTransition(ctrl: bool, t: seq<HookCall>)
    ensures (forall i :: 0 <= i < |t| ==> !IsCtrlTransition(t[i])) ==> CtrlAfter(ctrl, t) == ctrl
    ensures forall i :: LastTransitionAt(t, i) ==> CtrlAfter(ctrl, t) == (t[i].wParam == WM_KEYDOWN)
    decreases |t|
  {
    if t != [] {
      var n := |t| - 1;
      var prefix := t[..n];
      CtrlAfterIsLastTransition(ctrl, prefix);
      StepMeaning(CtrlAfter(ctrl, prefix), t[n]);
      if IsCtrlTransition(t[n]) {
        forall i | LastTransitionAt(t, i)
          ensures i == n
        {
        }
      } else {
        forall i | LastTransitionAt(t, i)
          ensures LastTransitionAt(prefix, i)
        {
          assert i != n;
          forall j | i < j < |prefix|
            ensures !IsCtrlTransition(prefix[j])
          {
            assert prefix[j] == t[j];
          }
        }
        if forall i :: 0 <= i < |t| ==> !IsCtrlTransition(t[i]) {
          forall i | 0 <= i < |prefix|
            ensures !IsCtrlTransition(prefix[i])
          {
            assert prefix[i] == t[i];
          }
        }
      }
    }
  }

  /** Running a + b is running a, then running b from where a left off:
      the Ctrl flag carries over between the two. */
  lemma {:induction false} CtrlAfterAppend(ctrl: bool, a: seq<HookCall>, b: seq<HookCall>)
    ensures CtrlAfter(ctrl, a + b) == CtrlAfter(CtrlAfter(ctrl, a), b)
    decreases |b|
  {
    if b == [] {
      assert a + b == a;
    } else {
      var n := |b| - 1;
      CtrlAfterAppend(ctrl, a, b[..n]);
      assert (a + b)[..|a + b| - 1] == a + b[..n];
    }
  }

  /** No Ctrl key-down in t and the flag starts false: the flag stays false
      and no activation is raised, whatever the mouse does. */
  lemma {:induction false} NoActivationWithoutCtrlDown(t: seq<HookCall>)
    requires forall i :: 0 <= i < |t| ==> !IsCtrlDown(t[i])
    ensures !CtrlAfter(false, t)
    ensures Activations(false, t) == []
    decreases |t|
  {
    if t != [] {
      var n := |t| - 1;
      var prefix := t[..n];
      forall i | 0 <= i < |prefix|
        ensures !IsCtrlDown(prefix[i])
      {
        assert prefix[i] == t[i];
      }
      NoActivationWithoutCtrlDown(prefix);
      assert !IsCtrlDown(t[n]);
    }
  }

  /** At most one activation per right-button press. */
  lemma {:induction false} ActivationsAtMostRightClicks(ctrl: bool, t: seq<HookCall>)
    ensures |Activations(ctrl, t)| <= RightClicks(t)
    decreases |t|
  {
    if t != [] {
      ActivationsAtMostRightClicks(ctrl, t[..|t| - 1]);
    }
  }

  /** e carries the cursor position of some right-button press in t. */
  ghost predicate CursorOfRightClick(t: seq<HookCall>, e: HotkeyEventArgs)
  {
    exists i :: 0 <= i < |t| && IsRightClick(t[i]) &&
      e == HotkeyEventArgs(t[i].cursor.x, t[i].cursor.y)
  }

  /** Every activation carries the cursor position of some right-button
      press in t. */
  lemma {:induction false} ActivationsComeFromRightClicks(ctrl: bool, t: seq<HookCall>)
    ensures forall k :: 0 <= k < |Activations(ctrl, t)| ==>
      CursorOfRightClick(t, Activations(ctrl, t)[k])
    decreases |t|
  {
    if t != [] {
      var n := |t| - 1;
      var prefix := t[..n];
      ActivationsComeFromRightClicks(ctrl, prefix);
      var before := Activations(ctrl, prefix);
      var last := Emitted(CtrlAfter(ctrl, prefix), t[n]);
      var acts := Activations(ctrl, t);
      assert acts == before + last;
      forall k | 0 <= k < |acts|
        ensures CursorOfRightClick(t, acts[k])
      {
        if k < |before| {
          assert CursorOfRightClick(prefix, before[k]);
          var i :| 0 <= i < |prefix| && IsRightClick(prefix[i]) &&
            before[k] == HotkeyEventArgs(prefix[i].cursor.x, prefix[i].cursor.y);
          assert prefix[i] == t[i];
          assert acts[k] == before[k];
        } else {
          assert last != [];
          assert IsRightClick(t[n]) && acts[k] == HotkeyEventArgs(t[n].cursor.x, t[n].cursor.y);
        }
      }
    }
  }
}
