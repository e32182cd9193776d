/** The hotkey interception state machine on values: what the low-level
    keyboard hook decides for one event, the state it leaves behind and the
    calls it makes; the "Change Hotkey" transition; and the fallback mode's
    WM_HOTKEY rule. The class in module Klipboard runs these on its fields. */
module HotkeyCapture {
  import opened Win32
  import opened ClipboardInjector

  /** The id under which the fallback hotkey is registered. */
  const FallbackHotkeyId: nat := 1

  /** The two globals the hook reads and writes: the bound virtual key and
      the capture flag. */
  datatype HookState = HookState(binding: Dword, capturing: bool)

  /** The three things the hook can do with an event. */
  datatype Decision = CaptureKey | PasteClipboard | PassThrough

  /** The branch the hook takes for (code, wparam, vkCode) in state `s`. */
  function Decide(s: HookState, code: int, wparam: nat, vkCode: Dword): Decision {
    if code != HC_ACTION then PassThrough
    else if s.capturing && wparam == WM_KEYDOWN then CaptureKey
    else if !s.capturing && wparam == WM_KEYDOWN && vkCode == s.binding then PasteClipboard
    else PassThrough
  }

  /** The globals after the hook returns. */
  function NextState(s: HookState, code: int, wparam: nat, vkCode: Dword): HookState {
    if Decide(s, code, wparam, vkCode) == CaptureKey then HookState(vkCode, false) else s
  }

  /** The calls of a capture: save the key, tell the user, and in fallback
      mode move registration id 1 over to the new key. */
  function CaptureEffects(fallback: bool, iniPath: string, vkCode: Dword): seq<Effect> {
    [SaveHotkey(iniPath, vkCode), ShowBalloon("Change Hotkey", "Hotkey changed")] +
      if fallback then [UnregisterHotKey(FallbackHotkeyId), RegisterHotKey(FallbackHotkeyId, 0, vkCode)] else []
  }

  /** One run of the hook: the new state, whether the event is consumed
      (return 1) rather than handed on with CallNextHookEx, and the calls made. */
  datatype HookOutcome = HookOutcome(next: HookState, consumed: bool, effects: seq<Effect>)

  function KeyboardHook(s: HookState, fallback: bool, iniPath: string, code: int, wparam: nat, vkCode: Dword,
                        access: ClipboardAccess, buffer: seq<CodeUnit>): HookOutcome
  {
    var d := Decide(s, code, wparam, vkCode);
    HookOutcome(NextState(s, code, wparam, vkCode), d != PassThrough,
                match d
                case CaptureKey => CaptureEffects(fallback, iniPath, vkCode)
                case PasteClipboard => PasteEffects(access, buffer)
                case PassThrough => [])
  }

  /** ChangeHotkey's effect on the globals. */
  function BeginCapture(s: HookState): HookState {
    s.(capturing := true)
  }

  /** The message loop's fallback rule: in fallback mode a WM_HOTKEY for id 1
      pastes; every other message leaves the clipboard alone. */
  function HotkeyMessageEffects(fallback: bool, message: nat, wparam: nat,
                                access: ClipboardAccess, buffer: seq<CodeUnit>): seq<Effect> {
    if fallback && message == WM_HOTKEY && wparam == FallbackHotkeyId then PasteEffects(access, buffer) else []
  }

  // ----- properties of one hook call -----

  /** A key-down while capturing becomes the binding, ends the capture and is consumed. */
  lemma CaptureAdoptsKey(s: HookState, fallback: bool, iniPath: string, vkCode: Dword,
                         access: ClipboardAccess, buffer: seq<CodeUnit>)
    requires s.capturing
    ensures var o := KeyboardHook(s, fallback, iniPath, HC_ACTION, WM_KEYDOWN, vkCode, access, buffer);
      && o.next == HookState(vkCode, false)
      && o.consumed
      && o.effects[0] == SaveHotkey(iniPath, vkCode)
  {
  }

  /** The calls of a capture in order: save, notify, then in fallback mode
      unregister id 1 and register id 1 for the new key; nothing is typed. */
  lemma CaptureEffectOrder(s: HookState, fallback: bool, iniPath: string, vkCode: Dword,
                           access: ClipboardAccess, buffer: seq<CodeUnit>)
    requires s.capturing
    ensures var e := KeyboardHook(s, fallback, iniPath, HC_ACTION, WM_KEYDOWN, vkCode, access, buffer).effects;
      && |e| == (if fallback then 4 else 2)
      && e[0] == SaveHotkey(iniPath, vkCode)
      && e[1] == ShowBalloon("Change Hotkey", "Hotkey changed")
      && (fallback ==> e[2] == UnregisterHotKey(1) && e[3] == RegisterHotKey(1, 0, vkCode))
  {
  }

  /** While idle, a key-down of the bound key pastes exactly once and is
      consumed; the globals stay as they were. */
  lemma MatchingKeyPastes(s: HookState, fallback: bool, iniPath: string,
                          access: ClipboardAccess, buffer: seq<CodeUnit>)
    requires !s.capturing
    ensures KeyboardHook(s, fallback, iniPath, HC_ACTION, WM_KEYDOWN, s.binding, access, buffer)
            == HookOutcome(s, true, PasteEffects(access, buffer))
  {
  }

  /** Every other event is handed on unchanged: no state change, no calls. */
  lemma OtherEventsPassThrough(s: HookState, fallback: bool, iniPath: string, code: int, wparam: nat, vkCode: Dword,
                               access: ClipboardAccess, buffer: seq<CodeUnit>)
    requires code != HC_ACTION || wparam != WM_KEYDOWN || (!s.capturing && vkCode != s.binding)
    ensures KeyboardHook(s, fallback, iniPath, code, wparam, vkCode, access, buffer) == HookOutcome(s, false, [])
  {
  }

  /** Consumed exactly when it is a key-down action that is captured or matches. */
  lemma ConsumedExactly(s: HookState, fallback: bool, iniPath: string, code: int, wparam: nat, vkCode: Dword,
                        access: ClipboardAccess, buffer: seq<CodeUnit>)
    ensures KeyboardHook(s, fallback, iniPath, code, wparam, vkCode, access, buffer).consumed
            <==> code == HC_ACTION && wparam == WM_KEYDOWN && (s.capturing || vkCode == s.binding)
  {
  }

  /** No event that arrives while capturing touches the clipboard or sends input. */
  lemma NoPasteWhileCapturing(s: HookState, fallback: bool, iniPath: string, code: int, wparam: nat, vkCode: Dword,
                              access: ClipboardAccess, buffer: seq<CodeUnit>)
    requires s.capturing
    ensures forall e :: e in KeyboardHook(s, fallback, iniPath, code, wparam, vkCode, access, buffer).effects
                        ==> !e.OpenClipboard? && !e.SendInput?
  {
  }

  /** While idle the hook never enters or leaves capture and never rebinds. */
  lemma IdleKeepsState(s: HookState, code: int, wparam: nat, vkCode: Dword)
    requires !s.capturing
    ensures NextState(s, code, wparam, vkCode) == s
  {
  }

  /** ChangeHotkey enters capture, keeps the binding, and a second call changes nothing more. */
  lemma BeginCaptureIdempotent(s: HookState)
    ensures BeginCapture(s).capturing && BeginCapture(s).binding == s.binding
    ensures BeginCapture(BeginCapture(s)) == BeginCapture(s)
  {
  }

  // ----- sequences of events -----

  /** What reaches the state machine: a hook call or the "Change Hotkey" menu command. */
  datatype Stimulus = KeyEvent(code: int, wparam: nat, vkCode: Dword) | ChangeHotkeyCommand

  /** The globals after a sequence of stimuli, processed one at a time. */
  function Replay(s: HookState, trace: seq<Stimulus>): HookState
    decreases |trace|
  {
    if trace == [] then s
    else
      var t := Replay(s, trace[..|trace| - 1]);
      match trace[|trace| - 1]
      case KeyEvent(code, wparam, vkCode) => NextState(t, code, wparam, vkCode)
      case ChangeHotkeyCommand => BeginCapture(t)
  }

  /** An idle machine that never gets the menu command never changes: no
      capture is accepted while idle. */
  lemma {:induction false} IdleWithoutCommandIsStable(s: HookState, trace: seq<Stimulus>)
    requires !s.capturing
    requires forall i :: 0 <= i < |trace| ==> trace[i].KeyEvent?
    ensures Replay(s, trace) == s
    decreases |trace|
  {
    if trace != [] {
      IdleWithoutCommandIsStable(s, trace[..|trace| - 1]);
    }
  }

  /** The binding is always the initial one or the key of some key-down
      action delivered. */
  lemma {:induction false} BindingComesFromEvents(s: HookState, trace: seq<Stimulus>)
    ensures var b := Replay(s, trace).binding;
      b == s.binding || exists i :: 0 <= i < |trace| && trace[i] == KeyEvent(HC_ACTION, WM_KEYDOWN, b)
    decreases |trace|
  {
    if trace != [] {
      var init := trace[..|trace| - 1];
      BindingComesFromEvents(s, init);
      var b := Replay(s, init).binding;
      if b != s.binding && Replay(s, trace).binding == b {
        var i :| 0 <= i < |init| && init[i] == KeyEvent(HC_ACTION, WM_KEYDOWN, b);
        assert trace[i] == init[i];
      } else if Replay(s, trace).binding != b {
        assert trace[|trace| - 1] == KeyEvent(HC_ACTION, WM_KEYDOWN, Replay(s, trace).binding);
      }
    }
  }

  /** After the menu command, the next key-down action wins, whatever came before. */
  lemma {:induction false} CommandThenKeyRebinds(s: HookState, trace: seq<Stimulus>, vkCode: Dword)
    ensures Replay(s, trace + [ChangeHotkeyCommand, KeyEvent(HC_ACTION, WM_KEYDOWN, vkCode)]) == HookState(vkCode, false)
  {
    var t := trace + [ChangeHotkeyCommand];
    var u := t + [KeyEvent(HC_ACTION, WM_KEYDOWN, vkCode)];
    assert u == trace + [ChangeHotkeyCommand, KeyEvent(HC_ACTION, WM_KEYDOWN, vkCode)];
    assert u[..|u| - 1] == t && t[..|t| - 1] == trace;
  }

  // ----- the two worked scenarios -----

  /** Bound to F8 with "AB" on the clipboard, F8 is consumed and types A, B. */
  lemma ScenarioPasteAB(fallback: bool, iniPath: string, buffer: seq<CodeUnit>)
    requires buffer == [0x41, 0x42, 0]
    ensures var o := KeyboardHook(HookState(VK_F8, false), fallback, iniPath, HC_ACTION, WM_KEYDOWN, VK_F8,
                                  ClipboardAccess(true, true, true), buffer);
      && o.consumed && o.next == HookState(VK_F8, false)
      && o.effects == [OpenClipboard, LockClipboardData,
                       SendInput(KeyDown(0x41)), SendInput(KeyUp(0x41)),
                       SendInput(KeyDown(0x42)), SendInput(KeyUp(0x42)),
                       UnlockClipboardData, CloseClipboard]
  {
    var b: seq<CodeUnit> := [0x42, 0];
    var c: seq<CodeUnit> := [0];
    assert buffer[1..] == b && b[1..] == c;
    assert UnitsBeforeNul(c) == [];
    assert UnitsBeforeNul(buffer) == [0x41, 0x42];
    assert [0x41, 0x42][..1] == [0x41 as CodeUnit];
    assert [0x41 as CodeUnit][..0] == [];
    var keysA := [SendInput(KeyDown(0x41)), SendInput(KeyUp(0x41))];
    assert Keystrokes([0x41]) == keysA;
    assert Keystrokes([0x41, 0x42]) == keysA + [SendInput(KeyDown(0x42)), SendInput(KeyUp(0x42))];
  }

  /** Capture F6 (0x75) while bound to F8: afterwards F8 passes through and F6 pastes. */
  lemma ScenarioRebindToF6(fallback: bool, iniPath: string, access: ClipboardAccess, buffer: seq<CodeUnit>)
    ensures var s := NextState(BeginCapture(HookState(VK_F8, false)), HC_ACTION, WM_KEYDOWN, 0x75);
      && s == HookState(0x75, false)
      && KeyboardHook(s, fallback, iniPath, HC_ACTION, WM_KEYDOWN, VK_F8, access, buffer) == HookOutcome(s, false, [])
      && KeyboardHook(s, fallback, iniPath, HC_ACTION, WM_KEYDOWN, 0x75, access, buffer)
         == HookOutcome(s, true, PasteEffects(access, buffer))
  {
  }
}
