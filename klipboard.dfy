/** The process-wide state of Klipboard as one object: the globals that the
    keyboard hook and the menu command overwrite become fields, and every call
    into Windows or the configuration file is appended to `log`. */
module Klipboard {
  import opened Win32
  import opened Wrappers
  import opened ClipboardInjector
  import opened Configuration
  import opened HotkeyCapture

  // Tray menu command ids.
  const kTrayExitId: nat := 1001
  const kTrayChangeHotkeyId: nat := 1002

  class Context {
    var currentVirtualKey: Dword
    var isCapturingHotkey: bool
    /** Set once at startup when the low-level hook cannot be installed. */
    const useHotkeyFallback: bool
    var iniFilePath: string
    /** The calls made so far, oldest first. */
    var log: seq<Effect>

    /** The hook's view of the fields. */
    function State(): HookState
      reads this
    {
      HookState(currentVirtualKey, isCapturingHotkey)
    }

    /** Startup as far as the core is concerned: load the configuration, fall
        back to a registered hotkey when the hook did not install, announce. */
    constructor (exePath: string, stored: Option<Dword>, hookInstalled: bool)
      ensures iniFilePath == IniFilePath(exePath)
      ensures State() == HookState(LoadedHotkey(stored), false)
      ensures useHotkeyFallback == !hookInstalled
      ensures log == (if hookInstalled then [] else [RegisterHotKey(FallbackHotkeyId, 0, LoadedHotkey(stored))])
                     + [ShowBalloon("Klipboard", "Klipboard is running.")]
    {
      useHotkeyFallback := !hookInstalled;
      currentVirtualKey := VK_F8;
      isCapturingHotkey := false;
      iniFilePath := "";
      log := [];
      new;
      LoadConfiguration(exePath, stored);
      if useHotkeyFallback {
        log := log + [RegisterHotKey(FallbackHotkeyId, 0, currentVirtualKey)];
      }
      ShowTrayBalloon("Klipboard", "Klipboard is running.");
    }

    /** Derive the configuration file's path from the executable's path and
        read the hotkey from it. */
    method LoadConfiguration(exePath: string, stored: Option<Dword>)
      modifies this`iniFilePath, this`currentVirtualKey
      ensures iniFilePath == IniFilePath(exePath)
      ensures currentVirtualKey == LoadedHotkey(stored)
    {
      var lastBackslash := FindLastBackslash(exePath);
      iniFilePath := exePath;
      if lastBackslash.Some? {
        iniFilePath := iniFilePath[..lastBackslash.value + 1];
      }
      iniFilePath := iniFilePath + ConfigFileName;
      currentVirtualKey := LoadedHotkey(stored);
    }

    method SaveConfiguration()
      modifies this`log
      ensures log == old(log) + [SaveHotkey(iniFilePath, currentVirtualKey)]
    {
      log := log + [SaveHotkey(iniFilePath, currentVirtualKey)];
    }

    method ShowTrayBalloon(title: string, text: string)
      modifies this`log
      ensures log == old(log) + [ShowBalloon(title, text)]
    {
      log := log + [ShowBalloon(title, text)];
    }

    /** The low-level keyboard hook for one event; `consumed` is the return of
        1, its negation the hand-off to CallNextHookEx. */
    method LowLevelKeyboardProc(code: int, wparam: nat, vkCode: Dword, access: ClipboardAccess, text: array<CodeUnit>)
      returns (consumed: bool)
      requires access.Readable() ==> NulTerminated(text[..])
      modifies this`currentVirtualKey, this`isCapturingHotkey, this`log
      ensures var o := KeyboardHook(old(State()), useHotkeyFallback, iniFilePath, code, wparam, vkCode, access, text[..]);
        && State() == o.next
        && consumed == o.consumed
        && log == old(log) + o.effects
    {
      if code == HC_ACTION {
        if isCapturingHotkey && wparam == WM_KEYDOWN {
          currentVirtualKey := vkCode;
          SaveConfiguration();
          isCapturingHotkey := false;
          ShowTrayBalloon("Change Hotkey", "Hotkey changed");
          if useHotkeyFallback {
            log := log + [UnregisterHotKey(FallbackHotkeyId)];
            log := log + [RegisterHotKey(FallbackHotkeyId, 0, currentVirtualKey)];
          }
          return true;
        }
        if !isCapturingHotkey && wparam == WM_KEYDOWN && vkCode == currentVirtualKey {
          var pasted := PasteClipboardText(access, text);
          log := log + pasted;
          return true;
        }
      }
      return false;
    }

    /** The "Change Hotkey" command: arm the capture and prompt the user. */
    method ChangeHotkey()
      modifies this`isCapturingHotkey, this`log
      ensures State() == BeginCapture(old(State()))
      ensures log == old(log) + [ShowBalloon("Change Hotkey", "Press new hotkey")]
    {
      isCapturingHotkey := true;
      ShowTrayBalloon("Change Hotkey", "Press new hotkey");
    }

    /** The message loop's check ahead of dispatch: a WM_HOTKEY for id 1
        pastes in fallback mode. */
    method PreDispatchMessage(message: nat, wparam: nat, access: ClipboardAccess, text: array<CodeUnit>)
      requires access.Readable() ==> NulTerminated(text[..])
      modifies this`log
      ensures log == old(log) + HotkeyMessageEffects(useHotkeyFallback, message, wparam, access, text[..])
    {
      if useHotkeyFallback && message == WM_HOTKEY && wparam == FallbackHotkeyId {
        var pasted := PasteClipboardText(access, text);
        log := log + pasted;
      }
    }

    /** WM_COMMAND from the tray menu: Exit posts the quit message, Change
        Hotkey arms the capture, other ids do nothing. */
    method OnCommand(wparam: nat)
      modifies this`isCapturingHotkey, this`log
      ensures var id := wparam % 0x1_0000;
        && (id == kTrayChangeHotkeyId ==> State() == BeginCapture(old(State()))
                                          && log == old(log) + [ShowBalloon("Change Hotkey", "Press new hotkey")])
        && (id != kTrayChangeHotkeyId ==> State() == old(State())
                                          && log == old(log) + if id == kTrayExitId then [PostQuitMessage] else [])
    {
      var id := wparam % 0x1_0000;
      if id == kTrayExitId {
        log := log + [PostQuitMessage];
      } else if id == kTrayChangeHotkeyId {
        ChangeHotkey();
      }
    }
  }

  /** A caller's view: from the class contracts alone, capture F6 while bound
      to F8, then F8 is handed on and F6 pastes. */
  method RebindThenPaste(exePath: string, access: ClipboardAccess, text: array<CodeUnit>)
    requires access.Readable() ==> NulTerminated(text[..])
  {
    var k := new Context(exePath, None, true);
    assert k.State() == HookState(VK_F8, false);
    k.ChangeHotkey();
    var consumed := k.LowLevelKeyboardProc(HC_ACTION, WM_KEYDOWN, 0x75, access, text);
    assert consumed && k.State() == HookState(0x75, false);
    consumed := k.LowLevelKeyboardProc(HC_ACTION, WM_KEYDOWN, VK_F8, access, text);
    assert !consumed;
    var before := k.log;
    consumed := k.LowLevelKeyboardProc(HC_ACTION, WM_KEYDOWN, 0x75, access, text);
    assert consumed && k.log == before + PasteEffects(access, text[..]);
  }
}
