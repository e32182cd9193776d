/** The slice of the Win32 interface that Klipboard touches: the integer widths,
    the constants it passes or compares against, the keyboard INPUT record it
    hands to SendInput, and the externally visible calls it makes, recorded as
    entries of an effect log instead of being performed. */
module Win32 {

  /** DWORD / UINT: unsigned 32-bit. */
  type Dword = x: int | 0 <= x < 0x1_0000_0000

  /** wchar_t on Windows: one UTF-16 code unit. */
  type CodeUnit = bv16

  // Hook and message constants (winuser.h).
  const HC_ACTION: int := 0
  const WM_KEYDOWN: nat := 0x0100
  const WM_COMMAND: nat := 0x0111
  const WM_HOTKEY: nat := 0x0312

  // Virtual key of the default hotkey.
  const VK_F8: Dword := 0x77

  // dwFlags bits of a KEYBDINPUT.
  const KEYEVENTF_KEYUP: bv32 := 0x0002
  const KEYEVENTF_UNICODE: bv32 := 0x0004

  /** An INPUT record of type INPUT_KEYBOARD: the fields Klipboard sets
      (every other field is zeroed before use). */
  datatype Input = KeyboardInput(wVk: nat, wScan: CodeUnit, dwFlags: bv32)

  /** One observable call into the operating system or the configuration file. */
  datatype Effect =
    | SaveHotkey(iniPath: string, vk: Dword)                // writes the key to HotkeyVK under [Settings]
    | ShowBalloon(title: string, text: string)              // a tray balloon notification
    | UnregisterHotKey(id: nat)
    | RegisterHotKey(id: nat, modifiers: nat, vk: Dword)
    | OpenClipboard
    | LockClipboardData                                     // a GlobalLock that returned a pointer
    | SendInput(input: Input)
    | UnlockClipboardData                                   // GlobalUnlock
    | CloseClipboard
    | PostQuitMessage
}
