# Klipboard core, modelled in Dafny

Klipboard is a Windows tray program. When the user presses a hotkey (F8 by default), it types the clipboard's text into the focused application as synthetic Unicode keystrokes. The "Change Hotkey" menu command arms a capture, and the next key the user presses becomes the new hotkey. This project models the core of `klipboard.c`:

- **The low-level keyboard hook** (`LowLevelKeyboardProc`). For each event it either captures the key as the new hotkey, pastes, or hands the event on to `CallNextHookEx`.
- **The "Change Hotkey" transition** (`ChangeHotkey`), and the `WM_COMMAND` dispatch that reaches it from the tray menu.
- **The fallback rule of the message loop.** When the hook could not be installed, a `WM_HOTKEY` with id 1 pastes.
- **The injector** (`PasteClipboardText`). It opens the clipboard, locks its `CF_UNICODETEXT` data and walks the NUL-terminated UTF-16 buffer. For each code unit it sends a Unicode key-down and then a key-up. Once it has opened the clipboard it closes it on every path. It unlocks the data only on the path where the lock succeeded.
- **The configuration path** (`LoadConfiguration`): the executable's path cut just after its last backslash, followed by `klipboard_config.ini`.

Calls into Windows are not performed. The log, a `seq<Effect>` (`win32.dfy`), records only calls with an observable effect: a successful `OpenClipboard`, a successful `GlobalLock`, `SendInput`, `GlobalUnlock`, `CloseClipboard`, the save, the balloons, hotkey registration and the quit message. Queries and failed attempts leave no entry. These are a failed `OpenClipboard`, `GetClipboardData` and a failed `GlobalLock`. What the clipboard answers is a parameter:

- a `ClipboardAccess` holding three flags: opens, has text, locks;
- an `array<CodeUnit>` holding the locked text.

The process globals become the fields of `Klipboard.Context` (`klipboard.dfy`): the bound key, the capture flag, the fallback mode (a `const` fixed by the constructor), the ini path and the log. The hook method, the menu methods, the message check and the startup path are each proved against a pure function on values:

- `HotkeyCapture.KeyboardHook`, `Decide` and `NextState` for the hook;
- `BeginCapture` for the menu command;
- `ClipboardInjector.PasteEffects` for the paste;
- `Configuration.IniFilePath` for the path.

`SaveConfiguration` and `ShowTrayBalloon` are one-entry helpers. Their contracts name the log entry they append. The lemmas in `hotkey.dfy` and `clipboard.dfy` state what the program promises about those functions.

Files:

- `wrappers.dfy`: the `Option` datatype.
- `win32.dfy`: integer widths, constants, the `INPUT` record and the effect log entries.
- `clipboard.dfy`: the injector, with its loop over the array.
- `config.dfy`: `strrchr` as a loop, and the ini path.
- `hotkey.dfy`: the state machine on values, and traces of events.
- `klipboard.dfy`: the class.

Behaviour of the program a reader may not expect, kept as written:

- A paste whose `OpenClipboard` fails logs nothing. The clipboard was never acquired, so nothing is closed.
- "No text" still opens and closes the clipboard: two effects, but no keystrokes.
- The text typed is the units before the first NUL of the locked buffer.
- In fallback mode the `WM_HOTKEY` check does not look at the capture flag. A fallback hotkey press pastes even while a capture is armed.

## Model

| member | source | states |
|---|---|---|
| ClipboardInjector.UnitsBeforeNul | klipboard.c:54 | the text walked is a prefix of the buffer, holds no NUL, and stops at a NUL when it is shorter than the buffer |
| ClipboardInjector.SendUnicodeText | klipboard.c:53-64 | the loop over the array sends, as a log, exactly the keystrokes for the units before the first NUL |
| ClipboardInjector.KeystrokesAt | klipboard.c:54-64 | N code units give exactly 2N inputs; unit k goes down at position 2k and up at 2k+1 |
| ClipboardInjector.KeystrokesLength | klipboard.c:54-64 | N code units give exactly 2N inputs, including zero inputs for the empty text |
| ClipboardInjector.KeystrokesAreInputs | klipboard.c:54-64 | the typing loop makes no call other than SendInput |
| ClipboardInjector.TypedKeystrokes | klipboard.c:54-64 | round trip: the code units carried by the key-downs of the keystrokes for a text are exactly that text, in order |
| ClipboardInjector.KeyPairFlags | klipboard.c:55-62 | the down input has wVk 0, the unit as wScan, and KEYEVENTF_UNICODE without KEYEVENTF_KEYUP; the up input is the same record with KEYEVENTF_KEYUP added |
| ClipboardInjector.PasteClipboardText | klipboard.c:38-68 | the calls of one paste are exactly PasteEffects for what the clipboard answers and the locked buffer |
| ClipboardInjector.PasteReleasesClipboard | klipboard.c:39-67 | failing to open logs nothing; otherwise the clipboard is opened first, closed last, and each happens exactly once; the data is unlocked once exactly when it was locked |
| ClipboardInjector.PasteTypesClipboardText | klipboard.c:39-64 | a readable clipboard types exactly its text before the NUL; no data, or a failed lock or open, types nothing |
| ClipboardInjector.PasteSendsPairs | klipboard.c:47-67 | a readable paste makes 2N+4 calls: the lock at position 1, down(cₖ) at 2+2k, up(cₖ) at 3+2k, and the unlock at position 2N+2 |
| ClipboardInjector.PasteShape | klipboard.c:39-67 | a paste logs 0 entries if the open fails, 2 (open and close) if there is no data or the lock fails, and 2N+4 otherwise; unless the clipboard is readable, no input at all is sent; a readable paste has the lock second and the unlock next to last, with no text included |
| Configuration.LastBackslash | klipboard.c:22 | the index found holds a backslash and none follows it; no index means the path holds no backslash |
| Configuration.FindLastBackslash | klipboard.c:22 | the forward scan returns the last backslash's index, or none |
| Configuration.IniFilePath | klipboard.c:21-25 | the path ends in klipboard_config.ini; what precedes it is a prefix of the executable's path, ends in a backslash whenever the path holds one, and the part cut off holds no backslash |
| Configuration.SameDirectorySameIni | klipboard.c:21-25 | two executables in the same directory get the same configuration file: that directory, a backslash, then klipboard_config.ini |
| Configuration.LoadedHotkey | klipboard.c:28-29 | the key loaded is the stored one, or F8 when nothing is stored |
| HotkeyCapture.CaptureAdoptsKey | klipboard.c:87-98 | while capturing, a key-down action of X makes X the binding, clears the flag, saves X first and is consumed |
| HotkeyCapture.CaptureEffectOrder | klipboard.c:89-97 | a capture's calls are, in order: save X, the "Hotkey changed" balloon, and in fallback mode unregister id 1 then register id 1 with X; nothing else |
| HotkeyCapture.MatchingKeyPastes | klipboard.c:102-105 | while idle, a key-down action of the bound key pastes exactly once, is consumed and leaves the binding and the flag unchanged |
| HotkeyCapture.OtherEventsPassThrough | klipboard.c:84-108 | a non-HC_ACTION code, a non-WM_KEYDOWN message, or a non-matching key while idle passes through with no state change and no calls |
| HotkeyCapture.ConsumedExactly | klipboard.c:84-108 | an event is consumed if and only if it is a key-down action and either a capture is armed or it matches the binding |
| HotkeyCapture.NoPasteWhileCapturing | klipboard.c:87-106 | no event that arrives while capturing opens the clipboard or sends an input |
| HotkeyCapture.IdleKeepsState | klipboard.c:102-106 | while idle, no event changes the binding or the flag |
| HotkeyCapture.BeginCaptureIdempotent | klipboard.c:111-114 | Change Hotkey sets the flag, keeps the binding, and a second call leaves the state as the first did |
| HotkeyCapture.IdleWithoutCommandIsStable | klipboard.c:82-114 | starting idle, any sequence of hook events without the menu command leaves the state unchanged |
| HotkeyCapture.BindingComesFromEvents | klipboard.c:84-88 | after any sequence of events and commands, the binding is the initial one or the key of some delivered HC_ACTION WM_KEYDOWN event |
| HotkeyCapture.CommandThenKeyRebinds | klipboard.c:87-114 | whatever came before, Change Hotkey followed by a key-down of X leaves the machine idle and bound to X |
| HotkeyCapture.ScenarioPasteAB | klipboard.c:54-105 | bound to F8 with "AB" on the clipboard, F8 is consumed, and the calls are open, lock, down A, up A, down B, up B, unlock, close |
| HotkeyCapture.ScenarioRebindToF6 | klipboard.c:87-112 | after Change Hotkey and F6, F8 passes through untouched and F6 pastes; `Klipboard.RebindThenPaste` replays the same scenario on a `Context` object, from the class contracts alone |
| Klipboard.Context.constructor | klipboard.c:193-199 | startup: the ini path and the loaded key; idle; fallback mode exactly when the hook did not install, and then id 1 is registered for the loaded key before the "running" balloon |
| Klipboard.Context.LoadConfiguration | klipboard.c:20-30 | the ini path is IniFilePath of the executable's path and the key is the loaded one |
| Klipboard.Context.SaveConfiguration | klipboard.c:32-36 | one save of the current key to the ini path is appended |
| Klipboard.Context.ShowTrayBalloon | klipboard.c:70-80 | one balloon with the given title and text is appended |
| Klipboard.Context.LowLevelKeyboardProc | klipboard.c:82-109 | new fields, return value and appended calls are exactly those of KeyboardHook on the old fields; the fallback mode and the ini path are untouched |
| Klipboard.Context.ChangeHotkey | klipboard.c:111-114 | the fields become BeginCapture of the old ones, and the "Press new hotkey" balloon is appended |
| Klipboard.Context.PreDispatchMessage | klipboard.c:203-206 | in fallback mode a WM_HOTKEY with id 1 appends one paste's calls; any other message appends nothing |
| Klipboard.Context.OnCommand | klipboard.c:139-145 | the low word Exit appends the quit message; Change Hotkey behaves as ChangeHotkey; any other id changes nothing |

## Left out

- The Windows calls themselves are not modelled beyond their effect log entries: OpenClipboard, GetClipboardData, GlobalLock and GlobalUnlock, SendInput, SetWindowsHookEx, RegisterHotKey and UnregisterHotKey, the profile-file reads and writes. Their success is the parameter `ClipboardAccess` and the startup flag `hookInstalled`. Failures of SendInput, RegisterHotKey and the file write are ignored by the program and are not represented.
- Tray icon setup, `ShowTrayMenu` and most of `WindowProc` are out of scope: they are user-interface glue. `WM_DESTROY` is out of scope too. Balloons appear only as `ShowBalloon` entries.
- The message pump, installing and removing the hook, and shutdown are not modelled. The exceptions are the `WM_HOTKEY` check before dispatch and the `WM_COMMAND` menu dispatch.
- Timing, the operating system's hook timeout, and reentrancy are left out. They concern the operating system's scheduling, not the program's state.
- Parsing the stored integer and formatting it in decimal are left out. Both happen inside the foreign profile API. `SaveHotkey` records the key and the file, and `LoadedHotkey` takes the already parsed value or its absence.
- Configuration.IniFilePath models the intended result of the path derivation: the directory prefix followed by the file name. The source formats the buffer into itself with overlapping source and destination, which has undefined behaviour in C. Truncation to `MAX_PATH` is not modelled either.
- Klipboard.Context.LowLevelKeyboardProc can be called in fallback mode, and its fallback re-registration branch is modelled as written. In the program the hook is never installed in that mode, so a capture armed there is never completed. That open question is not resolved here.
- Configuration.IniFilePath treats `exePath` as the ANSI bytes that `GetModuleFileNameA` returns, one char per byte. Double-byte code pages are not modelled. In such a page a lead byte can be followed by a trail byte 0x5C, which `strrchr` takes for a backslash (for example 表, 0x95 0x5C in Shift-JIS).
- ClipboardInjector.PasteClipboardText requires a NUL in the locked buffer only when the clipboard is readable. Reading past the end of an unterminated buffer is not modelled.
