/** The clipboard-to-keystroke injector: reads the clipboard's CF_UNICODETEXT
    payload and types it into the focused application as Unicode key events,
    one down/up pair per UTF-16 code unit, releasing the clipboard on every
    exit path. */
module ClipboardInjector {
  import opened Win32

  /** What the three clipboard queries answer for one paste: whether
      OpenClipboard succeeds, whether GetClipboardData finds a text handle,
      and whether GlobalLock yields a pointer to it. */
  datatype ClipboardAccess = ClipboardAccess(opens: bool, hasText: bool, locks: bool) {
    predicate Readable() { opens && hasText && locks }
  }

  /** A wide-character buffer that holds a terminating NUL somewhere. */
  predicate NulTerminated(buffer: seq<CodeUnit>) {
    exists i :: 0 <= i < |buffer| && buffer[i] == 0
  }

  /** The C string held in `buffer`: the code units before the first NUL
      (all of them when there is none). */
  function UnitsBeforeNul(buffer: seq<CodeUnit>): (text: seq<CodeUnit>)
    ensures |text| <= |buffer| && text == buffer[..|text|]
    ensures forall i :: 0 <= i < |text| ==> text[i] != 0
    ensures |text| < |buffer| ==> buffer[|text|] == 0
  {
    if buffer == [] || buffer[0] == 0 then [] else [buffer[0]] + UnitsBeforeNul(buffer[1..])
  }

  /** A NUL-free prefix that stops at a NUL is the C string of the buffer. */
  lemma UnitsBeforeNulIs(buffer: seq<CodeUnit>, n: nat)
    requires n < |buffer| && buffer[n] == 0
    requires forall i :: 0 <= i < n ==> buffer[i] != 0
    ensures UnitsBeforeNul(buffer) == buffer[..n]
  {
  }

  /** The Unicode key-down input for one code unit: no virtual key, the code
      unit as the scan code, KEYEVENTF_UNICODE. */
  function KeyDown(c: CodeUnit): Input {
    KeyboardInput(0, c, KEYEVENTF_UNICODE)
  }

  /** The matching key-up: the same record with KEYEVENTF_KEYUP added. */
  function KeyUp(c: CodeUnit): Input {
    KeyboardInput(0, c, KEYEVENTF_UNICODE | KEYEVENTF_KEYUP)
  }

  /** The SendInput calls that type `text`, in order. */
  function Keystrokes(text: seq<CodeUnit>): seq<Effect>
    decreases |text|
  {
    if text == [] then []
    else Keystrokes(text[..|text| - 1]) + [SendInput(KeyDown(text[|text| - 1])), SendInput(KeyUp(text[|text| - 1]))]
  }

  /** Exactly 2N inputs for N code units: the k-th unit goes down at 2k and up at 2k+1. */
  lemma {:induction false} KeystrokesAt(text: seq<CodeUnit>, k: nat)
    requires k < |text|
    ensures |Keystrokes(text)| == 2 * |text|
    ensures Keystrokes(text)[2 * k] == SendInput(KeyDown(text[k]))
    ensures Keystrokes(text)[2 * k + 1] == SendInput(KeyUp(text[k]))
  {
    var init := text[..|text| - 1];
    if k < |text| - 1 {
      KeystrokesAt(init, k);
    } else if init != [] {
      KeystrokesAt(init, 0);
    } else {
      assert Keystrokes(init) == [];
    }
  }

  /** N code units, the empty text included, give exactly 2N inputs. */
  lemma {:induction false} KeystrokesLength(text: seq<CodeUnit>)
    ensures |Keystrokes(text)| == 2 * |text|
    decreases |text|
  {
    if text != [] {
      KeystrokesLength(text[..|text| - 1]);
    }
  }

  /** Typing produces nothing but SendInput calls. */
  lemma {:induction false} KeystrokesAreInputs(text: seq<CodeUnit>)
    ensures forall e :: e in Keystrokes(text) ==> e.SendInput?
  {
    if text != [] {
      KeystrokesAreInputs(text[..|text| - 1]);
    }
  }

  /** The characters a receiving application sees in an effect log: the scan
      code of every SendInput that is not a key-up. */
  function TypedText(log: seq<Effect>): seq<CodeUnit>
    decreases |log|
  {
    if log == [] then []
    else
      var last := log[|log| - 1];
      TypedText(log[..|log| - 1]) +
        if last.SendInput? && last.input.dwFlags & KEYEVENTF_KEYUP == 0 then [last.input.wScan] else []
  }

  lemma {:induction false} TypedTextAppend(a: seq<Effect>, b: seq<Effect>)
    ensures TypedText(a + b) == TypedText(a) + TypedText(b)
    decreases |b|
  {
    if b != [] {
      var b' := b[..|b| - 1];
      assert (a + b)[..|a + b| - 1] == a + b';
      TypedTextAppend(a, b');
    } else {
      assert a + b == a;
    }
  }

  /** A log without SendInput calls types nothing. */
  lemma {:induction false} TypedTextOfControls(log: seq<Effect>)
    requires forall e :: e in log ==> !e.SendInput?
    ensures TypedText(log) == []
    decreases |log|
  {
    if log != [] {
      assert log[|log| - 1] in log;
      TypedTextOfControls(log[..|log| - 1]);
    }
  }

  /** The keystrokes for `text` type back exactly `text`. */
  lemma {:induction false} TypedKeystrokes(text: seq<CodeUnit>)
    ensures TypedText(Keystrokes(text)) == text
    decreases |text|
  {
    if text != [] {
      var init, c := text[..|text| - 1], text[|text| - 1];
      var down, up := SendInput(KeyDown(c)), SendInput(KeyUp(c));
      TypedKeystrokes(init);
      TypedTextAppend(Keystrokes(init), [down, up]);
      assert [down, up][..1] == [down];
      assert [down][..0] == [];
      assert KEYEVENTF_UNICODE & KEYEVENTF_KEYUP == 0;
      assert (KEYEVENTF_UNICODE | KEYEVENTF_KEYUP) & KEYEVENTF_KEYUP != 0;
      assert TypedText([down]) == [c];
      assert TypedText([down, up]) == [c];
      assert init + [c] == text;
    }
  }

  /** The typing loop: walks the buffer up to its NUL and sends, for every code
      unit, a key-down and then a key-up, rewriting one INPUT record. */
  method SendUnicodeText(text: array<CodeUnit>) returns (sent: seq<Effect>)
    requires NulTerminated(text[..])
    ensures sent == Keystrokes(UnitsBeforeNul(text[..]))
  {
    ghost var nul :| 0 <= nul < text.Length && text[nul] == 0;
    sent := [];
    var input := KeyboardInput(0, 0, 0);
    var i := 0;
    while text[i] != 0
      invariant 0 <= i <= nul
      invariant forall j :: 0 <= j < i ==> text[j] != 0
      invariant sent == Keystrokes(text[..i])
      decreases nul - i
    {
      input := KeyboardInput(0, text[i], KEYEVENTF_UNICODE);
      sent := sent + [SendInput(input)];
      input := input.(dwFlags := KEYEVENTF_UNICODE | KEYEVENTF_KEYUP);
      sent := sent + [SendInput(input)];
      assert text[..i + 1][..i] == text[..i];
      i := i + 1;
    }
    UnitsBeforeNulIs(text[..], i);
  }

  /** Every call one paste makes, given what the clipboard answers. */
  function PasteEffects(access: ClipboardAccess, buffer: seq<CodeUnit>): seq<Effect> {
    if !access.opens then []
    else if !access.hasText || !access.locks then [OpenClipboard, CloseClipboard]
    else [OpenClipboard, LockClipboardData] + Keystrokes(UnitsBeforeNul(buffer)) + [UnlockClipboardData, CloseClipboard]
  }

  /** PasteClipboardText: open, fetch the text handle, lock it, type it,
      unlock, close; the early exits close the clipboard they opened. */
  method PasteClipboardText(access: ClipboardAccess, text: array<CodeUnit>) returns (log: seq<Effect>)
    requires access.Readable() ==> NulTerminated(text[..])
    ensures log == PasteEffects(access, text[..])
  {
    if !access.opens {
      return [];
    }
    log := [OpenClipboard];
    if !access.hasText {
      log := log + [CloseClipboard];
      return;
    }
    if !access.locks {
      log := log + [CloseClipboard];
      return;
    }
    log := log + [LockClipboardData];
    var sent := SendUnicodeText(text);
    log := log + sent;
    log := log + [UnlockClipboardData];
    log := log + [CloseClipboard];
    assert log == [OpenClipboard, LockClipboardData] + sent + [UnlockClipboardData, CloseClipboard];
  }

  /** Resource discipline: a paste that cannot open the clipboard does nothing;
      one that can opens it first, closes it last and exactly once, and unlocks
      the text exactly when it locked it. */
  lemma PasteReleasesClipboard(access: ClipboardAccess, buffer: seq<CodeUnit>)
    ensures var log := PasteEffects(access, buffer);
      && (log == [] <==> !access.opens)
      && (access.opens ==>
            && log[0] == OpenClipboard && log[|log| - 1] == CloseClipboard
            && multiset(log)[OpenClipboard] == 1 && multiset(log)[CloseClipboard] == 1)
      && multiset(log)[LockClipboardData] == multiset(log)[UnlockClipboardData]
                                          == if access.Readable() then 1 else 0
  {
    if access.Readable() {
      var keys := Keystrokes(UnitsBeforeNul(buffer));
      KeystrokesAreInputs(UnitsBeforeNul(buffer));
      ReadablePasteCounts(keys);
    }
  }

  /** The bracket counts of a readable paste, whatever inputs it sends. */
  lemma ReadablePasteCounts(keys: seq<Effect>)
    requires forall e :: e in keys ==> e.SendInput?
    ensures var m := multiset([OpenClipboard, LockClipboardData] + keys + [UnlockClipboardData, CloseClipboard]);
      m[OpenClipboard] == m[CloseClipboard] == m[LockClipboardData] == m[UnlockClipboardData] == 1
  {
    var head, tail := [OpenClipboard, LockClipboardData], [UnlockClipboardData, CloseClipboard];
    assert multiset(head + keys + tail) == multiset(head) + multiset(keys) + multiset(tail);
    assert OpenClipboard !in keys && CloseClipboard !in keys;
    assert LockClipboardData !in keys && UnlockClipboardData !in keys;
  }

  /** Injection exactness: a readable clipboard whose text has N code units
      before its NUL is typed as exactly those N units; otherwise nothing is typed. */
  lemma PasteTypesClipboardText(access: ClipboardAccess, buffer: seq<CodeUnit>)
    ensures TypedText(PasteEffects(access, buffer)) == if access.Readable() then UnitsBeforeNul(buffer) else []
  {
    var log := PasteEffects(access, buffer);
    if !access.opens {
    } else if !access.hasText || !access.locks {
      TypedTextOfControls(log);
    } else {
      var text := UnitsBeforeNul(buffer);
      var head, tail := [OpenClipboard, LockClipboardData], [UnlockClipboardData, CloseClipboard];
      TypedTextAppend(head + Keystrokes(text), tail);
      TypedTextAppend(head, Keystrokes(text));
      TypedKeystrokes(text);
      TypedTextOfControls(head);
      TypedTextOfControls(tail);
    }
  }

  /** The inputs a readable paste sends sit between the lock and the unlock:
      2N of them, down(cᵢ) at 2i and up(cᵢ) at 2i+1, in source order. */
  lemma PasteSendsPairs(access: ClipboardAccess, buffer: seq<CodeUnit>, k: nat)
    requires access.Readable() && k < |UnitsBeforeNul(buffer)|
    ensures var log, text := PasteEffects(access, buffer), UnitsBeforeNul(buffer);
      && |log| == 2 * |text| + 4
      && log[1] == LockClipboardData && log[|log| - 2] == UnlockClipboardData
      && log[2 + 2 * k] == SendInput(KeyDown(text[k]))
      && log[3 + 2 * k] == SendInput(KeyUp(text[k]))
  {
    KeystrokesAt(UnitsBeforeNul(buffer), k);
  }

  /** The size of every paste, and no input at all unless the clipboard is
      readable: nothing when it cannot be opened, open and close alone when
      there is no data or the lock fails, 2N inputs plus four brackets otherwise,
      the lock second and the unlock next to last. */
  lemma PasteShape(access: ClipboardAccess, buffer: seq<CodeUnit>)
    ensures var log := PasteEffects(access, buffer);
      && |log| == (if !access.opens then 0 else if !access.Readable() then 2 else 2 * |UnitsBeforeNul(buffer)| + 4)
      && (!access.Readable() ==> forall e :: e in log ==> !e.SendInput?)
      && (access.Readable() ==> log[1] == LockClipboardData && log[|log| - 2] == UnlockClipboardData)
  {
    KeystrokesLength(UnitsBeforeNul(buffer));
  }

  /** The two inputs of a pair differ only in the key-up flag. */
  lemma KeyPairFlags(c: CodeUnit)
    ensures KeyDown(c).wVk == 0 && KeyDown(c).wScan == c
    ensures KeyDown(c).dwFlags & KEYEVENTF_UNICODE != 0 && KeyDown(c).dwFlags & KEYEVENTF_KEYUP == 0
    ensures KeyUp(c) == KeyDown(c).(dwFlags := KeyDown(c).dwFlags | KEYEVENTF_KEYUP)
  {
  }
}
