/** The console thread: it reads key presses and watches for the two
    hotkeys. Escape closes the window; F1 is recognised but its branch is
    empty, so it does nothing yet. The blocking reader is replaced by the
    sequence of key presses it would deliver. */
module Console {
  import opened Options
  import opened MessageHandlers

  /** A WORD. */
  type Word = x: int | 0 <= x < 0x1_0000

  /** A key press as the reader returns it: the character, the virtual-key
      code and the scan code. */
  datatype Key = Key(ascii: char, key: Word, scan: Word)

  const EscapeScan: Word := 0x01
  const EscapeKey: Word := 0x1b
  const F1Scan: Word := 0x3b
  const F1Key: Word := 0x70

  datatype Hotkey = ExitHotkey | EjectHotkey | NoHotkey

  /** The two key tests of the console loop, Escape first. */
  function Classify(k: Key): Hotkey {
    if k.scan == EscapeScan && k.key == EscapeKey then ExitHotkey
    else if k.scan == F1Scan && k.key == F1Key then EjectHotkey
    else NoHotkey
  }

  /** A hotkey needs both its scan code and its key code, and the character
      of the press never matters. */
  lemma ClassifyByCodes(k: Key, c: char)
    ensures Classify(k) == ExitHotkey <==> k.scan == EscapeScan && k.key == EscapeKey
    ensures Classify(k) == EjectHotkey <==> k.scan == F1Scan && k.key == F1Key
    ensures Classify(k.(ascii := c)) == Classify(k)
  {
  }

  /** consoleThreadHandler over the key presses `keys`. It reads one key at a
      time; on Escape it sends WM_CLOSE to the window and stops, on any other
      key (F1 included) it goes on. `read` counts the keys taken. When `keys`
      holds no Escape the real thread would block for more input; here it
      stops with every key read and nothing sent. */
  method ConsoleThread(keys: seq<Key>) returns (read: nat, sent: Option<nat>)
    ensures read <= |keys|
    ensures sent.Some? ==> sent.value == WmClose && Route(sent.value) == CloseHandler
    ensures sent.Some? ==> 0 < read && Classify(keys[read - 1]) == ExitHotkey
    ensures sent.None? ==> read == |keys|
    ensures forall i :: 0 <= i < read && (sent.None? || i < read - 1) ==> Classify(keys[i]) != ExitHotkey
    ensures sent.Some? <==> exists i :: 0 <= i < |keys| && Classify(keys[i]) == ExitHotkey
  {
    read, sent := 0, None;
    while read < |keys|
      invariant read <= |keys|
      invariant forall i :: 0 <= i < read ==> Classify(keys[i]) != ExitHotkey
    {
      var key := keys[read];
      read := read + 1;
      if key.scan == EscapeScan && key.key == EscapeKey {
        sent := Some(WmClose);
        return;
      }
      if key.scan == F1Scan && key.key == F1Key {
        // the eject request is not implemented
      }
    }
  }
}
