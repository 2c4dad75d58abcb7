# USB device monitor: the deterministic core

The program is a Windows console tool that watches storage devices come and
go. It opens a hidden window to receive `WM_DEVICECHANGE` notifications,
prints a line for every arrival or removal, and runs a console thread that
watches for hotkeys. This project models the parts of `Main.cpp` that are
deterministic logic rather than calls into the operating system:

- `unmaskVolumeLetters`, which decodes a 32-bit logical-drive bitmask into
  the ascending string of drive letters (module `VolumeLetters`). The model
  keeps the loop guard `letter < 'Z'` as written, so bit 25 (drive Z) is
  never reported. `UnmaskVolumeLetters` is the loop, proved equal to the
  specification function `Unmasked`. The lemmas state what that function
  means: membership, ascending order, length, and which bits matter.
- `DefaultMap`, the lookup table that answers a fixed default for absent
  keys and whose `set` inserts without overwriting (module `DefaultMaps`,
  a class whose `Set` method changes its `bindings` field in place). The
  pure functions `Find` and `Insert` state what a lookup and an insertion
  mean.
- The `messageHandlers` table, `initMessageHandlers` and `windowHandler`
  (module `MessageHandlers`): which handler a window message reaches, and
  what that handler does to the window.
- The `WM_DEVICECHANGE` handler and the branch selection of
  `handleDeviceArrivalOrRemoval` (module `DeviceEvents`). This covers the
  sub-code dispatch, the device-type tests, the volume-flag classification
  (the media flag is tested before the network flag) and the decoded
  letters of a volume broadcast.
- The key tests of `consoleThreadHandler` (module `Console`): Escape (scan
  code 0x01, key code 0x1b) sends `WM_CLOSE` and ends the thread. F1 (scan
  code 0x3b, key code 0x70) is recognised, but its branch is empty.

The program has no code that approves or vetoes a removal request, resolves
a volume to its physical device, or ejects a device. The F1 branch of the
console loop is empty and the volumes subscribed at start-up are never
looked at again, so the model contains none of these either.

Bit masks are `bv32`, as the source's `DWORD`s are. Volume flags are
`bv16` (`WORD`). Key and scan codes are `Word`, a subset of `int` below
0x10000. Message identifiers and `WPARAM` values are `nat`, because the
code only compares them for equality.

## Model

| member | source | states |
|---|---|---|
| `VolumeLetters.UnmaskVolumeLetters` | Main.cpp:47-55 | the loop returns exactly `Unmasked(mask)`; a letter is in the result iff it lies in 'A'..'Y' and its mask bit is set; the result is strictly ascending and at most 25 letters long |
| `VolumeLetters.Letter` | Main.cpp:49-51 | bit i stands for the letter 'A' + i, which lies in 'A'..'Y' |
| `VolumeLetters.LettersBelowMembers` | Main.cpp:49-52 | after the first n iterations, the accumulated string holds c iff c is one of the first n letters and its bit is set |
| `VolumeLetters.LettersBelowShape` | Main.cpp:49-53 | after the first n iterations, the accumulated string is strictly ascending and at most n letters long |
| `VolumeLetters.LettersBelowAgree` | Main.cpp:50-52 | two masks that agree on the first n bits give the same string after n iterations |
| `VolumeLetters.LettersBelowZero` | Main.cpp:48-53 | a zero mask appends nothing |
| `VolumeLetters.UnmaskedMembers` | Main.cpp:49-52 | c is in the decoded string iff 'A' <= c <= 'Y' and bit (c - 'A') is set; 'Z' is never in it |
| `VolumeLetters.UnmaskedShape` | Main.cpp:49-53 | the decoded string is strictly ascending, has no repeated letter and has at most 25 letters |
| `VolumeLetters.UnmaskedDeterminesLowBits` | Main.cpp:49-50 | two masks decode to the same string iff they agree on bits 0 to 24, so bit 25 and the higher bits never matter and every lower bit does |
| `VolumeLetters.UnmaskedIgnoresHighBits` | Main.cpp:49 | clearing bits 25 to 31 does not change the decoded string |
| `VolumeLetters.UnmaskedEmpty` | Main.cpp:47-55 | the decoded string is empty iff bits 0 to 24 are all clear; the zero mask and a mask naming only drive Z both decode to "" |
| `DefaultMaps.FindAfterInsert` | Main.cpp:19-28 | after `set(k, v)`, a lookup of k answers v if k was absent and its first value otherwise; every other key answers as before |
| `DefaultMaps.InsertTwiceKeepsFirst` | Main.cpp:26-28 | a second `set` of the same key changes nothing: the first binding wins |
| `DefaultMaps.DefaultMap.constructor` | Main.cpp:17 | a new table holds no binding and answers the given default for every key |
| `DefaultMaps.DefaultMap.Get` | Main.cpp:19-24 | a lookup answers the bound value of a present key and the default of an absent one; it modifies nothing, so the key is not added |
| `DefaultMaps.DefaultMap.Set` | Main.cpp:26-28 | the new bindings are the old ones with the key inserted only if it was absent; the default and the answers for every other key are unchanged |
| `DeviceEvents.ActionFor` | Main.cpp:96-99 | sub-code 0x8004 selects "Removed", 0x8000 selects "Connected", and every other sub-code selects no handling |
| `DeviceEvents.ClassifyVolumeByFlags` | Main.cpp:70-76 | the media flag wins over the network flag, the network flag alone gives a network volume, no flag gives a plain one, and no other flag bit matters |
| `DeviceEvents.Describe` | Main.cpp:57-90 | a broadcast produces a report iff its device type is device interface, volume or port, and the report carries the word it was called with |
| `DeviceEvents.OnDeviceChange` | Main.cpp:93-102 | a sub-code that is not dispatched produces no report, and a report carries the word the sub-code dispatch selected |
| `DeviceEvents.OnDeviceChangeReports` | Main.cpp:57-101 | the device-change handler reports something iff the sub-code is arrival or removal-complete and the broadcast is a device interface, a volume or a port; the report carries the word of the sub-code; a device interface is reported as named iff its name is longer than one character, a port with its name, a volume with `ClassifyVolume` of its flags and the decoded unit mask; a query-remove is never handled |
| `DeviceEvents.VolumeNoticeLetters` | Main.cpp:68-85 | a volume broadcast reports exactly the drives of its unit mask in 'A'..'Y', in ascending order, and reports "No volumes were mounted" iff mask bits 0 to 24 are all clear |
| `MessageHandlers.RouteOutcome` | Main.cpp:93-110 | under the start-up routing, only `WM_CLOSE` destroys the window, only `WM_DESTROY` posts the quit message, only those two handlers return 0 themselves while every other message answers what `DefWindowProc` answers, and only `WM_DEVICECHANGE` produces a device notice |
| `MessageHandlers.InitMessageHandlers` | Main.cpp:92-111 | the table afterwards is the old one with the three handlers inserted; existing bindings are kept; on an empty table every message then routes as `Route` says |
| `MessageHandlers.StartMessageHandlers` | Main.cpp:42-45 | the table declared with the default handler and then initialised routes every message as `Route` says |
| `MessageHandlers.WindowHandler` | Main.cpp:113-115 | the outcome of a message is that of the handler the table holds for it, or of the default handler |
| `Console.ClassifyByCodes` | Main.cpp:136-142 | a press is Escape iff its scan code is 0x01 and its key code 0x1b, and F1 iff 0x3b and 0x70; the character typed never matters |
| `Console.ConsoleThread` | Main.cpp:132-145 | the loop sends `WM_CLOSE`, which routes to the close handler, iff an Escape press occurs; it then stops right after the first Escape; every press before it, F1 included, is read and ignored |

## Left out

- The window class, window creation and the message loop (Main.cpp:170-221) are operating-system calls.
- The calls to `DefWindowProc`, `DestroyWindow` and `PostQuitMessage` inside the handlers (Main.cpp:44, 101, 104, 108) are operating-system calls too. They appear only as the `Reply` and `Effect` values of a handler.
- `registerVolumesEvents` and the `RegisterDeviceNotification` call in `main` (Main.cpp:155-168, 187-198). They open volumes and subscribe through foreign calls that return opaque handles, and `main` discards the returned vector. The letters they iterate over come from the decoder, so drive Z is never subscribed either.
- `readConsole` (Main.cpp:117-130). It is a blocking read of console input records. Its result, one key press at a time, is the `keys` parameter of `ConsoleThread`.
- Console.ConsoleThread: the thread blocks forever when no Escape is pressed. The model stops at the end of a finite input sequence instead.
- The console thread's creation, forced termination and join (Main.cpp:205-220). Their point is concurrency.
- All console output, including `printPrompt` and the texts of `handleDeviceArrivalOrRemoval` (Main.cpp:57-90, 147-153). Only the branch taken and the data it reports are modelled. The printing quirks are not modelled: the media branch prints no "Removed"/"Connected" word, the empty-letters line puts that word right before "No volumes were mounted", and the named device-interface line prints no name.
- DefaultMaps.DefaultMap.Get: the C++ subscript returns a reference, so a caller could change a stored value or the default through it. The model returns the value. The program only ever calls the handler it gets back.
- The device-interface GUID and the broadcast structures' size fields (Main.cpp:8, 161-164, 187-190) are constants passed to the operating system.
- No encoder from letters back to a mask: the code has none. `UnmaskedDeterminesLowBits` states exactly what information the decoder keeps.
