# HD44780 character-LCD driver: a Dafny model

This project models the protocol engine of a Linux character-device driver
for an HD44780 LCD wired to six Raspberry Pi GPIO lines in 4-bit mode. The
lines are RS = 7, E = 8 and D4..D7 = 25, 24, 23, 18. Every operation of the
driver only appends side effects in a fixed order: a line is claimed, set to
output, driven to a level or released, or the driver waits. The model
records these side effects as a trace of `Event`s in an `Lcd` object. That
object also holds the set of claimed lines and the 1024-byte static text
buffer. Each C function is a method that appends to the trace.

The model has four modules:

- `Bus` holds the lines, the events, and the framing of a nibble and of a
  byte into events (`NibbleEvents`, `ByteEvents`, `FramesEvents`).
- `Controller` models the receiving side. The HD44780 latches RS and D7..D4
  on each falling edge of E. `Latched` decodes a trace into nibbles and
  `Assemble` pairs them into bytes. This gives the framing an independent
  partner: the controller reads back exactly the frames the driver sent.
- `Writer` holds the specification functions of `driver_write`:
  - `Processed` is the longest NUL-free prefix;
  - `Printables` is the `isprint` filter;
  - `Layout` is the placement driver_write produces: row 1, the row-2 command after raw index 15, row 2;
  - `Stream` is the loop's output, byte by byte.
- `Driver` holds the class `Lcd`: the GPIO primitives, `NibbleWrite`,
  `LcdWrite`, `gpio_request_output`, `display_init` (with its goto release
  chain), `display_exit`, `driver_write`, and the lemmas about them.

Two methods are split into helpers so each proof stays small; the C code is
one function each:
- `display_init` becomes one `ClaimOrUnwind` per claim line, then
  `InitSequence`, which runs `WakeUp` and then `Configure`.
- `driver_write` becomes `CopyFromUser`, then `ShowText`, whose loop
  calls `WriteStep` once per byte.

The events and the claimed set are exactly those the C code produces, in
the same order.

`driver_write` returns `to_copy - not_copied` even when its loop stops
early at a NUL (driver/hd44780.c:166), and whatever non-printable bytes the
text holds.

## Model

| member | source | states |
|---|---|---|
| Bus.NibbleSplit | driver/hd44780.c:65-69 | for a byte v, `v >> 4` and `v & 0xf` are 4-bit values and `hi * 16 + lo == v` |
| Bus.SignedCharSameEvents | driver/hd44780.c:159-161 | a buffer byte of 128..255 passed as a signed `char` (v - 256) produces the same bus events as the unsigned byte |
| Controller.BitsValue | driver/hd44780.c:56-59 | the levels NibbleWrite puts on D4..D7 (`value & 0x1` .. `value & 0x8`) carry the value's low four bits |
| Controller.NibbleLatched | driver/hd44780.c:53-63 | from any line state, the controller latches exactly one nibble from NibbleWrite's events: the register select and `value` mod 16; E ends low |
| Controller.ByteLatched | driver/hd44780.c:65-69 | from any line state, LcdWrite's events are latched as the high nibble, then the low nibble, with the same register |
| Controller.FramesRoundTrip | driver/hd44780.c:65-69 | for any sequence of byte transmissions, the controller reassembles exactly those (register, byte) frames, in order |
| Controller.ByteSnoc | driver/hd44780.c:65-69 | after a trace whose latched nibbles pair up, one more byte transmission adds exactly its frame to what the controller reassembles, and keeps the nibbles paired |
| Writer.ProcessedUnique | driver/hd44780.c:159 | a prefix that has no NUL and ends at a NUL or at the end of the buffer is exactly what the loop visits |
| Writer.ProcessedZeroPad | driver/hd44780.c:155-159 | zero-filling the bytes copy_from_user could not copy does not change what the loop visits |
| Writer.PrintablesAll | driver/hd44780.c:160-161 | every visited byte is shown exactly when every visited byte passes isprint |
| Writer.LayoutSnoc | driver/hd44780.c:159-164 | the layout of one more byte extends the layout by what the loop sends for that byte |
| Writer.StreamIsLayout | driver/hd44780.c:158-164 | the loop's byte-by-byte output equals the layout: printable bytes of indices 0..15, then the 0xC0 command if the text reaches index 15, then the printable rest |
| Writer.LayoutData | driver/hd44780.c:159-161 | the data bytes sent are exactly the printable bytes of the visited prefix, in order |
| Writer.LayoutCommands | driver/hd44780.c:162-163 | the only command in the layout is one 0xC0, present exactly when the visited prefix has at least 16 bytes |
| Writer.EarlyRowSwitch | driver/hd44780.c:159-163 | the row switch follows the raw index, so a non-printable byte among the first 16 leaves fewer than 16 characters on row 1 |
| Driver.FirstPinsIndex | driver/hd44780.c:94-105 | a line is among the first k claimed exactly when it sits at a claim position below k |
| Driver.FirstRefused | driver/hd44780.c:94-105 | the index of the first claim that fails: all earlier claims succeed, and the claim at it fails unless it is the end |
| Driver.FirstRefusedIs | driver/hd44780.c:94-105 | a run of successful claims ending at a failure, or at the end, is the first failing index |
| Driver.NextPinFresh | driver/hd44780.c:94-105 | the line claimed at step j was not claimed at an earlier step |
| Driver.ClaimGranted | driver/hd44780.c:94-105 | a successful claim at step j adds that line to the claimed set and its claim and output events to the trace |
| Driver.ClaimRefused | driver/hd44780.c:94-133 | a failed claim at step j, followed by releasing the j earlier lines, leaves the claimed set as it was before display_init, returns -EIO and produces the failure trace |
| Driver.AllClaimed | driver/hd44780.c:107-126 | after all six claims, the wake-up and configuration events give the success outcome: 0, all six lines added to the claimed set |
| Driver.ClaimOrder | driver/hd44780.c:94-105 | the claim phase claims line i, then sets it to output, for i in the order 7, 8, 18, 23, 24, 25 |
| Driver.FreeOrder | driver/hd44780.c:128-132 | the release chain entered after k claims frees those k lines, last claimed first |
| Driver.AllPins | driver/hd44780.c:94-105 | the six claimed lines are 7, 8, 18, 23, 24 and 25 |
| Driver.FourNibblesLatched | driver/hd44780.c:107-116 | four 4-bit command nibbles separated by waits are latched as those four nibbles, from any line state |
| Driver.WakeDecodes | driver/hd44780.c:107-116 | the wake-up part of display_init is latched as command nibbles 0x3, 0x3, 0x3, 0x2 |
| Driver.SixFramesAssembled | driver/hd44780.c:117-124 | six byte transmissions, with waits after the first two, are reassembled as those six frames |
| Driver.ConfigDecodes | driver/hd44780.c:117-124 | the 4-bit part of display_init is reassembled as commands 0x28, 0x01, 0x0C, 0xC0, then data 'H', 'i' |
| Driver.WriteDecodes | driver/hd44780.c:158-164 | from any line state, the controller reads back a write's events as the 0x80 command followed by the layout of the text |
| Driver.ClaimEventsOnlyPins | driver/hd44780.c:94-105 | the claim phase emits only claims and switches to output |
| Driver.FreeEventsOnlyPins | driver/hd44780.c:128-132 | the release chain emits only releases |
| Driver.InitFailureQuiet | driver/hd44780.c:94-133 | when a claim fails, the trace holds no level change and no wait: no gpio_set_value, NibbleWrite, LcdWrite, msleep or udelay, only claims, switches to output and releases |
| Driver.InitTwiceFails | driver/hd44780.c:91-105 | a second display_init while the six lines are still claimed fails at the first claim (line 7) with -EIO and changes neither the claimed set nor the trace |
| Driver.Lcd.constructor | driver/hd44780.c:17 | at load the static buffer is all zeros and nothing has been emitted; the lines other code holds are a parameter |
| Driver.Lcd.GpioSetValue | driver/hd44780.c:55 | gpio_set_value appends one level change; the claimed set is unchanged |
| Driver.Lcd.Udelay | driver/hd44780.c:61 | udelay appends one wait of that many microseconds |
| Driver.Lcd.Msleep | driver/hd44780.c:107 | msleep appends one wait of that many milliseconds, recorded in microseconds |
| Driver.Lcd.GpioRequest | driver/hd44780.c:77 | gpio_request fails when the line is already claimed or the platform refuses; on success the line is claimed |
| Driver.Lcd.GpioDirectionOutput | driver/hd44780.c:82 | gpio_direction_output fails when the platform refuses; on success the line is set to output |
| Driver.Lcd.GpioFree | driver/hd44780.c:85 | gpio_free removes the line from the claimed set and records the release |
| Driver.Lcd.NibbleWrite | driver/hd44780.c:53-63 | appends RS, D4, D5, D6, D7 from bits 0..3, E high, a 40 us wait, E low, and nothing else |
| Driver.Lcd.LcdWrite | driver/hd44780.c:65-69 | appends the nibble transmission of `value >> 4`, then that of `value & 0xf`, with the same register |
| Driver.Lcd.GpioRequestOutput | driver/hd44780.c:71-89 | returns 0 exactly when the line was free and both the request and the output direction succeed; on -1 the claimed set is as before, with the line released again if the direction failed |
| Driver.Lcd.Unwind | driver/hd44780.c:128-132 | entering the release chain after k claims frees those k lines, last claimed first, and removes them from the claimed set |
| Driver.Lcd.WakeUp | driver/hd44780.c:107-116 | appends 15 ms, nibble 0x3, 5 ms, nibble 0x3, 100 us, nibble 0x3, 5 ms, nibble 0x2, 5 ms, all nibbles as commands |
| Driver.Lcd.Configure | driver/hd44780.c:117-124 | appends command 0x28, 2 ms, command 0x01, 2 ms, commands 0x0C and 0xC0, then data 'H' and 'i' |
| Driver.Lcd.InitSequence | driver/hd44780.c:107-126 | with all six lines claimed, the initialisation sequence completes display_init's success outcome |
| Driver.Lcd.ClaimOrUnwind | driver/hd44780.c:94-133 | one claim line of display_init: on success the first j + 1 claims are done; on failure the earlier lines are released in reverse order and the outcome is display_init's -EIO outcome |
| Driver.Lcd.DisplayInit | driver/hd44780.c:91-134 | returns 0 exactly when all six claims succeed, and then all six lines are claimed and the trace is the claims, then the initialisation sequence; otherwise returns -EIO with the claimed set as before and the trace is the claims made, the failed attempt, and their release in reverse order |
| Driver.Lcd.DisplayExit | driver/hd44780.c:136-146 | frees 25, 24, 23, 18, 8, 7 in that order, removes all six lines from the claimed set and returns 0 |
| Driver.Lcd.CopyFromUser | driver/hd44780.c:154-155 | the first n - not_copied buffer bytes are the user's, the uncopied tail is zero, the rest of the buffer is unchanged, and not_copied is returned |
| Driver.Lcd.WriteStep | driver/hd44780.c:160-163 | one loop iteration sends the byte as data if isprint accepts it, then the 0xC0 command when the index is 15 |
| Driver.Lcd.ShowText | driver/hd44780.c:158-164 | sends the 0x80 command, then the layout of the buffer's NUL-free prefix within the first n bytes; the claimed set is unchanged |
| Driver.Lcd.DriverWrite | driver/hd44780.c:148-167 | asks copy_from_user for min(count, 1024) bytes, of which the first min(count, 1024) - not_copied land and the rest are zero-filled; sends 0x80 and then the layout of the visited text, leaves the buffer beyond min(count, 1024) unchanged, and returns min(count, 1024) - not_copied |

## Left out

- `mod_init`, `mod_exit`, the character-device number, `cdev_*`, `class_create`, `device_create` and the `file_operations` table are kernel registration glue, not modelled.
- `pr_info` and `pr_err` logging, and the `snprintf` that names a line `rpi-gpio-N`, have no effect on the bus and are not modelled.
- `gpio_request` and `gpio_direction_output` are platform calls. Their failures are oracle sets of refused lines passed to `DisplayInit`; an already claimed line also makes `gpio_request` fail. The kernel's error codes are reduced to failure or success, since the driver only tests them against zero.
- `copy_from_user` is a platform call. Its outcome is the number of trailing bytes it could not read, passed as `fault`. The model zero-fills those bytes, as the kernel does.
- `isprint` is the kernel's ctype table. It is a set of bytes, required to agree with 0x20..0x7E below 0x80; its entries from 0x80 up are left open.
- `msleep` and `udelay` are `Delay` events with their length in microseconds. Wall-clock time, and whether the waits are long enough for the controller, are not modelled.
- Concurrent writers are not modelled; the driver takes no lock.
- The driver's `offset` and `instanz` parameters of `driver_write` are unused by the code and not modelled.
- The pseudo-code in the comment at the head of the driver differs from the real sequence and is not modelled; the model follows lines 107-124.
- The R/W line mentioned in that comment is not driven by the code and is not modelled.
