# LoRa communicator firmware, modelled in Dafny

This project models the core of a small LoRa messaging firmware for an RP2040 board. The firmware has these parts:

- **Keyboard decoder and edit buffer** (`src/input.rs`). A 32-bit key mask is read from a shift register. It is decoded through three character tables. The result edits a fixed-size byte buffer with a cursor, a key-repeat guard and the last mask seen. A one-bit push-button edge detector sits beside it.
- **Screen model** (`src/interface.rs`). `Oled128x128` keeps a title, a 21-column input row that scrolls to the cursor, an eight-line log that scrolls up and wraps long bodies, an optional overlay, dirty flags and a blink counter.
- **Morse blinker** (`src/blink.rs`). A text becomes Morse symbols on an LED pin.
- **Radio session state machines**.
  - `src/eink.rs` and `src/keyboard.rs` each have a `State::run_state` step and a main loop that classifies radio errors.
  - `src/display.rs` has an inline loop with its own `Error` state and a send button.
- **Shared pieces** (`src/stuff.rs`, `src/buttons.rs`): the session states, the error wrapper, and the bounded byte copy `copy`.

How the model is built:

- The radio driver is an oracle. One `Stuff.Replies` value says what each driver call answers during one pass. The calls the program makes are returned as a `Stuff.Call` trace.
- A `panic!` becomes an explicit outcome: `Eink.Panic`, `Eink.Halt`, or a `None` state in `Display`.
- Drawing becomes a sequence of events: `Interface.DrawEvent` and `Keyboard.Drawing`.
- Decoding bytes as UTF-8 (`core::str::from_utf8`) is a function parameter `utf8`.
- Pin levels and busy-wait delays become a `Blink.PinEvent` trace.

Where the source mutates state, the model is imperative:

- `InputBuffer`, `Oled128x128`, `Button2`, `Pin` and `Disp` are classes. Their methods are proved against pure specification functions: `Process`, `Overlaid`, `LogOf`/`Scroll`, `DrawFrame`, `Presses`, `Events`, `Transition`, `Next` and `CopyBytes`.
- The lemmas about those functions state what the firmware promises.

## Model

| member | source | states |
|---|---|---|
| Input.ShiftLBit | src/input.rs:65-98 | ShiftL is bit 7 of the mask, following the declaration order of `Keys` |
| Input.ShiftRBit | src/input.rs:65-98 | ShiftR is bit 24 of the mask |
| Input.DollarBit | src/input.rs:65-98 | Dollar is bit 8 of the mask |
| Input.StarBit | src/input.rs:65-98 | Star is bit 31 of the mask |
| Input.QBit | src/input.rs:65-98 | Q is bit 0 of the mask |
| Input.TrailingZeros | src/input.rs:277-283 | the index found is a key that is down, with no lower key down; it is 32 exactly when no key at or above the start is down |
| Input.OnlyKeyIsLowest | src/input.rs:277-283 | when exactly one key is down, `trailing_zeros` finds that key |
| Input.GetOneCharFromSpec | src/input.rs:277-283 | `get_one_char_from` gives a character exactly when one key is down, and it is that key's table entry |
| Input.GetOneLetter | src/input.rs:285-287 | the free `get_one_char` gives a character exactly when one key is down, and it is that key's entry in the letter table |
| Input.Entries | src/input.rs:28-47 | each of the three tables has exactly 32 entries, one per key |
| Input.Layer | src/input.rs:256-270 | either Shift selects the capitals (so Shift wins over Dollar), else Dollar selects the numbers, else the letters |
| Input.NoModifierKeys | src/input.rs:252-254 | masking out the modifiers keeps exactly the non-modifier keys that are down |
| Input.GetOneCharSpec | src/input.rs:256-270 | `get_one_char` gives a character exactly when one non-modifier key is down, and it is that key's entry in the table the modifiers select |
| Input.TablesPrintable | src/input.rs:28-47 | every table entry is printable ASCII, so it is never the zero byte that ends the text |
| Input.TextLengthSpec | src/input.rs:145-155 | `len` is exactly the length of the leading run of non-zero bytes |
| Input.PackedShape | src/input.rs:145-155 | in a left-packed buffer a byte is non-zero exactly when it lies inside the text |
| Input.DeleteInsert | src/input.rs:172-182 | deleting the byte just inserted gives back the buffer, when the byte that fell off the end was zero |
| Input.InsertPacked | src/input.rs:214-224 | inserting a non-zero byte inside the text of a packed buffer with room keeps it packed and adds one to the length |
| Input.DeletePacked | src/input.rs:172-182 | deleting inside the text of a packed buffer keeps it packed and takes one from the length |
| Input.Process | src/input.rs:166-247 | `process_input` keeps the buffer size and a cursor within it, always records the mask as the last one seen, and on a repeated mask answers `Running(key)` with nothing changed |
| Input.InputBuffer.constructor | src/input.rs:137-144 | all bytes zero, cursor 0, guard armed, no key seen |
| Input.InputBuffer.Len | src/input.rs:145-155 | the counting loop returns `TextLength` of the bytes |
| Input.InputBuffer.GetData | src/input.rs:156-158 | the bytes before the first zero |
| Input.InputBuffer.GetCursor | src/input.rs:159-161 | the cursor |
| Input.InputBuffer.Clear | src/input.rs:162-165 | every byte is zeroed and the cursor is 0; the guard and the last mask are kept |
| Input.InputBuffer.RemoveBeforeCursor | src/input.rs:176-180 | the shift-left loop leaves exactly `Delete(bytes, cursor)` and moves the cursor back by one |
| Input.InputBuffer.InsertAtCursor | src/input.rs:218-222 | the shift-right loop leaves exactly `Insert(bytes, cursor, b)` and moves the cursor on by one |
| Input.InputBuffer.StarChord | src/input.rs:169-207 | the in-place Star branch gives the state and answer of `Chord` |
| Input.InputBuffer.TypeKey | src/input.rs:208-231 | the in-place typing branch gives the state and answer of `TypedWith` |
| Input.InputBuffer.ProcessInput | src/input.rs:166-247 | the new buffer state and the answer are those of `Process` on the old state |
| Input.RepeatedMaskIsIdle | src/input.rs:166-168 | a mask equal to the last one answers `Running(key)` and changes only the last mask |
| Input.StarQMovesLeft | src/input.rs:186-194 | Star+Q moves the cursor left by one, or answers Overflow at 0 with nothing changed |
| Input.StarEMovesRight | src/input.rs:195-203 | Star+E moves right only when the cursor is on a text byte; otherwise it answers Overflow with nothing changed |
| Input.StarShiftRDeletes | src/input.rs:172-182 | Star+ShiftR at 0 answers Overflow with nothing changed; otherwise it removes the byte before the cursor, zeroes the last byte, moves the cursor back and answers Updated |
| Input.OtherChordNotForMe | src/input.rs:204-206 | any other Star chord answers `NotForMe(key ^ Star)` and leaves the buffer alone |
| Input.ProcessTyped | src/input.rs:208-231 | a new mask without Star goes to the typing branch |
| Input.TypedCharInserts | src/input.rs:214-227 | one character key with the guard armed inserts at the cursor, or answers Overflow with bytes and cursor unchanged when the cursor is at S or the last byte is used; the guard is disarmed either way |
| Input.TypedLength | src/input.rs:214-224 | a typed mask that answers Updated keeps a well-formed buffer well-formed and adds one to `len()` |
| Input.NoCharRearms | src/input.rs:209-213 | a mask with no character re-arms the guard; it answers Validated exactly when it is Sharp alone |
| Input.SharpValidates | src/input.rs:228-231 | Sharp alone, as a new mask, always answers Validated and never touches bytes or cursor |
| Input.ProcessKeepsWellFormed | src/input.rs:166-247 | `process_input` keeps the text left-packed and the cursor within the text |
| Input.TypedInsert | src/input.rs:214-224 | a new character mask with the guard armed and room left inserts the character's byte at the cursor and moves the cursor on |
| Input.InsertThenDelete | src/input.rs:172-224 | typing a character and then Star+ShiftR gives back the previous bytes and cursor |
| Input.CapacityBoundary | src/input.rs:215 | the text may fill all S bytes: a character still fits when S-1 are used, none fits when S are |
| Input.AssembleBits | src/input.rs:359-370 | bit b of the assembled word is the b-th sample from the end, so the first of 32 samples is the most significant bit |
| Input.ReadRegister | src/input.rs:348-373 | the sampling loop returns the word `Assemble` folds from the samples |
| Input.RegisterKeys | src/input.rs:348-373 | the first of 32 samples is Star (bit 31) and the last is Q (bit 0) |
| Input.Button2.constructor | src/input.rs:404-409 | the button starts released |
| Input.Button2.JustPressed | src/input.rs:410-422 | answers true exactly when the pin is low now and was not at the last poll; the reading is remembered |
| Input.PressesAreFallingEdges | src/input.rs:410-422 | a poll answers true exactly on a falling edge of the pin, so holding the button gives one press |
| Interface.Utf8Len | src/interface.rs:97-110 | a character takes 1 to 4 bytes, and 1 exactly when it is ASCII |
| Interface.PushChar | src/interface.rs:97-110 | heapless `push` appends the character exactly when its UTF-8 size fits in what the capacity leaves, and leaves the string unchanged otherwise; a string within the capacity stays within it |
| Interface.PushStr | src/interface.rs:46-51 | heapless `push_str` appends all of the text when it fits, and leaves the string unchanged otherwise |
| Interface.MessagesFit | src/interface.rs:30-33 | the error text and the unparsable marker fit the 22-byte strings they are pushed onto |
| Interface.Digits | src/interface.rs:85-94 | the decimal digits are non-empty and all digit characters |
| Interface.DecimalRoundTrip | src/interface.rs:85-94 | the decimal text of a number reads back as that number |
| Interface.DecimalFits | src/interface.rs:85-94 | an i16 takes at most six ASCII characters, so pushing it onto a 6-byte string never fails |
| Interface.Scroll | src/interface.rs:77-84 | pushing keeps exactly as many rows; the last rows are the pushed lines and the rows above are the old rows moved up |
| Interface.ScrollPush | src/interface.rs:77-84 | pushing one line at a time gives the same log as pushing all lines at once |
| Interface.ScrollTwice | src/interface.rs:77-84 | pushing in two batches is pushing their concatenation |
| Interface.StartLog | src/interface.rs:85-96 | before the first character nothing is pushed, the line has no text yet, and at most 21 columns are left |
| Interface.EmptyLogsNothing | src/interface.rs:114-116 | an empty body without numbers pushes nothing |
| Interface.UnparsableLogsMarker | src/interface.rs:111-116 | a body that is not UTF-8 logs one line: the numbers and `__UNPARSABLE__` |
| Interface.BreakPushes | src/interface.rs:98-101 | a `\r` or `\n` pushes the current line, even an empty one |
| Interface.LogLineWidths | src/interface.rs:95-110 | the first line has the numbers and at most `(128 - 4*max(len up, len down)) / 6` characters; every later line has no numbers and at most 21 |
| Interface.LogKeepsText | src/interface.rs:95-116 | an ASCII body without line breaks is logged in full: the logged lines spell it |
| Interface.InputWindow | src/interface.rs:53-67 | a text longer than 21 characters shows a 21-character window that starts at `min(cursor - 10, len - 21)` (with the subtraction stopping at 0) and holds the cursor |
| Interface.InputShort | src/interface.rs:53-67 | an ASCII text of at most 21 characters is shown whole with the cursor as given |
| Interface.Overlaid | src/interface.rs:35-44 | the same overlay changes nothing; a new one is stored, and clearing it marks the log while setting it marks the overlay; nothing else changes |
| Interface.CursorX | src/interface.rs:183-194 | the cursor bar stays between x = 1 and x = 126, and is at `cursor*6 + 1` for a cursor within the row |
| Interface.DrawNext | src/interface.rs:171-246 | after `draw` the counter has advanced modulo 60, the input row is marked exactly when it wraps, the title and log marks are cleared, and everything else is kept |
| Interface.DrawEvents | src/interface.rs:171-246 | `draw` sends, in order: the input row when marked, the bar when the counter reaches 30, the title and log when marked, and the overlay when it is set and marked |
| Interface.DrawKeepsValid | src/interface.rs:171-246 | `draw` keeps eight log lines and the counter below 60, and never clears the overlay mark |
| Interface.OverlayAlwaysDrawn | src/interface.rs:235-245 | on a valid screen the overlay is drawn on every call while it is set, and never otherwise |
| Interface.BlinkPeriod | src/interface.rs:183-194 | the blink counter counts calls of `draw` modulo 60 |
| Interface.CursorBarAt30 | src/interface.rs:183-194 | the cursor bar is drawn exactly on the call that brings the counter to 30 |
| Interface.NewScreen | src/interface.rs:142-170 | a new screen keeps the screen invariant: eight log lines and the blink counter below 60 |
| Interface.Oled128x128.constructor | src/interface.rs:142-170 | the screen is `NewScreen`: empty strings, eight empty log lines, no overlay, counter 0, nothing marked |
| Interface.Oled128x128.SetOverlay | src/interface.rs:35-44 | the new screen is `Overlaid(old screen, o)` |
| Interface.Oled128x128.SetTitle | src/interface.rs:46-51 | the title is emptied and refilled when the text fits 22 bytes, and is always marked; nothing else changes |
| Interface.Oled128x128.SetInput | src/interface.rs:53-73 | succeeds exactly when the row fits; then it shows the window of `ShowInput` and marks the row (a text that is not UTF-8 shows `## ERROR ##` at 0) |
| Interface.Oled128x128.PushLine | src/interface.rs:77-84 | the log becomes `Scroll(log, [line])` and is marked |
| Interface.Oled128x128.LogText | src/interface.rs:97-110 | the character loop pushes the lines of `WrapText` and ends with its line and columns |
| Interface.Oled128x128.AddLog | src/interface.rs:75-117 | the log becomes `Scroll(log, LogOf(text, snr, rssi))`; only the log and its mark change |
| Interface.Oled128x128.Draw | src/interface.rs:171-246 | the new screen and the events sent are those of `DrawFrame` |
| Blink.Itu | src/blink.rs:36-75 | the dot-dash pattern of section 1.1 of Part I of Recommendation ITU-R M.1677-1, between 1 and 6 symbols long |
| Blink.FromItu | src/blink.rs:31-34 | reading a pattern gives one symbol per dot or dash |
| Blink.ItuIsElementCode | src/blink.rs:36-75 | a pattern read from the Recommendation holds only dots and dashes, 1 to 6 of them |
| Blink.LowerCaseIsUpperCase | src/blink.rs:121-146 | a lower-case letter has the code of its capital |
| Blink.ItuLettersAToM | src/blink.rs:121-133 | the codes of A to M are those of the Recommendation |
| Blink.ItuLettersNToZ | src/blink.rs:134-146 | the codes of N to Z are those of the Recommendation |
| Blink.ItuDigits | src/blink.rs:147-156 | the codes of 0 to 9 are those of the Recommendation |
| Blink.ItuPunctuation | src/blink.rs:158-161 | the codes of `.` `,` `?` `'` are those of the Recommendation |
| Blink.CodeIsItu | src/blink.rs:119-161 | every supported character's code is its pattern in the Recommendation, with 1 to 6 dots and dashes and no gap symbol |
| Blink.UnsupportedIsError | src/blink.rs:157-162 | a space is one word gap; any other unsupported character is word gap, dot, word gap |
| Blink.SpellLength | src/blink.rs:107-113 | spelling the codes emits each code and one letter gap per character |
| Blink.SignsLength | src/blink.rs:107-116 | the signs of a text number the sum of the code lengths plus one per character, plus 3, and end with three word gaps |
| Blink.SosSigns | src/blink.rs:107-116 | "SOS" is dot dot dot, gap, dash dash dash, gap, dot dot dot, gap, and three word gaps |
| Blink.EventsAppend | src/blink.rs:107-113 | the pin trace of two sign runs is the concatenation of their traces |
| Blink.SignShape | src/blink.rs:87-99 | a sign raises the pin only when its on time is positive, always ends low for its off time, and waits at most 4 units |
| Blink.WaitsFitU32 | src/blink.rs:23 | every delay is at most 4*200*125000 = 100000000 cycles, which fits a u32 |
| Blink.EndsDark | src/blink.rs:114-116 | every message ends with the pin low for 4 units |
| Blink.ElementGap | src/blink.rs:13-20 | after a dot or a dash the pin is dark for 1 unit |
| Blink.LetterGap | src/blink.rs:109-112 | after a letter the pin is dark for 3 units (1 + 2) |
| Blink.WordGap | src/blink.rs:157 | a space between letters leaves the pin dark for 9 units (1 + 2 + 4 + 2) |
| Blink.Pin.SetHigh | src/blink.rs:94 | the pin trace gains a high level |
| Blink.Pin.SetLow | src/blink.rs:97 | the pin trace gains a low level |
| Blink.Pin.Delay | src/blink.rs:95 | the pin trace gains a wait of the given cycles |
| Blink.BlinkSign | src/blink.rs:87-99 | the pin trace gains exactly `SignEvents(m)` |
| Blink.BlinkCode | src/blink.rs:109-111 | the inner loop emits the events of the code's signs in order |
| Blink.BlinkSpell | src/blink.rs:107-113 | the outer loop emits the events of every code and its letter gap in order |
| Blink.BlinkText | src/blink.rs:79-117 | the pin trace gains the events of `Signs(text)`: the codes, their gaps and three word gaps |
| Stuff.From | src/stuff.rs:95-99 | `Error::from` wraps the radio error unchanged |
| Stuff.FromInjective | src/stuff.rs:95-99 | two wrapped errors are equal exactly when the radio errors are |
| Stuff.CopyBytesSpec | src/stuff.rs:101-109 | `copy` keeps the target length, writes `src[i]` at `cursor + i` for every byte that fits, leaves every other byte alone, and ends at `cursor + min(len src, len target - cursor)` |
| Stuff.CopyCursorBounds | src/stuff.rs:101-109 | the cursor never decreases and never passes the end of the target unless it started there; from there nothing changes |
| Stuff.Copy | src/stuff.rs:101-109 | the in-place loop leaves the target and cursor of `CopyBytes` |
| Eink.Transition | src/eink.rs:356-403 | at most one driver call, none exactly in Init and Reset; the successor of every state for every answer of the driver (Init to PrepareIdle; PrepareIdle and SendingDone to Idle once reception starts; Idle to Sending when the transmission starts, else to Received or Idle as reception reports; Sending to SendingDone or Sending; Received to PrepareIdle); transmitting only from Idle while sending, with the buffer's text; the buffer is cleared exactly when that transmission starts; a packet is logged exactly when Received succeeds; panics exactly in Reset or on a packet over 256 bytes; every error comes from the call made |
| Eink.Recover | src/eink.rs:294-318 | Hal and InvalidConfiguration halt; Aborted, Crc and BufferSize go to PrepareIdle; InvalidResponse, Timeout and InvalidDevice go to Reset |
| Eink.ErrorsRestart | src/eink.rs:294-318 | after an error the loop halts, goes to PrepareIdle or goes to Reset, never into a half-done exchange |
| Eink.ResetHalts | src/eink.rs:361-363 | the pass from Reset panics whatever the radio answers |
| Eink.WaitingLoops | src/eink.rs:376-386 | while the driver answers false, Idle (not sending) and Sending stay where they are |
| Eink.SendCycle | src/eink.rs:369-386 | with a cooperating radio, Idle transmits the text once and clears the buffer, then Sending and SendingDone lead back to Idle |
| Eink.ReceivedLogs | src/eink.rs:387-398 | a received packet is logged with its signal-to-noise ratio and signal strength, then PrepareIdle follows; nothing is sent back |
| Eink.Echo | src/eink.rs:268-292 | on Running the overlay is the number layout exactly when the modifiers are Dollar alone; Updated shows the buffer's text with its cursor and marks the input row modified; Validated empties the row; Overflow and NotForMe leave the screen alone; title and log never change |
| Eink.Setup | src/eink.rs:229-246 | Init, not sending, an empty 128-byte buffer, and the titled screen drawn once |
| Eink.Poll | src/eink.rs:268-292 | the buffer follows `process_input` and the screen follows `Echo` |
| Eink.React | src/eink.rs:271-291 | the screen follows `Echo` for the answer |
| Eink.RunState | src/eink.rs:356-403 | the calls, result and flag are those of `Transition`; the buffer is cleared exactly when it says so; a logged packet is added to the log, and the log is marked modified when that adds a line |
| Eink.StartReception | src/eink.rs:364-368 | one `start_receive` call; Idle on success, its error otherwise |
| Eink.PollUnlessSending | src/eink.rs:268-293 | the keyboard is polled only while not sending, and a validated message arms the transmission |
| Eink.Pass | src/eink.rs:256-328 | when polling does not panic, the verdict, flag, calls and buffer follow `Transition` after the poll; when it panics the pass halts with no call; a halting pass draws nothing |
| Keyboard.Disp.constructor | src/keyboard.rs:194-205 | nothing drawn and the first row at 6 |
| Keyboard.Disp.Draw | src/keyboard.rs:326-349 | one drawing is appended to what the display received |
| Keyboard.NumberRow | src/keyboard.rs:324-342 | 2 or 3 numbers on the current row, the length first, the ratio only when known |
| Keyboard.PacketRow | src/keyboard.rs:324-349 | 3 or 4 drawings on the current row: the numbers of `NumberRow`, then the bytes last at column 80 |
| Keyboard.PacketRowShowsLength | src/keyboard.rs:325-328 | the packet's length reads back from the first drawing |
| Keyboard.RunState | src/keyboard.rs:286-362 | the calls, result and flag of `Transition`, the buffer cleared when it says so, and what the Received state draws on the current row (`Drew`: the packet's row, or only its numbers before the panic on a packet over 256 bytes), the row moving down by exactly 10 when a packet is logged |
| Keyboard.DrewLogged | src/keyboard.rs:317-351 | the packet row is drawn exactly for the packet `Transition` logs, only the numbers for the packet it panics on, and nothing otherwise |
| Keyboard.ShowPacket | src/keyboard.rs:324-351 | reports whether the packet fits the 256-byte buffer; the numbers are drawn in any case, the bytes and the move down by 10 only when it fits |
| Keyboard.PollUnlessSending | src/keyboard.rs:218-234 | the keyboard is polled only while not sending; Validated arms the transmission and leaves the buffer intact |
| Keyboard.Pass | src/keyboard.rs:206-261 | the editor row is drawn, then the session follows `Transition` after the poll and draws `Drew`, the error is classified by `Recover`, and the display is flushed unless the loop halts |
| Display.NumberRows | src/display.rs:250-264 | 2 or 3 numbers on the current row, the length first at column 60 |
| Display.PacketRows | src/display.rs:250-273 | 3 or 4 drawings: the numbers of `NumberRows` on the current row and the bytes one row below at column 60 |
| Display.Next | src/display.rs:224-292 | the successor and the single call of every state for every answer of the driver (Reset and Error to Reset with no call; Idle to Sending on a press, else to Received or Idle as `check_receive` reports; Sending to SendingDone or Sending; Received to Idle; SendingDone to Idle; every `Err` answer to the Error state holding it); at most one call; a panic only on a packet over 256 bytes, after its numbers are drawn and the row moved down by 10; drawings exactly when Received gets a packet, the full packet with the row moved down by 20 when it goes to Idle; a transmission exactly when the button is pressed in Idle; every Error state carries an error the driver answered |
| Display.ResetAbsorbs | src/display.rs:225 | once in Reset the loop stays there, calls nothing and draws nothing |
| Display.ErrorsEndInReset | src/display.rs:288-291 | an Error state reaches Reset on the next pass and stays there |
| Display.PressSends | src/display.rs:226-230 | a press in Idle sends `Kikooo`, ignores the driver's answer, and goes to Sending |
| Display.ReceivedGoesIdle | src/display.rs:243-280 | a received packet is drawn on two rows and the loop goes back to Idle |
| Display.HeldButtonSendsOnce | src/display.rs:226-242 | holding the button through a whole send cycle sends once |
| Display.Setup | src/display.rs:212-221 | one `start_receive`, first row 70, state Idle, and a panic when that call fails |
| Display.RunPass | src/display.rs:224-292 | the step is `Next`, with the button polled only in Idle |
| Display.ShowReceived | src/display.rs:243-280 | the closure of the Received state gives the step of `Next` |
| Display.Loop | src/display.rs:223-293 | the loop gives the run of `Trace` over the inputs |
| Buttons.Copy | src/buttons.rs:250-258 | this program's `copy` leaves the target and cursor of `CopyBytes` |
| Buttons.MainLoop | src/buttons.rs:176-184 | every arm of the match is empty, so the state stays Idle |

## Left out

- The radio driver (`radio_sx127x`) is an input: its answers come from `Replies`, and the calls made are returned as a trace.
- Decoding bytes as UTF-8 is the parameter `utf8`; its exact rules are not modelled.
- Pixels are not modelled: `embedded_graphics`, `ssd1681`, `sh1107` and `mipidsi` drawing is reduced to draw events.
- The e-ink frame updates, the display flushes before the loop in `src/keyboard.rs` (lines 126 and 178), and the `unwrap`s on drawing and flushing are not modelled.
- Cycle-accurate timing, the GPIO toggling inside `ShiftRegister::read`, and the busy-wait `Button::wait` are not modelled. The register read is a fold over the pin samples.
- `defmt` logging and the `Format` implementation are not modelled; they have no effect on state.
- `core::str::from_utf8_unchecked` on drawn bytes is not modelled: the bytes are drawn as they are, and the title is a string.
- Board bring-up (clocks, pins, SPI, watchdog), configuration constants and `src/main.rs` are not part of this model.
- In `src/display.rs`, the "Hello Rust!" text and the unused message buffer are not modelled.
- `Keyboard.Disp.constructor`: the `i32` row counter is an unbounded `int`, so its overflow after about 200 million packets is not modelled.
- `Display.Next`: the `i32` row counter of `src/display.rs` is an unbounded `int` here, as in `Display.ShowReceived` and `Display.Trace`, so its overflow after about 107 million packets (a panic with overflow checks, a wrap-around without) is not modelled.
- The endless loops are modelled one pass at a time: `Eink.Pass`, `Keyboard.Pass` and `Display.RunPass`. Only `Display.Loop` chains passes, over finite inputs.
- `Eink.Pass`: it does not state the screen after the pass; `Eink.Poll`, `Eink.RunState` and `Interface.Oled128x128.Draw` state it part by part.
- `Eink.Pass`: when polling panics, it states only that no call is made and nothing is drawn.
- `Buttons.Copy` runs the same loop as `Stuff.Copy`, which the source duplicates.
- `Blink.BlinkText` looks up all the codes before the outer loop, and the source looks each one up as it goes. The pin trace is the same.
- heapless `String` capacities are modelled as byte counts over the UTF-8 sizes of characters. The 22-byte log body drops a character that does not fit.

Behaviour of the code a reader may not expect:

- Either Shift takes precedence over Dollar when choosing the table (`Input.Layer`).
- The text may fill all S bytes of the buffer; no byte is reserved for a terminator (`Input.CapacityBoundary`).
- One Morse unit is 200 × 125000 cycles (`ms` is multiplied by 200), not 125000.
- A space between letters leaves the LED dark for 9 units, not the 7 of section 2 of Part I of ITU-R M.1677-1 (`Blink.WordGap`).
- The overlay is redrawn according to `overlay_modified` alone, because `body_modified` is cleared before the overlay condition reads it (`Interface.DrawEvents`).
- `src/display.rs` returns from Received to Idle, not to PrepareIdle.
