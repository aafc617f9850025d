# cube_ethernet_controller: text-command path

This project models the text-command path of the cube_ethernet_controller
firmware in Dafny:

- The command processor collects serial bytes into a 256-byte line buffer.
- It hands each completed line to the first registered command whose prefix
  matches at a `:` or end-of-line boundary.
- The commands then parse their arguments:
  - `backlight` takes a list of LED states;
  - `lcd` takes `x:y:text`;
  - `reconf` takes `ip:tag:port`;
  - `led` takes a base64 LED frame.
- Some of them produce register writes or byte frames:
  - PCA9555 I/O-expander registers for the button backlights, buttons and DIP switches;
  - CH9121 serial-to-Ethernet bridge configuration frames `0x57 0xAB <opcode> <data>`.

Hardware is replaced by state the model can see:

- The PCA9555 is an abstract register file (`Pca9555.Expander`) plus a log of register writes.
- The CH9121 keeps a ghost trace of pin levels, UART rates and written frames.
- The LCD driver is a log of `clear` / `setCursor` / `write` calls.
- The LED strip is an array.
- The command processor records, in a ghost log, which command received which arguments, or the diagnostic it wrote.

Modules, one per source unit:

| module | file | models |
|---|---|---|
| `Common` | common.dfy | byte and char types, `string_view::find`, little-endian packing |
| `CText` | ctext.dfy | the C library conversions the parsers use: `strtol`, `atoi`, `std::from_chars` for `uint8_t` |
| `Command` | command.dfy | `Command`, `CommandProcessor::process_char`, `process_command` |
| `Base64` | base64.dfy | `kDecodeTable`, `Base64Decode` and a reference encoder against which the decoder's round trip is proved |
| `LedFrame` | led_frame.dfy | the packed `LedControlBuffer` layout: 16-bit count, then RGB triples |
| `LedCommand` | led_command.dfy | `LedCommand::process`, the decode-and-apply path |
| `Pca9555` | pca9555.dfy | the pin mapping, `begin`, `setLed`, `setAllLeds`, `readButtons`, `readDIP` |
| `BacklightCommand` | backlight_command.dfy | `BacklightCommand::process` |
| `Ch9121` | ch9121.dfy | `CH9121`, its frame helpers, setters and configuration sequence |
| `ReconfCommand` | reconf_command.dfy | `parseIPAddress` and `ReconfCommand::process` |
| `LcdCommand` | lcd_command.dfy | `LcdCommand::process` and `parseCoordinates` |

Where the code differs from what the firmware's own description says, the
model follows the code:

- `'='` is not skipped by the base64 decoder. `kDecodeTable` maps it to 0,
  so it decodes as a zero sextet. A padded encoding therefore yields its data
  followed by one or two zero bytes (`Base64.PaddingDecodesAsZeros`). The
  skip test for `'='` is never reached.
- The unknown-command diagnostic writes 16 bytes of the 17-byte literal
  `"Unknown command: "`, so the reply is `Unknown command:<line>` with no space.
- `reconf` takes the IP address from the text before the first colon and
  the port from the text after the second colon. `reconf:<ip>:<port>` is
  therefore rejected with the format diagnostic, while `<ip>:<anything>:<port>`
  is accepted.
- The port is truncated to 16 bits, so only a value that is 0 modulo 65536
  is refused.
- `parseCoordinates` reads its fields with `strtol`. An empty field there is
  coordinate 0. `process` uses `from_chars` instead, which rejects an empty
  field. The two parsers agree on non-empty digit fields
  (`LcdCommand.ParsersAgreeOnDigits`) and disagree on empty ones
  (`LcdCommand.EmptyFieldsDisagree`).

## Model

| member | source | states |
|---|---|---|
| `Common.FindFirst` | backlight_command.cpp:9 | `find` returns the first occurrence at or after the start position, or none when the character is absent there |
| `Common.FindAt` | lcd_command.cpp:38-45 | a character at position k, with none between the start and k, is what `find` reports |
| `Common.Le16RoundTrip` | ch9120.h:102-108 | the two little-endian port bytes of a frame decode back to the port |
| `Common.Le32RoundTrip` | ch9120.h:121-129 | the four little-endian baud-rate bytes of a frame decode back to the rate |
| `CText.ScanInteger` | lcd_command.cpp:15-21 | an accepted conversion ends after a digit, and the next character, if any, is not a digit |
| `CText.StrToL` | lcd_command.cpp:15-21 | `strtol` saturates to the 32-bit `long` range, and reports end 0 with value 0 when nothing was converted |
| `CText.Atoi` | reconf_command.cpp:38 | `atoi` yields a value in the 32-bit `long` range |
| `CText.FromCharsU8` | lcd_command.cpp:57-70 | `from_chars` into `uint8_t` succeeds only on a non-empty, all-digit field |
| `CText.DigitsScan` | lcd_command.cpp:15-21 | a digit run followed by a non-digit converts to the run's decimal value, ending after the run |
| `CText.DecimalScans` | reconf_command.cpp:5-6 | the decimal text of n converts back to n with its whole length consumed |
| `CText.DecimalFromChars` | lcd_command.cpp:57-59 | `from_chars` reads back the decimal text of any byte value |
| `Command.Command.Prefix` | command.h:9-20 | a command's prefix is fixed by its variant and never empty |
| `Command.ArgsOf` | command.cpp:26-34 | the arguments are exactly what follows `prefix:`, or empty when the prefix is the whole line |
| `Command.SelectFrom` | command.cpp:21-38 | the first command from a given index on whose prefix matches at a boundary, and none exactly when no later one matches |
| `Command.Select` | command.cpp:21-38 | the first matching command in registration order; none if and only if no command matches |
| `Command.UnknownReply` | command.cpp:41-45 | the diagnostic is `Unknown command:`, the line and a newline, with the literal's space cut off |
| `Command.Dispatch` | command.cpp:19-46 | the first registered command that matches at a boundary receives the line's arguments; the diagnostic `Unknown command:` plus the line and a newline is written exactly when no command matches |
| `Command.CommandProcessor.constructor` | command.h:25-34 | the processor starts with the given commands, a 256-byte buffer and an empty line |
| `Command.CommandProcessor.ProcessChar` | command.cpp:9-17 | a newline dispatches the pending line and empties the buffer; other bytes are appended until the buffer holds 256, then dropped |
| `Command.CommandProcessor.ProcessCommand` | command.cpp:19-46 | the loop logs exactly the dispatch of the line: the first boundary match with its arguments, or the diagnostic |
| `Command.DispatchFirst` | command.cpp:21-36 | a matching command with no matching command before it receives the line |
| `Command.NoMatchWithoutBoundary` | command.cpp:27-33 | a prefix followed by anything but `:` does not select that command |
| `Command.AtMostOneMatch` | command.cpp:21-36 | of the six firmware prefixes at most one matches any line |
| `Command.SelectionOrderIrrelevant` | command.cpp:21 | with the firmware's commands, the chosen command does not depend on the registration order |
| `Command.Kept` | command.cpp:14-16 | the first 256 bytes of a byte run, or all of it when shorter |
| `Command.FeedTruncates` | command.cpp:14-16 | bytes without a newline only grow the pending line, up to 256 bytes |
| `Command.LongLineTruncated` | command.cpp:9-17 | a line of any length followed by a newline dispatches exactly its first 256 bytes |
| `Command.FeedNewline` | command.cpp:10-13 | a newline completes the pending line and resets the buffer |
| `Command.CarriageReturnIsData` | command.cpp:14-16 | `\r` is stored like any other byte |
| `Base64.DecodeTable` | base64.cpp:7-24 | the table value is -1 exactly for bytes outside the alphabet and `=`; otherwise it is below 64 |
| `Base64.StepInv` | base64.cpp:40-50 | one decode step keeps fewer than 8 pending bits, and no more output than the capacity |
| `Base64.RunFrom` | base64.cpp:31-51 | decoding more input only extends the output already written |
| `Base64.Decoded` | base64.cpp:53-58 | never more output than the capacity; succeeds exactly when the loop ran to the end and no set bit is left over |
| `Base64.LeftoverTest` | base64.cpp:54-56 | between iterations, the final test on the leftover bits fails exactly when the accumulator is non-zero |
| `Base64.Decode` | base64.cpp:26-59 | the in-place loop writes exactly the specified output at the front of the buffer and returns the specified verdict |
| `Base64.FailureIsFinal` | base64.cpp:35-48 | once a decode has failed, later input changes nothing |
| `Base64.InvalidByteRejected` | base64.cpp:32-37 | any byte outside the alphabet, `=`, `\n`, `\r` and space makes the decode fail |
| `Base64.WhitespaceIgnoredFrom` | base64.cpp:33-34 | removing `\n`, `\r` and spaces from the remaining input does not change the decode state |
| `Base64.WhitespaceIgnored` | base64.cpp:33-34 | the decode result is the same with whitespace removed |
| `Base64.OutputLength` | base64.cpp:40-50 | a running decode emits one byte per 8 accumulated bits: 6 times the data characters, divided by 8 |
| `Base64.CapacityOnlyTruncates` | base64.cpp:46-48 | a smaller output buffer yields a prefix of the larger buffer's output |
| `Base64.EncodeSextet` | base64.cpp:7-24 | the reference encoder's character for a 6-bit value is in the alphabet and decodes back to that value |
| `Base64.Encode` | base64.cpp:7-24 | the reference encoding uses only alphabet characters |
| `Base64.GroupDecodes` | base64.cpp:40-50 | four encoded characters decode to their three bytes |
| `Base64.TailDecodes` | base64.cpp:40-56 | an unpadded 2- or 3-character tail decodes to its 1 or 2 bytes, leaving 4 or 2 zero bits |
| `Base64.RoundTripFrom` | base64.cpp:26-58 | after any earlier output, an unpadded encoding decodes to its data when it fits |
| `Base64.RoundTrip` | base64.cpp:26-58 | decoding an unpadded encoding that fits the buffer succeeds and returns the data |
| `Base64.OverflowRejected` | base64.cpp:46-48 | data longer than the buffer fails after filling the buffer with its first bytes |
| `Base64.PaddingDecodesAsZeros` | base64.cpp:11-50 | a padded encoding decodes to its data followed by one zero byte per `=` |
| `Base64.TrailingBitsRejected` | base64.cpp:53-58 | a decode that runs to the end with set leftover bits fails, keeping the bytes it wrote |
| `Base64.TrailingBitsExample` | base64.cpp:40-58 | `QR` writes 0x41 and is then refused for its four set leftover bits |
| `Base64.StrayZeroSextetAccepted` | base64.cpp:40-58 | one extra `A` after a complete encoding is accepted and adds no byte, because its six bits are zero |
| `Base64.CanonicalFrom` | base64.cpp:31-56 | after any earlier output, alphabet input (not one more than a multiple of four characters) that is accepted re-encodes exactly as the bytes written |
| `Base64.OnlyStandardEncodingAccepted` | base64.cpp:26-58 | the converse of the round trip: such input succeeds only when it is the standard unpadded encoding of the bytes decoded |
| `LedFrame.PixelsFitBuffer` | led_command.h:12-20 | every pixel of a 1364-LED strip lies inside the 4096-byte buffer |
| `LedFrame.PixelBytes` | led_command.h:8-15 | packed pixels take three bytes each |
| `LedFrame.FrameBytes` | led_command.h:12-15 | a frame is a two-byte count and three bytes per pixel |
| `LedFrame.FrameLayout` | led_command.h:12-20 | reading the count and pixel i back from a packed frame gives the values packed |
| `LedCommand.LedCommand.constructor` | led_command.h:24-25 | the command holds the strip, its length and a fresh 4096-byte buffer |
| `LedCommand.LedCommand.Process` | led_command.cpp:62-78 | the buffer front is overwritten by the decode; on success the first min(length, count) LEDs take the buffer's pixels, then show and reply; on failure the strip is untouched and the failure line is logged |
| `LedCommand.AppliedLeavesTail` | led_command.cpp:67-69 | LEDs at or beyond min(length, count) keep their value |
| `LedCommand.FrameApplied` | led_command.cpp:62-69 | an encoded frame that fits and covers the copied range decodes and lands in the strip pixel for pixel |
| `LedCommand.AppliedPrefix` | led_command.cpp:67-69 | the copied LEDs are the frame's pixels, and the rest are unchanged |
| `LedCommand.StalePixelReused` | led_command.cpp:62-69 | a count larger than the frame's pixels copies a stale pixel from an earlier call's buffer |
| `LedCommand.StaleCountByte` | led_command.cpp:62-67 | a one-byte decode keeps the high byte of the previous count |
| `Pca9555.WithLedChangesOneLed` | pca9555.cpp:24-35 | `setLed` switches exactly the mapped LED and leaves every other LED and every non-LED bit as it was |
| `Pca9555.SwitchedPort` | pca9555.cpp:26-33 | the per-port read-modify-write of `setLed` equals the one-LED update |
| `Pca9555.LedPorts` | pca9555.cpp:38-47 | the `setAllLeds` registers have no bit set outside the six LED pins |
| `Pca9555.LedPortsShowStates` | pca9555.cpp:38-47 | the registers built by `setAllLeds` show exactly the six requested states |
| `Pca9555.Buttons` | pca9555.cpp:50-61 | bit i of the button byte is set exactly when button i's active-low pin reads 0, so the value is below 64 |
| `Pca9555.PinDirections` | pca9555.cpp:11-16 | the configuration makes LED pins outputs, button pins inputs and the upper four port-1 pins (the DIP switches) inputs |
| `Pca9555.LedAndButtonPinsDisjoint` | pca9555.cpp:11-16 | no LED pin shares a bit with a button pin of the same port |
| `Pca9555.Expander.constructor` | pca9555.h:10 | the expander starts with the given register contents and no writes |
| `Pca9555.Expander.WriteRegister` | pca9555.cpp:72-77 | a register write changes that register alone and is logged |
| `Pca9555.Expander.Begin` | pca9555.cpp:11-20 | writes configuration 0b10101010 and 0b11111010, then zeros both outputs, so all LEDs are off |
| `Pca9555.Expander.SetLed` | pca9555.cpp:22-36 | an index of 6 or more touches no register; otherwise the one-LED update, written back to both output registers |
| `Pca9555.Expander.SetAllLeds` | pca9555.cpp:38-48 | both output registers are written with exactly the six states |
| `Pca9555.Expander.ReadButtons` | pca9555.cpp:50-61 | returns the button byte of the current inputs |
| `Pca9555.Expander.ReadDIP` | pca9555.cpp:63-66 | the DIP value is below 16 and is the upper nibble of input port 1 |
| `Pca9555.NoDataReadsReleased` | pca9555.cpp:79-88 | the 0xFF returned when a read gets no data shows every button released and DIP value 15 |
| `BacklightCommand.Scan` | backlight_command.cpp:8-17 | the token loop always leaves six slots |
| `BacklightCommand.ScanPads` | backlight_command.cpp:8-17 | from any token start, the loop fills the next slots with the states the remaining tokens name |
| `BacklightCommand.ScanSlots` | backlight_command.cpp:5-17 | from all-off, the loop yields the first six named states padded with off |
| `BacklightCommand.Backlight.constructor` | backlight_command.h:9 | the command holds the expander it drives |
| `BacklightCommand.Backlight.Process` | backlight_command.cpp:4-19 | one `setAllLeds` with the six slots named by the arguments, also for an empty list |
| `BacklightCommand.RenderNamed` | backlight_command.cpp:8-17 | a list rendered as `1`/`0` tokens joined by `:` is read back as that list |
| `BacklightCommand.RenderedSlots` | backlight_command.cpp:5-18 | up to six rendered states become the first slots, and the rest stay off |
| `BacklightCommand.TokenThenRest` | backlight_command.cpp:9-16 | a token contributes its own setting ahead of the tokens after its colon |
| `BacklightCommand.FirstCharacterDecides` | backlight_command.cpp:11-12 | only a token's first character counts: `1xyz` is on |
| `BacklightCommand.UnnamedTokenSkipped` | backlight_command.cpp:11-14 | an empty token, or one not starting with `0` or `1`, takes no slot |
| `Ch9121.CH9121.constructor` | ch9120.h:19-20 | the driver holds the configuration, and its frame buffer starts with the header |
| `Ch9121.CH9121.Begin` | ch9120.h:23-29 | both pins become outputs driven high |
| `Ch9121.CH9121.StartConfiguration` | ch9120.h:32-39 | CFG goes low and the UART is restarted at 9600 baud |
| `Ch9121.CH9121.EndConfiguration` | ch9120.h:42-53 | save, apply and exit frames, then CFG high and the UART at the configured rate |
| `Ch9121.CH9121.Configure` | ch9120.h:56-69 | the whole sequence: start, the eight field frames in fixed order, end |
| `Ch9121.CH9121.WriteFields` | ch9120.h:59-66 | writes mode, local IP, mask, gateway, target IP, local port, target port and baud rate, in that order |
| `Ch9121.CH9121.SendSimpleCommand` | ch9120.h:87-91 | writes the 3-byte frame header + opcode |
| `Ch9121.CH9121.Send4ByteCommand` | ch9120.h:94-99 | writes header, opcode and one data byte |
| `Ch9121.CH9121.Send5ByteCommand` | ch9120.h:102-108 | writes header, opcode and the 16-bit value little-endian |
| `Ch9121.CH9121.Send7ByteCommand` | ch9120.h:111-118 | writes header, opcode and the four address bytes in order |
| `Ch9121.CH9121.SendBaudRateCommand` | ch9120.h:121-129 | writes header, opcode and the 32-bit rate little-endian |
| `Ch9121.CH9121.SetMode` | ch9120.h:132 | writes the mode frame, opcode 0x10 |
| `Ch9121.CH9121.SetLocalIP` | ch9120.h:133 | writes the local-IP frame, opcode 0x11 |
| `Ch9121.CH9121.SetSubnetMask` | ch9120.h:134 | writes the subnet-mask frame, opcode 0x12 |
| `Ch9121.CH9121.SetGateway` | ch9120.h:135 | writes the gateway frame, opcode 0x13 |
| `Ch9121.CH9121.SetTargetIP` | ch9120.h:136 | writes the target-IP frame, opcode 0x15 |
| `Ch9121.CH9121.SetLocalPort` | ch9120.h:137 | writes the local-port frame, opcode 0x14 |
| `Ch9121.CH9121.SetTargetPort` | ch9120.h:138 | writes the target-port frame, opcode 0x16 |
| `Ch9121.CH9121.SetBaudRate` | ch9120.h:139 | writes the baud-rate frame, opcode 0x21 |
| `Ch9121.Opcodes` | ch9120.h:84-129 | the sequence of byte 2 of each frame, the position where every frame helper puts its opcode |
| `Ch9121.FrameShapes` | ch9120.h:84-129 | every frame is header, opcode and 0, 1, 2 or 4 data bytes, and its data reads back as the value sent |
| `Ch9121.ConfigureOpcodes` | ch9120.h:42-69 | `Configure` sends opcodes 0x10, 0x11, 0x12, 0x13, 0x15, 0x14, 0x16, 0x21, 0x0D, 0x0E, 0x5E in that order, each behind the header |
| `Ch9121.FieldFrameStarts` | ch9120.h:59-66 | field frame i carries the header and the i-th field opcode |
| `Ch9121.FieldFramesRoundTrip` | ch9120.h:59-66 | a chip applying the eight field frames ends up holding exactly the configuration, whatever it held before |
| `Ch9121.FramesOnlyInConfigMode` | ch9120.h:32-69 | every configuration frame goes out while CFG is low and the UART runs at 9600 baud |
| `ReconfCommand.ScanFields` | reconf_command.cpp:5-6 | `sscanf("%d.%d.%d.%d")` reads four integers or fails |
| `ReconfCommand.FirstNonOctet` | reconf_command.cpp:10-13 | the index of the first value outside 0..255, or the count when all are octets |
| `ReconfCommand.Octets` | reconf_command.cpp:3-17 | a parsed address has four bytes |
| `ReconfCommand.AfterParseOf` | reconf_command.cpp:10-15 | the store loop's verdict and array contents are those of the address parse |
| `ReconfCommand.ParseIPAddress` | reconf_command.cpp:3-17 | succeeds exactly on four octets and then holds them; on a bad octet the earlier octets are already stored |
| `ReconfCommand.StoreOctets` | reconf_command.cpp:10-16 | stores octets until the first one out of range and reports whether all four were stored |
| `ReconfCommand.Reconf` | reconf_command.cpp:19-53 | a reconfiguration always carries four address bytes and a non-zero port |
| `ReconfCommand.PortText` | reconf_command.cpp:21-36 | when present, the port text is everything after the second of the first two colons |
| `ReconfCommand.Outcome` | reconf_command.cpp:38-52 | reconfigures exactly when the address parsed and the port is non-zero modulo 65536, with that truncated port; otherwise the value diagnostic |
| `ReconfCommand.Process` | reconf_command.cpp:19-53 | the command's effect is the `Reconfigure` call or the diagnostic its arguments determine |
| `ReconfCommand.DottedScans` | reconf_command.cpp:5-6 | a dotted rendering of n bytes scans back as those n integers |
| `ReconfCommand.DottedRoundTrip` | reconf_command.cpp:3-17 | a dotted-quad rendering of an address, followed by a non-digit, parses back to that address |
| `ReconfCommand.FormatErrorIffFewerThanTwoColons` | reconf_command.cpp:21-34 | the format diagnostic comes exactly when the arguments hold fewer than two colons |
| `ReconfCommand.IpColonPortRejected` | reconf_command.cpp:21-34 | `ip:port` with a single colon is refused with the format diagnostic |
| `ReconfCommand.SplitDottedTagPort` | reconf_command.cpp:21-36 | in `ip:tag:port` with colon-free address and tag, the two colons are found after the address and after the tag, and the port view is exactly the port text |
| `ReconfCommand.TagPortOutcome` | reconf_command.cpp:21-52 | with colon-free address and tag fields, the outcome depends only on the address parse and the port value |
| `ReconfCommand.DottedTagPort` | reconf_command.cpp:19-53 | `a.b.c.d:tag:port` reconfigures to that address and the truncated port when that port is non-zero modulo 65536 |
| `LcdCommand.Parse` | lcd_command.cpp:38-70 | an accepted placement lies inside the display; its column and row are the `from_chars` values of the text before the first colon and between the first two, and its text is everything after the second colon |
| `LcdCommand.ParseCoordinates` | lcd_command.cpp:5-26 | accepted coordinates lie inside the display |
| `LcdCommand.LcdCommand.constructor` | lcd_command.h:12-13 | the command holds the display and its size, with no clear callback set |
| `LcdCommand.LcdCommand.Process` | lcd_command.cpp:28-76 | `clear` clears the display and runs the callback if set; otherwise a valid `x:y:text` moves the cursor and writes the text character by character, and anything else does nothing |
| `LcdCommand.FewerThanTwoColons` | lcd_command.cpp:38-49 | arguments with fewer than two colons are rejected by both parsers |
| `LcdCommand.ParseFields` | lcd_command.cpp:52-70 | with colon-free fields, the placement is the two converted fields when both fit the display, and the text after the second colon |
| `LcdCommand.PlacementRoundTrip` | lcd_command.cpp:52-75 | the decimal coordinates of any cell on the display, with any text, parse back to that cell and text |
| `LcdCommand.InvalidFieldIgnored` | lcd_command.cpp:57-70 | with colon-free fields, a field that is not a whole `uint8_t` inside the display makes the command do nothing |
| `LcdCommand.WideColumnIgnored` | lcd_command.cpp:57-62 | a column at or beyond the display width makes the command do nothing |
| `LcdCommand.CoordinatesRoundTrip` | lcd_command.cpp:5-26 | `parseCoordinates` reads back the decimal coordinates of any cell on the display |
| `LcdCommand.ParsersAgreeOnDigits` | lcd_command.cpp:5-70 | on non-empty digit fields, `parseCoordinates` returns exactly the cell `process` would use |
| `LcdCommand.EmptyFieldsDisagree` | lcd_command.cpp:15-21 | `::text` is cell (0, 0) for `parseCoordinates` and is rejected by `process` |

## Left out

- The host-side UDP client (control_port.py, main.py) is network plumbing and is not part of this model.
- `ConfigCommand` and `EnumCommand` only print a fixed JSON line. Only their prefixes `?` and `enum` are modelled, because they take part in dispatch. The DIP value they report is `Pca9555.Expander.ReadDIP`.
- The update-rate estimate in `LedCommand::process` (led_command.cpp:48-60, 74) is left out: a floating-point average over `millis()`, and its formatted text in the reply. The reply is modelled as the declared count only.
- `LedCommand::parse_rgb` (led_command.cpp:9-45) is never called and is not modelled.
- `FastLED.show`, the LCD driver, `Serial` output, `pinMode`/`digitalWrite` and the UART are recorded as events in logs; their own behaviour is not modelled.
- `delay` timings in the CH9121 sequence are not modelled.
- The I2C transactions of `writeRegister`/`readRegister` (pca9555.cpp:72-88) are replaced by an abstract register file. A read that receives no data appears only as the input value 0xFF (`Pca9555.NoDataReadsReleased`).
- `updateOutputs` has an empty body, and `led_state_` is never read, so neither is modelled.
- `CH9121::HandleRXTX` (ch9120.h:72-79) is an endless echo loop and is not modelled.
- `CH9121::Reconfigure` is not defined in ch9120.h, which is the only part of the driver shown. `ReconfCommand.Process` returns the call it would make, `Reconfigure(ip, port)`, as a value; no frame sequence is invented for it.
- The success echo of `reconf` (reconf_command.cpp:46-49) prints the C string behind a `string_view` past its end, so its text is not determined. Only the successful `Reconfigure` effect is modelled.
- `CText.Atoi`: `atoi` and `sscanf` read the C string behind the `string_view`. The model reads only the view's characters.
- `ReconfCommand.ScanFields`: `%d` overflow in `sscanf` is undefined behaviour. The model keeps the unbounded value, which is then rejected as a non-octet.
- `LcdCommand.ParseCoordinates`: `str` is taken to be the characters before its terminating NUL.
- `LcdCommand.LcdCommand.Process`: the `on_clear` callback is modelled as a flag plus a counter of its invocations.
- `LedCommand.LedCommand.constructor` requires the strip to have at most 1364 LEDs, which is what fits the 4096-byte buffer. The source does not check this.
- `Pca9555.Expander.SetAllLeds` takes a six-element array, the size of the array the firmware passes.
- Serial line endings other than `\n` are data, as in the source (`Command.CarriageReturnIsData`).
