# Debug MIDI hex reader and bankable MIDI button, in Dafny

This project models two small, sequential state machines of the Control Surface
MIDI library and proves properties about them.

**`StreamDebugMIDI_Interface`** (module `DebugMidiInterface`, file
`debug_midi_interface.dfy`) reads MIDI written as hexadecimal text, such as
`90 3c 7f`.
- A two-slot buffer (`firstChar`, `secondChar`) collects hex digits.
- A third digit slides the buffer so that only the last two digits stay.
- A space, carriage return or line feed after two digits turns them into one
  byte for `parser.parse`.
- Every other character is ignored.
- `read` stops at the first parse result that is not `NO_MESSAGE`. Otherwise it
  drains the stream.
- The module also models the status-byte guard of both `sendImpl` overloads.
  That guard selects one of the seven channel voice message kinds (status
  nibbles 8 to E in the Channel Voice Messages table of the MIDI 1.0 Detailed
  Specification) and drops every other status.

In the model:
- Characters are 8-bit values (`bv8`), so `toLowerCase` is exactly `x | 0x20`.
- The parser is a function from everything fed to it so far to its answer,
  which any deterministic parser started from its reset state is.
- The interface is a class. `Read` is proved against the function `ReadFrom`,
  and `Consume` is proved against `Step`, which processes one character.
- The lemmas about `Feed`, `ReadFrom` and `Encode` give:
  - the token round trip;
  - independence from how the input is split into chunks;
  - the "first message" behaviour of `read`.

**`BankableNS::MIDIButton`** (module `BankableMidiButton`, file
`midi_button.dfy`) is a push button whose messages follow the selected bank.
- On a falling edge it locks the bank and then sends "on" to
  `getChannel(baseChannel)` and `getAddress(baseAddress)`.
- On a rising edge it sends "off" to the same functions and then unlocks.

In the model:
- The lock is a `LockState` (`Unlocked` or `Locked(frozen offset)`). The bank's
  current offset is a shared `Bank` object.
- Every `sendOn`/`sendOff` is recorded as an `Event` in `MidiButton.sent`.
- `MidiButton.Update` is proved against the function `Updated`. `Run` folds
  `Updated` and bank changes over a sequence of inputs.
- The lock invariant is proved for any interleaving: the "off" of a gesture
  goes where its "on" went, whatever the bank does in between.

Two behaviours of the code are worth knowing:
- `update()` has no guard against a repeated press edge. It sends "on" on every
  falling edge, also when the button is already locked
  (`RepeatedFallingSendsOnAgain`).
- The doc comment of `toLowerCase` promises no effect on digits and on letters
  that are already lowercase, and that holds. But `x | 0x20` changes every
  character whose bit 5 is clear, not only letters: the control characters
  0x10-0x19 become the digits '0'-'9', so the reader takes them for digits
  (`ToLowerCaseFacts`).

## Model

| member | source | states |
|---|---|---|
| DebugMidiInterface.IsHexChar | src/MIDI_Interfaces/DebugMIDI_Interface.h:99-101 | a lowercase hex digit is never the empty-slot marker NUL and never whitespace |
| DebugMidiInterface.ToLowerCase | src/MIDI_Interfaces/DebugMIDI_Interface.h:106 | the result agrees with the input on every bit but bit 5, has bit 5 set, and is never NUL |
| DebugMidiInterface.IsWhiteSpace | src/MIDI_Interfaces/DebugMIDI_Interface.h:120-122 | SP, CR and LF are neither NUL nor hex digits |
| DebugMidiInterface.HexCharToNibble | src/MIDI_Interfaces/DebugMIDI_Interface.h:110-112 | a lowercase hex digit converts to a nibble below 16 |
| DebugMidiInterface.PairToByte | src/MIDI_Interfaces/DebugMIDI_Interface.h:70-71 | for two digits, the high nibble of the byte is the first digit's value and the low nibble the second's |
| DebugMidiInterface.Step | src/MIDI_Interfaces/DebugMIDI_Interface.h:57-79 | one character keeps the slot invariant; a byte is handed over only for whitespace, with both slots emptied and the byte made of the two buffered digits; a character that is neither a digit nor completes a byte leaves the slots unchanged |
| DebugMidiInterface.ToLowerCaseFacts | src/MIDI_Interfaces/DebugMIDI_Interface.h:102-106 | `x \| 0x20` leaves digits and lowercase letters unchanged, maps 'A'-'Z' to 'a'-'z', never yields NUL, and yields a hex digit exactly for 0x10-0x19, '0'-'9', 'A'-'F' and 'a'-'f' |
| DebugMidiInterface.WhiteSpaceIsNeverHex | src/MIDI_Interfaces/DebugMIDI_Interface.h:99-122 | SP, CR and LF are not hex digits, before or after `toLowerCase` |
| DebugMidiInterface.HexCharToNibbleValues | src/MIDI_Interfaces/DebugMIDI_Interface.h:107-112 | '0'-'9' have the values 0-9 and 'a'-'f' the values 10-15, so every digit's nibble is below 16 |
| DebugMidiInterface.HexDigit | src/MIDI_Interfaces/DebugMIDI_Interface.h:110-112 | the digit written for a nibble, in either case, is accepted as a digit and read back as that nibble; lowercase digits are left unchanged by `toLowerCase` |
| DebugMidiInterface.PairToByteValue | src/MIDI_Interfaces/DebugMIDI_Interface.h:70-71 | two digits make the byte `16 * nibble(first) + nibble(second)` |
| DebugMidiInterface.StepKeepsLastTwoDigits | src/MIDI_Interfaces/DebugMIDI_Interface.h:57-66 | a digit is buffered in lowercase, the buffer holds the last two digits, the parser is not called, and the slot invariant is kept |
| DebugMidiInterface.StepFlushesPair | src/MIDI_Interfaces/DebugMIDI_Interface.h:67-73 | whitespace after two digits hands `16 * first + second` to the parser and empties both slots; after fewer digits it changes nothing |
| DebugMidiInterface.StepIgnoresOther | src/MIDI_Interfaces/DebugMIDI_Interface.h:77-78 | a character that is neither a digit after lowercasing nor whitespace leaves the slots unchanged and hands nothing to the parser |
| DebugMidiInterface.TwoDigitsFillSlots | src/MIDI_Interfaces/DebugMIDI_Interface.h:57-66 | two digits in a row fill both slots with those digits, whatever the slots held before |
| DebugMidiInterface.DigitsSpellByte | src/MIDI_Interfaces/DebugMIDI_Interface.h:70-71 | the two digits written for a byte combine back into that byte |
| DebugMidiInterface.Feed | src/MIDI_Interfaces/DebugMIDI_Interface.h:54-79 | running the loop body over a text keeps the slot invariant and hands the parser at most one byte per character |
| DebugMidiInterface.FeedConcat | src/MIDI_Interfaces/DebugMIDI_Interface.h:53-86 | because the slots persist, feeding `a + b` hands the parser the same bytes as feeding `a` and then `b` |
| DebugMidiInterface.TokenDeliversByte | src/MIDI_Interfaces/DebugMIDI_Interface.h:57-74 | two digits of a byte in either case, then SP, CR or LF, deliver exactly that byte and leave the slots empty, whatever was buffered before |
| DebugMidiInterface.EncodeRoundTrip | src/MIDI_Interfaces/DebugMIDI_Interface.h:57-74 | any byte sequence written as "hi lo " tokens is read back as exactly that sequence |
| DebugMidiInterface.ReadFrom | src/MIDI_Interfaces/DebugMIDI_Interface.h:53-82 | the loop of `read` keeps the slot invariant and leaves no more characters than it was given |
| DebugMidiInterface.SilentPrefixes | src/MIDI_Interfaces/DebugMIDI_Interface.h:74-76 | when the parser stayed silent over some bytes, it answered NO_MESSAGE after each of them |
| DebugMidiInterface.ReadAgreesWithFeed | src/MIDI_Interfaces/DebugMIDI_Interface.h:53-82 | what `read` consumes it treats as the loop body does: continuing over the unread rest ends in the same slots with the same bytes as running over the whole input |
| DebugMidiInterface.ReadLeavesSuffix | src/MIDI_Interfaces/DebugMIDI_Interface.h:54-55 | `read` consumes characters from the front only, so what remains is a suffix of the input |
| DebugMidiInterface.ReadDrains | src/MIDI_Interfaces/DebugMIDI_Interface.h:54-81 | `read` returns NO_MESSAGE only when the stream is drained |
| DebugMidiInterface.ReadStopsAtFirstMessage | src/MIDI_Interfaces/DebugMIDI_Interface.h:74-81 | `read` returns the parser's answer to the last byte it handed over, and every earlier answer was NO_MESSAGE; a NO_MESSAGE result means every answer was NO_MESSAGE |
| DebugMidiInterface.ReadStopsAfterDeliveringByte | src/MIDI_Interfaces/DebugMIDI_Interface.h:74-76 | when `read` returns a message, the last character it consumed is the one whose step handed a byte to the parser: it reads nothing past the message |
| DebugMidiInterface.ReadIgnoresLaterChunk | src/MIDI_Interfaces/DebugMIDI_Interface.h:53-82 | when `read` returns a message from input `a`, characters arriving after `a` change neither the result, nor the slots, nor the bytes handed over; they only stay unread |
| DebugMidiInterface.ReadAnswersBeforeResult | src/MIDI_Interfaces/DebugMIDI_Interface.h:74-81 | every byte handed over before the last one drew NO_MESSAGE from the parser, and so did the last one when `read` returns NO_MESSAGE |
| DebugMidiInterface.ReadSplit | src/MIDI_Interfaces/DebugMIDI_Interface.h:53-86 | when a read of chunk `a` ends without a message, the next read of chunk `b` does exactly what one read of `a + b` would |
| DebugMidiInterface.ReadFeedsPrefix | src/MIDI_Interfaces/DebugMIDI_Interface.h:53-82 | a read hands the parser a prefix of the bytes the whole input spells, and all of them when it returns NO_MESSAGE |
| DebugMidiInterface.ReadEncodedText | src/MIDI_Interfaces/DebugMIDI_Interface.h:53-82 | reading the hex text of some bytes hands the parser a prefix of those bytes, and all of them when no message completes |
| DebugMidiInterface.StreamDebugMidiInterface.constructor | src/MIDI_Interfaces/DebugMIDI_Interface.h:85-86 | both slots start empty ('\0') |
| DebugMidiInterface.StreamDebugMidiInterface.Consume | src/MIDI_Interfaces/DebugMIDI_Interface.h:57-73 | the in-place update of `firstChar`/`secondChar` for one character, and the byte it completes, are those of `Step` |
| DebugMidiInterface.StreamDebugMidiInterface.Read | src/MIDI_Interfaces/DebugMIDI_Interface.h:53-82 | the result, the slots, the unread stream and the bytes given to the parser are those of `ReadFrom` from the old state, and the slot invariant is kept |
| DebugMidiInterface.StatusNibble | src/MIDI_Interfaces/DebugMIDI_Interface.h:5-8 | each of the seven kinds has a status nibble 0x8-0xE, and its name sits at index `nibble - 8` of the names table |
| DebugMidiInterface.MessageType | src/MIDI_Interfaces/DebugMIDI_Interface.h:26-28 | the `uint8_t` index `(m >> 4) - 8` is below 7 exactly for statuses 0x80-0xEF, and then names the kind whose nibble is `m >> 4`; statuses below 0x80 wrap around and are dropped like 0xF0-0xFF |
| DebugMidiInterface.MessageTypeOfStatus | src/MIDI_Interfaces/DebugMIDI_Interface.h:41-43 | a status byte built from any kind and any channel 0-15 is classified as that kind |
| DebugMidiInterface.SendImpl | src/MIDI_Interfaces/DebugMIDI_Interface.h:25-38 | a line is produced exactly for statuses 0x80-0xEF, with the matching kind, the channel counted from one, and both data bytes |
| DebugMidiInterface.SendImplOneDataByte | src/MIDI_Interfaces/DebugMIDI_Interface.h:40-51 | a line is produced exactly for statuses 0x80-0xEF, with the matching kind, the channel counted from one, and the one data byte |
| BankableMidiButton.LockOn | src/MIDI_Outputs/Bankable/MIDIButton.hpp:33 | `lock()` leaves the button locked, freezing the bank's current offset when it was unlocked and keeping the frozen one otherwise |
| BankableMidiButton.Updated | src/MIDI_Outputs/Bankable/MIDIButton.hpp:30-39 | a message is sent exactly on a falling or rising edge, "on" exactly on the falling one, to the base values plus the offset in force (the one frozen by the lock on a falling edge); a falling edge leaves the button locked, a rising edge unlocked, and otherwise the lock is unchanged |
| BankableMidiButton.Apply | src/MIDI_Outputs/Bankable/MIDIButton.hpp:30-39 | one poll sends at most one message and leaves the bank as it was; a bank change sends nothing and leaves the lock as it was |
| BankableMidiButton.FallingLocksThenSendsOn | src/MIDI_Outputs/Bankable/MIDIButton.hpp:32-34 | a falling edge locks, then sends one "on" to the base values plus the frozen offset, which is the bank's current offset when the button was unlocked |
| BankableMidiButton.RisingSendsOffThenUnlocks | src/MIDI_Outputs/Bankable/MIDIButton.hpp:35-37 | a rising edge sends one "off" computed before unlocking, so it uses the frozen offset, and leaves the button unlocked |
| BankableMidiButton.SteadyStateIsQuiet | src/MIDI_Outputs/Bankable/MIDIButton.hpp:31-38 | in the Pressed and Released states `update` sends nothing and neither locks nor unlocks |
| BankableMidiButton.LockedTargetIgnoresBank | src/MIDI_Outputs/Bankable/MIDIButton.hpp:32-37 | while locked, a different bank offset changes neither the message sent nor the lock |
| BankableMidiButton.Run | src/MIDI_Outputs/Bankable/MIDIButton.hpp:30-39 | a run of polls and bank changes sends at most as many messages as it has inputs |
| BankableMidiButton.RunConcat | src/MIDI_Outputs/Bankable/MIDIButton.hpp:30-39 | polls and bank changes compose: running `a + b` is running `a`, then `b` from where it left off |
| BankableMidiButton.HoldingIsQuiet | src/MIDI_Outputs/Bankable/MIDIButton.hpp:31-38 | bank changes and steady polls send nothing and keep the lock |
| BankableMidiButton.GestureTargetsOneAddress | src/MIDI_Outputs/Bankable/MIDIButton.hpp:32-37 | a press, any bank changes and steady polls, then a release send exactly "on" and "off" to the target resolved at the press, and leave the button unlocked |
| BankableMidiButton.AlternatingEdgesArePaired | src/MIDI_Outputs/Bankable/MIDIButton.hpp:30-39 | with alternating edges, every "on" is followed by an "off" to the same target before the next "on", whatever the bank does |
| BankableMidiButton.RepeatedFallingSendsOnAgain | src/MIDI_Outputs/Bankable/MIDIButton.hpp:32-34 | a second falling edge without a rising one sends a second "on", to the same target |
| BankableMidiButton.MidiButton.constructor | src/MIDI_Outputs/Bankable/MIDIButton.hpp:27-28 | the base address and base channel are set once; they are `const`, so nothing changes them afterwards |
| BankableMidiButton.MidiButton.GetChannel | src/MIDI_Outputs/Bankable/MIDIButton.hpp:34 | the channel is the base channel plus the frozen offset while locked, plus the bank's current offset otherwise |
| BankableMidiButton.MidiButton.GetAddress | src/MIDI_Outputs/Bankable/MIDIButton.hpp:34 | the address is the base address plus the frozen offset while locked, plus the bank's current offset otherwise |
| BankableMidiButton.MidiButton.Lock | src/MIDI_Outputs/Bankable/MIDIButton.hpp:33 | the lock becomes `LockOn` of the old lock and the bank's offset |
| BankableMidiButton.MidiButton.Unlock | src/MIDI_Outputs/Bankable/MIDIButton.hpp:37 | the button is unlocked |
| BankableMidiButton.MidiButton.SendOn | src/MIDI_Outputs/Bankable/MIDIButton.hpp:34 | exactly one "on" to the given channel and address is appended to the sends |
| BankableMidiButton.MidiButton.SendOff | src/MIDI_Outputs/Bankable/MIDIButton.hpp:36 | exactly one "off" to the given channel and address is appended to the sends |
| BankableMidiButton.MidiButton.Update | src/MIDI_Outputs/Bankable/MIDIButton.hpp:30-39 | the new lock and the message appended to the sends are those of `Updated` for the old lock, the bank's offset and the state |
| BankableMidiButton.HeldPressAcrossBankChange | src/MIDI_Outputs/Bankable/MIDIButton.hpp:32-37 | with base (channel 0, address 36) and the bank at +2, then at +5 during the press, both "on" and "off" go to address 38 |

## Left out

- The parser's own logic is not modelled. The body of `SerialMIDI_Parser::parse`
  is not part of this model. The parser is a function from every byte fed to it
  to its answer, and its message values are opaque (`Message(code)`).
- The stream transport (`stream.available`, `stream.read`) is not modelled
  separately. It is the sequence `stream`, which `Read` consumes from the front
  and `Receive` extends.
- The text `sendImpl` prints, and `flush`, are not modelled. They depend on
  Arduino's `Print` class, which is not part of this model. `SendImpl` returns
  the fields of the line (kind, channel + 1, data bytes) rather than its
  characters.
- The serial, USB and SoftwareSerial wrapper classes and `begin` are transport
  glue and are not modelled.
- Whether `char` is signed is not modelled. It would only matter to
  `hexCharToNibble` for bytes of 0x80 and above, and those never reach it.
- Button debouncing (`Button::getState`) is not modelled. The state is passed to
  `Update`, and the pin is not modelled.
- `Sender::sendOn`/`sendOff` are recorded in `sent` and not otherwise modelled.
- The arithmetic behind `getChannel`/`getAddress` is not part of this model. The
  offset is added to the base as an unbounded integer, with no wrap-around or
  clamping to 0-15 or 0-127.
- What `lock()` does when the button is already locked is not shown in the
  source. The model keeps the frozen offset, so a repeated press does not move
  the target.
- BankableMidiButton.MidiButton.Update: the order "lock, then sendOn" is visible
  only in the target of the "on". When the button was unlocked, that target is
  the same either way, so this order is not distinguished.
- The display elements (VU meters, V-Pot rings) are user-interface rendering
  with floating point and timing, and are not modelled.
