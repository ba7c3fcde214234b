/**
 * The debug MIDI interface: it reads raw MIDI bytes written as human-readable
 * hexadecimal text ("90 40 7f ") and hands each reconstructed byte to a MIDI
 * parser, and it classifies the status byte of an outgoing channel message
 * before printing it.
 *
 * Characters of the text stream are 8-bit `char`s, modelled as `bv8`, so that
 * `toLowerCase` is exactly the source's `x | 0x20`.
 */
module DebugMidiInterface {
  import opened Wrappers

  /** One `char` read from the stream. */
  type Char = bv8
  /** One raw MIDI byte (`uint8_t`). */
  type Byte = bv8

  const NUL: Char := 0x00
  const LF: Char := 0x0A
  const CR: Char := 0x0D
  const SP: Char := 0x20
  const DIGIT_0: Char := 0x30
  const DIGIT_9: Char := 0x39
  const UPPER_A: Char := 0x41
  const UPPER_F: Char := 0x46
  const UPPER_Z: Char := 0x5A
  const LOWER_A: Char := 0x61
  const LOWER_F: Char := 0x66
  const LOWER_Z: Char := 0x7A

  // ---------------------------------------------------------------------------
  // Character helpers
  // ---------------------------------------------------------------------------

  /** A lowercase hexadecimal digit: '0'-'9' or 'a'-'f'. */
  predicate IsHexChar(hex: Char): (b: bool)
    ensures b ==> hex != NUL && !(hex == SP || hex == CR || hex == LF)
  {
    (DIGIT_0 <= hex <= DIGIT_9) || (LOWER_A <= hex <= LOWER_F)
  }

  /**
   * Sets bit 5. This lowercases letters and leaves digits alone, but it is not
   * a real lowercase: the control characters 0x10-0x19 become '0'-'9'.
   */
  function ToLowerCase(x: Char): (r: Char)
    ensures r & 0xDF == x & 0xDF && r & 0x20 == 0x20 && r != NUL
  {
    x | 0x20
  }

  /**
   * ToLowerCase leaves digits and lowercase letters as they are, lowercases
   * 'A'-'Z', never yields NUL, and yields a hex digit exactly for 0x10-0x19,
   * '0'-'9', 'A'-'F' and 'a'-'f'.
   */
  lemma ToLowerCaseFacts(x: Char)
    ensures DIGIT_0 <= x <= DIGIT_9 ==> ToLowerCase(x) == x
    ensures LOWER_A <= x <= LOWER_Z ==> ToLowerCase(x) == x
    ensures UPPER_A <= x <= UPPER_Z ==> ToLowerCase(x) == x + 0x20
    ensures ToLowerCase(x) != NUL
    ensures IsHexChar(ToLowerCase(x)) <==>
      (0x10 <= x <= 0x19 || DIGIT_0 <= x <= DIGIT_9 ||
       UPPER_A <= x <= UPPER_F || LOWER_A <= x <= LOWER_F)
  {
  }

  /** Space, carriage return or line feed. */
  predicate IsWhiteSpace(x: Char): (b: bool)
    ensures b ==> x != NUL && !IsHexChar(x)
  {
    x == SP || x == CR || x == LF
  }

  /** The separators are never taken for digits, not even after lowercasing. */
  lemma WhiteSpaceIsNeverHex(x: Char)
    requires IsWhiteSpace(x)
    ensures !IsHexChar(x) && !IsHexChar(ToLowerCase(x))
  {
  }

  /**
   * The value of a hexadecimal digit. For bytes of 0x80 and above the result
   * would depend on the signedness of `char`; such bytes never reach it.
   */
  function HexCharToNibble(hex: Char): (n: Byte)
    ensures IsHexChar(hex) ==> n < 16
  {
    if hex < LOWER_A then hex - DIGIT_0 else hex - LOWER_A + 10
  }

  /** '0'-'9' have the values 0-9 and 'a'-'f' the values 10-15. */
  lemma HexCharToNibbleValues(hex: Char)
    ensures DIGIT_0 <= hex <= DIGIT_9 ==> HexCharToNibble(hex) as int == hex as int - DIGIT_0 as int
    ensures LOWER_A <= hex <= LOWER_F ==> HexCharToNibble(hex) as int == hex as int - LOWER_A as int + 10
    ensures IsHexChar(hex) ==> HexCharToNibble(hex) < 16
  {
  }

  /** The digit that spells nibble `n`, in upper or lower case: the inverse of HexCharToNibble. */
  function HexDigit(n: Byte, upper: bool): (c: Char)
    requires n < 16
    ensures IsHexChar(ToLowerCase(c)) && HexCharToNibble(ToLowerCase(c)) == n
    ensures !upper ==> IsHexChar(c) && ToLowerCase(c) == c
  {
    if n < 10 then DIGIT_0 + n
    else if upper then UPPER_A + (n - 10)
    else LOWER_A + (n - 10)
  }

  // ---------------------------------------------------------------------------
  // The two-slot buffer and one step of `read`
  // ---------------------------------------------------------------------------

  /** `firstChar` and `secondChar`; NUL marks an empty slot. */
  datatype Slots = Slots(first: Char, second: Char)

  const EMPTY: Slots := Slots(NUL, NUL)

  /** Each slot is empty or holds a lowercase digit, and the first slot fills first. */
  predicate ValidSlots(s: Slots) {
    && (s.first == NUL || IsHexChar(s.first))
    && (s.second == NUL || IsHexChar(s.second))
    && (s.first == NUL ==> s.second == NUL)
  }

  /** The digits held by the buffer, oldest first. */
  function Buffered(s: Slots): seq<Char> {
    if s.first == NUL then []
    else if s.second == NUL then [s.first]
    else [s.first, s.second]
  }

  /** The last two elements of a sequence, or all of it when it is shorter. */
  function LastTwo(cs: seq<Char>): seq<Char> {
    if |cs| <= 2 then cs else cs[|cs| - 2..]
  }

  /** `hexCharToNibble(first) << 4 | hexCharToNibble(second)`, stored in a `uint8_t`. */
  function PairToByte(first: Char, second: Char): (b: Byte)
    ensures IsHexChar(first) && IsHexChar(second) ==>
      b >> 4 == HexCharToNibble(first) && b & 0x0F == HexCharToNibble(second)
  {
    (HexCharToNibble(first) << 4) | HexCharToNibble(second)
  }

  /** Two digits spell the byte `16 * first + second`, which is at most 255. */
  lemma PairToByteValue(first: Char, second: Char)
    requires IsHexChar(first) && IsHexChar(second)
    ensures PairToByte(first, second) as int
      == 16 * HexCharToNibble(first) as int + HexCharToNibble(second) as int
  {
    HexCharToNibbleValues(first);
    HexCharToNibbleValues(second);
  }

  /** The new slots, and the byte handed to the parser if any. */
  datatype StepResult = StepResult(slots: Slots, parsed: Option<Byte>)

  /** What one pass of the loop in `read` does with one character. */
  function Step(s: Slots, data: Char): (r: StepResult)
    ensures ValidSlots(s) ==> ValidSlots(r.slots)
    ensures r.parsed.Some? ==> r.slots == EMPTY && IsWhiteSpace(data) && r.parsed.value == PairToByte(s.first, s.second)
    ensures r.parsed.None? && !IsHexChar(ToLowerCase(data)) ==> r.slots == s
  {
    if IsHexChar(ToLowerCase(data)) then
      var d := ToLowerCase(data);
      if s.first == NUL then StepResult(s.(first := d), None)
      else if s.second == NUL then StepResult(s.(second := d), None)
      else StepResult(Slots(s.second, d), None)
    else if IsWhiteSpace(data) && s.first != NUL && s.second != NUL then
      StepResult(EMPTY, Some(PairToByte(s.first, s.second)))
    else
      StepResult(s, None)
  }

  /** A digit is buffered in lowercase; of the digits since the last byte only the last two stay. */
  lemma StepKeepsLastTwoDigits(s: Slots, data: Char)
    requires ValidSlots(s) && IsHexChar(ToLowerCase(data))
    ensures ValidSlots(Step(s, data).slots) && Step(s, data).parsed == None
    ensures Buffered(Step(s, data).slots) == LastTwo(Buffered(s) + [ToLowerCase(data)])
  {
  }

  /**
   * Whitespace after two digits hands `16 * first + second` to the parser and
   * empties both slots; after fewer digits it changes nothing.
   */
  lemma StepFlushesPair(s: Slots, data: Char)
    requires ValidSlots(s) && IsWhiteSpace(data)
    ensures |Buffered(s)| == 2 ==>
      && Step(s, data).slots == EMPTY
      && Step(s, data).parsed.Some?
      && Step(s, data).parsed.value as int
         == 16 * HexCharToNibble(Buffered(s)[0]) as int + HexCharToNibble(Buffered(s)[1]) as int
    ensures |Buffered(s)| < 2 ==> Step(s, data) == StepResult(s, None)
  {
    if |Buffered(s)| == 2 {
      PairToByteValue(s.first, s.second);
    }
  }

  /** Any other character is ignored. */
  lemma StepIgnoresOther(s: Slots, data: Char)
    requires !IsHexChar(ToLowerCase(data)) && !IsWhiteSpace(data)
    ensures Step(s, data) == StepResult(s, None)
  {
  }

  // ---------------------------------------------------------------------------
  // A whole text
  // ---------------------------------------------------------------------------

  /** The final slots, and every byte handed to the parser, in order. */
  datatype FeedResult = FeedResult(slots: Slots, parsed: seq<Byte>)

  /** Runs Step over a text, character by character. */
  function Feed(s: Slots, text: seq<Char>): (r: FeedResult)
    ensures ValidSlots(s) ==> ValidSlots(r.slots)
    ensures |r.parsed| <= |text|
    decreases |text|
  {
    if text == [] then FeedResult(s, [])
    else
      var step := Step(s, text[0]);
      var rest := Feed(step.slots, text[1..]);
      FeedResult(rest.slots, ToSeq(step.parsed) + rest.parsed)
  }

  /**
   * Splitting a text anywhere does not change what the parser receives: the
   * slots carry the partial token across the split.
   */
  lemma {:induction false} FeedConcat(s: Slots, a: seq<Char>, b: seq<Char>)
    ensures Feed(s, a + b).slots == Feed(Feed(s, a).slots, b).slots
    ensures Feed(s, a + b).parsed == Feed(s, a).parsed + Feed(Feed(s, a).slots, b).parsed
    decreases |a|
  {
    if a == [] {
      assert a + b == b;
    } else {
      var step := Step(s, a[0]);
      assert (a + b)[0] == a[0] && (a + b)[1..] == a[1..] + b;
      FeedConcat(step.slots, a[1..], b);
      var x, y, z := ToSeq(step.parsed), Feed(step.slots, a[1..]).parsed, Feed(Feed(s, a).slots, b).parsed;
      assert x + (y + z) == (x + y) + z;
    }
  }

  /** One byte as a token: two digits in the chosen case, then a separator. */
  function Token(b: Byte, upper: bool, ws: Char): seq<Char> {
    [HexDigit(b >> 4, upper), HexDigit(b & 0x0F, upper), ws]
  }

  /** Bytes written as hex text, each followed by a space. */
  function Encode(bytes: seq<Byte>, upper: bool): (text: seq<Char>)
    ensures |text| == 3 * |bytes|
  {
    if bytes == [] then [] else Token(bytes[0], upper, SP) + Encode(bytes[1..], upper)
  }

  /** Two digits in a row fill both slots, whatever was buffered before. */
  lemma TwoDigitsFillSlots(s: Slots, c0: Char, c1: Char)
    requires ValidSlots(s) && IsHexChar(ToLowerCase(c0)) && IsHexChar(ToLowerCase(c1))
    ensures Step(s, c0).parsed == None && Step(Step(s, c0).slots, c1).parsed == None
    ensures Step(Step(s, c0).slots, c1).slots == Slots(ToLowerCase(c0), ToLowerCase(c1))
  {
  }

  /** The two digits of a byte's token spell that byte again. */
  lemma DigitsSpellByte(b: Byte, upper: bool)
    ensures PairToByte(ToLowerCase(HexDigit(b >> 4, upper)), ToLowerCase(HexDigit(b & 0x0F, upper))) == b
  {
    assert ((b >> 4) << 4) | (b & 0x0F) == b;
  }

  /**
   * A token delivers exactly its byte, whatever was buffered before it: two
   * new digits push out any stray ones.
   */
  lemma TokenDeliversByte(s: Slots, b: Byte, upper: bool, ws: Char)
    requires ValidSlots(s) && IsWhiteSpace(ws)
    ensures Feed(s, Token(b, upper, ws)) == FeedResult(EMPTY, [b])
  {
    var t := Token(b, upper, ws);
    var c0, c1 := t[0], t[1];
    var s1 := Step(s, c0).slots;
    var full := Slots(ToLowerCase(c0), ToLowerCase(c1));
    assert Step(s, c0).parsed == None && Step(s1, c1) == StepResult(full, None) by {
      TwoDigitsFillSlots(s, c0, c1);
    }
    assert Step(full, ws) == StepResult(EMPTY, Some(b)) by {
      DigitsSpellByte(b, upper);
      WhiteSpaceIsNeverHex(ws);
    }
    assert t[1..][1..][1..] == [];
    assert Feed(full, t[1..][1..]) == FeedResult(EMPTY, [b]);
    assert Feed(s1, t[1..]) == FeedResult(EMPTY, [b]);
  }

  /** Hex text encoding any byte sequence, in either case, reads back as that sequence. */
  lemma {:induction false} EncodeRoundTrip(s: Slots, bytes: seq<Byte>, upper: bool)
    requires ValidSlots(s)
    ensures Feed(s, Encode(bytes, upper)) == FeedResult(if bytes == [] then s else EMPTY, bytes)
    decreases |bytes|
  {
    if bytes != [] {
      var token, rest := Token(bytes[0], upper, SP), Encode(bytes[1..], upper);
      assert Feed(s, token) == FeedResult(EMPTY, [bytes[0]]) by {
        TokenDeliversByte(s, bytes[0], upper, SP);
      }
      assert Feed(EMPTY, rest) == FeedResult(EMPTY, bytes[1..]) by {
        EncodeRoundTrip(EMPTY, bytes[1..], upper);
      }
      FeedConcat(s, token, rest);
      assert [bytes[0]] + bytes[1..] == bytes;
    }
  }

  // ---------------------------------------------------------------------------
  // The interface object
  // ---------------------------------------------------------------------------

  /**
   * What `parser.parse` returns. Its values other than NO_MESSAGE belong to
   * the parser, which is not part of this model.
   */
  datatype ReadResult = NoMessage | Message(code: nat)

  /**
   * What a call of `read` ends with: its result, the slots, the characters it
   * left unread and the bytes it handed to the parser.
   */
  datatype ReadOutcome = ReadOutcome(result: ReadResult, slots: Slots, rest: seq<Char>, handed: seq<Byte>)

  /**
   * The loop of `read` as a function: from slots `s`, the available characters
   * `input` and the bytes `fed` to the parser before this call. `parse` gives
   * the parser's answer after each byte as a function of all bytes fed to it.
   */
  function ReadFrom(s: Slots, input: seq<Char>, fed: seq<Byte>, parse: seq<Byte> -> ReadResult): (o: ReadOutcome)
    ensures ValidSlots(s) ==> ValidSlots(o.slots)
    ensures |o.rest| <= |input|
    decreases |input|
  {
    if input == [] then ReadOutcome(NoMessage, s, [], [])
    else
      var step := Step(s, input[0]);
      if step.parsed.None? then ReadFrom(step.slots, input[1..], fed, parse)
      else
        var b := step.parsed.value;
        if parse(fed + [b]) != NoMessage then ReadOutcome(parse(fed + [b]), step.slots, input[1..], [b])
        else
          var more := ReadFrom(step.slots, input[1..], fed + [b], parse);
          more.(handed := [b] + more.handed)
  }

  /** One turn of `read`'s loop: the first character is stepped, and a completed message ends the read. */
  lemma ReadFromUnfold(s: Slots, input: seq<Char>, fed: seq<Byte>, parse: seq<Byte> -> ReadResult)
    requires input != []
    ensures
      var step := Step(s, input[0]);
      ReadFrom(s, input, fed, parse) ==
        if step.parsed.None? then ReadFrom(step.slots, input[1..], fed, parse)
        else
          var b := step.parsed.value;
          if parse(fed + [b]) != NoMessage then ReadOutcome(parse(fed + [b]), step.slots, input[1..], [b])
          else
            var more := ReadFrom(step.slots, input[1..], fed + [b], parse);
            more.(handed := [b] + more.handed)
  {
  }

  /** A read's outcome with `handed` extended to everything the parser has been fed, this call's bytes last. */
  function ReadTotal(s: Slots, input: seq<Char>, fed: seq<Byte>, parse: seq<Byte> -> ReadResult): (o: ReadOutcome)
  {
    var o := ReadFrom(s, input, fed, parse);
    o.(handed := fed + o.handed)
  }

  /** One turn of `read`'s loop, seen through ReadTotal. */
  lemma ReadTotalUnfold(s: Slots, input: seq<Char>, fed: seq<Byte>, parse: seq<Byte> -> ReadResult)
    requires input != []
    ensures
      var step := Step(s, input[0]);
      ReadTotal(s, input, fed, parse) ==
        if step.parsed.None? then ReadTotal(step.slots, input[1..], fed, parse)
        else
          var b := step.parsed.value;
          if parse(fed + [b]) != NoMessage then ReadOutcome(parse(fed + [b]), step.slots, input[1..], fed + [b])
          else ReadTotal(step.slots, input[1..], fed + [b], parse)
  {
    var step := Step(s, input[0]);
    ReadFromUnfold(s, input, fed, parse);
    if step.parsed.Some? {
      var b := step.parsed.value;
      var more := ReadFrom(step.slots, input[1..], fed + [b], parse);
      assert fed + ([b] + more.handed) == fed + [b] + more.handed;
    }
  }

  /** The parser answered NoMessage to each byte of `later`, fed after `base`. */
  ghost predicate Silent(parse: seq<Byte> -> ReadResult, base: seq<Byte>, later: seq<Byte>)
    decreases |later|
  {
    later == [] || (parse(base + [later[0]]) == NoMessage && Silent(parse, base + [later[0]], later[1..]))
  }

  /** Silent, stated for each prefix of the later bytes. */
  lemma {:induction false} SilentPrefixes(parse: seq<Byte> -> ReadResult, base: seq<Byte>, later: seq<Byte>, j: nat)
    requires Silent(parse, base, later) && 0 < j <= |later|
    ensures parse(base + later[..j]) == NoMessage
    decreases |later|
  {
    if j == 1 {
      assert later[..j] == [later[0]];
    } else {
      SilentPrefixes(parse, base + [later[0]], later[1..], j - 1);
      assert base + [later[0]] + later[1..][..j - 1] == base + later[..j];
    }
  }

  /**
   * `read` does with the characters it consumes what Feed does: carrying on
   * from where it stopped, Feed over the unread rest ends exactly as Feed over
   * the whole input, both in its slots and in the bytes handed over.
   */
  lemma {:induction false} ReadAgreesWithFeed(s: Slots, input: seq<Char>, fed: seq<Byte>, parse: seq<Byte> -> ReadResult)
    ensures
      var o := ReadFrom(s, input, fed, parse);
      var after := Feed(o.slots, o.rest);
      Feed(s, input) == FeedResult(after.slots, o.handed + after.parsed)
    decreases |input|
  {
    if input != [] {
      var step := Step(s, input[0]);
      ReadFromUnfold(s, input, fed, parse);
      if step.parsed.None? {
        ReadAgreesWithFeed(step.slots, input[1..], fed, parse);
      } else if parse(fed + [step.parsed.value]) == NoMessage {
        var b := step.parsed.value;
        var more := ReadFrom(step.slots, input[1..], fed + [b], parse);
        var after := Feed(more.slots, more.rest).parsed;
        ReadAgreesWithFeed(step.slots, input[1..], fed + [b], parse);
        assert [b] + (more.handed + after) == ([b] + more.handed) + after;
      }
    }
  }

  /** The characters `read` leaves unread are a suffix of those it was given. */
  lemma {:induction false} ReadLeavesSuffix(s: Slots, input: seq<Char>, fed: seq<Byte>, parse: seq<Byte> -> ReadResult)
    ensures
      var o := ReadFrom(s, input, fed, parse);
      input[|input| - |o.rest|..] == o.rest
    decreases |input|
  {
    if input != [] {
      var step := Step(s, input[0]);
      ReadFromUnfold(s, input, fed, parse);
      if step.parsed.None? {
        ReadLeavesSuffix(step.slots, input[1..], fed, parse);
      } else if parse(fed + [step.parsed.value]) == NoMessage {
        ReadLeavesSuffix(step.slots, input[1..], fed + [step.parsed.value], parse);
      }
    }
  }

  /** `read` returns NoMessage only when it has drained the stream. */
  lemma {:induction false} ReadDrains(s: Slots, input: seq<Char>, fed: seq<Byte>, parse: seq<Byte> -> ReadResult)
    ensures ReadFrom(s, input, fed, parse).result == NoMessage ==> ReadFrom(s, input, fed, parse).rest == []
    decreases |input|
  {
    if input != [] {
      var step := Step(s, input[0]);
      ReadFromUnfold(s, input, fed, parse);
      if step.parsed.None? {
        ReadDrains(step.slots, input[1..], fed, parse);
      } else if parse(fed + [step.parsed.value]) == NoMessage {
        ReadDrains(step.slots, input[1..], fed + [step.parsed.value], parse);
      }
    }
  }

  /**
   * `read` returns the first answer of the parser that is not NoMessage, with
   * every earlier answer NoMessage; when it returns NoMessage, the parser
   * answered NoMessage to every byte it was handed.
   */
  lemma {:induction false} ReadStopsAtFirstMessage(s: Slots, input: seq<Char>, fed: seq<Byte>, parse: seq<Byte> -> ReadResult)
    ensures
      var o := ReadFrom(s, input, fed, parse);
      && (o.result == NoMessage ==> Silent(parse, fed, o.handed))
      && (o.result != NoMessage ==>
            && o.handed != [] && o.result == parse(fed + o.handed)
            && Silent(parse, fed, o.handed[..|o.handed| - 1]))
    decreases |input|
  {
    if input != [] {
      var o := ReadFrom(s, input, fed, parse);
      var step := Step(s, input[0]);
      ReadFromUnfold(s, input, fed, parse);
      if step.parsed.None? {
        ReadStopsAtFirstMessage(step.slots, input[1..], fed, parse);
      } else {
        var b := step.parsed.value;
        if parse(fed + [b]) != NoMessage {
          assert o.handed[..|o.handed| - 1] == [];
        } else {
          var more := ReadFrom(step.slots, input[1..], fed + [b], parse);
          ReadStopsAtFirstMessage(step.slots, input[1..], fed + [b], parse);
          assert o.handed[0] == b && o.handed[1..] == more.handed;
          if o.result != NoMessage {
            assert fed + o.handed == fed + [b] + more.handed;
            var init := o.handed[..|o.handed| - 1];
            assert init[0] == b && init[1..] == more.handed[..|more.handed| - 1];
          }
        }
      }
    }
  }

  /**
   * `read` stops right after the character that completes a message: when it
   * returns a message, the last character it consumed is the whitespace that
   * delivered a byte, and nothing after it has been consumed.
   */
  lemma {:induction false} ReadStopsAfterDeliveringByte(s: Slots, input: seq<Char>, fed: seq<Byte>, parse: seq<Byte> -> ReadResult)
    ensures
      var o := ReadFrom(s, input, fed, parse);
      var k := |input| - |o.rest|;
      o.result != NoMessage ==> 0 < k && Step(Feed(s, input[..k - 1]).slots, input[k - 1]).parsed.Some?
    decreases |input|
  {
    var o := ReadFrom(s, input, fed, parse);
    if input != [] && o.result != NoMessage {
      var step := Step(s, input[0]);
      var tail := input[1..];
      ReadFromUnfold(s, input, fed, parse);
      if step.parsed.Some? && parse(fed + [step.parsed.value]) != NoMessage {
        assert input[..0] == [];
      } else {
        var fed' := if step.parsed.None? then fed else fed + [step.parsed.value];
        ReadStopsAfterDeliveringByte(step.slots, tail, fed', parse);
        var k := |input| - |o.rest|;
        assert input[..k - 1][0] == input[0] && input[..k - 1][1..] == tail[..k - 2];
        assert Feed(s, input[..k - 1]).slots == Feed(step.slots, tail[..k - 2]).slots;
        assert input[k - 1] == tail[k - 2];
      }
    }
  }

  /**
   * When a read of chunk `a` returns a message, characters arriving after `a`
   * make no difference: they are simply left unread behind the rest of `a`.
   */
  lemma {:induction false} ReadIgnoresLaterChunk(s: Slots, a: seq<Char>, b: seq<Char>, fed: seq<Byte>, parse: seq<Byte> -> ReadResult)
    ensures
      var first := ReadFrom(s, a, fed, parse);
      first.result != NoMessage ==> ReadFrom(s, a + b, fed, parse) == first.(rest := first.rest + b)
    decreases |a|
  {
    var first := ReadFrom(s, a, fed, parse);
    if a != [] && first.result != NoMessage {
      var step := Step(s, a[0]);
      ReadFromUnfold(s, a, fed, parse);
      assert (a + b)[0] == a[0] && (a + b)[1..] == a[1..] + b;
      ReadFromUnfold(s, a + b, fed, parse);
      if step.parsed.None? {
        ReadIgnoresLaterChunk(step.slots, a[1..], b, fed, parse);
      } else if parse(fed + [step.parsed.value]) == NoMessage {
        ReadIgnoresLaterChunk(step.slots, a[1..], b, fed + [step.parsed.value], parse);
      }
    }
  }

  /**
   * The answers before a read's result, stated byte by byte: the parser said
   * NoMessage after each byte handed over, except after the last one when the
   * read returns a message.
   */
  lemma ReadAnswersBeforeResult(s: Slots, input: seq<Char>, fed: seq<Byte>, parse: seq<Byte> -> ReadResult)
    ensures
      var o := ReadFrom(s, input, fed, parse);
      forall j :: 0 < j <= |o.handed| && (o.result == NoMessage || j < |o.handed|) ==>
        parse(fed + o.handed[..j]) == NoMessage
  {
    var o := ReadFrom(s, input, fed, parse);
    ReadStopsAtFirstMessage(s, input, fed, parse);
    forall j | 0 < j <= |o.handed| && (o.result == NoMessage || j < |o.handed|)
      ensures parse(fed + o.handed[..j]) == NoMessage
    {
      if o.result == NoMessage {
        SilentPrefixes(parse, fed, o.handed, j);
      } else {
        var init := o.handed[..|o.handed| - 1];
        SilentPrefixes(parse, fed, init, j);
        assert init[..j] == o.handed[..j];
      }
    }
  }

  /**
   * Chunk independence: when a read of `a` drains it without a message, a
   * later read of `b` goes exactly as one read of `a + b` would.
   */
  lemma {:induction false} ReadSplit(s: Slots, a: seq<Char>, b: seq<Char>, fed: seq<Byte>, parse: seq<Byte> -> ReadResult)
    requires ReadFrom(s, a, fed, parse).result == NoMessage
    ensures
      var first := ReadFrom(s, a, fed, parse);
      var second := ReadFrom(first.slots, b, fed + first.handed, parse);
      ReadFrom(s, a + b, fed, parse) == second.(handed := first.handed + second.handed)
    decreases |a|
  {
    if a == [] {
      assert a + b == b && fed + [] == fed;
      var second := ReadFrom(s, b, fed, parse);
      assert second.(handed := [] + second.handed) == second;
    } else {
      var step := Step(s, a[0]);
      ReadFromUnfold(s, a, fed, parse);
      assert (a + b)[0] == a[0] && (a + b)[1..] == a[1..] + b;
      ReadFromUnfold(s, a + b, fed, parse);
      if step.parsed.None? {
        ReadSplit(step.slots, a[1..], b, fed, parse);
      } else {
        var x := step.parsed.value;
        var first := ReadFrom(s, a, fed, parse);
        var more := ReadFrom(step.slots, a[1..], fed + [x], parse);
        ReadSplit(step.slots, a[1..], b, fed + [x], parse);
        var second := ReadFrom(first.slots, b, fed + first.handed, parse);
        assert fed + [x] + more.handed == fed + first.handed;
        assert [x] + (more.handed + second.handed) == first.handed + second.handed;
      }
    }
  }

  /**
   * A read hands the parser a prefix of the bytes the whole text spells, and
   * all of them when no message completes on the way.
   */
  lemma ReadFeedsPrefix(s: Slots, text: seq<Char>, fed: seq<Byte>, parse: seq<Byte> -> ReadResult)
    ensures
      var o := ReadFrom(s, text, fed, parse);
      && o.handed <= Feed(s, text).parsed
      && (o.result == NoMessage ==> o.handed == Feed(s, text).parsed)
  {
    var o := ReadFrom(s, text, fed, parse);
    var after := Feed(o.slots, o.rest).parsed;
    ReadAgreesWithFeed(s, text, fed, parse);
    assert (o.handed + after)[..|o.handed|] == o.handed;
    if o.result == NoMessage {
      ReadDrains(s, text, fed, parse);
      assert o.handed + [] == o.handed;
    }
  }

  /**
   * Reading the hex text of some bytes hands the parser a prefix of those
   * bytes, and all of them when no message completes on the way.
   */
  lemma ReadEncodedText(s: Slots, bytes: seq<Byte>, upper: bool, fed: seq<Byte>, parse: seq<Byte> -> ReadResult)
    requires ValidSlots(s)
    ensures
      var o := ReadFrom(s, Encode(bytes, upper), fed, parse);
      && o.handed <= bytes
      && (o.result == NoMessage ==> o.handed == bytes)
  {
    ReadFeedsPrefix(s, Encode(bytes, upper), fed, parse);
    EncodeRoundTrip(s, bytes, upper);
  }

  class StreamDebugMidiInterface {
    var firstChar: Char
    var secondChar: Char
    /** The characters the stream has available, oldest first. */
    var stream: seq<Char>
    /** Every byte handed to `parser.parse`, oldest first. */
    var parsed: seq<Byte>
    /**
     * The parser: a deterministic machine started in its reset state, so its
     * answer to each byte is a function of all the bytes fed to it so far.
     */
    const parse: seq<Byte> -> ReadResult

    function Buffer(): Slots
      reads this
    {
      Slots(firstChar, secondChar)
    }

    /** Each slot is empty or holds a lowercase digit, and the first fills first. */
    ghost predicate Valid()
      reads this
    {
      ValidSlots(Buffer())
    }

    constructor (parser: seq<Byte> -> ReadResult)
      ensures Valid()
      ensures Buffer() == EMPTY && stream == [] && parsed == []
      ensures parse == parser
    {
      firstChar, secondChar := NUL, NUL;
      stream, parsed := [], [];
      parse := parser;
    }

    /** The transport makes more characters available. */
    method Receive(text: seq<Char>)
      modifies this`stream
      ensures stream == old(stream) + text
    {
      stream := stream + text;
    }

    /**
     * Takes one character into the two slots: a digit is buffered (pushing out
     * the older of two buffered digits), whitespace after two digits yields
     * their byte and empties the slots, anything else is ignored.
     */
    method Consume(data: Char) returns (midiByte: Option<Byte>)
      modifies this`firstChar, this`secondChar
      ensures StepResult(Buffer(), midiByte) == Step(old(Buffer()), data)
    {
      midiByte := None;
      if IsHexChar(ToLowerCase(data)) {
        var digit := ToLowerCase(data);
        if firstChar == NUL {
          firstChar := digit;
        } else if secondChar == NUL {
          secondChar := digit;
        } else {
          firstChar := secondChar;
          secondChar := digit;
        }
      } else if IsWhiteSpace(data) && firstChar != NUL && secondChar != NUL {
        midiByte := Some((HexCharToNibble(firstChar) << 4) | HexCharToNibble(secondChar));
        firstChar := NUL;
        secondChar := NUL;
      }
    }

    /**
     * Consumes characters until a parsed byte completes a message, whose parse
     * result it returns, or until the stream is drained.
     */
    method Read() returns (r: ReadResult)
      requires Valid()
      modifies this`firstChar, this`secondChar, this`stream, this`parsed
      ensures Valid()
      ensures ReadOutcome(r, Buffer(), stream, parsed) == ReadTotal(old(Buffer()), old(stream), old(parsed), parse)
    {
      while stream != []
        invariant Valid()
        invariant ReadTotal(Buffer(), stream, parsed, parse) == ReadTotal(old(Buffer()), old(stream), old(parsed), parse)
        decreases |stream|
      {
        ReadTotalUnfold(Buffer(), stream, parsed, parse);
        var data := stream[0];
        stream := stream[1..];
        var midiByte := Consume(data);
        if midiByte.Some? {
          parsed := parsed + [midiByte.value];
          var parseResult := parse(parsed);
          if parseResult != NoMessage {
            return parseResult;
          }
        }
      }
      r := NoMessage;
    }
  }

  // ---------------------------------------------------------------------------
  // The status-type guard of sendImpl
  // ---------------------------------------------------------------------------

  /** The channel voice messages, in the order of `MIDI_STATUS_TYPE_NAMES`. */
  datatype StatusType =
    | NoteOff | NoteOn | KeyPressure | ControlChange
    | ProgramChange | ChannelPressure | PitchBend

  const STATUS_TYPES: seq<StatusType> :=
    [NoteOff, NoteOn, KeyPressure, ControlChange, ProgramChange, ChannelPressure, PitchBend]

  /**
   * The status nibble of each kind, from the Channel Voice Messages table of
   * the MIDI 1.0 Detailed Specification (8n Note Off ... En Pitch Bend).
   */
  function StatusNibble(t: StatusType): (n: Byte)
    ensures 0x8 <= n <= 0xE
    ensures STATUS_TYPES[n - 8] == t
  {
    match t
    case NoteOff => 0x8
    case NoteOn => 0x9
    case KeyPressure => 0xA
    case ControlChange => 0xB
    case ProgramChange => 0xC
    case ChannelPressure => 0xD
    case PitchBend => 0xE
  }

  /**
   * `messageType = (m >> 4) - 8` computed in `uint8_t`, so that statuses below
   * 0x80 wrap to 248-255; anything from 7 up is dropped.
   */
  function MessageType(m: Byte): (r: Option<StatusType>)
    ensures r.Some? <==> 0x80 <= m <= 0xEF
    ensures r.Some? ==> StatusNibble(r.value) == m >> 4
  {
    var messageType := ((m >> 4) as int - 8) % 256;
    if messageType >= 7 then None else Some(STATUS_TYPES[messageType])
  }

  /** A status byte built from a kind and a channel is classified as that kind. */
  lemma MessageTypeOfStatus(t: StatusType, channel: Byte)
    requires channel < 16
    ensures MessageType((StatusNibble(t) << 4) | channel) == Some(t)
  {
    var m := (StatusNibble(t) << 4) | channel;
    assert m >> 4 == StatusNibble(t);
  }

  /**
   * The fields a debug line shows: the kind's name, the channel counted from
   * one, and the data bytes.
   */
  datatype DebugLine = DebugLine(kind: StatusType, channel: int, data1: Byte, data2: Option<Byte>)

  /** `sendImpl` for a message with two data bytes: the line it prints, if any. */
  function SendImpl(m: Byte, c: Byte, d1: Byte, d2: Byte): (line: Option<DebugLine>)
    ensures line.Some? <==> 0x80 <= m <= 0xEF
    ensures line.Some? ==>
      && StatusNibble(line.value.kind) == m >> 4
      && line.value.channel == c as int + 1
      && line.value.data1 == d1 && line.value.data2 == Some(d2)
  {
    match MessageType(m)
    case None => None
    case Some(t) => Some(DebugLine(t, c as int + 1, d1, Some(d2)))
  }

  /** `sendImpl` for a message with one data byte: the line it prints, if any. */
  function SendImplOneDataByte(m: Byte, c: Byte, d1: Byte): (line: Option<DebugLine>)
    ensures line.Some? <==> 0x80 <= m <= 0xEF
    ensures line.Some? ==>
      && StatusNibble(line.value.kind) == m >> 4
      && line.value.channel == c as int + 1
      && line.value.data1 == d1 && line.value.data2 == None
  {
    match MessageType(m)
    case None => None
    case Some(t) => Some(DebugLine(t, c as int + 1, d1, None))
  }
}
