/**
 * The bankable momentary push button: on a press it locks its bank setting and
 * sends "on" to the resolved channel and address, on a release it sends "off"
 * to the same resolved channel and address and then unlocks.
 *
 * The bank-selection mechanism owns the current bank offset; the button owns
 * its lock. How the base values and the offset combine, and what `lock` does
 * when the button is already locked, are not visible in the source: offsets
 * are added as plain integers, and a second `lock` keeps the frozen offset.
 */
module BankableMidiButton {
  import opened Wrappers

  /** `uint8_t`, the type of the base address and base channel. */
  newtype uint8 = x: int | 0 <= x < 256

  /** The debounced state of the button as `Button::getState` reports it. */
  datatype ButtonState = Pressed | Released | Falling | Rising

  /** The increment a bank applies to channel and address. */
  datatype Offset = Offset(channel: int, address: int)

  /** A resolved (channel, address) pair: where a message goes. */
  datatype Target = Target(channel: int, address: int)

  datatype MessageKind = On | Off

  /** One call of `Sender::sendOn` or `Sender::sendOff`. */
  datatype Event = Event(kind: MessageKind, target: Target)

  /** Whether the button has frozen a bank offset, and which one. */
  datatype LockState = Unlocked | Locked(frozen: Offset)

  /** `getChannel(baseChannel)` and `getAddress(baseAddress)` under a given offset. */
  function Resolve(baseChannel: uint8, baseAddress: uint8, offset: Offset): Target {
    Target(baseChannel as int + offset.channel, baseAddress as int + offset.address)
  }

  /** The offset addressing uses: the frozen one while locked, the bank's otherwise. */
  function EffectiveOffset(lock: LockState, current: Offset): Offset {
    if lock.Locked? then lock.frozen else current
  }

  /** `lock()`: freezes the bank's current offset unless one is frozen already. */
  function LockOn(lock: LockState, current: Offset): (l: LockState)
    ensures l.Locked?
    ensures lock.Unlocked? ==> l.frozen == current
    ensures lock.Locked? ==> l == lock
  {
    if lock.Locked? then lock else Locked(current)
  }

  /** The lock state after an update, and the message it sent if any. */
  datatype UpdateResult = UpdateResult(lock: LockState, event: Option<Event>)

  /**
   * What one `update()` does, given the lock, the bank's current offset and
   * the button state: lock then send "on" on a falling edge, send "off" then
   * unlock on a rising edge, nothing otherwise.
   */
  function Updated(lock: LockState, current: Offset, baseChannel: uint8, baseAddress: uint8, state: ButtonState): (u: UpdateResult)
    ensures u.event.Some? <==> state == Falling || state == Rising
    ensures u.event.Some? ==> (u.event.value.kind == On <==> state == Falling)
    ensures u.event.Some? ==> u.event.value.target == Resolve(baseChannel, baseAddress, EffectiveOffset(if state == Falling then u.lock else lock, current))
    ensures state == Falling ==> u.lock.Locked?
    ensures state == Rising ==> u.lock == Unlocked
    ensures u.event.None? ==> u.lock == lock
  {
    match state
    case Falling =>
      var locked := LockOn(lock, current);
      UpdateResult(locked, Some(Event(On, Resolve(baseChannel, baseAddress, EffectiveOffset(locked, current)))))
    case Rising =>
      var target := Resolve(baseChannel, baseAddress, EffectiveOffset(lock, current));
      UpdateResult(Unlocked, Some(Event(Off, target)))
    case _ => UpdateResult(lock, None)
  }

  /**
   * A falling edge leaves the button locked and sends "on" to the target of
   * the frozen offset, which is the bank's current offset when the button was
   * unlocked.
   */
  lemma FallingLocksThenSendsOn(lock: LockState, current: Offset, baseChannel: uint8, baseAddress: uint8)
    ensures
      var u := Updated(lock, current, baseChannel, baseAddress, Falling);
      && u.lock.Locked?
      && u.event == Some(Event(On, Resolve(baseChannel, baseAddress, u.lock.frozen)))
      && (lock.Unlocked? ==> u.lock.frozen == current)
      && (lock.Locked? ==> u.lock == lock)
  {
  }

  /**
   * A rising edge sends "off" to the target of the offset in force before it,
   * the frozen one when the button was locked, and leaves the button unlocked.
   */
  lemma RisingSendsOffThenUnlocks(lock: LockState, current: Offset, baseChannel: uint8, baseAddress: uint8)
    ensures
      var u := Updated(lock, current, baseChannel, baseAddress, Rising);
      && u.lock == Unlocked
      && u.event == Some(Event(Off, Resolve(baseChannel, baseAddress, EffectiveOffset(lock, current))))
      && (lock.Locked? ==> u.event.value.target == Resolve(baseChannel, baseAddress, lock.frozen))
  {
  }

  /** A steady state sends nothing and leaves the lock as it was. */
  lemma SteadyStateIsQuiet(lock: LockState, current: Offset, baseChannel: uint8, baseAddress: uint8, state: ButtonState)
    requires state == Pressed || state == Released
    ensures Updated(lock, current, baseChannel, baseAddress, state) == UpdateResult(lock, None)
  {
  }

  /** While the button is locked, a bank change does not move the target of its messages. */
  lemma LockedTargetIgnoresBank(frozen: Offset, current: Offset, other: Offset, baseChannel: uint8, baseAddress: uint8, state: ButtonState)
    ensures
      Updated(Locked(frozen), current, baseChannel, baseAddress, state) ==
      Updated(Locked(frozen), other, baseChannel, baseAddress, state)
  {
  }

  // ---------------------------------------------------------------------------
  // Runs of polls and bank changes
  // ---------------------------------------------------------------------------

  /** What happens between two messages: a poll of `update()`, or a bank selection. */
  datatype Input = Poll(state: ButtonState) | SelectBank(offset: Offset)

  /** The button's lock together with the bank's current offset. */
  datatype Machine = Machine(lock: LockState, offset: Offset)

  datatype RunResult = RunResult(machine: Machine, events: seq<Event>)

  /** The effect of one input. */
  function Apply(baseChannel: uint8, baseAddress: uint8, m: Machine, input: Input): (r: RunResult)
    ensures |r.events| <= 1
    ensures input.Poll? ==> r.machine.offset == m.offset
    ensures input.SelectBank? ==> r == RunResult(Machine(m.lock, input.offset), [])
  {
    match input
    case Poll(state) =>
      var u := Updated(m.lock, m.offset, baseChannel, baseAddress, state);
      RunResult(m.(lock := u.lock), ToSeq(u.event))
    case SelectBank(offset) => RunResult(m.(offset := offset), [])
  }

  /** The effect of a sequence of inputs: the final machine and every message sent, in order. */
  function Run(baseChannel: uint8, baseAddress: uint8, m: Machine, inputs: seq<Input>): (r: RunResult)
    ensures |r.events| <= |inputs|
    decreases |inputs|
  {
    if inputs == [] then RunResult(m, [])
    else
      var first := Apply(baseChannel, baseAddress, m, inputs[0]);
      var rest := Run(baseChannel, baseAddress, first.machine, inputs[1..]);
      RunResult(rest.machine, first.events + rest.events)
  }

  /** Running `a + b` is running `a`, then `b` from where `a` left off. */
  lemma {:induction false} RunConcat(baseChannel: uint8, baseAddress: uint8, m: Machine, a: seq<Input>, b: seq<Input>)
    ensures
      var ra := Run(baseChannel, baseAddress, m, a);
      var rb := Run(baseChannel, baseAddress, ra.machine, b);
      Run(baseChannel, baseAddress, m, a + b) == RunResult(rb.machine, ra.events + rb.events)
    decreases |a|
  {
    if a == [] {
      assert a + b == b;
    } else {
      assert (a + b)[0] == a[0] && (a + b)[1..] == a[1..] + b;
      var first := Apply(baseChannel, baseAddress, m, a[0]);
      RunConcat(baseChannel, baseAddress, first.machine, a[1..], b);
      var ra := Run(baseChannel, baseAddress, first.machine, a[1..]);
      var rb := Run(baseChannel, baseAddress, ra.machine, b);
      assert first.events + (ra.events + rb.events) == (first.events + ra.events) + rb.events;
    }
  }

  /** A bank selection, or a poll that sees no edge. */
  predicate Holding(input: Input) {
    input.SelectBank? || input.state == Pressed || input.state == Released
  }

  /** While the button is held, polls and bank changes send nothing and keep the lock. */
  lemma {:induction false} HoldingIsQuiet(baseChannel: uint8, baseAddress: uint8, m: Machine, inputs: seq<Input>)
    requires forall i :: 0 <= i < |inputs| ==> Holding(inputs[i])
    ensures Run(baseChannel, baseAddress, m, inputs).events == []
    ensures Run(baseChannel, baseAddress, m, inputs).machine.lock == m.lock
    decreases |inputs|
  {
    if inputs != [] {
      var first := Apply(baseChannel, baseAddress, m, inputs[0]);
      assert first.events == [] && first.machine.lock == m.lock;
      HoldingIsQuiet(baseChannel, baseAddress, first.machine, inputs[1..]);
    }
  }

  /**
   * The lock invariant: a press, any bank changes and steady polls, then a
   * release send exactly one "on" and one "off", both to the target the bank
   * offset resolved to at the press, and leave the button unlocked.
   */
  lemma GestureTargetsOneAddress(baseChannel: uint8, baseAddress: uint8, m: Machine, held: seq<Input>)
    requires m.lock == Unlocked
    requires forall i :: 0 <= i < |held| ==> Holding(held[i])
    ensures
      var t := Resolve(baseChannel, baseAddress, m.offset);
      var r := Run(baseChannel, baseAddress, m, [Poll(Falling)] + held + [Poll(Rising)]);
      && r.events == [Event(On, t), Event(Off, t)]
      && r.machine.lock == Unlocked
  {
    var t := Resolve(baseChannel, baseAddress, m.offset);
    var press := Run(baseChannel, baseAddress, m, [Poll(Falling)]);
    assert press == RunResult(m.(lock := Locked(m.offset)), [Event(On, t)]);
    var hold := Run(baseChannel, baseAddress, press.machine, held);
    HoldingIsQuiet(baseChannel, baseAddress, press.machine, held);
    var release := Run(baseChannel, baseAddress, hold.machine, [Poll(Rising)]);
    assert release.events == [Event(Off, t)] && release.machine.lock == Unlocked;
    RunConcat(baseChannel, baseAddress, m, [Poll(Falling)], held);
    RunConcat(baseChannel, baseAddress, m, [Poll(Falling)] + held, [Poll(Rising)]);
  }

  /**
   * The edges of a debounced button alternate: a falling edge only while
   * released, a rising edge only while pressed.
   */
  predicate EdgesAlternate(pressed: bool, inputs: seq<Input>)
    decreases |inputs|
  {
    if inputs == [] then true
    else if inputs[0] == Poll(Falling) then !pressed && EdgesAlternate(true, inputs[1..])
    else if inputs[0] == Poll(Rising) then pressed && EdgesAlternate(false, inputs[1..])
    else EdgesAlternate(pressed, inputs[1..])
  }

  /**
   * Every "on" is followed by an "off" to the same target before the next
   * "on"; `pending` is the target of an "on" still awaiting its "off".
   */
  predicate Paired(pending: Option<Target>, events: seq<Event>)
    decreases |events|
  {
    if events == [] then true
    else if pending.Some? then events[0] == Event(Off, pending.value) && Paired(None, events[1..])
    else events[0].kind == On && Paired(Some(events[0].target), events[1..])
  }

  /**
   * With alternating edges, whatever the bank does in between, the messages
   * come in "on"/"off" pairs addressed to one target each.
   */
  lemma {:induction false} AlternatingEdgesArePaired(baseChannel: uint8, baseAddress: uint8, m: Machine, inputs: seq<Input>)
    requires EdgesAlternate(m.lock.Locked?, inputs)
    ensures
      var pending := if m.lock.Locked? then Some(Resolve(baseChannel, baseAddress, m.lock.frozen)) else None;
      Paired(pending, Run(baseChannel, baseAddress, m, inputs).events)
    decreases |inputs|
  {
    if inputs != [] {
      var first := Apply(baseChannel, baseAddress, m, inputs[0]);
      var rest := Run(baseChannel, baseAddress, first.machine, inputs[1..]);
      AlternatingEdgesArePaired(baseChannel, baseAddress, first.machine, inputs[1..]);
      if inputs[0] == Poll(Falling) || inputs[0] == Poll(Rising) {
        assert (first.events + rest.events)[1..] == rest.events;
      } else {
        assert first.events == [] && first.machine.lock == m.lock;
        assert first.events + rest.events == rest.events;
      }
    }
  }

  /**
   * `update()` has no guard against a repeated falling edge: a second one
   * sends a second "on", to the same target since the lock is kept.
   */
  lemma RepeatedFallingSendsOnAgain(baseChannel: uint8, baseAddress: uint8, m: Machine, offset: Offset)
    requires m.lock == Unlocked
    ensures
      var t := Resolve(baseChannel, baseAddress, m.offset);
      Run(baseChannel, baseAddress, m, [Poll(Falling), SelectBank(offset), Poll(Falling)]).events
        == [Event(On, t), Event(On, t)]
  {
    var t := Resolve(baseChannel, baseAddress, m.offset);
    var inputs := [Poll(Falling), SelectBank(offset), Poll(Falling)];
    var m1 := m.(lock := Locked(m.offset));
    assert inputs[1..][1..][1..] == [];
    assert Run(baseChannel, baseAddress, m1.(offset := offset), inputs[1..][1..]).events == [Event(On, t)];
  }

  // ---------------------------------------------------------------------------
  // The objects
  // ---------------------------------------------------------------------------

  /** The bank-selection mechanism: it owns the current offset shared by the buttons of a bank. */
  class Bank {
    var offset: Offset

    constructor (offset: Offset)
      ensures this.offset == offset
    {
      this.offset := offset;
    }

    /** Selects another bank. */
    method Select(offset: Offset)
      modifies this
      ensures this.offset == offset
    {
      this.offset := offset;
    }
  }

  /** `BankableNS::MIDIButton`, with the sends it has made recorded in `sent`. */
  class MidiButton {
    const baseAddress: uint8
    const baseChannel: uint8
    /** The bank this button follows. */
    const bank: Bank
    var lock: LockState
    /** Every `sendOn`/`sendOff`, oldest first. */
    var sent: seq<Event>

    /** The debounced pin is not modelled: the state is passed to Update. */
    constructor (bank: Bank, baseAddress: uint8, baseChannel: uint8)
      ensures this.bank == bank && this.baseAddress == baseAddress && this.baseChannel == baseChannel
      ensures lock == Unlocked && sent == []
    {
      this.bank := bank;
      this.baseAddress := baseAddress;
      this.baseChannel := baseChannel;
      lock := Unlocked;
      sent := [];
    }

    /** `getChannel(base)`: the base plus the channel part of the offset in force. */
    function GetChannel(base: uint8): (channel: int)
      reads this, bank
      ensures lock.Locked? ==> channel == base as int + lock.frozen.channel
      ensures lock.Unlocked? ==> channel == base as int + bank.offset.channel
    {
      base as int + EffectiveOffset(lock, bank.offset).channel
    }

    /** `getAddress(base)`: the base plus the address part of the offset in force. */
    function GetAddress(base: uint8): (address: int)
      reads this, bank
      ensures lock.Locked? ==> address == base as int + lock.frozen.address
      ensures lock.Unlocked? ==> address == base as int + bank.offset.address
    {
      base as int + EffectiveOffset(lock, bank.offset).address
    }

    method Lock()
      modifies this`lock
      ensures lock == LockOn(old(lock), bank.offset)
    {
      if lock.Unlocked? {
        lock := Locked(bank.offset);
      }
    }

    method Unlock()
      modifies this`lock
      ensures lock == Unlocked
    {
      lock := Unlocked;
    }

    method SendOn(channel: int, address: int)
      modifies this`sent
      ensures sent == old(sent) + [Event(On, Target(channel, address))]
    {
      sent := sent + [Event(On, Target(channel, address))];
    }

    method SendOff(channel: int, address: int)
      modifies this`sent
      ensures sent == old(sent) + [Event(Off, Target(channel, address))]
    {
      sent := sent + [Event(Off, Target(channel, address))];
    }

    /** `update()`: one poll of the button. */
    method Update(state: ButtonState)
      modifies this`lock, this`sent
      ensures
        var u := Updated(old(lock), bank.offset, baseChannel, baseAddress, state);
        lock == u.lock && sent == old(sent) + ToSeq(u.event)
    {
      if state == Falling {
        Lock();
        SendOn(GetChannel(baseChannel), GetAddress(baseAddress));
      } else if state == Rising {
        SendOff(GetChannel(baseChannel), GetAddress(baseAddress));
        Unlock();
      }
    }
  }

  /**
   * A press on a note button with base (channel 0, address 36) while the bank
   * adds 2 to the address, a switch to +5 while it is held, then the release:
   * both messages go to address 38, none to 41.
   */
  method HeldPressAcrossBankChange() returns (events: seq<Event>)
    ensures events == [Event(On, Target(0, 38)), Event(Off, Target(0, 38))]
  {
    var bank := new Bank(Offset(0, 2));
    var button := new MidiButton(bank, 36, 0);
    button.Update(Falling);
    button.Update(Pressed);
    bank.Select(Offset(0, 5));
    button.Update(Pressed);
    button.Update(Rising);
    events := button.sent;
  }
}
