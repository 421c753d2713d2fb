/** The e-ink terminal: the keyboard edits a message shown on the screen, and the radio session sends it and logs what is received. */
module Eink {
  import opened Base
  import opened Input
  import opened Interface
  import opened Stuff

  // ---------------------------------------------------------------------
  // run_state, as a transition

  /** What `run_state` returns: the next state, an error, or a panic. */
  datatype Result = Done(state: State) | Failed(error: Error) | Panic

  /** One `run_state` call: its result, the driver calls it made, the new `sending` flag, whether the send buffer was cleared, and the packet it logged. */
  datatype Step = Step(result: Result, calls: seq<Call>, sending: bool, cleared: bool, logged: Option<Packet>)

  /** The bytes a received packet may hold, in all three programs: a packet longer than the 256-byte buffer makes the slice `buff[..len]` panic. */
  const ReceiveCapacity: nat := 256

  /** A call whose only outcome is success or an error: `done` on success. */
  function Started(reply: Reply<()>, call: Call, done: State, sending: bool): Step
  {
    match reply
    case Ok(_) => Step(Done(done), [call], sending, false, None)
    case Err(e) => Step(Failed(From(e)), [call], sending, false, None)
  }

  /** A polling call: `yes` when it answers true, `no` when it answers false. */
  function Await(reply: Reply<bool>, call: Call, yes: State, no: State, sending: bool): Step
  {
    match reply
    case Ok(b) => Step(Done(if b then yes else no), [call], sending, false, None)
    case Err(e) => Step(Failed(From(e)), [call], sending, false, None)
  }

  /** `State::run_state` in state `s`, with the `sending` flag, the text of the send buffer and the driver's replies. */
  function Transition(s: State, sending: bool, payload: seq<u8>, radio: Replies): (r: Step)
    ensures |r.calls| <= 1
    ensures r.calls == [] <==> s == Init || s == Reset
    ensures forall c :: c in r.calls ==> (c.StartTransmit? <==> s == Idle && sending)
    ensures s == Idle && sending ==> r.calls == [StartTransmit(payload)]
    ensures r.cleared <==> s == Idle && sending && radio.startTransmit.Ok?
    ensures r.sending == (sending && !r.cleared)
    ensures r.logged.Some? <==> s == Received && r.result.Done?
    ensures r.logged.Some? ==> radio.getReceived == Ok(r.logged.value)
    ensures r.result == Panic <==>
      s == Reset || (s == Received && radio.getReceived.Ok? && |radio.getReceived.value.data| > ReceiveCapacity)
    ensures r.result.Failed? ==> r.calls != [] && r.result.error.radio in ErrorsOf(radio)
    ensures s == Init ==> r.result == Done(PrepareIdle)
    ensures s == PrepareIdle || s == SendingDone ==> r.calls == [StartReceive]
    ensures (s == PrepareIdle || s == SendingDone) && radio.startReceive.Ok? ==> r.result == Done(Idle)
    ensures (s == PrepareIdle || s == SendingDone) && radio.startReceive.Err? ==>
      r.result == Failed(From(radio.startReceive.error))
    ensures s == Idle && sending && radio.startTransmit.Ok? ==> r.result == Done(Sending)
    ensures s == Idle && sending && radio.startTransmit.Err? ==> r.result == Failed(From(radio.startTransmit.error))
    ensures s == Idle && !sending ==> r.calls == [CheckReceive]
    ensures s == Idle && !sending && radio.checkReceive.Ok? ==>
      r.result == Done(if radio.checkReceive.value then Received else Idle)
    ensures s == Idle && !sending && radio.checkReceive.Err? ==> r.result == Failed(From(radio.checkReceive.error))
    ensures s == Sending ==> r.calls == [CheckTransmit]
    ensures s == Sending && radio.checkTransmit.Ok? ==>
      r.result == Done(if radio.checkTransmit.value then SendingDone else Sending)
    ensures s == Sending && radio.checkTransmit.Err? ==> r.result == Failed(From(radio.checkTransmit.error))
    ensures s == Received ==> r.calls == [GetReceived]
    ensures s == Received && radio.getReceived.Err? ==> r.result == Failed(From(radio.getReceived.error))
    ensures s == Received && radio.getReceived.Ok? && |radio.getReceived.value.data| <= ReceiveCapacity ==>
      r.result == Done(PrepareIdle)
  {
    match s
    case Init => Step(Done(PrepareIdle), [], sending, false, None)
    case Reset => Step(Panic, [], sending, false, None)
    case PrepareIdle => Started(radio.startReceive, StartReceive, Idle, sending)
    case Idle =>
      if sending then
        (match radio.startTransmit
         case Ok(_) => Step(Done(Sending), [StartTransmit(payload)], false, true, None)
         case Err(e) => Step(Failed(From(e)), [StartTransmit(payload)], sending, false, None))
      else
        Await(radio.checkReceive, CheckReceive, Received, Idle, sending)
    case Sending => Await(radio.checkTransmit, CheckTransmit, SendingDone, Sending, sending)
    case Received =>
      (match radio.getReceived
       case Err(e) => Step(Failed(From(e)), [GetReceived], sending, false, None)
       case Ok(p) =>
         if |p.data| > ReceiveCapacity then Step(Panic, [GetReceived], sending, false, None)
         else Step(Done(PrepareIdle), [GetReceived], sending, false, Some(p)))
    case SendingDone => Started(radio.startReceive, StartReceive, Idle, sending)
  }

  // ---------------------------------------------------------------------
  // The main loop's handling of the result

  /** What the main loop does next: run the session in `state`, or halt (a panic). */
  datatype Verdict = Next(state: State) | Halt

  /** The main loop's recovery from a radio error: a hardware or configuration fault halts, a lost transaction restarts the reception, and a confused radio goes to Reset. */
  function Recover(e: Error): (v: Verdict)
    ensures v == Halt <==> e.radio.Hal? || e.radio.InvalidConfiguration?
    ensures v == Next(PrepareIdle) <==> e.radio.Aborted? || e.radio.Crc? || e.radio.BufferSize?
    ensures v == Next(Reset) <==> e.radio.InvalidResponse? || e.radio.Timeout? || e.radio.InvalidDevice?
  {
    match e.radio
    case Hal(_) => Halt
    case InvalidConfiguration => Halt
    case Aborted => Next(PrepareIdle)
    case InvalidResponse => Next(Reset)
    case Timeout => Next(Reset)
    case Crc => Next(PrepareIdle)
    case BufferSize => Next(PrepareIdle)
    case InvalidDevice(_) => Next(Reset)
  }

  /** The state the main loop keeps after `run_state` returned `r`. */
  function Settle(r: Result): Verdict
  {
    match r
    case Done(s) => Next(s)
    case Failed(e) => Recover(e)
    case Panic => Halt
  }

  /** The next state of the main loop, for one pass of the session. */
  function Advance(s: State, sending: bool, payload: seq<u8>, radio: Replies): Verdict
  {
    Settle(Transition(s, sending, payload, radio).result)
  }

  /** An error never leaves the radio half-way through an exchange: the loop halts, restarts the reception or resets. */
  lemma ErrorsRestart(s: State, sending: bool, payload: seq<u8>, radio: Replies)
    requires Transition(s, sending, payload, radio).result.Failed?
    ensures Advance(s, sending, payload, radio) in {Halt, Next(PrepareIdle), Next(Reset)}
  {
  }

  /** Reset is reached only to halt: the pass after it panics whatever the radio answers. */
  lemma ResetHalts(sending: bool, payload: seq<u8>, radio: Replies)
    ensures Advance(Reset, sending, payload, radio) == Halt
    ensures Transition(Reset, sending, payload, radio).calls == []
  {
  }

  /** Waiting is indefinite: as long as the driver answers false, Idle (not sending) and Sending stay where they are. */
  lemma WaitingLoops(payload: seq<u8>, radio: Replies)
    ensures radio.checkReceive == Ok(false) ==> Advance(Idle, false, payload, radio) == Next(Idle)
    ensures radio.checkTransmit == Ok(false) ==> Advance(Sending, false, payload, radio) == Next(Sending)
  {
  }

  /** The whole send cycle when the radio cooperates: Idle with a message transmits it once and clears the buffer, Sending waits for the end of the transmission, and SendingDone listens again. */
  lemma SendCycle(payload: seq<u8>, r1: Replies, r2: Replies, r3: Replies)
    requires r1.startTransmit.Ok? && r2.checkTransmit == Ok(true) && r3.startReceive.Ok?
    ensures Transition(Idle, true, payload, r1) == Step(Done(Sending), [StartTransmit(payload)], false, true, None)
    ensures Transition(Sending, false, payload, r2) == Step(Done(SendingDone), [CheckTransmit], false, false, None)
    ensures Transition(SendingDone, false, payload, r3) == Step(Done(Idle), [StartReceive], false, false, None)
  {
  }

  /** A received packet is logged and the radio listens again; the packet is never sent back. */
  lemma ReceivedLogs(sending: bool, payload: seq<u8>, radio: Replies)
    requires radio.getReceived.Ok? && |radio.getReceived.value.data| <= ReceiveCapacity
    ensures Transition(Received, sending, payload, radio) ==
      Step(Done(PrepareIdle), [GetReceived], sending, false, Some(radio.getReceived.value))
  {
  }

  // ---------------------------------------------------------------------
  // The main loop's reaction to the keyboard

  /** The screen after the main loop reacted to `input`; `text` and `cursor` are the buffer's decoded text and cursor. None when `set_input` panics. */
  function Echo(s: Screen, input: InputState, text: Option<string>, cursor: nat): (r: Option<Screen>)
    ensures r.Some? ==> r.value.title == s.title && r.value.body == s.body && r.value.delay == s.delay
    ensures input.Running? ==> r.Some? && r.value.input == s.input && r.value.cursor == s.cursor
    ensures input.Running? ==> (r.value.overlay == Some(LayoutNum) <==> input.key & Modifiers == DollarKey)
    ensures input.Running? ==> (r.value.overlay == None <==> input.key & Modifiers != DollarKey)
    ensures input == Updated ==> (r.Some? <==> ShowInput(text, cursor).Some?)
    ensures input == Updated && r.Some? ==>
      r.value.input == ShowInput(text, cursor).value.text && r.value.cursor == ShowInput(text, cursor).value.cursor
      && r.value.inputModified
    ensures input == Validated ==> r.Some? && r.value.input == "" && r.value.cursor == 0 && r.value.inputModified
    ensures input == Overflow || input.NotForMe? ==> r == Some(s)
  {
    match input
    case Running(key) => Some(Overlaid(s, if key & Modifiers == DollarKey then Some(LayoutNum) else None))
    case Updated =>
      (match ShowInput(text, cursor)
       case None => None
       case Some(v) => Some(Shown(s, v)))
    case Validated => Some(Shown(s, InputView("", 0)))
    case Overflow => Some(s)
    case NotForMe(_) => Some(s)
  }

  /** The text `run_state` transmits, and the editor it starts from, after the keyboard was polled (or not, while sending). */
  function Polled(sending: bool, e: Editor, key: Keys): Editor
    requires ValidEditor(e)
  {
    if sending then e else Process(e, key).next
  }

  // ---------------------------------------------------------------------
  // The program

  /** The title the terminal shows. */
  const Title: string := "Rusty Communicator"

  /** The zeroed 128-byte send buffer. */
  function Zeros(n: nat): seq<u8>
  {
    seq(n, _ => 0)
  }

  /** The set-up of `main`: state Init, an empty 128-byte buffer, not sending, and the screen with its title, drawn once. */
  method Setup() returns (state: State, sending: bool, buffer: InputBuffer, ui: Oled128x128, events: seq<DrawEvent>)
    ensures fresh(buffer) && fresh(buffer.buffer) && fresh(ui) && fresh(ui.body)
    ensures buffer.Valid() && ui.Valid()
    ensures state == Init && !sending
    ensures buffer.State() == Editor(Zeros(128), 0, true, 0)
    ensures Frame(ui.State(), events) == DrawFrame(NewScreen().(title := Title, titleModified := true))
  {
    state := Init;
    buffer := new InputBuffer(128);
    sending := false;
    ui := new Oled128x128();
    ui.SetTitle(Title);
    assert IsAscii(Title);
    AsciiPush(Title, TextCapacity);
    events := ui.Draw();
  }

  /** The keyboard part of one pass: the mask is processed, and the screen follows (layer overlay, edited text, emptied row). Returns false in `ok` when `set_input` panics. */
  method Poll(key: Keys, buffer: InputBuffer, ui: Oled128x128, utf8: seq<u8> -> Option<string>) returns (input: InputState, ok: bool)
    requires buffer.Valid() && ui.Valid()
    modifies buffer, buffer.buffer, ui
    ensures buffer.Valid() && ui.Valid()
    ensures Outcome(buffer.State(), input) == Process(old(buffer.State()), key)
    ensures var r := Echo(old(ui.State()), input, utf8(Text(buffer.buffer[..])), buffer.cursor);
      (ok <==> r.Some?) && (ok ==> ui.State() == r.value)
  {
    input := buffer.ProcessInput(key);
    ok := React(input, buffer, ui, utf8);
  }

  /** The screen's part of `Poll`, once the mask has been processed. */
  method React(input: InputState, buffer: InputBuffer, ui: Oled128x128, utf8: seq<u8> -> Option<string>) returns (ok: bool)
    requires buffer.Valid() && ui.Valid()
    modifies ui
    ensures ui.Valid()
    ensures var r := Echo(old(ui.State()), input, utf8(Text(buffer.buffer[..])), buffer.cursor);
      (ok <==> r.Some?) && (ok ==> ui.State() == r.value)
  {
    ok := true;
    match input {
      case Running(k) =>
        if k & Modifiers == DollarKey {
          ui.SetOverlay(Some(LayoutNum));
        } else {
          ui.SetOverlay(None);
        }
      case Updated =>
        var data := buffer.GetData();
        var at := buffer.GetCursor();
        ok := ui.SetInput(utf8(data), at);
      case Overflow =>
      case Validated =>
        assert IsAscii("");
        AsciiPush("", TextCapacity);
        ok := ui.SetInput(Some(""), 0);
      case NotForMe(_) =>
    }
  }

  /** `State::run_state`: the driver calls of `Transition`, with its effects on the send buffer and on the log. `utf8` decodes a packet's bytes. */
  method RunState(s: State, sending: bool, radio: Replies, buffer: InputBuffer, ui: Oled128x128, utf8: seq<u8> -> Option<string>)
    returns (result: Result, sendingOut: bool, calls: seq<Call>)
    requires buffer.Valid() && ui.Valid()
    modifies buffer, buffer.buffer, ui.body, ui`bodyModified
    ensures buffer.Valid() && ui.Valid()
    ensures var r := Transition(s, sending, Text(old(buffer.buffer[..])), radio);
      && result == r.result && sendingOut == r.sending && calls == r.calls
      && buffer.State() == (if r.cleared then old(buffer.State()).(data := Zeros(buffer.buffer.Length), cursor := 0) else old(buffer.State()))
      && ui.body[..] == (if r.logged.Some? then Scroll(old(ui.body[..]), LogOf(utf8(r.logged.value.data), r.logged.value.snr, Some(r.logged.value.rssi))) else old(ui.body[..]))
      && ui.bodyModified == (old(ui.bodyModified) || (r.logged.Some? && LogOf(utf8(r.logged.value.data), r.logged.value.snr, Some(r.logged.value.rssi)) != []))
  {
    sendingOut := sending;
    match s {
      case Init =>
        result, calls := Done(PrepareIdle), [];
      case Reset =>
        result, calls := Panic, [];
      case PrepareIdle =>
        result, calls := StartReception(radio);
      case Idle =>
        if sending {
          var data := buffer.GetData();
          calls := [StartTransmit(data)];
          match radio.startTransmit {
            case Err(e) =>
              result := Failed(From(e));
            case Ok(_) =>
              buffer.Clear();
              sendingOut := false;
              result := Done(Sending);
          }
        } else {
          calls := [CheckReceive];
          match radio.checkReceive {
            case Err(e) => result := Failed(From(e));
            case Ok(b) => result := if b then Done(Received) else Done(Idle);
          }
        }
      case Sending =>
        calls := [CheckTransmit];
        match radio.checkTransmit {
          case Err(e) => result := Failed(From(e));
          case Ok(b) => result := if b then Done(SendingDone) else Done(Sending);
        }
      case Received =>
        calls := [GetReceived];
        match radio.getReceived {
          case Err(e) => result := Failed(From(e));
          case Ok(p) =>
            if |p.data| > ReceiveCapacity {
              result := Panic;
            } else {
              ui.AddLog(utf8(p.data), p.snr, Some(p.rssi));
              result := Done(PrepareIdle);
            }
        }
      case SendingDone =>
        result, calls := StartReception(radio);
    }
  }

  /** `lora.start_receive()?` followed by `Ok(State::Idle)`. */
  method StartReception(radio: Replies) returns (result: Result, calls: seq<Call>)
    ensures calls == [StartReceive]
    ensures radio.startReceive.Ok? <==> result == Done(Idle)
    ensures radio.startReceive.Err? ==> result == Failed(Radio(radio.startReceive.error))
  {
    calls := [StartReceive];
    match radio.startReceive {
      case Err(e) => result := Failed(From(e));
      case Ok(_) => result := Done(Idle);
    }
  }

  /** Whether the pass transmits: the flag was already set, or the keyboard was polled and the mask validated the message. */
  function Armed(sending: bool, e: Editor, key: Keys): bool
    requires ValidEditor(e)
  {
    sending || Process(e, key).ret == Validated
  }

  /** Whether polling the keyboard makes `set_input` panic: only while not sending, on an edit whose text does not fit the row. */
  function PollPanics(sending: bool, e: Editor, s: Screen, key: Keys, utf8: seq<u8> -> Option<string>): bool
    requires ValidEditor(e)
  {
    var o := Process(e, key);
    !sending && Echo(s, o.ret, utf8(Text(o.next.data)), o.next.cursor).None?
  }

  /** The keyboard part of a pass: `Poll` runs only while not sending. */
  method PollUnlessSending(sending: bool, key: Keys, buffer: InputBuffer, ui: Oled128x128, utf8: seq<u8> -> Option<string>)
    returns (go: bool, ok: bool)
    requires buffer.Valid() && ui.Valid()
    modifies buffer, buffer.buffer, ui
    ensures buffer.Valid() && ui.Valid()
    ensures buffer.State() == Polled(sending, old(buffer.State()), key)
    ensures go == Armed(sending, old(buffer.State()), key)
    ensures ok <==> !PollPanics(sending, old(buffer.State()), old(ui.State()), key, utf8)
  {
    go, ok := sending, true;
    if !sending {
      var input;
      input, ok := Poll(key, buffer, ui, utf8);
      go := input == Validated;
    }
  }

  /** One pass of the main loop: the keyboard is polled only while not sending, the session runs one step, its error is classified, and the screen is drawn. */
  method Pass(state: State, sending: bool, key: Keys, radio: Replies, buffer: InputBuffer, ui: Oled128x128, utf8: seq<u8> -> Option<string>)
    returns (verdict: Verdict, sendingOut: bool, calls: seq<Call>, events: seq<DrawEvent>)
    requires buffer.Valid() && ui.Valid()
    modifies buffer, buffer.buffer, ui, ui.body
    ensures buffer.Valid() && ui.Valid()
    ensures PollPanics(sending, old(buffer.State()), old(ui.State()), key, utf8) ==>
      verdict == Halt && calls == [] && events == []
    ensures !PollPanics(sending, old(buffer.State()), old(ui.State()), key, utf8) ==>
      var e := Polled(sending, old(buffer.State()), key);
      var r := Transition(state, Armed(sending, old(buffer.State()), key), Text(e.data), radio);
      && verdict == Settle(r.result) && sendingOut == r.sending && calls == r.calls
      && buffer.State() == (if r.cleared then e.(data := Zeros(|e.data|), cursor := 0) else e)
    ensures verdict == Halt ==> events == []
  {
    var go, ok := PollUnlessSending(sending, key, buffer, ui, utf8);
    if !ok {
      return Halt, sending, [], [];
    }
    var result;
    result, sendingOut, calls := RunState(state, go, radio, buffer, ui, utf8);
    verdict := Settle(result);
    events := [];
    if verdict != Halt {
      events := ui.Draw();
    }
  }
}
