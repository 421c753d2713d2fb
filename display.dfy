/** The display terminal: a button sends a fixed message, and received packets are written down the screen. */
module Display {
  import opened Base
  import opened Input
  import opened Interface
  import opened Stuff
  import opened Keyboard
  import Eink

  /** This program's own session states: an error is carried for one pass before the session resets. */
  datatype DState = Reset | Idle | Sending | SendingDone | Received | Error(error: RadioError)

  /** The message sent when the button is pressed. */
  const Kikooo: seq<u8> := [0x4B, 0x69, 0x6B, 0x6F, 0x6F, 0x6F]

  /** The row of the first received packet. */
  const FirstRow: int := 70

  /** One pass of the loop: the next state (None when the program panics), the driver calls, the drawings and the new row. */
  datatype Step = Step(next: Option<DState>, calls: seq<Call>, drawn: seq<Drawing>, cursor: int)

  /** The numbers the Received state draws for packet `p` on row `y`: its length at column 60, its signal strength at 90 and its signal-to-noise ratio at 120 when known. */
  function NumberRows(p: Packet, y: int): (r: seq<Drawing>)
    ensures |r| == if p.snr.Some? then 3 else 2
    ensures forall i :: 0 <= i < |r| ==> r[i].Number? && r[i].y == y
    ensures r[0] == Number(Decimal(|p.data|), 60, y)
  {
    [Number(Decimal(|p.data|), 60, y), Number(Decimal(p.rssi as int), 90, y)]
    + (if p.snr.Some? then [Number(Decimal(p.snr.value as int), 120, y)] else [])
  }

  /** What the Received state draws for packet `p` from row `y`: the numbers on row `y`, then its bytes at column 60 one row below. */
  function PacketRows(p: Packet, y: int): (r: seq<Drawing>)
    ensures |r| == if p.snr.Some? then 4 else 3
    ensures r[..|r| - 1] == NumberRows(p, y)
    ensures r[|r| - 1] == Bytes(p.data, 60, y + 10)
  {
    NumberRows(p, y) + [Bytes(p.data, 60, y + 10)]
  }

  /** The state after a call that fails with a radio error: the error is kept for the next pass. */
  function Checked(reply: Reply<bool>, call: Call, yes: DState, no: DState, cursor: int): Step
  {
    match reply
    case Ok(b) => Step(Some(if b then yes else no), [call], [], cursor)
    case Err(e) => Step(Some(Error(e)), [call], [], cursor)
  }

  /** One pass of the loop in state `s`; `pressed` is what the button reports when it is polled, which happens only in Idle. */
  function Next(s: DState, pressed: bool, cursor: int, radio: Replies): (r: Step)
    ensures |r.calls| <= 1
    ensures r.next.None? <==>
      s == DState.Received && radio.getReceived.Ok? && |radio.getReceived.value.data| > Eink.ReceiveCapacity
    ensures r.drawn != [] <==> s == DState.Received && radio.getReceived.Ok?
    ensures s == DState.Received && radio.getReceived.Ok? ==>
      (r.next.None? ==> r.drawn == NumberRows(radio.getReceived.value, cursor) && r.cursor == cursor + 10)
      && (r.next.Some? ==> r.drawn == PacketRows(radio.getReceived.value, cursor) && r.cursor == cursor + 20)
    ensures r.drawn == [] ==> r.cursor == cursor
    ensures forall c :: c in r.calls ==> (c.StartTransmit? <==> s == DState.Idle && pressed)
    ensures r.next.Some? && r.next.value.Error? ==> r.calls != [] && r.next.value.error in ErrorsOf(radio)
    ensures s == DState.Reset ==> r.next == Some(DState.Reset) && r.calls == []
    ensures s.Error? ==> r.next == Some(DState.Reset) && r.calls == []
    ensures s == DState.Idle && pressed ==> r.next == Some(DState.Sending) && r.calls == [StartTransmit(Kikooo)]
    ensures s == DState.Idle && !pressed ==> r.calls == [CheckReceive]
    ensures s == DState.Idle && !pressed && radio.checkReceive.Ok? ==>
      r.next == Some(if radio.checkReceive.value then DState.Received else DState.Idle)
    ensures s == DState.Idle && !pressed && radio.checkReceive.Err? ==> r.next == Some(Error(radio.checkReceive.error))
    ensures s == DState.Sending ==> r.calls == [CheckTransmit]
    ensures s == DState.Sending && radio.checkTransmit.Ok? ==>
      r.next == Some(if radio.checkTransmit.value then DState.SendingDone else DState.Sending)
    ensures s == DState.Sending && radio.checkTransmit.Err? ==> r.next == Some(Error(radio.checkTransmit.error))
    ensures s == DState.Received ==> r.calls == [GetReceived]
    ensures s == DState.Received && radio.getReceived.Err? ==> r.next == Some(Error(radio.getReceived.error))
    ensures s == DState.Received && radio.getReceived.Ok? && |radio.getReceived.value.data| <= Eink.ReceiveCapacity ==>
      r.next == Some(DState.Idle)
    ensures s == DState.SendingDone ==> r.calls == [StartReceive]
    ensures s == DState.SendingDone && radio.startReceive.Ok? ==> r.next == Some(DState.Idle)
    ensures s == DState.SendingDone && radio.startReceive.Err? ==> r.next == Some(Error(radio.startReceive.error))
  {
    match s
    case Reset => Step(Some(DState.Reset), [], [], cursor)
    case Idle =>
      if pressed then Step(Some(DState.Sending), [StartTransmit(Kikooo)], [], cursor)
      else Checked(radio.checkReceive, CheckReceive, DState.Received, DState.Idle, cursor)
    case Sending => Checked(radio.checkTransmit, CheckTransmit, DState.SendingDone, DState.Sending, cursor)
    case Received =>
      (match radio.getReceived
       case Err(e) => Step(Some(Error(e)), [GetReceived], [], cursor)
       case Ok(p) =>
         if |p.data| > Eink.ReceiveCapacity then Step(None, [GetReceived], NumberRows(p, cursor), cursor + 10)
         else Step(Some(DState.Idle), [GetReceived], PacketRows(p, cursor), cursor + 20))
    case SendingDone =>
      (match radio.startReceive
       case Ok(_) => Step(Some(DState.Idle), [StartReceive], [], cursor)
       case Err(e) => Step(Some(Error(e)), [StartReceive], [], cursor))
    case Error(_) => Step(Some(DState.Reset), [], [], cursor)
  }

  /** Everything the loop has done so far: its state (None once it panicked), the row, the button's last reading, the calls and the drawings. */
  datatype Run = Run(state: Option<DState>, cursor: int, button: bool, calls: seq<Call>, drawn: seq<Drawing>)

  /** One pass from `r`, with the button's pin reading `low` and the driver's `radio` replies. */
  function Pass(r: Run, low: bool, radio: Replies): Run
    requires r.state.Some?
  {
    var s := r.state.value;
    var st := Next(s, s == DState.Idle && low && !r.button, r.cursor, radio);
    Run(st.next, st.cursor, if s == DState.Idle then low else r.button, r.calls + st.calls, r.drawn + st.drawn)
  }

  /** The loop run over the pin readings `lows` and the replies `replies`, pass by pass, until the program panics. */
  function Trace(r: Run, lows: seq<bool>, replies: seq<Replies>): Run
    requires |lows| == |replies|
    decreases |lows|
  {
    if lows == [] || r.state.None? then r
    else Trace(Pass(r, lows[0], replies[0]), lows[1..], replies[1..])
  }

  /** Reset is absorbing: once there, the loop makes no call, draws nothing and never leaves. */
  lemma {:induction false} ResetAbsorbs(r: Run, lows: seq<bool>, replies: seq<Replies>)
    requires |lows| == |replies| && r.state == Some(DState.Reset)
    ensures Trace(r, lows, replies) == r
    decreases |lows|
  {
    if lows != [] {
      assert Pass(r, lows[0], replies[0]) == r;
      ResetAbsorbs(r, lows[1..], replies[1..]);
    }
  }

  /** A radio error reaches Reset one pass later, whatever happens then, and stays there. */
  lemma {:induction false} ErrorsEndInReset(r: Run, lows: seq<bool>, replies: seq<Replies>)
    requires |lows| == |replies| && r.state.Some? && r.state.value.Error? && lows != []
    ensures Trace(r, lows, replies).state == Some(DState.Reset)
    ensures Trace(r, lows, replies).calls == r.calls && Trace(r, lows, replies).drawn == r.drawn
  {
    var r1 := Pass(r, lows[0], replies[0]);
    assert r1 == r.(state := Some(DState.Reset));
    ResetAbsorbs(r1, lows[1..], replies[1..]);
  }

  /** A press in Idle sends the fixed message, whatever the driver answers, and the next state is Sending. */
  lemma PressSends(cursor: int, radio: Replies)
    ensures Next(DState.Idle, true, cursor, radio) == Step(Some(DState.Sending), [StartTransmit(Kikooo)], [], cursor)
  {
  }

  /** A received packet is drawn on two rows, and the loop goes back to Idle (not to a preparation state). */
  lemma ReceivedGoesIdle(cursor: int, radio: Replies)
    requires radio.getReceived.Ok? && |radio.getReceived.value.data| <= Eink.ReceiveCapacity
    ensures Next(DState.Received, false, cursor, radio) ==
      Step(Some(DState.Idle), [GetReceived], PacketRows(radio.getReceived.value, cursor), cursor + 20)
  {
  }

  /** The button is polled only in Idle, and a press registers once: holding it down through a whole send cycle sends once. */
  lemma HeldButtonSendsOnce(r: Run, r2: Replies, r3: Replies, r4: Replies)
    requires r.state == Some(DState.Idle) && !r.button
    requires r2.checkTransmit == Ok(true) && r3.startReceive.Ok? && r4.checkReceive == Ok(false)
    ensures var t := Trace(r, [true, true, true, true], [r4, r2, r3, r4]);
      && t.state == Some(DState.Idle)
      && t.calls == r.calls + [StartTransmit(Kikooo), CheckTransmit, StartReceive, CheckReceive]
  {
    var a := Pass(r, true, r4);
    assert a.state == Some(DState.Sending) && a.button;
    var b := Pass(a, true, r2);
    assert b.state == Some(DState.SendingDone) && b.button;
    var c := Pass(b, true, r3);
    assert c.state == Some(DState.Idle) && c.button;
    var d := Pass(c, true, r4);
    assert d.state == Some(DState.Idle);
    assert Trace(r, [true, true, true, true], [r4, r2, r3, r4]) == Trace(a, [true, true, true], [r2, r3, r4]);
    assert Trace(a, [true, true, true], [r2, r3, r4]) == Trace(b, [true, true], [r3, r4]);
    assert Trace(b, [true, true], [r3, r4]) == Trace(c, [true], [r4]);
    assert Trace(c, [true], [r4]) == d;
  }

  /** The start of `main`: the driver is told to listen (a failure panics), the first row is 70 and the loop starts in Idle. */
  method Setup(radio: Replies) returns (r: Run, button: Button2)
    ensures fresh(button) && !button.state
    ensures radio.startReceive.Ok? ==> r == Run(Some(DState.Idle), FirstRow, false, [StartReceive], [])
    ensures radio.startReceive.Err? ==> r.state.None? && r.calls == [StartReceive]
  {
    button := new Button2();
    r := Run(Some(DState.Idle), FirstRow, false, [StartReceive], []);
    if radio.startReceive.Err? {
      r := r.(state := None);
    }
  }

  /** One pass of the loop: the button is polled only in Idle. */
  method RunPass(s: DState, cursor: int, low: bool, radio: Replies, button: Button2) returns (st: Step)
    modifies button
    ensures button.state == if s == DState.Idle then low else old(button.state)
    ensures st == Next(s, s == DState.Idle && low && !old(button.state), cursor, radio)
  {
    match s {
      case Reset =>
        st := Step(Some(DState.Reset), [], [], cursor);
      case Idle =>
        var pressed := button.JustPressed(low);
        if pressed {
          st := Step(Some(DState.Sending), [StartTransmit(Kikooo)], [], cursor);
        } else {
          match radio.checkReceive {
            case Ok(true) => st := Step(Some(DState.Received), [CheckReceive], [], cursor);
            case Ok(false) => st := Step(Some(DState.Idle), [CheckReceive], [], cursor);
            case Err(e) => st := Step(Some(Error(e)), [CheckReceive], [], cursor);
          }
        }
      case Sending =>
        match radio.checkTransmit {
          case Ok(true) => st := Step(Some(DState.SendingDone), [CheckTransmit], [], cursor);
          case Ok(false) => st := Step(Some(DState.Sending), [CheckTransmit], [], cursor);
          case Err(e) => st := Step(Some(Error(e)), [CheckTransmit], [], cursor);
        }
      case Received =>
        st := ShowReceived(cursor, radio);
      case SendingDone =>
        match radio.startReceive {
          case Ok(_) => st := Step(Some(DState.Idle), [StartReceive], [], cursor);
          case Err(e) => st := Step(Some(Error(e)), [StartReceive], [], cursor);
        }
      case Error(_) =>
        st := Step(Some(DState.Reset), [], [], cursor);
    }
  }

  /** The closure of the Received state: fetch the packet, draw its numbers, move a row down, and draw its bytes and move down again; a packet longer than the 256-byte buffer panics once its numbers are drawn. */
  method ShowReceived(cursor0: int, radio: Replies) returns (st: Step)
    ensures st == Next(DState.Received, false, cursor0, radio)
  {
    match radio.getReceived {
      case Err(e) =>
        st := Step(Some(Error(e)), [GetReceived], [], cursor0);
      case Ok(p) =>
        var cursor := cursor0;
        var drawn := [Number(Decimal(|p.data|), 60, cursor), Number(Decimal(p.rssi as int), 90, cursor)];
        if p.snr.Some? {
          drawn := drawn + [Number(Decimal(p.snr.value as int), 120, cursor)];
        }
        cursor := cursor + 10;
        if |p.data| > Eink.ReceiveCapacity {
          st := Step(None, [GetReceived], drawn, cursor);
        } else {
          drawn := drawn + [Bytes(p.data, 60, cursor)];
          cursor := cursor + 10;
          st := Step(Some(DState.Idle), [GetReceived], drawn, cursor);
        }
    }
  }

  /** The main loop over the pin readings and the driver's replies, pass by pass, until the program panics or the inputs run out. */
  method Loop(start: Run, lows: seq<bool>, replies: seq<Replies>, button: Button2) returns (r: Run)
    requires |lows| == |replies| && button.state == start.button
    modifies button
    ensures r == Trace(start, lows, replies)
    ensures button.state == r.button
  {
    r := start;
    var i := 0;
    while i < |lows| && r.state.Some?
      invariant i <= |lows| && button.state == r.button
      invariant Trace(r, lows[i..], replies[i..]) == Trace(start, lows, replies)
    {
      var st := RunPass(r.state.value, r.cursor, lows[i], replies[i], button);
      assert lows[i..][1..] == lows[i + 1..] && replies[i..][1..] == replies[i + 1..];
      r := Run(st.next, st.cursor, button.state, r.calls + st.calls, r.drawn + st.drawn);
      i := i + 1;
    }
  }
}
