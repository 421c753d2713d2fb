/** The keyboard terminal: the same radio session as the e-ink terminal, on a display that is written line by line. */
module Keyboard {
  import opened Base
  import opened Input
  import opened Interface
  import opened Stuff
  import opened Eink

  /** What is sent to the display, in order. */
  datatype Drawing =
    | Erase(x: int, y: int, width: nat, height: nat)
    | Number(text: string, x: int, y: int)
    | Bytes(data: seq<u8>, x: int, y: int)
    | Flush

  /** `Disp`: the display, as the drawings sent to it, and the row where the next packet is written. */
  class Disp {
    var drawn: seq<Drawing>
    var cursor: int

    /** The display as `main` sets it up: nothing drawn, first row at 6. */
    constructor ()
      ensures drawn == [] && cursor == 6
    {
      drawn := [];
      cursor := 6;
    }

    /** Sends one drawing. */
    method Draw(d: Drawing)
      modifies this`drawn
      ensures drawn == old(drawn) + [d]
    {
      drawn := drawn + [d];
    }
  }

  /** The row advance after each received packet. */
  const RowHeight: int := 10

  /** The numbers the Received state draws on row `y` for packet `p`: its length at column 0, its signal strength at 30 and its signal-to-noise ratio at 120 when known. */
  function NumberRow(p: Packet, y: int): (r: seq<Drawing>)
    ensures |r| == if p.snr.Some? then 3 else 2
    ensures forall i :: 0 <= i < |r| ==> r[i].Number? && r[i].y == y
    ensures r[0] == Number(Decimal(|p.data|), 0, y)
  {
    [Number(Decimal(|p.data|), 0, y), Number(Decimal(p.rssi as int), 30, y)]
    + (if p.snr.Some? then [Number(Decimal(p.snr.value as int), 120, y)] else [])
  }

  /** What the Received state draws on row `y` for packet `p`: the numbers, then its bytes at column 80. */
  function PacketRow(p: Packet, y: int): (r: seq<Drawing>)
    ensures |r| == if p.snr.Some? then 4 else 3
    ensures forall i :: 0 <= i < |r| ==> !r[i].Flush? && r[i].y == y
    ensures r[..|r| - 1] == NumberRow(p, y)
    ensures r[0] == Number(Decimal(|p.data|), 0, y) && r[|r| - 1] == Bytes(p.data, 80, y)
  {
    NumberRow(p, y) + [Bytes(p.data, 80, y)]
  }

  /** The packet's length can be read back from what is drawn. */
  lemma PacketRowShowsLength(p: Packet, y: int)
    ensures ParseDecimal(PacketRow(p, y)[0].text) == |p.data|
  {
    DecimalRoundTrip(|p.data|);
  }

  /** `State::run_state` of the keyboard terminal: the transitions of `Transition`, a received packet drawn on the current row, and the row moved down by 10. */
  method RunState(s: State, sending: bool, radio: Replies, buffer: InputBuffer, disp: Disp)
    returns (result: Result, sendingOut: bool, calls: seq<Call>)
    requires buffer.Valid()
    modifies buffer, buffer.buffer, disp
    ensures buffer.Valid()
    ensures var r := Transition(s, sending, Text(old(buffer.buffer[..])), radio);
      && result == r.result && sendingOut == r.sending && calls == r.calls
      && buffer.State() == (if r.cleared then old(buffer.State()).(data := Zeros(buffer.buffer.Length), cursor := 0) else old(buffer.State()))
      && disp.drawn == old(disp.drawn) + Drew(s, radio, old(disp.cursor))
      && disp.cursor == old(disp.cursor) + (if r.logged.Some? then RowHeight else 0)
  {
    sendingOut := sending;
    match s {
      case Init =>
        result, calls := Done(PrepareIdle), [];
      case Reset =>
        result, calls := Panic, [];
      case PrepareIdle =>
        result, calls := StartReception(radio);
      case Idle =>
        if sending {
          var data := buffer.GetData();
          calls := [StartTransmit(data)];
          match radio.startTransmit {
            case Err(e) =>
              result := Failed(From(e));
            case Ok(_) =>
              buffer.Clear();
              sendingOut := false;
              result := Done(Sending);
          }
        } else {
          calls := [CheckReceive];
          match radio.checkReceive {
            case Err(e) => result := Failed(From(e));
            case Ok(b) => result := if b then Done(Received) else Done(Idle);
          }
        }
      case Sending =>
        calls := [CheckTransmit];
        match radio.checkTransmit {
          case Err(e) => result := Failed(From(e));
          case Ok(b) => result := if b then Done(SendingDone) else Done(Sending);
        }
      case Received =>
        calls := [GetReceived];
        match radio.getReceived {
          case Err(e) => result := Failed(From(e));
          case Ok(p) =>
            var fits := ShowPacket(p, disp);
            result := if fits then Done(PrepareIdle) else Panic;
        }
      case SendingDone =>
        result, calls := StartReception(radio);
    }
  }

  /** What the Received state draws on row `y` when the driver answers `radio`: the packet's row, or only its numbers when the packet is too long for the 256-byte buffer (the program panics on slicing it). */
  function Drew(s: State, radio: Replies, y: int): seq<Drawing>
  {
    if s == Received && radio.getReceived.Ok? then
      var p := radio.getReceived.value;
      if |p.data| > ReceiveCapacity then NumberRow(p, y) else PacketRow(p, y)
    else []
  }

  /** The drawings of a pass are those of the packet `Transition` logs, or the numbers of the packet it panics on. */
  lemma DrewLogged(s: State, sending: bool, payload: seq<u8>, radio: Replies, y: int)
    ensures var r := Transition(s, sending, payload, radio);
      && (r.logged.Some? ==> Drew(s, radio, y) == PacketRow(r.logged.value, y))
      && (r.logged.None? && !(s == Received && r.result == Panic) ==> Drew(s, radio, y) == [])
      && (s == Received && r.result == Panic ==> Drew(s, radio, y) == NumberRow(radio.getReceived.value, y))
  {
  }

  /** The drawing part of the Received state: the numbers, then, when the packet fits the 256-byte buffer, its bytes, and the row moves down. */
  method ShowPacket(p: Packet, disp: Disp) returns (fits: bool)
    modifies disp
    ensures fits <==> |p.data| <= ReceiveCapacity
    ensures disp.drawn == old(disp.drawn) + (if fits then PacketRow(p, old(disp.cursor)) else NumberRow(p, old(disp.cursor)))
    ensures disp.cursor == old(disp.cursor) + (if fits then RowHeight else 0)
  {
    disp.Draw(Number(Decimal(|p.data|), 0, disp.cursor));
    disp.Draw(Number(Decimal(p.rssi as int), 30, disp.cursor));
    if p.snr.Some? {
      disp.Draw(Number(Decimal(p.snr.value as int), 120, disp.cursor));
    }
    fits := |p.data| <= ReceiveCapacity;
    if fits {
      disp.Draw(Bytes(p.data, 80, disp.cursor));
      disp.cursor := disp.cursor + RowHeight;
    }
  }

  /** The keyboard part of a pass: while not sending, the mask is processed, and a validated message arms the transmission; the buffer is left as it is. */
  method PollUnlessSending(sending: bool, key: Keys, buffer: InputBuffer) returns (go: bool)
    requires buffer.Valid()
    modifies buffer, buffer.buffer
    ensures buffer.Valid()
    ensures buffer.State() == Polled(sending, old(buffer.State()), key)
    ensures go == Armed(sending, old(buffer.State()), key)
  {
    go := sending;
    if !sending {
      var input := buffer.ProcessInput(key);
      if input == Validated {
        go := true;
      }
    }
  }

  /** The editor row drawn at the start of every pass: the area is erased and the buffer's text written at the bottom of the screen. */
  function EditorRow(data: seq<u8>): seq<Drawing>
  {
    [Erase(0, 118, 128, 10), Bytes(Text(data), 0, 124)]
  }

  /** One pass of the main loop: the editor row is drawn, the keyboard is polled only while not sending, the session runs one step, its error is classified and the display is flushed. */
  method Pass(state: State, sending: bool, key: Keys, radio: Replies, buffer: InputBuffer, disp: Disp)
    returns (verdict: Verdict, sendingOut: bool, calls: seq<Call>)
    requires buffer.Valid()
    modifies buffer, buffer.buffer, disp
    ensures buffer.Valid()
    ensures var e := Polled(sending, old(buffer.State()), key);
      var r := Transition(state, Armed(sending, old(buffer.State()), key), Text(e.data), radio);
      && verdict == Settle(r.result) && sendingOut == r.sending && calls == r.calls
      && buffer.State() == (if r.cleared then e.(data := Zeros(|e.data|), cursor := 0) else e)
      && disp.drawn == old(disp.drawn) + EditorRow(old(buffer.buffer[..]))
           + Drew(state, radio, old(disp.cursor))
           + (if verdict != Halt then [Flush] else [])
      && disp.cursor == old(disp.cursor) + (if r.logged.Some? then RowHeight else 0)
  {
    var data := buffer.GetData();
    disp.Draw(Erase(0, 118, 128, 10));
    disp.Draw(Bytes(data, 0, 124));
    ghost var before := disp.drawn;
    assert before == old(disp.drawn) + EditorRow(old(buffer.buffer[..]));
    var go := PollUnlessSending(sending, key, buffer);
    var result;
    result, sendingOut, calls := RunState(state, go, radio, buffer, disp);
    ghost var row := disp.drawn[|before|..];
    assert disp.drawn == before + row;
    verdict := Settle(result);
    if verdict != Halt {
      disp.Draw(Flush);
    }
  }

}
