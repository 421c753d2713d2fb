/** The pieces shared by the radio programs: the session states, the driver's error tags, and the bounded byte copy. */
module Stuff {
  import opened Base

  /** The session states walked by `run_state`. */
  datatype State = Init | PrepareIdle | Reset | Idle | Sending | SendingDone | Received

  /** The radio driver's error tags (`radio_sx127x::Error`); the payloads of `Hal` and `InvalidDevice` are kept as plain values. */
  datatype RadioError =
    | Hal(cause: nat)
    | InvalidConfiguration
    | Aborted
    | InvalidResponse
    | Timeout
    | Crc
    | BufferSize
    | InvalidDevice(device: u8)

  /** The programs' own error type: a wrapped radio error. */
  datatype Error = Radio(radio: RadioError)

  /** `Error::from`: the radio error is wrapped as it is. */
  function From(e: RadioError): (r: Error)
    ensures r.Radio? && r.radio == e
  {
    Radio(e)
  }

  /** Wrapping loses nothing: two errors are equal exactly when their radio errors are. */
  lemma FromInjective(a: RadioError, b: RadioError)
    ensures From(a) == From(b) <==> a == b
  {
  }

  // ---------------------------------------------------------------------
  // The radio driver, as an input

  /** What one driver call answers. */
  datatype Reply<T> = Ok(value: T) | Err(error: RadioError)

  /** A received packet: the bytes `get_received` stored, the received signal strength and the signal-to-noise ratio. */
  datatype Packet = Packet(data: seq<u8>, rssi: i16, snr: Option<i16>)

  /** The answers the driver gives, during one pass of a main loop, to each call it may receive. */
  datatype Replies = Replies(
    startReceive: Reply<()>,
    checkReceive: Reply<bool>,
    startTransmit: Reply<()>,
    checkTransmit: Reply<bool>,
    getReceived: Reply<Packet>)

  /** The errors the driver answers in `radio`. */
  function ErrorsOf(radio: Replies): set<RadioError>
  {
    (if radio.startReceive.Err? then {radio.startReceive.error} else {})
    + (if radio.checkReceive.Err? then {radio.checkReceive.error} else {})
    + (if radio.startTransmit.Err? then {radio.startTransmit.error} else {})
    + (if radio.checkTransmit.Err? then {radio.checkTransmit.error} else {})
    + (if radio.getReceived.Err? then {radio.getReceived.error} else {})
  }

  /** A call made to the driver; the payload of a transmission is kept. */
  datatype Call = StartReceive | CheckReceive | StartTransmit(payload: seq<u8>) | CheckTransmit | GetReceived

  // ---------------------------------------------------------------------
  // copy

  /** What `copy` leaves behind: the target and the cursor. */
  datatype Copied = Copied(target: seq<u8>, cursor: nat)

  /** `copy` one byte at a time: stop when the source is exhausted or the cursor reaches the end of the target. */
  function CopyBytes(target: seq<u8>, src: seq<u8>, cursor: nat): Copied
    decreases |src|
  {
    if src == [] || cursor >= |target| then Copied(target, cursor)
    else CopyBytes(target[cursor := src[0]], src[1..], cursor + 1)
  }

  /** Where `copy` stops: after the whole source, or at the end of the target, whichever comes first. */
  function CopyEnd(len: nat, n: nat, cursor: nat): nat
  {
    if cursor >= len then cursor else cursor + Min(n, len - cursor)
  }

  /** `copy` writes `src[i]` at `cursor + i` for every byte that fits, leaves every other byte alone, and moves the cursor past what it wrote and never backwards. */
  lemma {:induction false} CopyBytesSpec(target: seq<u8>, src: seq<u8>, cursor: nat)
    ensures |CopyBytes(target, src, cursor).target| == |target|
    ensures CopyBytes(target, src, cursor).cursor == CopyEnd(|target|, |src|, cursor)
    ensures forall i :: 0 <= i < |target| ==>
      CopyBytes(target, src, cursor).target[i] ==
        if cursor <= i < CopyEnd(|target|, |src|, cursor) then src[i - cursor] else target[i]
    decreases |src|
  {
    if src == [] || cursor >= |target| {
    } else {
      CopyBytesSpec(target[cursor := src[0]], src[1..], cursor + 1);
    }
  }

  /** The cursor never goes backwards, and never passes the end of the target unless it started there. */
  lemma CopyCursorBounds(target: seq<u8>, src: seq<u8>, cursor: nat)
    ensures cursor <= CopyBytes(target, src, cursor).cursor
    ensures cursor <= |target| ==> CopyBytes(target, src, cursor).cursor <= |target|
    ensures cursor >= |target| ==> CopyBytes(target, src, cursor) == Copied(target, cursor)
  {
    CopyBytesSpec(target, src, cursor);
  }

  /** `copy`: the bytes of `src` go to `target` from `cursor` on, until either runs out; the cursor ends past the last byte written. */
  method Copy(src: seq<u8>, target: array<u8>, cursor0: nat) returns (cursor: nat)
    modifies target
    ensures Copied(target[..], cursor) == CopyBytes(old(target[..]), src, cursor0)
  {
    cursor := cursor0;
    var k := 0;
    while k < |src|
      invariant k <= |src|
      invariant CopyBytes(target[..], src[k..], cursor) == CopyBytes(old(target[..]), src, cursor0)
    {
      if cursor >= target.Length {
        return;
      }
      assert src[k..][1..] == src[k + 1..];
      target[cursor] := src[k];
      cursor := cursor + 1;
      k := k + 1;
    }
  }
}
