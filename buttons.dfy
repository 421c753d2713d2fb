/** The button test program: its main loop does nothing yet, and it carries its own copy of the bounded byte copy. */
module Buttons {
  import opened Base
  import opened Stuff

  /** This program's session states. */
  datatype BState = Reset | Idle | Sending | SendingDone | Receiving

  /** This program's `copy`, the same routine as `Stuff.Copy`. */
  method Copy(src: seq<u8>, target: array<u8>, cursor0: nat) returns (cursor: nat)
    modifies target
    ensures Copied(target[..], cursor) == CopyBytes(old(target[..]), src, cursor0)
  {
    cursor := Stuff.Copy(src, target, cursor0);
  }

  /** The main loop, run for `passes` passes: every arm of its match is empty, so the state stays Idle. */
  method MainLoop(passes: nat) returns (state: BState)
    ensures state == BState.Idle
  {
    state := BState.Idle;
    var i := 0;
    while i < passes
      invariant state == BState.Idle
    {
      match state {
        case Reset =>
        case Idle =>
        case Sending =>
        case Receiving =>
        case SendingDone =>
      }
      i := i + 1;
    }
  }
}
