/**
 * The window-system events both input handlers react to, reduced to the
 * cases they distinguish, the event loop's control-flow request, and the
 * outcome of asking the swap chain for a frame.
 */
module Input {

  /** A window size in physical pixels. */
  datatype Size = Size(width: nat, height: nat)

  /** The keys the handlers look at; every other key is OtherKey. */
  datatype Key =
    | Escape | PageDown | PageUp | Minus | O | Plus | P
    | Left | Right | Up | Down | Return | Space | X | Back | Z | B | A
    | OtherKey

  /**
   * KeyPressed is a keyboard input in the Pressed state with a known key;
   * releases, unknown keys and every other window event are OtherEvent.
   */
  datatype Event =
    | MainEventsCleared
    | Destroyed
    | CloseRequested
    | MouseWheel(ydelta: real)
    | CursorMoved(x: real, y: real)
    | Resized(size: Size)
    | KeyPressed(key: Key)
    | OtherEvent

  datatype ControlFlow = Poll | Wait | Exit

  /** What asking the swap chain for the next frame gave. */
  datatype FrameResult = FrameOk | Outdated | OtherFrameError

  /** The events after which a handler returns false: the end of a batch, a close request, Escape. */
  predicate StopsPolling(e: Event) {
    e.MainEventsCleared? || e.Destroyed? || e.CloseRequested? || e == KeyPressed(Escape)
  }

  /** The events that ask the loop to exit. */
  predicate RequestsExit(e: Event) {
    e.Destroyed? || e.CloseRequested? || e == KeyPressed(Escape)
  }

  /**
   * The control-flow request a handler leaves: untouched on
   * MainEventsCleared, Exit on close or Escape, Poll for every other event.
   */
  function FlowAfterInput(e: Event, flow: ControlFlow): (r: ControlFlow)
    ensures e.MainEventsCleared? ==> r == flow
    ensures RequestsExit(e) ==> r == Exit
    ensures !StopsPolling(e) ==> r == Poll
  {
    if e.MainEventsCleared? then flow else if RequestsExit(e) then Exit else Poll
  }
}
