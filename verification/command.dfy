/**
 The command dispatcher: a decoded command goes in, the response's opcode and success
 flag come out, together with the return code. The board's first LED (`led0`) is seen
 through what the GPIO driver reports and the level its pin ends at.
 */
module Command {
  import opened Common

  /** `ampoule_Opcode`; values the dispatcher does not name are kept by number. */
  datatype Opcode = Ping | Pong | SetLed | OtherOpcode(raw: int)

  /** `ampoule_Led_Color`; values the handler does not name are kept by number. */
  datatype Color = White | Off | OtherColor(raw: int)

  /** `ampoule_Command`: the opcode and the colour of its LED operation. */
  datatype Command = Command(opcode: Opcode, color: Color)

  /** `ampoule_Response`. */
  datatype Response = Response(opcode: Opcode, success: bool)

  /**
   The `led0` device-tree alias: absent, or present with what `gpio_is_ready_dt` and
   `gpio_pin_configure_dt` report for it.
   */
  datatype Board =
    | NoLed
    | Led(ready: bool, configureRc: int)

  /** A logical pin level. */
  type Level = x: int | 0 <= x <= 1

  /** The LED works: the node exists, its port is ready and it configures as an output. */
  predicate LedUsable(b: Board)
  {
    b.Led? && b.ready && b.configureRc >= 0
  }

  /**
   `command_handle_led`: the return code, and the pin's level afterwards (`None` while it
   was never driven). Configuring the pin with `GPIO_OUTPUT_ACTIVE` drives it to 1; the
   colour then sets it to 1 for white and 0 for off, and leaves it for any other colour.
   */
  function HandleLed(cmd: Command, board: Board, pin: Option<Level>): (r: (int, Option<Level>))
    ensures r.0 <= 0
    ensures r.0 == 0 <==> LedUsable(board)
    ensures board == NoLed ==> r.0 == -ENOSYS
    ensures board.Led? && !board.ready ==> r.0 == -EIO
    ensures board.Led? && board.ready && board.configureRc < 0 ==> r.0 == board.configureRc
    ensures r.0 != 0 ==> r.1 == pin
    ensures r.0 == 0 ==> r.1 == Some(if cmd.color == Off then 0 else 1)
  {
    match board
    case NoLed => (-ENOSYS, pin)
    case Led(ready, configureRc) =>
      if !ready then (-EIO, pin)
      else if configureRc < 0 then (configureRc, pin)
      else
        match cmd.color
        case White => (0, Some(1))
        case Off => (0, Some(0))
        case OtherColor(_) => (0, Some(1))
  }

  /**
   `command_process`: the return code, the response, and the LED pin's level afterwards.
   `prior` is the response record as the caller handed it in; an opcode without a case
   leaves its opcode as it was.
   */
  function Process(cmd: Command, prior: Response, board: Board, pin: Option<Level>): (r: (int, Response, Option<Level>))
    ensures r.1.success <==> r.0 == 0
    ensures cmd.opcode == Ping ==> r.0 == 0 && r.1.opcode == Pong && r.2 == pin
    ensures cmd.opcode == SetLed ==> r.1.opcode == SetLed && (r.0, r.2) == HandleLed(cmd, board, pin)
    ensures !(cmd.opcode == Ping || cmd.opcode == SetLed) ==>
              r.0 == -ENOSYS && r.1.opcode == prior.opcode && r.2 == pin
  {
    var (rc, opcode, level) :=
      match cmd.opcode
      case Ping => (0, Pong, pin)
      case SetLed =>
        var (rc, level) := HandleLed(cmd, board, pin);
        (rc, SetLed, level)
      case _ => (-ENOSYS, prior.opcode, pin);
    (rc, Response(opcode, rc == 0), level)
  }

  /** The commands that succeed: a ping, and setting the LED on a board where it works. */
  lemma ProcessSucceeds(cmd: Command, prior: Response, board: Board, pin: Option<Level>)
    ensures var ok := Process(cmd, prior, board, pin).1.success;
            ok <==> cmd.opcode == Ping || (cmd.opcode == SetLed && LedUsable(board))
  {
  }

  /** Ping answers pong, successfully, and touches nothing. */
  lemma PingPongs(prior: Response, board: Board, pin: Option<Level>, c: Color)
    ensures Process(Command(Ping, c), prior, board, pin) == (0, Response(Pong, true), pin)
  {
  }

  /** Setting the LED white on a board where it works drives the pin to 1. */
  lemma WhiteLedLights(prior: Response, board: Board, pin: Option<Level>)
    requires LedUsable(board)
    ensures Process(Command(SetLed, White), prior, board, pin) == (0, Response(SetLed, true), Some(1))
  {
  }

  /** Setting the LED off on a board where it works drives the pin to 0. */
  lemma OffLedDarkens(prior: Response, board: Board, pin: Option<Level>)
    requires LedUsable(board)
    ensures Process(Command(SetLed, Off), prior, board, pin) == (0, Response(SetLed, true), Some(0))
  {
  }

  /** Without an LED node, setting the LED fails with `-ENOSYS` and leaves the pin alone. */
  lemma NoLedFails(cmd: Command, prior: Response, pin: Option<Level>)
    requires cmd.opcode == SetLed
    ensures Process(cmd, prior, NoLed, pin) == (-ENOSYS, Response(SetLed, false), pin)
  {
  }
}
