/** The records shared by the store, the list view and the two timers
    (types.ts). */
module Types {

  datatype Option<+T> = None | Some(value: T)

  /** An operation that either yields a value or fails with an error message. */
  datatype Result<+T> = Ok(value: T) | Err(message: string)

  /** The direction of a signal: the source admits exactly these two. */
  datatype Action = CALL | PUT

  /** The text a JavaScript template or `join` produces for an action. */
  function ActionName(a: Action): (r: string)
    ensures r == "CALL" <==> a == CALL
    ensures r == "PUT" <==> a == PUT
  {
    match a
    case CALL => "CALL"
    case PUT => "PUT"
  }

  /** A price. The core never computes with prices, it only renders them, so a
      price is kept as the text that JavaScript's `String(n)` gives for it. */
  datatype Price = Price(shown: string)

  /** A signal's timestamp, as the instant (milliseconds since the epoch) that
      `new Date(timestamp).getTime()` reads from the source's ISO string. */
  datatype Timestamp = Timestamp(millis: int)

  /** One trading signal as the server sends it. `slPrice`, `tpPrice`,
      `timeframe` and `timeUtc6` are optional in the source. */
  datatype Signal = Signal(
    id: string,
    symbol: string,
    action: Action,
    price: Price,
    confidence: int,
    logic: string,
    patterns: seq<string>,
    secondsLeft: int,
    timestamp: Timestamp,
    slPrice: Option<Price>,
    tpPrice: Option<Price>,
    timeframe: Option<string>,
    timeUtc6: Option<string>)

  /** The three colours the components pick between for badges, timers and bars. */
  datatype Tone = Red | Yellow | Green
}
