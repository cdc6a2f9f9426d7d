/** Small shared vocabulary: an optional value, raw bytes, and the numeric
    readiness states that both the WebSocket API and the speech SDK report. */
module Common {

  datatype Option<T> = None | Some(value: T)

  type Bytes = seq<bv8>

  /** `readyState` / `getReadyState()` as the source compares it: a number 0..3. */
  type ReadyState = r: int | 0 <= r <= 3

  const CONNECTING: ReadyState := 0
  const OPEN: ReadyState := 1
  const CLOSING: ReadyState := 2
  const CLOSED: ReadyState := 3
}
