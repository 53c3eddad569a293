/** Small shared vocabulary: an optional value, the result of a call into
    foreign code (the peer engine, the UDP stack), and the Go integer widths
    the modelled code uses. */
module Common {

  datatype Option<T> = None | Some(value: T)

  /** What a foreign call returned: a value, or a Go `error` with its text. */
  datatype Outcome<T> = Ok(value: T) | Err(reason: string)

  type uint8 = x: int | 0 <= x < 0x100
  type uint16 = x: int | 0 <= x < 0x1_0000
  type uint32 = x: int | 0 <= x < 0x1_0000_0000
}
