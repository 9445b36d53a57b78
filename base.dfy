/** Failure-compatible wrappers and the machine integer types the model needs. */
module Base {

  datatype Option<+T> = None | Some(value: T) {
    function GetOr(default: T): T {
      match this
      case Some(v) => v
      case None => default
    }
  }

  datatype Result<+T, +E> = Ok(value: T) | Err(error: E)

  /** Rust's `i32`: exit codes handed back by the operating system. */
  type i32 = x: int | -0x8000_0000 <= x < 0x8000_0000

  /** Rust's `u8`: what `ExitCode::from` accepts. */
  type u8 = x: int | 0 <= x < 0x100

  /** The cast `code as u8`: keeps the low eight bits of the two's-complement value. */
  function AsU8(code: i32): (r: u8)
    ensures 0 <= code < 0x100 ==> r == code
    ensures (code - r) % 0x100 == 0
  {
    code % 0x100
  }

  lemma {:induction false} AsU8Examples()
    ensures AsU8(-1) == 255 && AsU8(256) == 0 && AsU8(77) == 77 && AsU8(-256) == 0
  {
  }
}
