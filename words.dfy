/** Machine integer types and failure-carrying wrappers shared by the controllers. */
module Words {

  /** A Rust `u8`. */
  type u8 = x: int | 0 <= x < 0x100

  /** A Rust `u32`. */
  type u32 = x: int | 0 <= x < 0x1_0000_0000

  /** A Rust `i16`: one PCM sample. */
  type i16 = x: int | -0x8000 <= x < 0x8000

  datatype Option<+T> = None | Some(value: T) {
    /** `Option::unwrap_or` */
    function GetOr(default: T): T {
      match this
      case Some(v) => v
      case None => default
    }
  }

  datatype Result<+R, +E> = Success(value: R) | Failure(error: E)
}
