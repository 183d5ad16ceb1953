/** What several modules use: a value that may be missing, and two's complement. */
module Base {
  datatype Option<+T> = None | Some(value: T)

  /** The low bits of v as a signed number from -half up to half. */
  function Wrap(v: int, half: nat): (w: int)
    requires half > 0
    ensures 0 - half <= w < half
  {
    var r := v % (2 * half);
    if r < half then r else r - 2 * half
  }
}
