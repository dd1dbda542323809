/** Small shared vocabulary: an optional value, standing for a Java reference that may be null. */
module Base {

  datatype Option<+T> = None | Some(value: T)

  /** Java `int` range, used where the source parses or adds `Integer` values. */
  const IntMin: int := -0x8000_0000
  const IntMax: int := 0x7fff_ffff

  predicate InInt(x: int) {
    IntMin <= x <= IntMax
  }

  /** Two's-complement wrap-around of Java `int` arithmetic. */
  function Wrap(x: int): (r: int)
    ensures InInt(r)
    ensures InInt(x) ==> r == x
  {
    (x - IntMin) % 0x1_0000_0000 + IntMin
  }
}
