/** The few Java semantics the model needs: nullable strings, 32-bit ints, and `equals` that can throw. */
module JavaTypes {
  import opened Wrappers

  /** A java.lang.String reference: None is null. */
  type JavaString = Option<string>

  predicate IsInt32(n: int) {
    -0x8000_0000 <= n < 0x8000_0000
  }

  /** A Java `int`. */
  type Int32 = n: int | IsInt32(n)

  /** The outcome of evaluating a boolean Java expression: a value, or a NullPointerException. */
  datatype JavaBool = Value(b: bool) | NullPointer

  /** `a.equals(b)` on Strings: a null receiver throws, a null argument is simply unequal. */
  function StringEquals(a: JavaString, b: JavaString): JavaBool {
    if a.None? then NullPointer else Value(b == a)
  }

  /** Java's short-circuit `x && y`: y only matters when x evaluated to true. */
  function AndThen(x: JavaBool, y: JavaBool): JavaBool {
    match x
    case NullPointer => NullPointer
    case Value(b) => if b then y else Value(false)
  }
}
