/**
 * Shared vocabulary of the model: optional values, the fatal failures of the
 * virtual machine, and the fixed-width integer arithmetic of Go.
 */
module Base {

  datatype Option<+T> = None | Some(value: T)

  /**
   * A fatal failure. The Go program never recovers from a panic, so every
   * panic, whether raised explicitly or by the Go runtime, ends the process;
   * the model reports it as one of these and stops.
   */
  datatype Fault =
    | StackOverflow                  // Stack.Push on a full stack
    | IndexOutOfRange                // a slice or array index outside its bounds
    | NilDereference                 // a field reached through a nil pointer
    | StackExhausted                 // a recursion that never ends (GetString on a cycle)
    | UnknownConstantType(tag: int)  // ParseConsts on an unknown tag
    | UnknownOpcode(op: int)         // an opcode with no handler
    | ClassNotFound(name: string)    // LoadData found no class file
    | UnsupportedDescriptor(desc: string)  // initStaticFinalField or println on an unknown descriptor
    | UnknownType(c: char)           // MethodDescParser.ParseType on an unknown letter
    | UnexpectedToken(c: char)       // MethodDescParser.Must on a different letter
    | ExpectedStatic                 // a static instruction on an instance member
    | UnexpectedStatic               // an instance instruction on a static member
    | NotInterface                   // invokeinterface on a class
    | CannotInstantiate              // new on an interface or an abstract class
    | NegativeArraySize              // newarray with a negative count
    | ClassCast                      // checkcast on an incompatible object
    | NullThrow                      // athrow of a null reference
    | UnhandledException             // athrow with no matching handler on the thread
    | DivideByZero                   // integer division or remainder by zero
    | UnsupportedConstant            // ldc of a constant it does not handle
    | OutOfFuel                      // the model's own bound on recursion and steps

  datatype Result<+T> = Ok(value: T) | Fail(fault: Fault)
  {
    predicate IsFailure() { Fail? }

    function PropagateFailure<U>(): Result<U>
      requires Fail?
    {
      Fail(fault)
    }

    function Extract(): T
      requires Ok?
    {
      value
    }
  }

  // Go's fixed-width integer types, as ranges of mathematical integers.
  const TWO_8: int := 0x100
  const TWO_16: int := 0x1_0000
  const TWO_31: int := 0x8000_0000
  const TWO_32: int := 0x1_0000_0000
  const TWO_63: int := 0x8000_0000_0000_0000
  const TWO_64: int := 0x1_0000_0000_0000_0000

  type byte = x: int | 0 <= x < 0x100
  type u16 = x: int | 0 <= x < 0x1_0000
  type u32 = x: int | 0 <= x < 0x1_0000_0000
  type u64 = x: int | 0 <= x < 0x1_0000_0000_0000_0000
  type int32 = x: int | -0x8000_0000 <= x < 0x8000_0000
  type int64 = x: int | -0x8000_0000_0000_0000 <= x < 0x8000_0000_0000_0000

  /** Go's conversion of an arbitrary integer to int32: keep the low 32 bits, two's complement. */
  function Wrap32(x: int): (r: int32)
    ensures (r - x) % TWO_32 == 0
    ensures -TWO_31 <= x < TWO_31 ==> r == x
  {
    var m := x % TWO_32;
    if m < TWO_31 then m else m - TWO_32
  }

  /** Go's conversion of an arbitrary integer to int64. */
  function Wrap64(x: int): (r: int64)
    ensures (r - x) % TWO_64 == 0
    ensures -TWO_63 <= x < TWO_63 ==> r == x
  {
    var m := x % TWO_64;
    if m < TWO_63 then m else m - TWO_64
  }

  /** Go's integer quotient: truncated toward zero (Dafny's `/` is Euclidean). */
  function Quot(a: int, b: int): (q: int)
    requires b != 0
    ensures b * q == a - Remainder(a, b)
    ensures 0 <= a ==> 0 <= Remainder(a, b)
    ensures a < 0 ==> Remainder(a, b) <= 0
  {
    if (0 <= a) == (0 < b) then Abs(a) / Abs(b) else -(Abs(a) / Abs(b))
  }

  /** Go's remainder: it takes the sign of the dividend. */
  function Remainder(a: int, b: int): (r: int)
    requires b != 0
    ensures Abs(r) < Abs(b)
  {
    if 0 <= a then Abs(a) % Abs(b) else -(Abs(a) % Abs(b))
  }

  function Abs(x: int): nat { if x < 0 then -x else x }

  /** The 32 bits of an int32, as Go's bitwise operators see them. */
  function Bits32(x: int32): bv32
  {
    (if x < 0 then x + TWO_32 else x) as bv32
  }

  function FromBits32(b: bv32): int32
  {
    var u := b as int;
    if u < TWO_31 then u else u - TWO_32
  }

  function Bits64(x: int64): bv64
  {
    (if x < 0 then x + TWO_64 else x) as bv64
  }

  function FromBits64(b: bv64): int64
  {
    var u := b as int;
    if u < TWO_63 then u else u - TWO_64
  }

  /** A Go string converted from bytes: one character per byte. */
  function BytesToString(bs: seq<byte>): (s: string)
    ensures |s| == |bs|
    ensures forall i | 0 <= i < |bs| :: s[i] as int == bs[i]
  {
    seq(|bs|, i requires 0 <= i < |bs| => bs[i] as char)
  }
}
