/**
 * The values the virtual machine of book/rtda.go moves between its operand
 * stacks, local variables, object fields and static slots, and the integer
 * arithmetic its instruction handlers apply to them.
 */
module Values {
  import opened Base

  /**
   * A slot's content. Go keeps a pointer to a record with a type tag and one
   * field per kind; `Nil` is the nil pointer that every slot holds until it is
   * first written (an unset local, field, static or array element), and
   * `Null` is the record NewNull makes. Objects are named by their address in
   * the heap, so comparing two `Obj` values compares object identity.
   */
  datatype Value =
    | Nil
    | Null
    | Int(i: int32)
    | Long(l: int64)
    | Float(fbits: u32)
    | Double(dbits: u64)
    | Obj(addr: nat)

  // The element type codes of newarray.
  const ARRAY_BOOLEAN: int := 4
  const ARRAY_CHAR: int := 5
  const ARRAY_FLOAT: int := 6
  const ARRAY_DOUBLE: int := 7
  const ARRAY_BYTE: int := 8
  const ARRAY_SHORT: int := 9
  const ARRAY_INT: int := 10
  const ARRAY_LONG: int := 11

  /**
   * The array class newarray loads for an element type code: only int and
   * char arrays are known, and any other code reads Go's missing-key value "".
   */
  function ArrayClassName(arrayType: int): (name: string)
    ensures name != "" <==> arrayType in {ARRAY_INT, ARRAY_CHAR}
    ensures name != "" ==> name[0] == '['
  {
    if arrayType == ARRAY_INT then "[I"
    else if arrayType == ARRAY_CHAR then "[C"
    else ""
  }

  /*
   * Reading one kind's field of a value. Every record has all the fields, so
   * a value of another kind reads as zero; only the nil pointer panics.
   */

  function IntegerOf(v: Value): (r: Result<int32>)
    ensures r.Fail? <==> v.Nil?
    ensures r.Fail? ==> r.fault == NilDereference
    ensures r.Ok? ==> r.value == (if v.Int? then v.i else 0)
  {
    match v
    case Nil => Fail(NilDereference)
    case Int(i) => Ok(i)
    case _ => Ok(0)
  }

  function LongOf(v: Value): (r: Result<int64>)
    ensures r.Fail? <==> v.Nil?
    ensures r.Fail? ==> r.fault == NilDereference
    ensures r.Ok? ==> r.value == (if v.Long? then v.l else 0)
  {
    match v
    case Nil => Fail(NilDereference)
    case Long(l) => Ok(l)
    case _ => Ok(0)
  }

  function FloatOf(v: Value): (r: Result<u32>)
    ensures r.Fail? <==> v.Nil?
    ensures r.Fail? ==> r.fault == NilDereference
    ensures r.Ok? ==> r.value == (if v.Float? then v.fbits else 0)
  {
    match v
    case Nil => Fail(NilDereference)
    case Float(b) => Ok(b)
    case _ => Ok(0)
  }

  function DoubleOf(v: Value): (r: Result<u64>)
    ensures r.Fail? <==> v.Nil?
    ensures r.Fail? ==> r.fault == NilDereference
    ensures r.Ok? ==> r.value == (if v.Double? then v.dbits else 0)
  {
    match v
    case Nil => Fail(NilDereference)
    case Double(b) => Ok(b)
    case _ => Ok(0)
  }

  /** The object a value points to, if any (Go's `v.Object`, nil for non-objects). */
  function ObjectOf(v: Value): (r: Result<Option<nat>>)
    ensures r.Fail? <==> v.Nil?
    ensures r.Fail? ==> r.fault == NilDereference
    ensures r.Ok? ==> (r.value.Some? <==> v.Obj?)
    ensures r.Ok? && v.Obj? ==> r.value == Some(v.addr)
  {
    match v
    case Nil => Fail(NilDereference)
    case Obj(a) => Ok(Some(a))
    case _ => Ok(None)
  }

  /** Whether a popped value counts as null for ifnull: a nil pointer or a record with no object. */
  predicate IsNullRef(v: Value)
  {
    !v.Obj?
  }

  /** The binary integer operators of the int and long handlers. */
  datatype IntOp = Add | Sub | Mul | Div | Rem | And | Or | Xor

  /**
   * An int operator applied as Go applies it to two int32 operands: the
   * result wraps to 32 bits, division truncates toward zero, the remainder
   * takes the sign of the dividend, and a zero divisor panics.
   */
  function IntArith(op: IntOp, left: int32, right: int32): (r: Result<int32>)
    ensures r.Fail? <==> op in {Div, Rem} && right == 0
    ensures r.Fail? ==> r.fault == DivideByZero
    ensures op == Add && r.Ok? ==> (r.value - (left + right)) % TWO_32 == 0
    ensures op == Sub && r.Ok? ==> (r.value - (left - right)) % TWO_32 == 0
    ensures op == Mul && r.Ok? ==> (r.value - left * right) % TWO_32 == 0
    ensures op == Rem && r.Ok? ==> Abs(r.value) < Abs(right)
  {
    match op
    case Add => Ok(Wrap32(left + right))
    case Sub => Ok(Wrap32(left - right))
    case Mul => Ok(Wrap32(left * right))
    case Div => if right == 0 then Fail(DivideByZero) else Ok(Wrap32(Quot(left, right)))
    case Rem => if right == 0 then Fail(DivideByZero) else Ok(Wrap32(Remainder(left, right)))
    case And => Ok(FromBits32(Bits32(left) & Bits32(right)))
    case Or => Ok(FromBits32(Bits32(left) | Bits32(right)))
    case Xor => Ok(FromBits32(Bits32(left) ^ Bits32(right)))
  }

  /** The same operators on int64 operands. */
  function LongArith(op: IntOp, left: int64, right: int64): (r: Result<int64>)
    ensures r.Fail? <==> op in {Div, Rem} && right == 0
    ensures r.Fail? ==> r.fault == DivideByZero
    ensures op == Add && r.Ok? ==> (r.value - (left + right)) % TWO_64 == 0
    ensures op == Sub && r.Ok? ==> (r.value - (left - right)) % TWO_64 == 0
    ensures op == Mul && r.Ok? ==> (r.value - left * right) % TWO_64 == 0
    ensures op == Rem && r.Ok? ==> Abs(r.value) < Abs(right)
  {
    match op
    case Add => Ok(Wrap64(left + right))
    case Sub => Ok(Wrap64(left - right))
    case Mul => Ok(Wrap64(left * right))
    case Div => if right == 0 then Fail(DivideByZero) else Ok(Wrap64(Quot(left, right)))
    case Rem => if right == 0 then Fail(DivideByZero) else Ok(Wrap64(Remainder(left, right)))
    case And => Ok(FromBits64(Bits64(left) & Bits64(right)))
    case Or => Ok(FromBits64(Bits64(left) | Bits64(right)))
    case Xor => Ok(FromBits64(Bits64(left) ^ Bits64(right)))
  }

  /**
   * Where no overflow happens, quotient and remainder split the dividend:
   * left == quotient * right + remainder, with the remainder on the side of
   * the dividend.
   */
  lemma IntDivision(left: int32, right: int32)
    requires right != 0 && !(left == -TWO_31 && right == -1)
    ensures IntArith(Div, left, right).Ok? && IntArith(Rem, left, right).Ok?
    ensures IntArith(Div, left, right).value * right + IntArith(Rem, left, right).value == left
    ensures left >= 0 ==> IntArith(Rem, left, right).value >= 0
    ensures left < 0 ==> IntArith(Rem, left, right).value <= 0
  {
    QuotientFits(left, right);
    var q := Quot(left, right);
    var m := Remainder(left, right);
    assert IntArith(Div, left, right) == Ok(q);
    assert IntArith(Rem, left, right) == Ok(m);
    assert right * q == left - m;
  }

  lemma QuotientFits(left: int32, right: int32)
    requires right != 0 && !(left == -TWO_31 && right == -1)
    ensures -TWO_31 <= Quot(left, right) < TWO_31
  {
    var n, d := Abs(left), Abs(right);
    var k := n / d;
    assert n <= TWO_31;
    if d == 1 {
      assert k == n;
      assert left == -TWO_31 ==> right == 1;
    } else {
      DivisionShrinks(n, d);
      assert k <= TWO_31 / 2;
    }
    assert Quot(left, right) == k || Quot(left, right) == -k;
  }

  lemma DivisionShrinks(n: nat, d: nat)
    requires d >= 2
    ensures n / d <= n / 2
  {
    var q := n / d;
    assert q * d <= n;
    assert q * 2 <= q * d;
  }

  /** The one quotient that overflows: the smallest int divided by -1 is itself, remainder 0. */
  lemma IntDivisionOverflow()
    ensures IntArith(Div, -TWO_31, -1) == Ok(-TWO_31)
    ensures IntArith(Rem, -TWO_31, -1) == Ok(0)
  {
    assert Quot(-TWO_31, -1) == TWO_31;
  }

  /** Three-way comparison as lcmp pushes it. */
  function Compare(left: int, right: int): (r: int32)
    ensures r == 1 <==> left > right
    ensures r == -1 <==> left < right
    ensures r == 0 <==> left == right
  {
    if left > right then 1 else if left < right then -1 else 0
  }

  /** Go's unary minus on an int32: wraps, so the smallest int is its own negation. */
  function IntNeg(x: int32): (r: int32)
    ensures x != -TWO_31 ==> r == -x
    ensures x == -TWO_31 ==> r == x
  {
    Wrap32(-(x as int))
  }

  function LongNeg(x: int64): (r: int64)
    ensures x != -TWO_63 ==> r == -x
    ensures x == -TWO_63 ==> r == x
  {
    Wrap64(-(x as int))
  }

  /** Unary minus on a float: IEEE 754 negation flips the sign bit and nothing else. */
  function NegateFloat32(bits: u32): (r: u32)
    ensures (bits < TWO_31) == (r >= TWO_31)
    ensures r % TWO_31 == bits % TWO_31
  {
    (bits + TWO_31) % TWO_32
  }

  function NegateFloat64(bits: u64): (r: u64)
    ensures (bits < TWO_63) == (r >= TWO_63)
    ensures r % TWO_63 == bits % TWO_63
  {
    (bits + TWO_63) % TWO_64
  }

  lemma NegateTwice(f: u32, d: u64)
    ensures NegateFloat32(NegateFloat32(f)) == f
    ensures NegateFloat64(NegateFloat64(d)) == d
  {
  }

  /** The binary floating-point operators. */
  datatype FloatOp = FAdd | FSub | FMul | FDiv | FRem

  /**
   * IEEE 754 arithmetic is not part of this model: the host supplies it, as a
   * function from an operator and the operand bits to the result bits.
   */
  datatype FloatUnit = FloatUnit(single: (FloatOp, u32, u32) -> u32, double: (FloatOp, u64, u64) -> u64)
}
