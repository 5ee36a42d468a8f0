/**
 * What the instruction handlers of book/instruction.go do to a frame's
 * operand stack, its local variables and the objects they reach, as pure
 * functions of the old contents. Each function fails where the handler
 * panics, with the fault of the first panic in the handler's own order of
 * pops, dereferences and index checks. The handlers in handlers.dfy are
 * proved to compute these functions; the lemmas here state what the
 * functions mean.
 */
module Semantics {
  import opened Base
  import opened Values
  import opened Utils
  import OS = OperandStack
  import opened Runtime

  // ---------------------------------------------------------------------
  // Immediate operands, read from the bytecode right after the opcode.
  // ---------------------------------------------------------------------

  /** ParseU8 at `pc`, with Go's bounds check. */
  function U8Operand(code: seq<byte>, pc: int): (r: Result<byte>)
    ensures r.Ok? <==> 0 <= pc < |code|
    ensures r.Ok? ==> r.value == code[pc]
    ensures r.Fail? ==> r.fault == IndexOutOfRange
  {
    if 0 <= pc < |code| then Ok(ParseU8(code, pc)) else Fail(IndexOutOfRange)
  }

  /** ParseU16 at `pc`: two bytes, big-endian, unsigned. */
  function U16Operand(code: seq<byte>, pc: int): (r: Result<u16>)
    ensures r.Ok? <==> 0 <= pc && pc + 2 <= |code|
    ensures r.Ok? ==> r.value == code[pc] * TWO_8 + code[pc + 1]
    ensures r.Fail? ==> r.fault == IndexOutOfRange
  {
    if 0 <= pc && pc + 2 <= |code| then Ok(ParseU16(code, pc)) else Fail(IndexOutOfRange)
  }

  /** ParseI16 at `pc`: the same two bytes, signed. */
  function I16Operand(code: seq<byte>, pc: int): (r: Result<int>)
    ensures r.Ok? <==> 0 <= pc && pc + 2 <= |code|
    ensures r.Ok? ==> r.value == ToInt16(code[pc] * TWO_8 + code[pc + 1])
    ensures r.Ok? ==> -0x8000 <= r.value < 0x8000
    ensures r.Fail? ==> r.fault == IndexOutOfRange
  {
    if 0 <= pc && pc + 2 <= |code| then Ok(ParseI16(code, pc)) else Fail(IndexOutOfRange)
  }

  /**
   * bipush and sipush push their immediate zero-extended: a byte 0xFF pushes
   * 255 where the Java Virtual Machine Specification (section 6.5, bipush)
   * sign-extends it to -1.
   */
  lemma ImmediatesAreUnsigned()
    ensures U8Operand([0xFF], 0) == Ok(255)
    ensures U16Operand([0xFF, 0xFF], 0) == Ok(65535)
    ensures I16Operand([0xFF, 0xFF], 0) == Ok(-1)
  {
  }

  // ---------------------------------------------------------------------
  // Stack manipulation: pop, pop2, dup, dup_x1, dup_x2, dup2, dup2_x1,
  // dup2_x2 and swap.
  // ---------------------------------------------------------------------

  datatype StackOp = Pop | Pop2 | Dup | DupX1 | DupX2 | Dup2 | Dup2X1 | Dup2X2 | Swap

  /** How many values the handler pops. */
  function Popped(op: StackOp): nat
  {
    match op
    case Pop => 1
    case Pop2 => 1
    case Dup => 1
    case DupX1 => 2
    case DupX2 => 3
    case Dup2 => 2
    case Dup2X1 => 3
    case Dup2X2 => 4
    case Swap => 2
  }

  /**
   * The values the handler pushes back, bottom first, each named by its
   * position among the popped values (0 for the deepest).
   */
  function Pushed(op: StackOp): (order: seq<nat>)
    ensures forall j | 0 <= j < |order| :: order[j] < Popped(op)
  {
    match op
    case Pop => []
    case Pop2 => []
    case Dup => [0, 0]
    case DupX1 => [1, 0, 1]
    case DupX2 => [2, 0, 1, 2]
    case Dup2 => [0, 1, 0, 1]
    case Dup2X1 => [1, 2, 0, 1, 2]
    case Dup2X2 => [2, 3, 0, 1, 2, 3]
    case Swap => [1, 0]
  }

  /** The values `order` names, in order, from the popped window `w`. */
  function Pick(w: seq<Value>, order: seq<nat>): (r: seq<Value>)
    requires forall j | 0 <= j < |order| :: order[j] < |w|
    ensures |r| == |order|
    ensures forall j | 0 <= j < |order| :: r[j] == w[order[j]]
  {
    if order == [] then [] else [w[order[0]]] + Pick(w, order[1..])
  }

  /**
   * A stack handler on a stack `s` of capacity `cap`: it pops Popped(op)
   * values, failing on an empty stack, then pushes Pushed(op) back, failing
   * once the stack is full.
   */
  function Shuffle(s: seq<Value>, cap: nat, op: StackOp): (r: Result<seq<Value>>)
  {
    var n := Popped(op);
    if |s| < n then Fail(IndexOutOfRange)
    else if |s| - n + |Pushed(op)| > cap then Fail(StackOverflow)
    else Ok(s[..|s| - n] + Pick(s[|s| - n..], Pushed(op)))
  }

  /** When a stack handler fails, and with which fault: too few values first, then too little room. */
  lemma ShuffleFaults(s: seq<Value>, cap: nat, op: StackOp)
    ensures |s| < Popped(op) ==> Shuffle(s, cap, op) == Fail(IndexOutOfRange)
    ensures Popped(op) <= |s| && |s| - Popped(op) + |Pushed(op)| > cap ==> Shuffle(s, cap, op) == Fail(StackOverflow)
    ensures Popped(op) <= |s| && |s| - Popped(op) + |Pushed(op)| <= cap ==> Shuffle(s, cap, op).Ok?
  {
  }

  /** A stack handler applied to a window `w` on top of `s` rearranges the window and keeps `s`. */
  lemma ShuffleWindow(s: seq<Value>, w: seq<Value>, cap: nat, op: StackOp)
    requires |w| == Popped(op) && |s| + |Pushed(op)| <= cap
    ensures Shuffle(s + w, cap, op) == Ok(s + Pick(w, Pushed(op)))
  {
    assert (s + w)[..|s|] == s;
    assert (s + w)[|s|..] == w;
  }

  /** swap exchanges the top two values, so swapping twice changes nothing. */
  lemma SwapTwice(s: seq<Value>, cap: nat, a: Value, b: Value)
    requires |s| + 2 <= cap
    ensures Shuffle(s + [a, b], cap, Swap) == Ok(s + [b, a])
    ensures Shuffle(Shuffle(s + [a, b], cap, Swap).value, cap, Swap) == Ok(s + [a, b])
  {
    ShuffleWindow(s, [a, b], cap, Swap);
    assert Pick([a, b], [1, 0]) == [b, a];
    ShuffleWindow(s, [b, a], cap, Swap);
    assert Pick([b, a], [1, 0]) == [a, b];
  }

  /** dup pushes a second copy of the top value. */
  lemma DupCopiesTop(s: seq<Value>, cap: nat, a: Value)
    requires |s| + 2 <= cap
    ensures Shuffle(s + [a], cap, Dup) == Ok(s + [a, a])
  {
    ShuffleWindow(s, [a], cap, Dup);
    assert Pick([a], [0, 0]) == [a, a];
  }

  /** dup_x1 puts a copy of the top value beneath the second. */
  lemma DupX1Inserts(s: seq<Value>, cap: nat, a: Value, b: Value)
    requires |s| + 3 <= cap
    ensures Shuffle(s + [a, b], cap, DupX1) == Ok(s + [b, a, b])
  {
    ShuffleWindow(s, [a, b], cap, DupX1);
    assert Pick([a, b], [1, 0, 1]) == [b, a, b];
  }

  /** dup_x2 puts a copy of the top value beneath the third. */
  lemma DupX2Inserts(s: seq<Value>, cap: nat, a: Value, b: Value, c: Value)
    requires |s| + 4 <= cap
    ensures Shuffle(s + [a, b, c], cap, DupX2) == Ok(s + [c, a, b, c])
  {
    ShuffleWindow(s, [a, b, c], cap, DupX2);
    assert Pick([a, b, c], [2, 0, 1, 2]) == [c, a, b, c];
  }

  /** dup2 copies the top two values, in order. */
  lemma Dup2CopiesPair(s: seq<Value>, cap: nat, a: Value, b: Value)
    requires |s| + 4 <= cap
    ensures Shuffle(s + [a, b], cap, Dup2) == Ok(s + [a, b, a, b])
  {
    ShuffleWindow(s, [a, b], cap, Dup2);
    assert Pick([a, b], [0, 1, 0, 1]) == [a, b, a, b];
  }

  /** dup2_x1 puts a copy of the top pair beneath the third value. */
  lemma Dup2X1Inserts(s: seq<Value>, cap: nat, a: Value, b: Value, c: Value)
    requires |s| + 5 <= cap
    ensures Shuffle(s + [a, b, c], cap, Dup2X1) == Ok(s + [b, c, a, b, c])
  {
    ShuffleWindow(s, [a, b, c], cap, Dup2X1);
    assert Pick([a, b, c], [1, 2, 0, 1, 2]) == [b, c, a, b, c];
  }

  /** dup2_x2 puts a copy of the top pair beneath the fourth value. */
  lemma Dup2X2Inserts(s: seq<Value>, cap: nat, a: Value, b: Value, c: Value, d: Value)
    requires |s| + 6 <= cap
    ensures Shuffle(s + [a, b, c, d], cap, Dup2X2) == Ok(s + [c, d, a, b, c, d])
  {
    ShuffleWindow(s, [a, b, c, d], cap, Dup2X2);
    assert Pick([a, b, c, d], [2, 3, 0, 1, 2, 3]) == [c, d, a, b, c, d];
  }

  /**
   * The pop2 handler pops one slot, as pop does. On a long or double, which
   * takes two slots, it leaves the lower copy behind, where section 6.5 of the
   * Java Virtual Machine Specification (pop2) removes both.
   */
  lemma Pop2PopsOneSlot(s: seq<Value>, cap: nat, v: Value)
    requires |s| + 2 <= cap
    ensures OS.Push2(s, cap, v) == Ok(s + [v, v])
    ensures Shuffle(s + [v, v], cap, Pop2) == Ok(s + [v])
    ensures Shuffle(s + [v, v], cap, Pop2) == Shuffle(s + [v, v], cap, Pop)
  {
    assert s + [v] + [v] == s + [v, v];
    ShuffleWindow(s + [v], [v], cap, Pop2);
    ShuffleWindow(s + [v], [v], cap, Pop);
    assert Pick([v], []) == [];
    assert s + [v] + [] == s + [v];
  }

  // ---------------------------------------------------------------------
  // Arithmetic.
  // ---------------------------------------------------------------------

  /**
   * iadd, isub, imul, idiv, irem, iand, ior, ixor: pop the right operand,
   * then the left, and push the result.
   */
  function IntBinary(s: seq<Value>, op: IntOp): (r: Result<seq<Value>>)
  {
    if |s| < 2 then Fail(IndexOutOfRange)
    else
      var right :- IntegerOf(s[|s| - 1]);
      var left :- IntegerOf(s[|s| - 2]);
      var v :- IntArith(op, left, right);
      Ok(s[..|s| - 2] + [Int(v)])
  }

  /** The int handlers replace the top two ints by one: the operator applied to them, deeper one on the left. */
  lemma IntBinaryOnInts(s: seq<Value>, op: IntOp, left: int32, right: int32)
    ensures IntBinary(s + [Int(left), Int(right)], op).Ok? <==> IntArith(op, left, right).Ok?
    ensures IntBinary(s + [Int(left), Int(right)], op).Ok? ==>
              IntBinary(s + [Int(left), Int(right)], op) == Ok(s + [Int(IntArith(op, left, right).value)])
    ensures IntBinary(s + [Int(left), Int(right)], op).Fail? ==>
              IntBinary(s + [Int(left), Int(right)], op).fault == DivideByZero
  {
    assert (s + [Int(left), Int(right)])[..|s|] == s;
  }

  /** Operand order: 7 / 2 is 3 and 7 % 2 is 1, and -7 / 2 truncates to -3. */
  lemma IntDivisionExamples(s: seq<Value>)
    ensures IntBinary(s + [Int(7), Int(2)], Div) == Ok(s + [Int(3)])
    ensures IntBinary(s + [Int(7), Int(2)], Rem) == Ok(s + [Int(1)])
    ensures IntBinary(s + [Int(-7), Int(2)], Div) == Ok(s + [Int(-3)])
    ensures IntBinary(s + [Int(7), Int(2)], Sub) == Ok(s + [Int(5)])
  {
    IntBinaryOnInts(s, Div, 7, 2);
    IntBinaryOnInts(s, Rem, 7, 2);
    IntBinaryOnInts(s, Div, -7, 2);
    IntBinaryOnInts(s, Sub, 7, 2);
  }

  /**
   * ladd, lsub, lmul, ldiv, lrem, land, lor, lxor: Pop2 the right operand,
   * then the left, and Push2 the result. Only the lower slot of each pair is
   * read.
   */
  function LongBinary(s: seq<Value>, op: IntOp): (r: Result<seq<Value>>)
  {
    if |s| < 4 then Fail(IndexOutOfRange)
    else
      var right :- LongOf(s[|s| - 2]);
      var left :- LongOf(s[|s| - 4]);
      var v :- LongArith(op, left, right);
      Ok(s[..|s| - 4] + [Long(v), Long(v)])
  }

  /** On two longs pushed as pairs, the long handlers leave the result as a pair. */
  lemma LongBinaryOnPairs(s: seq<Value>, op: IntOp, left: int64, right: int64)
    ensures LongBinary(s + [Long(left), Long(left), Long(right), Long(right)], op).Ok? <==> LongArith(op, left, right).Ok?
    ensures LongBinary(s + [Long(left), Long(left), Long(right), Long(right)], op).Ok? ==>
              LongBinary(s + [Long(left), Long(left), Long(right), Long(right)], op) ==
              Ok(s + [Long(LongArith(op, left, right).value), Long(LongArith(op, left, right).value)])
  {
    assert (s + [Long(left), Long(left), Long(right), Long(right)])[..|s|] == s;
  }

  /** lcmp: Pop2 twice and push 1, -1 or 0 as the left long is greater, smaller or equal. */
  function LongCompare(s: seq<Value>): (r: Result<seq<Value>>)
  {
    if |s| < 4 then Fail(IndexOutOfRange)
    else
      var right :- LongOf(s[|s| - 2]);
      var left :- LongOf(s[|s| - 4]);
      Ok(s[..|s| - 4] + [Int(Compare(left, right))])
  }

  lemma LongCompareOnPairs(s: seq<Value>, left: int64, right: int64)
    ensures LongCompare(s + [Long(left), Long(left), Long(right), Long(right)]) ==
              Ok(s + [Int(if left > right then 1 else if left < right then -1 else 0)])
  {
    assert (s + [Long(left), Long(left), Long(right), Long(right)])[..|s|] == s;
  }

  /**
   * fadd, fsub, fmul, fdiv, frem on the host's float unit. fadd passes the
   * operands as Go adds them, right first.
   */
  function FloatBinary(s: seq<Value>, fpu: FloatUnit, op: FloatOp): (r: Result<seq<Value>>)
  {
    if |s| < 2 then Fail(IndexOutOfRange)
    else
      var right :- FloatOf(s[|s| - 1]);
      var left :- FloatOf(s[|s| - 2]);
      var v := if op == FAdd then fpu.single(op, right, left) else fpu.single(op, left, right);
      Ok(s[..|s| - 2] + [Float(v)])
  }

  /** dadd, dsub, dmul, ddiv, drem: the same on pairs. */
  function DoubleBinary(s: seq<Value>, fpu: FloatUnit, op: FloatOp): (r: Result<seq<Value>>)
  {
    if |s| < 4 then Fail(IndexOutOfRange)
    else
      var right :- DoubleOf(s[|s| - 2]);
      var left :- DoubleOf(s[|s| - 4]);
      var v := if op == FAdd then fpu.double(op, right, left) else fpu.double(op, left, right);
      Ok(s[..|s| - 4] + [Double(v), Double(v)])
  }

  /** The unary operators: ineg, lneg, fneg and dneg. */
  datatype NegOp = INeg | LNeg | FNeg | DNeg

  /** The negation handlers: pop one value (a pair for lneg and dneg) and push its negation. */
  function Negate(s: seq<Value>, op: NegOp): (r: Result<seq<Value>>)
  {
    match op
    case INeg =>
      if |s| < 1 then Fail(IndexOutOfRange)
      else var x :- IntegerOf(s[|s| - 1]); Ok(s[..|s| - 1] + [Int(IntNeg(x))])
    case FNeg =>
      if |s| < 1 then Fail(IndexOutOfRange)
      else var x :- FloatOf(s[|s| - 1]); Ok(s[..|s| - 1] + [Float(NegateFloat32(x))])
    case LNeg =>
      if |s| < 2 then Fail(IndexOutOfRange)
      else var x :- LongOf(s[|s| - 2]); Ok(s[..|s| - 2] + [Long(LongNeg(x)), Long(LongNeg(x))])
    case DNeg =>
      if |s| < 2 then Fail(IndexOutOfRange)
      else var x :- DoubleOf(s[|s| - 2]); Ok(s[..|s| - 2] + [Double(NegateFloat64(x)), Double(NegateFloat64(x))])
  }

  /** Negating an int twice gives it back, the smallest int included, which wraps to itself. */
  lemma IntNegateTwice(s: seq<Value>, i: int32)
    ensures Negate(s + [Int(i)], INeg) == Ok(s + [Int(IntNeg(i))])
    ensures Negate(Negate(s + [Int(i)], INeg).value, INeg) == Ok(s + [Int(i)])
  {
    assert (s + [Int(i)])[..|s|] == s;
    assert (s + [Int(IntNeg(i))])[..|s|] == s;
  }

  /** The same for a long pair. */
  lemma LongNegateTwice(s: seq<Value>, l: int64)
    ensures Negate(s + [Long(l), Long(l)], LNeg) == Ok(s + [Long(LongNeg(l)), Long(LongNeg(l))])
    ensures Negate(Negate(s + [Long(l), Long(l)], LNeg).value, LNeg) == Ok(s + [Long(l), Long(l)])
  {
    assert (s + [Long(l), Long(l)])[..|s|] == s;
    assert (s + [Long(LongNeg(l)), Long(LongNeg(l))])[..|s|] == s;
  }

  /** fneg and dneg flip the sign bit, so negating twice always gives the value back. */
  lemma FloatNegateTwice(s: seq<Value>, f: u32, d: u64)
    ensures Negate(Negate(s + [Float(f)], FNeg).value, FNeg) == Ok(s + [Float(f)])
    ensures Negate(Negate(s + [Double(d), Double(d)], DNeg).value, DNeg) == Ok(s + [Double(d), Double(d)])
  {
    assert (s + [Float(f)])[..|s|] == s;
    assert (s + [Float(NegateFloat32(f))])[..|s|] == s;
    assert (s + [Double(d), Double(d)])[..|s|] == s;
    assert (s + [Double(NegateFloat64(d)), Double(NegateFloat64(d))])[..|s|] == s;
    NegateTwice(f, d);
  }

  /**
   * i2b: pops a value, masks its int with 1 and pushes it back. A value of
   * another kind holds int 0, which the mask leaves 0, so it comes back
   * unchanged.
   */
  function IntToByte(s: seq<Value>): (r: Result<seq<Value>>)
  {
    if |s| < 1 then Fail(IndexOutOfRange)
    else
      var v := s[|s| - 1];
      var _ :- IntegerOf(v);
      Ok(s[..|s| - 1] + [if v.Int? then Int(v.i % 2) else v])
  }

  /**
   * i2b keeps only the lowest bit, where section 6.5 of the Java Virtual
   * Machine Specification (i2b) keeps the low eight bits and sign-extends:
   * -1 becomes 1 instead of -1, and 2 becomes 0 instead of 2.
   */
  lemma IntToByteKeepsLowestBit(s: seq<Value>, i: int32)
    ensures IntToByte(s + [Int(i)]) == Ok(s + [Int(if i % 2 == 0 then 0 else 1)])
    ensures IntToByte(s + [Int(-1)]) == Ok(s + [Int(1)])
    ensures IntToByte(s + [Int(2)]) == Ok(s + [Int(0)])
  {
    assert (s + [Int(i)])[..|s|] == s;
    assert (s + [Int(-1)])[..|s|] == s;
    assert (s + [Int(2)])[..|s|] == s;
  }

  // ---------------------------------------------------------------------
  // Local variables.
  // ---------------------------------------------------------------------

  /** Pop, or Pop2 when the value is a long or a double. */
  function PopSlots(s: seq<Value>, two: bool): (r: Result<(seq<Value>, Value)>)
  {
    if two then OS.Pop2(s) else OS.Pop(s)
  }

  /** Push, or Push2 when the value is a long or a double. */
  function PushSlots(s: seq<Value>, cap: nat, v: Value, two: bool): (r: Result<seq<Value>>)
  {
    if two then OS.Push2(s, cap, v) else OS.Push(s, cap, v)
  }

  /** The load handlers: push local `index`, twice for a long or double. */
  function Load(s: seq<Value>, cap: nat, locals: seq<Value>, index: int, two: bool): (r: Result<seq<Value>>)
  {
    if !(0 <= index < |locals|) then Fail(IndexOutOfRange)
    else PushSlots(s, cap, locals[index], two)
  }

  /** The store handlers: pop a value (Pop2 for a long or double) into local `index`. */
  function Store(s: seq<Value>, locals: seq<Value>, index: int, two: bool): (r: Result<(seq<Value>, seq<Value>)>)
  {
    var p :- PopSlots(s, two);
    if !(0 <= index < |locals|) then Fail(IndexOutOfRange)
    else Ok((p.0, locals[index := p.1]))
  }

  /**
   * A store followed by a load of the same local gives back the stack the
   * store started from, for single values and for pairs alike; the other
   * locals are untouched.
   */
  lemma StoreThenLoad(s: seq<Value>, cap: nat, locals: seq<Value>, index: int, v: Value, two: bool)
    requires 0 <= index < |locals|
    requires |s| + 2 <= cap
    ensures var t := if two then s + [v, v] else s + [v];
            Store(t, locals, index, two) == Ok((s, locals[index := v])) &&
            Load(s, cap, locals[index := v], index, two) == Ok(t)
  {
    assert s + [v] + [v] == s + [v, v];
    if two {
      OS.Pop2IgnoresUpper(s, v, v);
    } else {
      OS.PushThenPop(s, cap, v);
    }
  }

  /**
   * iinc: adds the unsigned byte `change` to the int in local `index`,
   * wrapping to 32 bits. A local never written is Go's nil pointer.
   */
  function IncLocal(locals: seq<Value>, index: int, change: byte): (r: Result<seq<Value>>)
  {
    if !(0 <= index < |locals|) then Fail(IndexOutOfRange)
    else
      var x :- IntegerOf(locals[index]);
      Ok(locals[index := Int(Wrap32(x + change))])
  }

  /**
   * iinc changes one local: an int grows by `change` modulo 2^32. The byte
   * 0xFF adds 255, where section 6.5 of the Java Virtual Machine
   * Specification (iinc) sign-extends it and subtracts 1.
   */
  lemma IncLocalAdds(locals: seq<Value>, index: int, change: byte, x: int32)
    requires 0 <= index < |locals| && locals[index] == Int(x)
    ensures IncLocal(locals, index, change).Ok?
    ensures var after := IncLocal(locals, index, change).value;
            |after| == |locals| && after[index].Int? && (after[index].i - (x + change)) % TWO_32 == 0 &&
            forall j | 0 <= j < |locals| && j != index :: after[j] == locals[j]
    ensures IncLocal([Int(0)], 0, 0xFF) == Ok([Int(255)])
  {
    assert [Int(0)][0 := Int(255)] == [Int(255)];
  }

  // ---------------------------------------------------------------------
  // Branches.
  // ---------------------------------------------------------------------

  /** The comparisons of ifeq, ifne, ifgt and the if_icmp handlers. */
  datatype Cond = Eq | Ne | Gt | Ge | Le

  predicate Holds(c: Cond, left: int, right: int)
  {
    match c
    case Eq => left == right
    case Ne => left != right
    case Gt => left > right
    case Ge => left >= right
    case Le => left <= right
  }

  /**
   * The pc a branch handler returns. The handler runs with `pc` one past the
   * opcode: a taken branch goes to the opcode's address plus the offset, an
   * untaken one to the next instruction, three bytes on.
   */
  function Target(pc: int, offset: int, taken: bool): (r: int)
    ensures taken ==> r == (pc - 1) + offset
    ensures !taken ==> r == (pc - 1) + 3
  {
    if taken then pc + offset - 1 else pc + 2
  }

  /** ifeq, ifne, ifgt: read the offset, pop an int and compare it with zero. */
  function IfZero(s: seq<Value>, code: seq<byte>, pc: int, c: Cond): (r: Result<(seq<Value>, int)>)
  {
    var offset :- I16Operand(code, pc);
    var p :- OS.Pop(s);
    var x :- IntegerOf(p.1);
    Ok((p.0, Target(pc, offset, Holds(c, x, 0))))
  }

  /** if_icmpne, if_icmpge, if_icmpgt, if_icmple: pop the right int, then the left, then read the offset. */
  function IfCompare(s: seq<Value>, code: seq<byte>, pc: int, c: Cond): (r: Result<(seq<Value>, int)>)
  {
    var p1 :- OS.Pop(s);
    var p2 :- OS.Pop(p1.0);
    var offset :- I16Operand(code, pc);
    var left :- IntegerOf(p2.1);
    var right :- IntegerOf(p1.1);
    Ok((p2.0, Target(pc, offset, Holds(c, left, right))))
  }

  /** if_acmpne: branch when the two popped values point to different objects. */
  function IfRefsDiffer(s: seq<Value>, code: seq<byte>, pc: int): (r: Result<(seq<Value>, int)>)
  {
    var p1 :- OS.Pop(s);
    var p2 :- OS.Pop(p1.0);
    var offset :- I16Operand(code, pc);
    var left :- ObjectOf(p2.1);
    var right :- ObjectOf(p1.1);
    Ok((p2.0, Target(pc, offset, left != right)))
  }

  /** ifnull (`onNull`) and ifnonnull: pop a value, read the offset and test for a missing object. */
  function IfNullness(s: seq<Value>, code: seq<byte>, pc: int, onNull: bool): (r: Result<(seq<Value>, int)>)
  {
    var p :- OS.Pop(s);
    var offset :- I16Operand(code, pc);
    Ok((p.0, Target(pc, offset, IsNullRef(p.1) == onNull)))
  }

  /** goto: the opcode's address plus the offset. */
  function GoTo(code: seq<byte>, pc: int): (r: Result<int>)
  {
    var offset :- I16Operand(code, pc);
    Ok(pc - 1 + offset)
  }

  /**
   * The conditional branches pop their operands and branch exactly when the
   * comparison holds; the comparison of ints is on their signed values.
   */
  lemma IfCompareBranches(s: seq<Value>, code: seq<byte>, pc: int, c: Cond, left: int32, right: int32)
    requires 0 <= pc && pc + 2 <= |code|
    ensures var off := ToInt16(code[pc] * TWO_8 + code[pc + 1]);
            IfCompare(s + [Int(left), Int(right)], code, pc, c) == Ok((s, Target(pc, off, Holds(c, left, right)))) &&
            IfZero(s + [Int(left)], code, pc, c) == Ok((s, Target(pc, off, Holds(c, left, 0))))
  {
    assert (s + [Int(left), Int(right)])[..|s| + 1] == s + [Int(left)];
    assert (s + [Int(left)])[..|s|] == s;
  }

  /**
   * ifnull and ifnonnull are complementary: on the same stack exactly one of
   * them takes its branch. A nil slot, a null and a non-object all count as
   * null.
   */
  lemma NullTestsComplement(s: seq<Value>, code: seq<byte>, pc: int, v: Value)
    requires 0 <= pc && pc + 2 <= |code|
    ensures var off := ToInt16(code[pc] * TWO_8 + code[pc + 1]);
            IfNullness(s + [v], code, pc, true) == Ok((s, Target(pc, off, !v.Obj?))) &&
            IfNullness(s + [v], code, pc, false) == Ok((s, Target(pc, off, v.Obj?)))
  {
    assert (s + [v])[..|s|] == s;
  }

  /** if_acmpne compares identity: two values branch iff they point to different objects. */
  lemma IfRefsDifferIdentity(s: seq<Value>, code: seq<byte>, pc: int, a: nat, b: nat)
    requires 0 <= pc && pc + 2 <= |code|
    ensures var off := ToInt16(code[pc] * TWO_8 + code[pc + 1]);
            IfRefsDiffer(s + [Obj(a), Obj(b)], code, pc) == Ok((s, Target(pc, off, a != b))) &&
            IfRefsDiffer(s + [Null, Null], code, pc) == Ok((s, Target(pc, off, false)))
  {
    assert (s + [Obj(a), Obj(b)])[..|s| + 1] == s + [Obj(a)];
    assert (s + [Obj(a)])[..|s|] == s;
    assert (s + [Null, Null])[..|s| + 1] == s + [Null];
    assert (s + [Null])[..|s|] == s;
  }

  // ---------------------------------------------------------------------
  // Arrays and fields.
  // ---------------------------------------------------------------------

  /** The element at `index` of the array object `arr` points to. */
  function Element(objects: seq<ObjectData>, arr: Value, index: int): (r: Result<Value>)
  {
    var o :- Deref(objects, arr);
    if 0 <= index < |o.arrayData| then Ok(o.arrayData[index]) else Fail(IndexOutOfRange)
  }

  /** The array loads: pop the index, then the array, and push the element (twice for laload and daload). */
  function ArrayLoad(s: seq<Value>, cap: nat, objects: seq<ObjectData>, two: bool): (r: Result<seq<Value>>)
  {
    var p1 :- OS.Pop(s);
    var index :- IntegerOf(p1.1);
    var p2 :- OS.Pop(p1.0);
    var v :- Element(objects, p2.1, index);
    PushSlots(p2.0, cap, v, two)
  }

  /** The array stores: pop the value (Pop2 for lastore and dastore), the index and the array, and write the element. */
  function ArrayStore(s: seq<Value>, objects: seq<ObjectData>, two: bool): (r: Result<(seq<Value>, seq<ObjectData>)>)
  {
    var p0 :- PopSlots(s, two);
    var p1 :- OS.Pop(p0.0);
    var index :- IntegerOf(p1.1);
    var p2 :- OS.Pop(p1.0);
    var o :- Deref(objects, p2.1);
    if !(0 <= index < |o.arrayData|) then Fail(IndexOutOfRange)
    else Ok((p2.0, objects[p2.1.addr := o.(arrayData := o.arrayData[index := p0.1])]))
  }

  /**
   * An array store followed by an array load of the same element gives the
   * stored value back, and leaves every other object as it was.
   */
  lemma ArrayStoreThenLoad(s: seq<Value>, cap: nat, objects: seq<ObjectData>, a: nat, i: int32, v: Value)
    requires a < |objects| && 0 <= i < |objects[a].arrayData|
    requires |s| + 2 <= cap
    ensures ArrayStore(s + [Obj(a), Int(i), v], objects, false).Ok?
    ensures var after := ArrayStore(s + [Obj(a), Int(i), v], objects, false).value;
            after.0 == s && |after.1| == |objects| &&
            (forall b | 0 <= b < |objects| && b != a :: after.1[b] == objects[b]) &&
            ArrayLoad(s + [Obj(a), Int(i)], cap, after.1, false) == Ok(s + [v])
  {
    var t := s + [Obj(a), Int(i), v];
    assert t[..|s| + 2] == s + [Obj(a), Int(i)];
    assert (s + [Obj(a), Int(i)])[..|s| + 1] == s + [Obj(a)];
    assert (s + [Obj(a)])[..|s|] == s;
  }

  /** arraylength: pop an array and push its length as an int32. */
  function ArrayLength(s: seq<Value>, objects: seq<ObjectData>): (r: Result<seq<Value>>)
  {
    var p :- OS.Pop(s);
    var o :- Deref(objects, p.1);
    Ok(p.0 + [Int(Wrap32(|o.arrayData|))])
  }

  /** getfield: pop the object and push the value in its slot `slot` (twice for a long or double). */
  function GetFieldValue(s: seq<Value>, cap: nat, objects: seq<ObjectData>, slot: nat, two: bool): (r: Result<seq<Value>>)
  {
    var p :- OS.Pop(s);
    var o :- Deref(objects, p.1);
    if slot >= |o.fields| then Fail(IndexOutOfRange)
    else PushSlots(p.0, cap, o.fields[slot], two)
  }

  /** putfield: pop the value (Pop2 for a long or double), then the object, and write its slot `slot`. */
  function PutFieldValue(s: seq<Value>, objects: seq<ObjectData>, slot: nat, two: bool): (r: Result<(seq<Value>, seq<ObjectData>)>)
  {
    var p0 :- PopSlots(s, two);
    var p1 :- OS.Pop(p0.0);
    var o :- Deref(objects, p1.1);
    if slot >= |o.fields| then Fail(IndexOutOfRange)
    else Ok((p1.0, objects[p1.1.addr := o.(fields := o.fields[slot := p0.1])]))
  }

  /**
   * putfield then getfield of the same slot of the same object pushes back
   * what was stored, a single value or a pair; no other object changes.
   */
  lemma PutFieldThenGetField(s: seq<Value>, cap: nat, objects: seq<ObjectData>, a: nat, slot: nat, v: Value, two: bool)
    requires a < |objects| && slot < |objects[a].fields|
    requires |s| + 2 <= cap
    ensures var t := if two then s + [Obj(a), v, v] else s + [Obj(a), v];
            var after := PutFieldValue(t, objects, slot, two);
            after.Ok? && after.value.0 == s && |after.value.1| == |objects| &&
            (forall b | 0 <= b < |objects| && b != a :: after.value.1[b] == objects[b]) &&
            GetFieldValue(s + [Obj(a)], cap, after.value.1, slot, two) == Ok(if two then s + [v, v] else s + [v])
  {
    assert (s + [Obj(a), v, v])[..|s| + 2] == s + [Obj(a), v];
    assert (s + [Obj(a), v])[..|s| + 1] == s + [Obj(a)];
    assert (s + [Obj(a)])[..|s|] == s;
    assert s + [v] + [v] == s + [v, v];
    var o := objects[a];
    var objects' := objects[a := o.(fields := o.fields[slot := v])];
    assert objects'[a].fields[slot] == v;
    if two {
      assert PutFieldValue(s + [Obj(a), v, v], objects, slot, true) == Ok((s, objects'));
    } else {
      assert PutFieldValue(s + [Obj(a), v], objects, slot, false) == Ok((s, objects'));
    }
  }

  /** getstatic: push static slot `slot` of the class (twice for a long or double). */
  function GetStaticValue(s: seq<Value>, cap: nat, statics: seq<Value>, slot: nat, two: bool): (r: Result<seq<Value>>)
  {
    if slot >= |statics| then Fail(IndexOutOfRange)
    else PushSlots(s, cap, statics[slot], two)
  }

  /** putstatic: pop a value (Pop2 for a long or double) into static slot `slot`. */
  function PutStaticValue(s: seq<Value>, statics: seq<Value>, slot: nat, two: bool): (r: Result<(seq<Value>, seq<Value>)>)
  {
    var p :- PopSlots(s, two);
    if slot >= |statics| then Fail(IndexOutOfRange)
    else Ok((p.0, statics[slot := p.1]))
  }

  /** putstatic then getstatic of the same slot pushes back what was stored; the other statics are untouched. */
  lemma PutStaticThenGetStatic(s: seq<Value>, cap: nat, statics: seq<Value>, slot: nat, v: Value, two: bool)
    requires slot < |statics| && |s| + 2 <= cap
    ensures var t := if two then s + [v, v] else s + [v];
            PutStaticValue(t, statics, slot, two) == Ok((s, statics[slot := v])) &&
            GetStaticValue(s, cap, statics[slot := v], slot, two) == Ok(t)
  {
    assert s + [v] + [v] == s + [v, v];
    if two {
      OS.Pop2IgnoresUpper(s, v, v);
    } else {
      OS.PushThenPop(s, cap, v);
    }
  }
}
