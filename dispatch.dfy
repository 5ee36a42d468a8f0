/**
 * The opcode table of book/rtda.go (InitInstruction) and the instructions
 * that work on the top frame alone. Each opcode maps to an instruction
 * kind with the parameters that tell its table entries apart (which local,
 * one slot or two, which operator). `Step` states what such an instruction
 * does to the frame's operand stack, its locals and the heap, and
 * `FrameStep` is proved to do it with the handlers of handlers.dfy.
 */
module Dispatch {
  import opened Base
  import opened Values
  import opened Utils
  import opened Runtime
  import OS = OperandStack
  import Sem = Semantics
  import Handlers

  /** What a table entry does; `two` marks the long and double variants, which use Push2 and Pop2. */
  datatype Instr =
    | Nop
    | Const(v: Value, two: bool)
    | BIPush
    | SIPush
    | Ldc(wide: bool)
    | Load(index: Option<nat>, two: bool)
    | Store(index: Option<nat>, two: bool)
    | ArrayLoad(two: bool)
    | ArrayStore(two: bool)
    | Shuffle(op: Sem.StackOp)
    | IntMath(iop: IntOp)
    | LongMath(lop: IntOp)
    | FloatMath(fop: FloatOp)
    | DoubleMath(dop: FloatOp)
    | Neg(nop: Sem.NegOp)
    | IInc
    | I2B
    | LCmp
    | IfZero(zc: Sem.Cond)
    | IfICmp(ic: Sem.Cond)
    | IfACmpNe
    | IfNullness(onNull: bool)
    | GoTo
    | Return
    | Return1
    | Return2
    | GetStatic
    | PutStatic
    | GetField
    | PutField
    | InvokeVirtual
    | InvokeSpecial
    | InvokeStatic
    | InvokeInterface
    | New
    | NewArray
    | ObjArray
    | ArrayLength
    | AThrow
    | CheckCast
    | InstanceOf
    | MultiArray
  {
    /** The instructions whose handler touches only the top frame and the heap. */
    predicate OnFrame()
    {
      Const? || BIPush? || SIPush? || Load? || Store? || ArrayLoad? || ArrayStore? ||
      Shuffle? || IntMath? || LongMath? || FloatMath? || DoubleMath? || Neg? ||
      IInc? || I2B? || LCmp? || IfZero? || IfICmp? || IfACmpNe? || IfNullness? || ArrayLength?
    }
  }

  /**
   * The value kinds in the order the typed opcode families list them (int,
   * long, float, double, reference); the second and fourth take two slots.
   */
  predicate Wide(kind: int)
  {
    kind == 1 || kind == 3
  }

  /** The stack opcodes 0x57 to 0x5F in order. */
  function StackOpAt(k: int): Sem.StackOp
    requires 0 <= k < 9
  {
    [Sem.Pop, Sem.Pop2, Sem.Dup, Sem.DupX1, Sem.DupX2, Sem.Dup2, Sem.Dup2X1, Sem.Dup2X2, Sem.Swap][k]
  }

  /** add, sub, mul, div and rem of the kind `kind` (0 int, 1 long, 2 float, 3 double). */
  function ArithAt(kind: int, k: int): Instr
    requires 0 <= kind < 4 && 0 <= k < 5
  {
    var iop := [Add, Sub, Mul, Div, Rem][k];
    var fop := [FAdd, FSub, FMul, FDiv, FRem][k];
    if kind == 0 then IntMath(iop)
    else if kind == 1 then LongMath(iop)
    else if kind == 2 then FloatMath(fop)
    else DoubleMath(fop)
  }

  /**
   * The Instructions map: the instruction an opcode runs, or None when the
   * opcode has no entry, which RunMethod reports as an unknown opcode.
   */
  function Decode(op: byte): Option<Instr>
  {
    if op == 0x00 then Some(Nop)
    else if op == 0x01 then Some(Const(Null, false))
    else if 0x03 <= op <= 0x08 then Some(Const(Int(op - 0x03), false))
    else if op == 0x09 || op == 0x0A then Some(Const(Long(op - 0x09), true))
    else if op == 0x0B then Some(Const(Float(0), false))
    else if op == 0x0E then Some(Const(Double(0), true))
    else if op == 0x10 then Some(BIPush)
    else if op == 0x11 then Some(SIPush)
    else if op == 0x12 then Some(Ldc(false))
    else if op == 0x13 || op == 0x14 then Some(Ldc(true))
    else if 0x15 <= op <= 0x19 then Some(Load(None, Wide(op - 0x15)))
    else if 0x1A <= op <= 0x2D then Some(Load(Some((op - 0x1A) % 4), Wide((op - 0x1A) / 4)))
    else if 0x2E <= op <= 0x35 then Some(ArrayLoad(op == 0x2F || op == 0x31))
    else if 0x36 <= op <= 0x3A then Some(Store(None, Wide(op - 0x36)))
    else if 0x3B <= op <= 0x4E then Some(Store(Some((op - 0x3B) % 4), Wide((op - 0x3B) / 4)))
    else if 0x4F <= op <= 0x56 then Some(ArrayStore(op == 0x50 || op == 0x52))
    else if 0x57 <= op <= 0x5F then Some(Shuffle(StackOpAt(op - 0x57)))
    else if 0x60 <= op <= 0x73 then Some(ArithAt((op - 0x60) % 4, (op - 0x60) / 4))
    else if op == 0x74 then Some(Neg(Sem.INeg))
    else if op == 0x75 then Some(Neg(Sem.LNeg))
    else if op == 0x76 then Some(Neg(Sem.FNeg))
    else if op == 0x77 then Some(Neg(Sem.DNeg))
    else if 0x7E <= op <= 0x83 then
      var bop := [And, Or, Xor][(op - 0x7E) / 2];
      Some(if (op - 0x7E) % 2 == 0 then IntMath(bop) else LongMath(bop))
    else if op == 0x84 then Some(IInc)
    else if op == 0x91 then Some(I2B)
    else if op == 0x94 then Some(LCmp)
    else if op == 0x99 then Some(IfZero(Sem.Eq))
    else if op == 0x9A then Some(IfZero(Sem.Ne))
    else if op == 0x9D then Some(IfZero(Sem.Gt))
    else if op == 0xA0 then Some(IfICmp(Sem.Ne))
    else if op == 0xA2 then Some(IfICmp(Sem.Ge))
    else if op == 0xA3 then Some(IfICmp(Sem.Gt))
    else if op == 0xA4 then Some(IfICmp(Sem.Le))
    else if op == 0xA6 then Some(IfACmpNe)
    else if op == 0xA7 then Some(GoTo)
    else if op == 0xAC || op == 0xAE || op == 0xB0 then Some(Return1)
    else if op == 0xAD || op == 0xAF then Some(Return2)
    else if op == 0xB1 then Some(Return)
    else if op == 0xB2 then Some(GetStatic)
    else if op == 0xB3 then Some(PutStatic)
    else if op == 0xB4 then Some(GetField)
    else if op == 0xB5 then Some(PutField)
    else if op == 0xB6 then Some(InvokeVirtual)
    else if op == 0xB7 then Some(InvokeSpecial)
    else if op == 0xB8 then Some(InvokeStatic)
    else if op == 0xB9 then Some(InvokeInterface)
    else if op == 0xBB then Some(New)
    else if op == 0xBC then Some(NewArray)
    else if op == 0xBD then Some(ObjArray)
    else if op == 0xBE then Some(ArrayLength)
    else if op == 0xBF then Some(AThrow)
    else if op == 0xC0 then Some(CheckCast)
    else if op == 0xC1 then Some(InstanceOf)
    else if op == 0xC5 then Some(MultiArray)
    else if op == 0xC6 then Some(IfNullness(true))
    else if op == 0xC7 then Some(IfNullness(false))
    else None
  }

  /** Opcodes with no entry in the table: each makes RunMethod panic. */
  predicate Unmapped(op: byte)
  {
    op == 0x02 || op == 0x0C || op == 0x0D || op == 0x0F ||
    0x78 <= op <= 0x7D || 0x85 <= op <= 0x90 || op == 0x92 || op == 0x93 ||
    0x95 <= op <= 0x98 || op == 0x9B || op == 0x9C || op == 0x9E || op == 0x9F ||
    op == 0xA1 || op == 0xA5 || 0xA8 <= op <= 0xAB || op == 0xBA ||
    0xC2 <= op <= 0xC4 || op >= 0xC8
  }

  /**
   * The table has no entry for iconst_m1, fconst_1/2, dconst_1, the shifts,
   * the conversions other than i2b, the float and double comparisons, iflt,
   * ifge, ifle, if_icmpeq, if_icmplt, if_acmpeq, jsr, ret, the switches,
   * invokedynamic, the monitors, wide and the opcodes above ifnonnull; every
   * other opcode has one.
   */
  lemma MissingOpcodes(op: byte)
    ensures Decode(op).None? <==> Unmapped(op)
  {
  }

  /**
   * The typed load and store families: opcode base + 4 * kind + k loads or
   * stores local k, with the long and double kinds using two slots, and the
   * forms with an index operand come five in a row in the same kind order.
   */
  lemma TypedLocals(kind: nat, k: nat)
    requires kind < 5 && k < 4
    ensures Decode(0x1A + 4 * kind + k) == Some(Load(Some(k), kind == 1 || kind == 3))
    ensures Decode(0x3B + 4 * kind + k) == Some(Store(Some(k), kind == 1 || kind == 3))
    ensures Decode(0x15 + kind) == Some(Load(None, kind == 1 || kind == 3))
    ensures Decode(0x36 + kind) == Some(Store(None, kind == 1 || kind == 3))
  {
    assert (4 * kind + k) % 4 == k && (4 * kind + k) / 4 == kind;
  }

  /** ireturn, freturn and areturn move one slot; lreturn and dreturn move a pair; return moves none. */
  lemma ReturnWidths()
    ensures Decode(0xAC) == Decode(0xAE) == Decode(0xB0) == Some(Return1)
    ensures Decode(0xAD) == Decode(0xAF) == Some(Return2)
    ensures Decode(0xB1) == Some(Return)
  {
  }

  // ---------------------------------------------------------------------
  // One step on the top frame.
  // ---------------------------------------------------------------------

  /** What a frame-local instruction can change: the operand stack, the locals and the heap. */
  datatype FrameState = FrameState(operands: seq<Value>, locals: seq<Value>, objects: seq<ObjectData>)

  /** The frame state of `f` over `heap`. */
  ghost function StateOf(f: Frame, heap: Heap): FrameState
    reads f.stack, f.stack.data, f.locals, heap
    requires f.Valid()
  {
    FrameState(f.Operands(), f.locals[..], heap.objects)
  }

  /**
   * What a frame-local instruction does, run with `pc` one past its opcode:
   * the new frame state and the pc the handler returns, or the fault of its
   * first panic. `cap` is the operand stack's capacity.
   */
  function Step(st: FrameState, cap: nat, fpu: FloatUnit, code: seq<byte>, pc: int, instr: Instr): Result<(FrameState, int)>
    requires instr.OnFrame()
  {
    match instr
    case Const(v, two) =>
      var s :- Sem.PushSlots(st.operands, cap, v, two);
      Ok((st.(operands := s), pc))
    case BIPush =>
      var b :- Sem.U8Operand(code, pc);
      var s :- OS.Push(st.operands, cap, Int(b));
      Ok((st.(operands := s), pc + 1))
    case SIPush =>
      var b :- Sem.U16Operand(code, pc);
      var s :- OS.Push(st.operands, cap, Int(b));
      Ok((st.(operands := s), pc + 2))
    case Load(index, two) =>
      var i :- if index.Some? then Ok(index.value as int) else Sem.U8Operand(code, pc);
      var s :- Sem.Load(st.operands, cap, st.locals, i, two);
      Ok((st.(operands := s), if index.Some? then pc else pc + 1))
    case Store(index, two) =>
      var i :- if index.Some? then Ok(index.value as int) else Sem.U8Operand(code, pc);
      var p :- Sem.Store(st.operands, st.locals, i, two);
      Ok((st.(operands := p.0, locals := p.1), if index.Some? then pc else pc + 1))
    case IInc =>
      var index :- Sem.U8Operand(code, pc);
      var change :- Sem.U8Operand(code, pc + 1);
      var l :- Sem.IncLocal(st.locals, index, change);
      Ok((st.(locals := l), pc + 2))
    case ArrayLoad(two) =>
      var s :- Sem.ArrayLoad(st.operands, cap, st.objects, two);
      Ok((st.(operands := s), pc))
    case ArrayStore(two) =>
      var p :- Sem.ArrayStore(st.operands, st.objects, two);
      Ok((st.(operands := p.0, objects := p.1), pc))
    case ArrayLength =>
      var s :- Sem.ArrayLength(st.operands, st.objects);
      Ok((st.(operands := s), pc))
    case Shuffle(op) =>
      var s :- Sem.Shuffle(st.operands, cap, op);
      Ok((st.(operands := s), pc))
    case IntMath(op) =>
      var s :- Sem.IntBinary(st.operands, op);
      Ok((st.(operands := s), pc))
    case LongMath(op) =>
      var s :- Sem.LongBinary(st.operands, op);
      Ok((st.(operands := s), pc))
    case FloatMath(op) =>
      var s :- Sem.FloatBinary(st.operands, fpu, op);
      Ok((st.(operands := s), pc))
    case DoubleMath(op) =>
      var s :- Sem.DoubleBinary(st.operands, fpu, op);
      Ok((st.(operands := s), pc))
    case Neg(op) =>
      var s :- Sem.Negate(st.operands, op);
      Ok((st.(operands := s), pc))
    case I2B =>
      var s :- Sem.IntToByte(st.operands);
      Ok((st.(operands := s), pc))
    case LCmp =>
      var s :- Sem.LongCompare(st.operands);
      Ok((st.(operands := s), pc))
    case IfZero(c) =>
      var p :- Sem.IfZero(st.operands, code, pc, c);
      Ok((st.(operands := p.0), p.1))
    case IfICmp(c) =>
      var p :- Sem.IfCompare(st.operands, code, pc, c);
      Ok((st.(operands := p.0), p.1))
    case IfACmpNe =>
      var p :- Sem.IfRefsDiffer(st.operands, code, pc);
      Ok((st.(operands := p.0), p.1))
    case IfNullness(onNull) =>
      var p :- Sem.IfNullness(st.operands, code, pc, onNull);
      Ok((st.(operands := p.0), p.1))
  }

  /**
   * A frame-local instruction never allocates and never resizes the locals;
   * only the stores and iinc write a local, and only the array stores write
   * an object.
   */
  lemma StepKeepsShape(st: FrameState, cap: nat, fpu: FloatUnit, code: seq<byte>, pc: int, instr: Instr)
    requires instr.OnFrame()
    ensures var r := Step(st, cap, fpu, code, pc, instr);
            r.Ok? ==>
              |r.value.0.locals| == |st.locals| && |r.value.0.objects| == |st.objects| &&
              (!(instr.Store? || instr.IInc?) ==> r.value.0.locals == st.locals) &&
              (!instr.ArrayStore? ==> r.value.0.objects == st.objects)
  {
    if instr.Const? || instr.BIPush? || instr.SIPush? || instr.Load? || instr.Store? || instr.IInc? {
    } else if instr.IfZero? || instr.IfICmp? || instr.IfACmpNe? || instr.IfNullness? {
    } else if instr.ArrayLoad? || instr.ArrayStore? || instr.ArrayLength? {
    } else if instr.Shuffle? || instr.IntMath? || instr.LongMath? || instr.LCmp? {
    }
  }

  /**
   * The pc a frame-local instruction returns: its operand bytes skipped
   * (none, one for bipush and the indexed loads and stores, two for sipush
   * and iinc), or for a conditional branch either the next instruction or
   * the opcode's address plus the signed 16-bit offset that follows it.
   */
  lemma StepNext(st: FrameState, cap: nat, fpu: FloatUnit, code: seq<byte>, pc: int, instr: Instr)
    requires instr.OnFrame()
    ensures var r := Step(st, cap, fpu, code, pc, instr);
            r.Ok? ==>
              if instr.IfZero? || instr.IfICmp? || instr.IfACmpNe? || instr.IfNullness? then
                0 <= pc && pc + 2 <= |code| &&
                (r.value.1 == pc + 2 || r.value.1 == pc - 1 + ToInt16(code[pc] * TWO_8 + code[pc + 1]))
              else
                r.value.1 == pc + (if instr.BIPush? || (instr.Load? && instr.index.None?) || (instr.Store? && instr.index.None?) then 1
                                   else if instr.SIPush? || instr.IInc? then 2
                                   else 0)
  {
  }

  /**
   * Runs a frame-local instruction on frame `f` with the handlers of
   * book/instruction.go: it fails exactly when `Step` does, with the same
   * fault, and otherwise leaves the frame and the heap as `Step` says and
   * returns its pc.
   */
  method FrameStep(f: Frame, heap: Heap, fpu: FloatUnit, code: seq<byte>, pc: int, instr: Instr) returns (r: Result<int>)
    requires f.Valid() && instr.OnFrame()
    modifies f.stack, f.stack.data, f.locals, heap
    ensures f.Valid()
    ensures Handlers.BecameAt(r, StateOf(f, heap), Step(old(StateOf(f, heap)), f.Capacity(), fpu, code, pc, instr))
  {
    if instr.Const? || instr.BIPush? || instr.SIPush? || instr.Load? || instr.Store? || instr.IInc? {
      r := LocalsStep(f, heap, fpu, code, pc, instr);
    } else if instr.IfZero? || instr.IfICmp? || instr.IfACmpNe? || instr.IfNullness? {
      r := BranchStep(f, heap, fpu, code, pc, instr);
    } else if instr.ArrayLoad? || instr.ArrayStore? || instr.ArrayLength? {
      r := ArrayStep(f, heap, fpu, code, pc, instr);
    } else if instr.Shuffle? || instr.IntMath? || instr.LongMath? || instr.LCmp? {
      r := MathStep(f, heap, fpu, code, pc, instr);
    } else {
      r := UnitStep(f, heap, fpu, code, pc, instr);
    }
  }

  /** FrameStep for the constants, bipush, sipush, the loads and stores and iinc. */
  method LocalsStep(f: Frame, heap: Heap, fpu: FloatUnit, code: seq<byte>, pc: int, instr: Instr) returns (r: Result<int>)
    requires f.Valid() && (instr.Const? || instr.BIPush? || instr.SIPush? || instr.Load? || instr.Store? || instr.IInc?)
    modifies f.stack, f.stack.data, f.locals
    ensures f.Valid()
    ensures Handlers.BecameAt(r, StateOf(f, heap), Step(old(StateOf(f, heap)), f.Capacity(), fpu, code, pc, instr))
  {
    match instr
    case Const(v, two) =>
      var _ :- Handlers.PushValue(f, v, two);
      r := Ok(pc);
    case BIPush =>
      r := Handlers.BIPush(f, code, pc);
    case SIPush =>
      r := Handlers.SIPush(f, code, pc);
    case Load(index, two) =>
      var i :- if index.Some? then Ok(index.value as int) else Sem.U8Operand(code, pc);
      var _ :- Handlers.Load(f, i, two);
      r := Ok(if index.Some? then pc else pc + 1);
    case Store(index, two) =>
      var i :- if index.Some? then Ok(index.value as int) else Sem.U8Operand(code, pc);
      var _ :- Handlers.Store(f, i, two);
      r := Ok(if index.Some? then pc else pc + 1);
    case IInc =>
      r := Handlers.IInc(f, code, pc);
  }

  /** FrameStep for the conditional branches. */
  method BranchStep(f: Frame, heap: Heap, fpu: FloatUnit, code: seq<byte>, pc: int, instr: Instr) returns (r: Result<int>)
    requires f.Valid() && (instr.IfZero? || instr.IfICmp? || instr.IfACmpNe? || instr.IfNullness?)
    modifies f.stack
    ensures f.Valid()
    ensures Handlers.BecameAt(r, StateOf(f, heap), Step(old(StateOf(f, heap)), f.Capacity(), fpu, code, pc, instr))
  {
    match instr
    case IfZero(c) =>
      r := Handlers.IfZero(f, code, pc, c);
    case IfICmp(c) =>
      r := Handlers.IfCompare(f, code, pc, c);
    case IfACmpNe =>
      r := Handlers.IfRefsDiffer(f, code, pc);
    case IfNullness(onNull) =>
      r := Handlers.IfNullness(f, code, pc, onNull);
  }

  /** FrameStep for the array loads and stores and arraylength. */
  method ArrayStep(f: Frame, heap: Heap, fpu: FloatUnit, code: seq<byte>, pc: int, instr: Instr) returns (r: Result<int>)
    requires f.Valid() && (instr.ArrayLoad? || instr.ArrayStore? || instr.ArrayLength?)
    modifies f.stack, f.stack.data, heap
    ensures f.Valid()
    ensures Handlers.BecameAt(r, StateOf(f, heap), Step(old(StateOf(f, heap)), f.Capacity(), fpu, code, pc, instr))
  {
    match instr
    case ArrayLoad(two) =>
      var _ :- Handlers.ArrayLoad(f, heap, two);
      r := Ok(pc);
    case ArrayStore(two) =>
      var _ :- Handlers.ArrayStore(f, heap, two);
      r := Ok(pc);
    case ArrayLength =>
      var _ :- Handlers.ArrayLength(f, heap);
      r := Ok(pc);
  }

  /** FrameStep for the stack instructions and the int and long arithmetic. */
  method MathStep(f: Frame, heap: Heap, fpu: FloatUnit, code: seq<byte>, pc: int, instr: Instr) returns (r: Result<int>)
    requires f.Valid() && (instr.Shuffle? || instr.IntMath? || instr.LongMath? || instr.LCmp?)
    modifies f.stack, f.stack.data
    ensures f.Valid()
    ensures Handlers.BecameAt(r, StateOf(f, heap), Step(old(StateOf(f, heap)), f.Capacity(), fpu, code, pc, instr))
  {
    match instr
    case Shuffle(op) =>
      var _ :- Handlers.StackHandler(f, op);
      r := Ok(pc);
    case IntMath(op) =>
      var _ :- Handlers.IntBinary(f, op);
      r := Ok(pc);
    case LongMath(op) =>
      var _ :- Handlers.LongBinary(f, op);
      r := Ok(pc);
    case LCmp =>
      var _ :- Handlers.LongCompare(f);
      r := Ok(pc);
  }

  /** FrameStep for the float and double arithmetic, the negations and i2b. */
  method UnitStep(f: Frame, heap: Heap, fpu: FloatUnit, code: seq<byte>, pc: int, instr: Instr) returns (r: Result<int>)
    requires f.Valid() && (instr.FloatMath? || instr.DoubleMath? || instr.Neg? || instr.I2B?)
    modifies f.stack, f.stack.data
    ensures f.Valid()
    ensures Handlers.BecameAt(r, StateOf(f, heap), Step(old(StateOf(f, heap)), f.Capacity(), fpu, code, pc, instr))
  {
    match instr
    case FloatMath(op) =>
      var _ :- Handlers.FloatBinary(f, fpu, op);
      r := Ok(pc);
    case DoubleMath(op) =>
      var _ :- Handlers.DoubleBinary(f, fpu, op);
      r := Ok(pc);
    case Neg(op) =>
      var _ :- Handlers.Negate(f, op);
      r := Ok(pc);
    case I2B =>
      var _ :- Handlers.IntToByte(f);
      r := Ok(pc);
  }
}
