/**
 * The instruction handlers of book/instruction.go that work on one frame:
 * each pops and pushes the frame's operand stack, reads or writes its local
 * variables, and reaches objects through the heap. Each method is proved to
 * compute the function of semantics.dfy that states the handler's effect:
 * it fails exactly when that function does, with the same fault, and
 * otherwise leaves the frame as the function says.
 */
module Handlers {
  import opened Base
  import opened Values
  import opened Runtime
  import OS = OperandStack
  import Sem = Semantics
  import opened ClassLoader

  /** A handler's outcome agrees with its specification `spec`; `after` is the state it left. */
  ghost predicate Became<S>(r: Result<()>, after: S, spec: Result<S>)
  {
    match spec
    case Ok(x) => r.Ok? && after == x
    case Fail(e) => r == Fail(e)
  }

  /** The same for a handler that also returns the next pc. */
  ghost predicate BecameAt<S>(r: Result<int>, after: S, spec: Result<(S, int)>)
  {
    match spec
    case Ok(x) => r == Ok(x.1) && after == x.0
    case Fail(e) => r == Fail(e)
  }

  /** frame.Pop(), or frame.Pop2() for a long or a double. */
  method PopValue(f: Frame, two: bool) returns (r: Result<Value>)
    requires f.Valid()
    modifies f.stack
    ensures f.Valid()
    ensures r.Ok? <==> Sem.PopSlots(old(f.Operands()), two).Ok?
    ensures r.Ok? ==> Sem.PopSlots(old(f.Operands()), two).value == (f.Operands(), r.value)
    ensures r.Fail? ==> r.fault == Sem.PopSlots(old(f.Operands()), two).fault
  {
    if two {
      r := f.Pop2();
    } else {
      r := f.Pop();
    }
  }

  /** frame.Push(v), or frame.Push2(v) for a long or a double. */
  method PushValue(f: Frame, v: Value, two: bool) returns (r: Result<()>)
    requires f.Valid()
    modifies f.stack, f.stack.data
    ensures f.Valid() && Became(r, f.Operands(), Sem.PushSlots(old(f.Operands()), f.Capacity(), v, two))
  {
    if two {
      r := f.Push2(v);
    } else {
      r := f.Push(v);
    }
  }

  // ---------------------------------------------------------------------
  // Constants.
  // ---------------------------------------------------------------------

  /** bipush: push the byte after the opcode as an int; the next instruction is one byte on. */
  method BIPush(f: Frame, code: seq<byte>, pc: int) returns (r: Result<int>)
    requires f.Valid()
    modifies f.stack, f.stack.data
    ensures f.Valid()
    ensures BecameAt(r, f.Operands(),
              var b :- Sem.U8Operand(code, pc); var s :- OS.Push(old(f.Operands()), f.Capacity(), Int(b)); Ok((s, pc + 1)))
  {
    var b :- Sem.U8Operand(code, pc);
    var _ :- f.Push(Int(b));
    r := Ok(pc + 1);
  }

  /** sipush: push the two bytes after the opcode as an unsigned int. */
  method SIPush(f: Frame, code: seq<byte>, pc: int) returns (r: Result<int>)
    requires f.Valid()
    modifies f.stack, f.stack.data
    ensures f.Valid()
    ensures BecameAt(r, f.Operands(),
              var b :- Sem.U16Operand(code, pc); var s :- OS.Push(old(f.Operands()), f.Capacity(), Int(b)); Ok((s, pc + 2)))
  {
    var b :- Sem.U16Operand(code, pc);
    var _ :- f.Push(Int(b));
    r := Ok(pc + 2);
  }

  // ---------------------------------------------------------------------
  // Local variables.
  // ---------------------------------------------------------------------

  /** instructionLoad and instruction2Load: push local `index`, twice for a long or double. */
  method Load(f: Frame, index: int, two: bool) returns (r: Result<()>)
    requires f.Valid()
    modifies f.stack, f.stack.data
    ensures f.Valid() && f.locals[..] == old(f.locals[..])
    ensures Became(r, f.Operands(), Sem.Load(old(f.Operands()), f.Capacity(), old(f.locals[..]), index, two))
  {
    var v :- f.Get(index);
    r := PushValue(f, v, two);
  }

  /** instructionStore and instruction2Store: pop into local `index`. */
  method Store(f: Frame, index: int, two: bool) returns (r: Result<()>)
    requires f.Valid()
    modifies f.stack, f.locals
    ensures f.Valid()
    ensures Became(r, (f.Operands(), f.locals[..]), Sem.Store(old(f.Operands()), old(f.locals[..]), index, two))
  {
    var v :- PopValue(f, two);
    r := f.Set(v, index);
  }

  /** iinc: read the local index and the unsigned increment, then add it to the int in that local. */
  method IInc(f: Frame, code: seq<byte>, pc: int) returns (r: Result<int>)
    requires f.Valid()
    modifies f.locals
    ensures BecameAt(r, f.locals[..],
              var index :- Sem.U8Operand(code, pc);
              var change :- Sem.U8Operand(code, pc + 1);
              var after :- Sem.IncLocal(old(f.locals[..]), index, change);
              Ok((after, pc + 2)))
  {
    var index :- Sem.U8Operand(code, pc);
    var change :- Sem.U8Operand(code, pc + 1);
    var cur :- f.Get(index);
    var x :- IntegerOf(cur);
    // The index was just read, so the write cannot fail.
    var _ := f.Set(Int(Wrap32(x + change)), index);
    r := Ok(pc + 2);
  }

  /**
   * The argument loop of invokeMethod: pops `n` values into an array from
   * the last slot down, so the value that was on top ends up last and the
   * window comes off the stack in its original order.
   */
  method PopArgs(f: Frame, n: nat) returns (r: Result<seq<Value>>)
    requires f.Valid()
    modifies f.stack
    ensures f.Valid()
    ensures r.Ok? <==> n <= |old(f.Operands())|
    ensures r.Ok? ==> |r.value| == n && old(f.Operands()) == f.Operands() + r.value
    ensures r.Fail? ==> r.fault == IndexOutOfRange
  {
    ghost var s := f.Operands();
    var args := new Value[n](_ => Nil);
    var i := n;
    while i > 0
      invariant 0 <= i <= n
      invariant f.Valid()
      invariant |f.Operands()| + (n - i) == |s|
      invariant s == f.Operands() + args[i..]
    {
      var v := f.Pop();
      if v.Fail? {
        return Fail(v.fault);
      }
      args[i - 1] := v.value;
      i := i - 1;
    }
    r := Ok(args[..]);
  }

  // ---------------------------------------------------------------------
  // Stack manipulation, one handler per instruction.
  // ---------------------------------------------------------------------

  /**
   * Pushes `vs` in order, one Push at a time; the first push that finds the
   * stack full panics.
   */
  method PushAll(f: Frame, vs: seq<Value>) returns (r: Result<()>)
    requires f.Valid()
    modifies f.stack, f.stack.data
    ensures f.Valid()
    ensures r.Ok? <==> |old(f.Operands())| + |vs| <= f.Capacity()
    ensures r.Ok? ==> f.Operands() == old(f.Operands()) + vs
    ensures r.Fail? ==> r.fault == StackOverflow
  {
    ghost var s := f.Operands();
    var i := 0;
    while i < |vs|
      invariant 0 <= i <= |vs|
      invariant f.Valid()
      invariant f.Operands() == s + vs[..i]
    {
      var pushed := f.Push(vs[i]);
      if pushed.Fail? {
        return pushed;
      }
      assert vs[..i + 1] == vs[..i] + [vs[i]];
      i := i + 1;
    }
    assert vs[..i] == vs;
    r := Ok(());
  }

  /**
   * pop, pop2, dup, dup_x1, dup_x2, dup2, dup2_x1, dup2_x2 and swap: each
   * handler pops its operands one at a time and pushes a selection of them
   * back, as Pushed(op) lists. What each selection amounts to is proved in
   * semantics.dfy (DupX1Inserts and the lemmas beside it).
   */
  method StackHandler(f: Frame, op: Sem.StackOp) returns (r: Result<()>)
    requires f.Valid()
    modifies f.stack, f.stack.data
    ensures f.Valid() && Became(r, f.Operands(), Sem.Shuffle(old(f.Operands()), f.Capacity(), op))
  {
    ghost var s := f.Operands();
    var window :- PopArgs(f, Sem.Popped(op));
    Sem.ShuffleFaults(s, f.Capacity(), op);
    r := PushAll(f, Sem.Pick(window, Sem.Pushed(op)));
    if r.Ok? {
      Sem.ShuffleWindow(old(f.Operands())[..|s| - |window|], window, f.Capacity(), op);
    }
  }

  // ---------------------------------------------------------------------
  // Arithmetic.
  // ---------------------------------------------------------------------

  /** The int handlers: pop the right operand, then the left, push the result. */
  method IntBinary(f: Frame, op: IntOp) returns (r: Result<()>)
    requires f.Valid()
    modifies f.stack, f.stack.data
    ensures f.Valid() && Became(r, f.Operands(), Sem.IntBinary(old(f.Operands()), op))
  {
    ghost var s := f.Operands();
    var val1 :- f.Pop();
    var val2 :- f.Pop();
    assert f.Operands() == s[..|s| - 2];
    var right :- IntegerOf(val1);
    var left :- IntegerOf(val2);
    var v :- IntArith(op, left, right);
    r := f.Push(Int(v));
  }

  /** The long handlers: Pop2 the right operand, then the left, Push2 the result. */
  method LongBinary(f: Frame, op: IntOp) returns (r: Result<()>)
    requires f.Valid()
    modifies f.stack, f.stack.data
    ensures f.Valid() && Became(r, f.Operands(), Sem.LongBinary(old(f.Operands()), op))
  {
    ghost var s := f.Operands();
    var val1 :- f.Pop2();
    var val2 :- f.Pop2();
    assert |s| >= 4 && val1 == s[|s| - 2] && val2 == s[|s| - 4] && f.Operands() == s[..|s| - 4] by {
      assert s[..|s| - 2][..|s| - 4] == s[..|s| - 4];
    }
    var right :- LongOf(val1);
    var left :- LongOf(val2);
    var v :- LongArith(op, left, right);
    r := f.Push2(Long(v));
  }

  /** lcmp: compare the left long with the right and push 1, -1 or 0. */
  method LongCompare(f: Frame) returns (r: Result<()>)
    requires f.Valid()
    modifies f.stack, f.stack.data
    ensures f.Valid() && Became(r, f.Operands(), Sem.LongCompare(old(f.Operands())))
  {
    ghost var s := f.Operands();
    var val1 :- f.Pop2();
    var val2 :- f.Pop2();
    var right :- LongOf(val1);
    var left :- LongOf(val2);
    if left > right {
      r := f.Push(Int(1));
    } else if left < right {
      r := f.Push(Int(-1));
    } else {
      r := f.Push(Int(0));
    }
    assert s[..|s| - 2][..|s| - 4] == s[..|s| - 4];
  }

  /** The float handlers, on the host's float unit. */
  method FloatBinary(f: Frame, fpu: FloatUnit, op: FloatOp) returns (r: Result<()>)
    requires f.Valid()
    modifies f.stack, f.stack.data
    ensures f.Valid() && Became(r, f.Operands(), Sem.FloatBinary(old(f.Operands()), fpu, op))
  {
    ghost var s := f.Operands();
    var val1 :- f.Pop();
    var val2 :- f.Pop();
    assert f.Operands() == s[..|s| - 2];
    var right :- FloatOf(val1);
    var left :- FloatOf(val2);
    if op == FAdd {
      r := f.Push(Float(fpu.single(op, right, left)));
    } else {
      r := f.Push(Float(fpu.single(op, left, right)));
    }
  }

  /** The double handlers, on pairs. */
  method DoubleBinary(f: Frame, fpu: FloatUnit, op: FloatOp) returns (r: Result<()>)
    requires f.Valid()
    modifies f.stack, f.stack.data
    ensures f.Valid() && Became(r, f.Operands(), Sem.DoubleBinary(old(f.Operands()), fpu, op))
  {
    ghost var s := f.Operands();
    var val1 :- f.Pop2();
    var val2 :- f.Pop2();
    var right :- DoubleOf(val1);
    var left :- DoubleOf(val2);
    if op == FAdd {
      r := f.Push2(Double(fpu.double(op, right, left)));
    } else {
      r := f.Push2(Double(fpu.double(op, left, right)));
    }
    assert s[..|s| - 2][..|s| - 4] == s[..|s| - 4];
  }

  /** ineg, lneg, fneg and dneg. */
  method Negate(f: Frame, op: Sem.NegOp) returns (r: Result<()>)
    requires f.Valid()
    modifies f.stack, f.stack.data
    ensures f.Valid() && Became(r, f.Operands(), Sem.Negate(old(f.Operands()), op))
  {
    match op
    case INeg =>
      var val :- f.Pop();
      var x :- IntegerOf(val);
      r := f.Push(Int(IntNeg(x)));
    case FNeg =>
      var val :- f.Pop();
      var x :- FloatOf(val);
      r := f.Push(Float(NegateFloat32(x)));
    case LNeg =>
      var val :- f.Pop2();
      var x :- LongOf(val);
      r := f.Push2(Long(LongNeg(x)));
    case DNeg =>
      var val :- f.Pop2();
      var x :- DoubleOf(val);
      r := f.Push2(Double(NegateFloat64(x)));
  }

  /** i2b: mask the popped value's int with 1 and push the value back. */
  method IntToByte(f: Frame) returns (r: Result<()>)
    requires f.Valid()
    modifies f.stack, f.stack.data
    ensures f.Valid() && Became(r, f.Operands(), Sem.IntToByte(old(f.Operands())))
  {
    var val :- f.Pop();
    var x :- IntegerOf(val);
    if val.Int? {
      r := f.Push(Int(x % 2));
    } else {
      r := f.Push(val);
    }
  }

  // ---------------------------------------------------------------------
  // Branches.
  // ---------------------------------------------------------------------

  /** ifeq, ifne, ifgt. */
  method IfZero(f: Frame, code: seq<byte>, pc: int, c: Sem.Cond) returns (r: Result<int>)
    requires f.Valid()
    modifies f.stack
    ensures f.Valid() && BecameAt(r, f.Operands(), Sem.IfZero(old(f.Operands()), code, pc, c))
  {
    var offset :- Sem.I16Operand(code, pc);
    var val :- f.Pop();
    var x :- IntegerOf(val);
    r := Ok(Sem.Target(pc, offset, Sem.Holds(c, x, 0)));
  }

  /** if_icmpne, if_icmpge, if_icmpgt, if_icmple. */
  method IfCompare(f: Frame, code: seq<byte>, pc: int, c: Sem.Cond) returns (r: Result<int>)
    requires f.Valid()
    modifies f.stack
    ensures f.Valid() && BecameAt(r, f.Operands(), Sem.IfCompare(old(f.Operands()), code, pc, c))
  {
    var val1 :- f.Pop();
    var val2 :- f.Pop();
    var offset :- Sem.I16Operand(code, pc);
    var left :- IntegerOf(val2);
    var right :- IntegerOf(val1);
    r := Ok(Sem.Target(pc, offset, Sem.Holds(c, left, right)));
  }

  /** if_acmpne. */
  method IfRefsDiffer(f: Frame, code: seq<byte>, pc: int) returns (r: Result<int>)
    requires f.Valid()
    modifies f.stack
    ensures f.Valid() && BecameAt(r, f.Operands(), Sem.IfRefsDiffer(old(f.Operands()), code, pc))
  {
    var val1 :- f.Pop();
    var val2 :- f.Pop();
    var offset :- Sem.I16Operand(code, pc);
    var left :- ObjectOf(val2);
    var right :- ObjectOf(val1);
    r := Ok(Sem.Target(pc, offset, left != right));
  }

  /** ifnull and ifnonnull. */
  method IfNullness(f: Frame, code: seq<byte>, pc: int, onNull: bool) returns (r: Result<int>)
    requires f.Valid()
    modifies f.stack
    ensures f.Valid() && BecameAt(r, f.Operands(), Sem.IfNullness(old(f.Operands()), code, pc, onNull))
  {
    var val :- f.Pop();
    var offset :- Sem.I16Operand(code, pc);
    r := Ok(Sem.Target(pc, offset, IsNullRef(val) == onNull));
  }

  // ---------------------------------------------------------------------
  // Arrays and fields.
  // ---------------------------------------------------------------------

  /** The array loads. */
  method ArrayLoad(f: Frame, heap: Heap, two: bool) returns (r: Result<()>)
    requires f.Valid()
    modifies f.stack, f.stack.data
    ensures f.Valid() && Became(r, f.Operands(), Sem.ArrayLoad(old(f.Operands()), f.Capacity(), heap.objects, two))
  {
    var val1 :- f.Pop();
    var index :- IntegerOf(val1);
    var val2 :- f.Pop();
    var v :- Sem.Element(heap.objects, val2, index);
    r := PushValue(f, v, two);
  }

  /** The array stores: the element is written in place in the heap. */
  method ArrayStore(f: Frame, heap: Heap, two: bool) returns (r: Result<()>)
    requires f.Valid()
    modifies f.stack, heap
    ensures f.Valid() && Became(r, (f.Operands(), heap.objects), Sem.ArrayStore(old(f.Operands()), old(heap.objects), two))
  {
    ghost var s := f.Operands();
    var val :- PopValue(f, two);
    var val1 :- f.Pop();
    var index :- IntegerOf(val1);
    var val2 :- f.Pop();
    var o :- Deref(heap.objects, val2);
    if !(0 <= index < |o.arrayData|) {
      return Fail(IndexOutOfRange);
    }
    heap.objects := heap.objects[val2.addr := o.(arrayData := o.arrayData[index := val])];
    r := Ok(());
  }

  /** arraylength. */
  method ArrayLength(f: Frame, heap: Heap) returns (r: Result<()>)
    requires f.Valid()
    modifies f.stack, f.stack.data
    ensures f.Valid() && Became(r, f.Operands(), Sem.ArrayLength(old(f.Operands()), heap.objects))
  {
    var val :- f.Pop();
    var o :- Deref(heap.objects, val);
    r := f.Push(Int(Wrap32(|o.arrayData|)));
  }

  /** getfield, once the field is resolved to slot `slot`. */
  method GetField(f: Frame, heap: Heap, slot: nat, two: bool) returns (r: Result<()>)
    requires f.Valid()
    modifies f.stack, f.stack.data
    ensures f.Valid() && Became(r, f.Operands(), Sem.GetFieldValue(old(f.Operands()), f.Capacity(), heap.objects, slot, two))
  {
    var inst :- f.Pop();
    var o :- Deref(heap.objects, inst);
    if slot >= |o.fields| {
      return Fail(IndexOutOfRange);
    }
    r := PushValue(f, o.fields[slot], two);
  }

  /** putfield, once the field is resolved to slot `slot`: the object is updated in place. */
  method PutField(f: Frame, heap: Heap, slot: nat, two: bool) returns (r: Result<()>)
    requires f.Valid()
    modifies f.stack, heap
    ensures f.Valid() && Became(r, (f.Operands(), heap.objects), Sem.PutFieldValue(old(f.Operands()), old(heap.objects), slot, two))
  {
    var val :- PopValue(f, two);
    var inst :- f.Pop();
    var o :- Deref(heap.objects, inst);
    if slot >= |o.fields| {
      return Fail(IndexOutOfRange);
    }
    heap.objects := heap.objects[inst.addr := o.(fields := o.fields[slot := val])];
    r := Ok(());
  }

  /** getstatic, once the field is resolved to slot `slot` of class `c`. */
  method GetStatic(f: Frame, c: Class, slot: nat, two: bool) returns (r: Result<()>)
    requires f.Valid()
    modifies f.stack, f.stack.data
    ensures f.Valid() && Became(r, f.Operands(), Sem.GetStaticValue(old(f.Operands()), f.Capacity(), c.staticValues, slot, two))
  {
    if slot >= |c.staticValues| {
      return Fail(IndexOutOfRange);
    }
    r := PushValue(f, c.staticValues[slot], two);
  }

  /** putstatic, once the field is resolved to slot `slot` of class `c`. */
  method PutStatic(f: Frame, c: Class, slot: nat, two: bool) returns (r: Result<()>)
    requires f.Valid()
    modifies f.stack, c`staticValues
    ensures f.Valid() && Became(r, (f.Operands(), c.staticValues), Sem.PutStaticValue(old(f.Operands()), old(c.staticValues), slot, two))
  {
    var val :- PopValue(f, two);
    if slot >= |c.staticValues| {
      return Fail(IndexOutOfRange);
    }
    c.staticValues := c.staticValues[slot := val];
    r := Ok(());
  }
}
