/**
 * Method invocation and the interpreter loop: the four invoke instructions
 * of book/instruction.go with invokeMethod and parseArgCount's caller, and
 * RunMethod of book/rtda.go, which pushes a frame for a method and runs its
 * code by fetching an opcode, looking it up in the instruction table and
 * adopting the pc the handler returns. A call runs the callee's RunMethod
 * inside the caller's handler, so these members call each other; `fuel`
 * bounds both the nesting of calls and the steps of each loop.
 */
module Interpreter {
  import opened Base
  import opened Model
  import opened Values
  import opened Runtime
  import opened ClassLoader
  import Natives
  import Sem = Semantics
  import Dispatch
  import Handlers
  import Descriptor
  import opened Instructions

  // ---------------------------------------------------------------------
  // Arguments.
  // ---------------------------------------------------------------------

  /** Handlers.PopArgs on the thread's top frame `f`. */
  method TakeArgs(t: Thread, count: nat) returns (r: Result<seq<Value>>, ghost f: Frame?)
    requires t.Valid()
    modifies t.Repr
    ensures r.Ok? ==> t.Valid() && t.Frames() == old(t.Frames()) && |t.Frames()| > 0 && f == t.Top()
    ensures r.Ok? ==> |r.value| == count && old(f.Operands()) == f.Operands() + r.value
    ensures r.Fail? && old(t.Frames()) != [] ==> r == Fail(IndexOutOfRange) && count > |old(t.Top().Operands())|
  {
    f := null;
    var top :- t.Peek();
    f := top;
    r := Handlers.PopArgs(top, count);
    FrameEdited(t, top);
  }

  // ---------------------------------------------------------------------
  // Natives.
  // ---------------------------------------------------------------------

  /** The class name, method name and descriptor a native method is registered under. */
  function NativeKey(file: ClassFile, m: Member): Result<(string, string, string)>
  {
    var c :- GetString(file.consts, file.thisIndex as int);
    var n :- GetString(file.consts, m.nameIndex as int);
    var d :- GetString(file.consts, m.descIndex as int);
    Ok((c, n, d))
  }

  /**
   * GetNativeFunc for method `m` of a class: the function registered under
   * its key; calling the nil function Go returns for a key that was never
   * registered is a nil dereference.
   */
  function NativeOf(natives: Natives.Registry, file: ClassFile, m: Member): (r: Result<Natives.NativeFunc>)
    reads natives
    ensures r.Ok? <==> NativeKey(file, m).Ok? && Natives.Key(NativeKey(file, m).value.0, NativeKey(file, m).value.1,
                                                            NativeKey(file, m).value.2) in natives.funcs
    ensures r.Ok? ==> var (c, n, d) := NativeKey(file, m).value; r.value == natives.funcs[Natives.Key(c, n, d)]
    ensures NativeKey(file, m).Ok? && r.Fail? ==> r.fault == NilDereference
  {
    var (c, n, d) :- NativeKey(file, m);
    match natives.Get(c, n, d)
    case None => Fail(NilDereference)
    case Some(native) => Ok(native)
  }

  // ---------------------------------------------------------------------
  // The println stand-in.
  // ---------------------------------------------------------------------

  /**
   * The operand slots the println stand-in of invokevirtual pops for its
   * argument, by descriptor: one for boolean, char, int, byte, short, float
   * and String, two for long and double; no other descriptor is handled.
   */
  function PrintWidth(desc: string): (w: Option<nat>)
    ensures w.Some? <==> desc in {"(Z)V", "(C)V", "(I)V", "(B)V", "(S)V", "(F)V", "(J)V", "(D)V", "(Ljava/lang/String;)V"}
    ensures w.Some? ==> w.value == (if desc == "(J)V" || desc == "(D)V" then 2 else 1)
  {
    if desc in {"(Z)V", "(C)V", "(I)V", "(B)V", "(S)V", "(F)V", "(Ljava/lang/String;)V"} then Some(1)
    else if desc == "(J)V" || desc == "(D)V" then Some(2)
    else None
  }

  /**
   * The bytes println writes for a char array: the low eight bits of each
   * element's int, in order. Reading the int of a nil element panics.
   */
  function PrintedText(data: seq<Value>): (r: Result<seq<byte>>)
    ensures r.Fail? <==> exists i | 0 <= i < |data| :: data[i].Nil?
    ensures r.Fail? ==> r.fault == NilDereference
    ensures r.Ok? ==> |r.value| == |data| &&
                      forall i | 0 <= i < |data| :: r.value[i] == IntegerOf(data[i]).value % 0x100
  {
    if data == [] then Ok([])
    else
      var init :- PrintedText(data[..|data| - 1]);
      var last :- IntegerOf(data[|data| - 1]);
      Ok(init + [last % 0x100])
  }

  /** A string NewString made prints back as its own text, when every character fits a byte. */
  lemma PrintedNewString(text: string)
    requires forall i | 0 <= i < |text| :: text[i] as int < 0x100
    ensures PrintedText(Chars(text)).Ok?
    ensures forall i | 0 <= i < |text| :: PrintedText(Chars(text)).value[i] == text[i] as int
  {
  }

  /** Whether println can write the String object `v`: its chars are found and none is nil. */
  predicate Printable(objects: seq<ObjectData>, v: Value)
    reads if v.Obj? && v.addr < |objects| && objects[v.addr].cls != null then {objects[v.addr].cls} else {}
  {
    CharsOf(objects, v).Some? && PrintedText(CharsOf(objects, v).value).Ok?
  }

  /**
   * The bytes println writes for the String object `v`: each char of the
   * array its `value` field of type char[] holds, cut to a byte. A nil
   * object, a nil class, a class without that field, a field holding no
   * array or a nil element is a nil dereference.
   */
  method StringBytes(t: Thread, v: Value) returns (r: Result<seq<byte>>)
    ensures r.Ok? ==> CharsOf(t.heap.objects, v).Some?
    ensures CharsOf(t.heap.objects, v).Some? ==> r == PrintedText(CharsOf(t.heap.objects, v).value)
    ensures !v.Obj? ==> r == Fail(NilDereference)
  {
    var s :- Deref(t.heap.objects, v);
    if s.cls == null {
      return Fail(NilDereference);
    }
    var k :- FindMember(s.cls.file.consts, s.cls.file.fields, "value", "[C", 0);
    if k.None? {
      return Fail(NilDereference);
    }
    if k.value >= |s.cls.slotIds| || s.cls.slotIds[k.value] >= |s.fields| {
      return Fail(IndexOutOfRange);
    }
    var chars :- Deref(t.heap.objects, s.fields[s.cls.slotIds[k.value]]);
    var bytes: seq<byte> := [];
    var i := 0;
    while i < |chars.arrayData|
      invariant 0 <= i <= |chars.arrayData|
      invariant PrintedText(chars.arrayData[..i]) == Ok(bytes)
    {
      var item := chars.arrayData[i];
      assert chars.arrayData[..i + 1][..i] == chars.arrayData[..i];
      var b :- IntegerOf(item);
      bytes := bytes + [b % 0x100];
      i := i + 1;
    }
    assert chars.arrayData[..i] == chars.arrayData;
    r := Ok(bytes);
  }

  /** The String case of the println stand-in: pops the String and reads the bytes it prints. */
  method PopString(t: Thread, f: Frame) returns (r: Result<seq<byte>>)
    requires f.Valid()
    modifies f.stack
    ensures f.Valid()
    ensures r.Ok? ==> 0 < |old(f.Operands())| && f.Operands() == old(f.Operands())[..|old(f.Operands())| - 1]
    ensures r.Ok? ==> Printable(t.heap.objects, old(f.Operands())[|old(f.Operands())| - 1])
    ensures 0 < |old(f.Operands())| && CharsOf(t.heap.objects, old(f.Operands())[|old(f.Operands())| - 1]).Some? ==>
              r == PrintedText(CharsOf(t.heap.objects, old(f.Operands())[|old(f.Operands())| - 1]).value)
  {
    ghost var before := f.Operands();
    var v :- f.Pop();
    assert v == before[|before| - 1];
    r := StringBytes(t, v);
  }

  /**
   * The println stand-in on frame `f`: pops the argument by its descriptor
   * `desc` (for a String, the bytes of its char array, to be written out),
   * then the receiver. An unknown descriptor fails, and so does a String
   * whose chars cannot be read.
   */
  method PrintOnFrame(t: Thread, f: Frame, desc: string) returns (r: Result<()>)
    requires f.Valid()
    modifies f.stack
    ensures f.Valid()
    ensures r.Ok? ==> PrintWidth(desc).Some? && var n := |old(f.Operands())|;
              PrintWidth(desc).value + 1 <= n && f.Operands() == old(f.Operands())[..n - PrintWidth(desc).value - 1]
    ensures PrintWidth(desc).None? ==> r == Fail(UnsupportedDescriptor(desc))
    ensures desc == "(Ljava/lang/String;)V" && r.Ok? ==>
              0 < |old(f.Operands())| && Printable(t.heap.objects, old(f.Operands())[|old(f.Operands())| - 1])
    ensures desc == "(Ljava/lang/String;)V" && 0 < |old(f.Operands())| ==>
              var arg := old(f.Operands())[|old(f.Operands())| - 1];
              CharsOf(t.heap.objects, arg).Some? && !Printable(t.heap.objects, arg) ==> r == Fail(NilDereference)
  {
    var width := PrintWidth(desc);
    if width.None? {
      return Fail(UnsupportedDescriptor(desc));
    }
    if desc == "(Ljava/lang/String;)V" {
      var _ :- PopString(t, f);
    } else if width.value == 2 {
      var _ :- f.Pop2();
    } else {
      var _ :- f.Pop();
    }
    var _ :- f.Pop();
    r := Ok(());
  }

  /** The println stand-in on the thread's top frame `f`, for method `m` of class file `file`. */
  method Println(t: Thread, file: ClassFile, m: Member) returns (r: Result<()>, ghost f: Frame?)
    requires t.Valid()
    modifies t.Repr
    ensures r.Ok? ==> t.Valid() && t.Frames() == old(t.Frames()) && |t.Frames()| > 0 && f == t.Top()
    ensures r.Ok? ==> GetString(file.consts, m.descIndex as int).Ok? &&
                      var w := PrintWidth(GetString(file.consts, m.descIndex as int).value);
                      var n := |old(f.Operands())|;
                      w.Some? && w.value + 1 <= n && f.Operands() == old(f.Operands())[..n - w.value - 1]
    ensures r.Ok? && GetString(file.consts, m.descIndex as int) == Ok("(Ljava/lang/String;)V") ==>
              0 < |old(f.Operands())| && Printable(t.heap.objects, old(f.Operands())[|old(f.Operands())| - 1])
  {
    f := null;
    var top :- t.Peek();
    f := top;
    var desc :- GetString(file.consts, m.descIndex as int);
    r := PrintOnFrame(t, top, desc);
    FrameEdited(t, top);
  }

  // ---------------------------------------------------------------------
  // Invocation.
  // ---------------------------------------------------------------------

  /**
   * Whether `k` is the method of `c` that the method reference at `index`
   * of the pool `consts` asks for: its first method of the reference's name
   * and descriptor.
   */
  ghost predicate Names(consts: seq<Const>, index: int, c: Class, k: nat)
  {
    MemberRef(consts, index).Ok? &&
    var (_, name, desc) := MemberRef(consts, index).value;
    FindMember(c.file.consts, c.file.methods, name, desc, 0) == Ok(Some(k))
  }

  /** The method an invoke operand names, loaded with its class as loadClassAndMethod does. */
  method ResolveMethod(t: Thread, consts: seq<Const>, code: seq<byte>, pc: int, fuel: nat) returns (r: Result<(Class, nat)>)
    requires t.Valid()
    modifies t.loader
    ensures r.Ok? ==> t.Valid() && Grown(t) && r.value.1 < |r.value.0.file.methods|
    ensures r.Ok? ==> Sem.U16Operand(code, pc).Ok? && Names(consts, Sem.U16Operand(code, pc).value, r.value.0, r.value.1)
  {
    var index :- Sem.U16Operand(code, pc);
    r := LoadMember(t, consts, index, true, fuel);
  }

  /**
   * invokeMethod: a native method runs the function registered for it; any
   * other pops its argument slots off the caller's top frame, the top of the
   * stack last, and runs in a new frame of its own.
   */
  method InvokeMethod(t: Thread, c: Class, k: nat, fuel: nat) returns (r: Result<()>)
    requires t.Valid() && k < |c.file.methods|
    modifies t, t.Repr, t.heap, t.loader, t.loader.classes.Values
    decreases fuel, 0
    ensures r.Ok? ==> t.Valid() && Grown(t)
    ensures r.Ok? && IsNative(c.file.methods[k].access) ==> NativeOf(t.natives, c.file, c.file.methods[k]).Ok?
  {
    var m := c.file.methods[k];
    if IsNative(m.access) {
      var native :- NativeOf(t.natives, c.file, m);
      r := CallNative(t, native, fuel);
      return;
    }
    var _ :- t.Peek();
    var count :- ArgCount(c.file.consts, m);
    var args, _ :- TakeArgs(t, count);
    if fuel == 0 {
      return Fail(OutOfFuel);
    }
    var res, trace := RunMethod(t, MethodRef(c, k), args, fuel - 1);
    r := res;
  }

  /** invokestatic: the named method, which must be static, invoked. */
  method InvokeStatic(t: Thread, consts: seq<Const>, code: seq<byte>, pc: int, fuel: nat)
    returns (r: Result<int>, ghost c: Class?, ghost k: nat)
    requires t.Valid()
    modifies t, t.Repr, t.heap, t.loader, t.loader.classes.Values
    decreases fuel, 1
    ensures r.Ok? ==> t.Valid() && Grown(t) && r.value == pc + 2
    ensures r.Ok? ==> c != null && k < |c.file.methods| && IsStatic(c.file.methods[k].access) &&
                      Sem.U16Operand(code, pc).Ok? && Names(consts, Sem.U16Operand(code, pc).value, c, k)
  {
    c, k := null, 0;
    var target :- ResolveMethod(t, consts, code, pc, fuel);
    c, k := target.0, target.1;
    if !IsStatic(target.0.file.methods[target.1].access) {
      r := Fail(ExpectedStatic);
      return;
    }
    var _ :- InvokeMethod(t, target.0, target.1, fuel);
    r := Ok(pc + 2);
  }

  /** invokespecial: the named method, which must not be static, invoked without a search. */
  method InvokeSpecial(t: Thread, consts: seq<Const>, code: seq<byte>, pc: int, fuel: nat)
    returns (r: Result<int>, ghost c: Class?, ghost k: nat)
    requires t.Valid()
    modifies t, t.Repr, t.heap, t.loader, t.loader.classes.Values
    decreases fuel, 1
    ensures r.Ok? ==> t.Valid() && Grown(t) && r.value == pc + 2
    ensures r.Ok? ==> c != null && k < |c.file.methods| && !IsStatic(c.file.methods[k].access) &&
                      Sem.U16Operand(code, pc).Ok? && Names(consts, Sem.U16Operand(code, pc).value, c, k)
  {
    c, k := null, 0;
    var target :- ResolveMethod(t, consts, code, pc, fuel);
    c, k := target.0, target.1;
    if IsStatic(target.0.file.methods[target.1].access) {
      r := Fail(UnexpectedStatic);
      return;
    }
    var _ :- InvokeMethod(t, target.0, target.1, fuel);
    r := Ok(pc + 2);
  }

  /**
   * invokevirtual: the named method, which must not be static, invoked as
   * named: the receiver's class is not consulted. A method named println
   * is not invoked but stood in for.
   */
  method InvokeVirtual(t: Thread, consts: seq<Const>, code: seq<byte>, pc: int, fuel: nat)
    returns (r: Result<int>, ghost c: Class?, ghost k: nat, ghost printed: bool)
    requires t.Valid()
    modifies t, t.Repr, t.heap, t.loader, t.loader.classes.Values
    decreases fuel, 1
    ensures r.Ok? ==> t.Valid() && Grown(t) && r.value == pc + 2
    ensures r.Ok? ==> c != null && k < |c.file.methods| && !IsStatic(c.file.methods[k].access) &&
                      Sem.U16Operand(code, pc).Ok? && Names(consts, Sem.U16Operand(code, pc).value, c, k)
    ensures r.Ok? ==> (printed <==> GetString(c.file.consts, c.file.methods[k].nameIndex as int) == Ok("println"))
  {
    c, k, printed := null, 0, false;
    var target :- ResolveMethod(t, consts, code, pc, fuel);
    c, k := target.0, target.1;
    var m := target.0.file.methods[target.1];
    if IsStatic(m.access) {
      r := Fail(UnexpectedStatic);
      return;
    }
    var name :- GetString(target.0.file.consts, m.nameIndex as int);
    if name == "println" {
      printed := true;
      var _, _ :- Println(t, target.0.file, m);
    } else {
      var _ :- InvokeMethod(t, target.0, target.1, fuel);
    }
    r := Ok(pc + 2);
  }

  /** The argument slots of a call to `m`, as parseArgCount counts them from its descriptor. */
  ghost function ArgSlots(consts: seq<Const>, m: Member): Result<nat>
  {
    var text :- GetString(consts, m.descIndex as int);
    var desc :- Descriptor.DescAt(text, 0);
    Ok(Descriptor.SlotCount(desc.0.argTypes) + if IsStatic(m.access) then 0 else 1)
  }

  /**
   * The method invokeinterface runs for interface method `m` of class file
   * `file`: the receiver sits `count - 1` slots below the top of the top
   * frame, and its class's first method of `m`'s name and descriptor is
   * the one run.
   */
  method Receiver(t: Thread, file: ClassFile, m: Member) returns (r: Result<(Class, nat)>, ghost count: nat)
    requires t.Valid() && !IsStatic(m.access)
    ensures r.Ok? ==> r.value.1 < |r.value.0.file.methods|
    ensures r.Ok? ==>
              |t.Frames()| > 0 && var ops := t.Top().Operands();
              0 < count <= |ops| &&
              ArgSlots(file.consts, m) == Ok(count) &&
              var inst := ops[|ops| - count];
              inst.Obj? && inst.addr < |t.heap.objects| && t.heap.objects[inst.addr].cls == r.value.0 &&
              GetString(file.consts, m.nameIndex as int).Ok? && GetString(file.consts, m.descIndex as int).Ok? &&
              FindMember(r.value.0.file.consts, r.value.0.file.methods,
                         GetString(file.consts, m.nameIndex as int).value,
                         GetString(file.consts, m.descIndex as int).value, 0) == Ok(Some(r.value.1))
  {
    count := 0;
    var f :- t.Peek();
    var n :- ArgCount(file.consts, m);
    count := n;
    var inst :- f.PeekAt(n - 1);
    var name :- GetString(file.consts, m.nameIndex as int);
    var desc :- GetString(file.consts, m.descIndex as int);
    var o :- Deref(t.heap.objects, inst);
    if o.cls == null {
      r := Fail(NilDereference);
      return;
    }
    var found :- FindMember(o.cls.file.consts, o.cls.file.methods, name, desc, 0);
    if found.None? {
      r := Fail(NilDereference);
      return;
    }
    r := Ok((o.cls, found.value));
  }

  /** The method an invokeinterface operand names, which must belong to an interface and not be static. */
  method ResolveInterface(t: Thread, consts: seq<Const>, code: seq<byte>, pc: int, fuel: nat) returns (r: Result<(Class, nat)>)
    requires t.Valid()
    modifies t.loader
    ensures r.Ok? ==> t.Valid() && Grown(t) && r.value.1 < |r.value.0.file.methods|
    ensures r.Ok? ==> Sem.U16Operand(code, pc).Ok? && Names(consts, Sem.U16Operand(code, pc).value, r.value.0, r.value.1)
    ensures r.Ok? ==> IsInterface(r.value.0.file.access) && !IsStatic(r.value.0.file.methods[r.value.1].access)
  {
    var target :- ResolveMethod(t, consts, code, pc, fuel);
    if !IsInterface(target.0.file.access) {
      return Fail(NotInterface);
    }
    if IsStatic(target.0.file.methods[target.1].access) {
      return Fail(UnexpectedStatic);
    }
    r := Ok(target);
  }

  /**
   * invokeinterface: the named method must belong to an interface and not
   * be static; the method of that name and descriptor in the receiver's
   * class is invoked. Two operand bytes follow the index.
   */
  method InvokeInterface(t: Thread, consts: seq<Const>, code: seq<byte>, pc: int, fuel: nat)
    returns (r: Result<int>, ghost c: Class?, ghost k: nat, ghost impl: Class?)
    requires t.Valid()
    modifies t, t.Repr, t.heap, t.loader, t.loader.classes.Values
    decreases fuel, 1
    ensures r.Ok? ==> t.Valid() && Grown(t) && r.value == pc + 4
    ensures r.Ok? ==> c != null && k < |c.file.methods| && IsInterface(c.file.access) &&
                      !IsStatic(c.file.methods[k].access) &&
                      Sem.U16Operand(code, pc).Ok? && Names(consts, Sem.U16Operand(code, pc).value, c, k)
  {
    c, k, impl := null, 0, null;
    var target :- ResolveInterface(t, consts, code, pc, fuel);
    c, k := target.0, target.1;
    var file := target.0.file;
    var found, _ :- Receiver(t, file, file.methods[target.1]);
    impl := found.0;
    var _ :- InvokeMethod(t, found.0, found.1, fuel);
    r := Ok(pc + 4);
  }

  // ---------------------------------------------------------------------
  // The instruction table.
  // ---------------------------------------------------------------------

  /** An instruction that works on the top frame alone, run on the thread's top frame `top`. */
  method FrameInstr(t: Thread, code: seq<byte>, pc: int, instr: Dispatch.Instr) returns (r: Result<int>, ghost top: Frame?)
    requires t.Valid() && instr.OnFrame()
    modifies t.Repr, t.heap
    ensures r.Ok? ==> t.Valid() && t.Frames() == old(t.Frames()) && |t.Frames()| > 0 && top == t.Top()
    ensures r.Ok? ==> Dispatch.Step(old(Dispatch.StateOf(t.Top(), t.heap)), top.Capacity(), t.fpu, code, pc, instr) ==
                      Ok((Dispatch.StateOf(top, t.heap), r.value))
  {
    top := null;
    var f :- t.Peek();
    top := f;
    label Start:
    r := Dispatch.FrameStep(f, t.heap, t.fpu, code, pc, instr);
    FrameEdited@Start(t, f);
  }

  /** The instructions that need the thread, the loader or the heap, other than the invokes. */
  method ThreadInstr(t: Thread, consts: seq<Const>, code: seq<byte>, pc: int, instr: Dispatch.Instr, fuel: nat)
    returns (r: Result<int>)
    requires t.Valid() && !instr.OnFrame()
    requires !(instr.InvokeStatic? || instr.InvokeSpecial? || instr.InvokeVirtual? || instr.InvokeInterface?)
    modifies t, t.Repr, t.heap, t.loader, t.loader.classes.Values
    ensures r.Ok? ==> t.Valid() && Grown(t)
    ensures instr.Nop? ==> r == Ok(pc)
    ensures instr.GoTo? ==> r == Sem.GoTo(code, pc)
    ensures r.Ok? && (instr.Return? || instr.Return1? || instr.Return2?) ==> r.value == RETURNED
  {
    if instr.Nop? {
      r := Ok(pc);
    } else if instr.GoTo? {
      r := Sem.GoTo(code, pc);
    } else if instr.Ldc? {
      var res, _, _, _ := Ldc(t, consts, code, pc, instr.wide, fuel);
      r := res;
    } else if instr.Return? {
      var res, _ := Return(t);
      r := res;
    } else if instr.Return1? || instr.Return2? {
      var res, _, _, _ := ReturnValue(t, instr.Return2?);
      r := res;
    } else if instr.AThrow? {
      var res, _, _, _, _ := AThrow(t, consts, pc);
      r := res;
    } else {
      r := ObjectInstr(t, consts, code, pc, instr, fuel);
    }
  }

  /** The instructions on fields, objects, arrays and types. */
  method ObjectInstr(t: Thread, consts: seq<Const>, code: seq<byte>, pc: int, instr: Dispatch.Instr, fuel: nat)
    returns (r: Result<int>)
    requires t.Valid()
    requires instr.GetStatic? || instr.PutStatic? || instr.GetField? || instr.PutField? || instr.New? ||
             instr.NewArray? || instr.ObjArray? || instr.CheckCast? || instr.InstanceOf? || instr.MultiArray?
    modifies t.Repr, t.heap, t.loader, t.loader.classes.Values
    ensures r.Ok? ==> t.Valid() && Grown(t)
  {
    match instr
    case GetStatic =>
      var res, _, _ := GetStatic(t, consts, code, pc, fuel);
      r := res;
    case PutStatic =>
      var res, _, _, _ := PutStatic(t, consts, code, pc, fuel);
      r := res;
    case GetField =>
      var res, _, _ := Instructions.GetField(t, consts, code, pc, fuel);
      r := res;
    case PutField =>
      var res, _, _ := PutField(t, consts, code, pc, fuel);
      r := res;
    case New =>
      var res, _ := New(t, consts, code, pc, fuel);
      r := res;
    case NewArray =>
      var res, _, _ := NewArray(t, consts, code, pc, false, fuel);
      r := res;
    case ObjArray =>
      var res, _, _ := NewArray(t, consts, code, pc, true, fuel);
      r := res;
    case CheckCast =>
      var res, _, _, _ := CheckCast(t, consts, code, pc, fuel);
      r := res;
    case InstanceOf =>
      var res, _, _, _, _ := InstanceOf(t, consts, code, pc, fuel);
      r := res;
    case MultiArray =>
      var res, _, _ := MultiArray(t, consts, code, pc, fuel);
      r := res;
  }

  /** The four invoke instructions. */
  method Invoke(t: Thread, consts: seq<Const>, code: seq<byte>, pc: int, instr: Dispatch.Instr, fuel: nat) returns (r: Result<int>)
    requires t.Valid()
    requires instr.InvokeStatic? || instr.InvokeSpecial? || instr.InvokeVirtual? || instr.InvokeInterface?
    modifies t, t.Repr, t.heap, t.loader, t.loader.classes.Values
    decreases fuel, 2
    ensures r.Ok? ==> t.Valid() && Grown(t)
  {
    if instr.InvokeStatic? {
      var res, _, _ := InvokeStatic(t, consts, code, pc, fuel);
      r := res;
    } else if instr.InvokeSpecial? {
      var res, _, _ := InvokeSpecial(t, consts, code, pc, fuel);
      r := res;
    } else if instr.InvokeVirtual? {
      var res, _, _, _ := InvokeVirtual(t, consts, code, pc, fuel);
      r := res;
    } else {
      var res, _, _, _ := InvokeInterface(t, consts, code, pc, fuel);
      r := res;
    }
  }

  /** One instruction of class `cls`'s code, run with `pc` one past its opcode; the pc its handler returns. */
  method Execute(t: Thread, cls: Class, code: seq<byte>, pc: int, instr: Dispatch.Instr, fuel: nat) returns (r: Result<int>)
    requires t.Valid()
    modifies t, t.Repr, t.heap, t.loader, t.loader.classes.Values
    decreases fuel, 3
    ensures r.Ok? ==> t.Valid() && Grown(t)
  {
    if instr.OnFrame() {
      var res, _ := FrameInstr(t, code, pc, instr);
      r := res;
    } else if instr.InvokeStatic? || instr.InvokeSpecial? || instr.InvokeVirtual? || instr.InvokeInterface? {
      r := Invoke(t, cls.file.consts, code, pc, instr, fuel);
    } else {
      r := ThreadInstr(t, cls.file.consts, code, pc, instr, fuel);
    }
  }

  // ---------------------------------------------------------------------
  // RunMethod.
  // ---------------------------------------------------------------------

  /**
   * Whether `trace` lists the pcs at which a run of `code` fetched its
   * opcodes, followed by the pc it stopped at: it starts at 0, every opcode
   * fetched is in the code and has a table entry, and the run stopped
   * because the pc reached the end of the code.
   */
  ghost predicate Ran(code: seq<byte>, trace: seq<int>)
  {
    Fetched(code, trace) && trace[|trace| - 1] >= |code|
  }

  /** Whether `trace` starts at 0 and every pc in it but the last holds an opcode with a table entry. */
  ghost predicate Fetched(code: seq<byte>, trace: seq<int>)
  {
    |trace| > 0 && trace[0] == 0 &&
    forall i | 0 <= i < |trace| - 1 :: 0 <= trace[i] < |code| && Dispatch.Decode(code[trace[i]]).Some?
  }

  /** A trace whose last pc held an opcode with a table entry goes on with the pc the handler returned. */
  lemma FetchedNext(code: seq<byte>, trace: seq<int>, next: int)
    requires Fetched(code, trace)
    requires 0 <= trace[|trace| - 1] < |code| && Dispatch.Decode(code[trace[|trace| - 1]]).Some?
    ensures Fetched(code, trace + [next]) && (trace + [next])[|trace|] == next
  {
  }

  /**
   * One step of the loop of RunMethod over class `cls`'s code `code`: the
   * opcode at `pc` fetched and, with pc moved past it, run by the handler
   * the instruction table maps it to; an opcode with no entry fails.
   */
  method StepAt(t: Thread, cls: Class, code: seq<byte>, pc: int, fuel: nat) returns (r: Result<int>)
    requires t.Valid()
    modifies t, t.Repr, t.heap, t.loader, t.loader.classes.Values
    decreases fuel, 4
    ensures r.Ok? ==> t.Valid() && Grown(t)
    ensures r.Ok? ==> 0 <= pc < |code| && Dispatch.Decode(code[pc]).Some?
    ensures 0 <= pc < |code| && Dispatch.Decode(code[pc]).None? ==> r == Fail(UnknownOpcode(code[pc] as int))
  {
    if !(0 <= pc < |code|) {
      return Fail(IndexOutOfRange);
    }
    var instr := Dispatch.Decode(code[pc]);
    if instr.None? {
      return Fail(UnknownOpcode(code[pc] as int));
    }
    r := Execute(t, cls, code, pc + 1, instr.value, fuel);
  }

  /**
   * The loop of RunMethod: steps from pc 0 until pc reaches the end of
   * `code`; `trace` is the sequence of pcs.
   */
  method RunCode(t: Thread, cls: Class, code: seq<byte>, fuel: nat) returns (r: Result<()>, ghost trace: seq<int>)
    requires t.Valid()
    modifies t, t.Repr, t.heap, t.loader, t.loader.classes.Values
    decreases fuel, 5
    ensures r.Ok? ==> t.Valid() && Grown(t) && Ran(code, trace)
  {
    var pc := 0;
    trace := [0];
    var steps := fuel;
    while pc < |code|
      invariant t.Valid() && Grown(t)
      invariant Fetched(code, trace) && trace[|trace| - 1] == pc
      decreases steps
    {
      if steps == 0 {
        r := Fail(OutOfFuel);
        return;
      }
      var next :- StepAt(t, cls, code, pc, fuel);
      FetchedNext(code, trace, next);
      pc := next;
      trace := trace + [pc];
      steps := steps - 1;
    }
    r := Ok(());
  }

  /**
   * thread.Push(NewFrame(...)): a new frame for method `m` with the local
   * and stack sizes of its code `code` and `args` in its first locals,
   * pushed onto the thread.
   */
  method PushFrame(t: Thread, m: MethodRef, code: Code, args: seq<Value>) returns (r: Result<Frame>)
    requires t.Valid() && m.Resolved()
    modifies t, t.frames, t.frames.data
    ensures r.Ok? ==> t.Valid() && Grown(t) && t.Frames() == old(t.Frames()) + [r.value] && fresh(r.value)
    ensures r.Ok? ==> r.value.Valid() && |args| <= code.maxLocal as nat &&
                      r.value.methodRef == m && r.value.Operands() == [] && r.value.Capacity() == code.maxStack as nat &&
                      r.value.locals[..] == args + seq(code.maxLocal as nat - |args|, _ => Nil)
    ensures r.Fail? ==> r == Fail(if |args| > code.maxLocal as nat then IndexOutOfRange else StackOverflow)
  {
    var f :- NewFrame(m, code.maxLocal as nat, code.maxStack as nat, args);
    var pushed := t.Push(f);
    if pushed.Fail? {
      return Fail(pushed.fault);
    }
    r := Ok(f);
  }

  /**
   * RunMethod: a frame for method `m` with its code's local and stack sizes
   * and `args` in its first locals pushed, then the code run from pc 0: each
   * step fetches the opcode at pc, moves pc past it, and takes the pc the
   * opcode's handler returns, until pc reaches the end of the code. The
   * frame is not popped here; the return instructions pop it. `trace` is
   * the sequence of pcs.
   */
  method RunMethod(t: Thread, m: MethodRef, args: seq<Value>, fuel: nat) returns (r: Result<()>, ghost trace: seq<int>)
    requires t.Valid() && m.Resolved()
    modifies t, t.Repr, t.heap, t.loader, t.loader.classes.Values
    decreases fuel, 6
    ensures r.Ok? ==> t.Valid() && Grown(t)
    ensures r.Ok? ==> GetCodeAttribute(m.Member()).Some? && Ran(GetCodeAttribute(m.Member()).value.code, trace)
    ensures GetCodeAttribute(m.Member()).None? ==> r == Fail(NilDereference)
  {
    trace := [];
    var attr := GetCodeAttribute(m.Member());
    if attr.None? {
      r := Fail(NilDereference);
      return;
    }
    var _ :- PushFrame(t, m, attr.value, args);
    r, trace := RunCode(t, m.owner, attr.value.code, fuel);
  }
}
