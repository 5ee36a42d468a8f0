/**
 * The handlers of book/instruction.go that reach past the top frame: they
 * resolve constant-pool entries, load classes, allocate objects, intern
 * strings, or pop frames. The natives of book/native.go are here too. Each
 * handler fails with the fault of the Go handler's first panic; a panic ends
 * the Go process, so after a failure the model promises nothing about the
 * thread.
 */
module Instructions {
  import opened Base
  import opened Model
  import opened Values
  import opened Runtime
  import opened ClassLoader
  import Natives
  import Descriptor
  import Sem = Semantics
  import Handlers

  /**
   * What every handler leaves behind: frame parts and classes only ever
   * join, and those that join are new.
   */
  twostate predicate Grown(t: Thread)
    reads t, t.loader
  {
    old(t.Repr) <= t.Repr && (forall o | o in t.Repr && o !in old(t.Repr) :: fresh(o)) &&
    old(t.loader.classes).Keys <= t.loader.classes.Keys &&
    (forall c | c in t.loader.classes.Values :: c in old(t.loader.classes.Values) || fresh(c))
  }

  /**
   * A thread stays valid when, the frame stack itself untouched, only the
   * operand stack and locals of one owned frame changed besides objects
   * outside the thread's frames.
   */
  twostate lemma FrameEdited(t: Thread, new f: Frame)
    requires old(t.Valid())
    requires t.Repr == old(t.Repr) && unchanged(t.frames, t.frames.data)
    requires f.stack in old(t.Repr) && f.stack.data in old(t.Repr) && f.locals in old(t.Repr) && f.Valid()
    requires forall o | o in old(t.Repr) && o != f.stack && o != f.stack.data && o != f.locals :: unchanged(o)
    requires t.loader.Valid()
    requires forall c | c in t.loader.classes.Values :: c in old(t.loader.classes.Values) || fresh(c)
    ensures t.Valid()
  {
    forall i | 0 <= i < t.frames.index
      ensures t.Owns(t.frames.data[i])
    {
      assert old(t.Owns(t.frames.data[i]));
    }
  }

  /** A thread stays valid when nothing it owns changed and classes only joined. */
  twostate lemma Kept(t: Thread)
    requires old(t.Valid())
    requires t.Repr == old(t.Repr) && forall o | o in old(t.Repr) :: unchanged(o)
    requires t.loader.Valid()
    requires forall c | c in t.loader.classes.Values :: c in old(t.loader.classes.Values) || fresh(c)
    ensures t.Valid()
  {
    forall i | 0 <= i < t.frames.index
      ensures t.Owns(t.frames.data[i])
    {
      assert old(t.Owns(t.frames.data[i]));
    }
  }


  /** The class name a two-byte constant-pool index after the opcode names. */
  function ClassOperand(consts: seq<Const>, code: seq<byte>, pc: int): Result<string>
  {
    var index :- Sem.U16Operand(code, pc);
    GetString(consts, index)
  }

  /** The slots a value takes on the operand stack: two copies for a long or a double. */
  function Slots(v: Value, two: bool): seq<Value>
  {
    if two then [v, v] else [v]
  }

  /**
   * Loader.LoadClass from a handler: the class cached under `name` afterwards,
   * or null when the class file found under it declares another name.
   */
  method Load(t: Thread, name: string, fuel: nat) returns (r: Result<Class?>)
    requires t.Valid()
    modifies t.loader
    ensures r.Ok? ==> t.Valid() && Grown(t)
    ensures r.Ok? ==> r.value == (if name in t.loader.classes then t.loader.classes[name] else null)
  {
    ghost var loaded;
    r, loaded := t.loader.LoadClass(name, fuel);
    if r.Ok? {
      Kept(t);
    }
  }

  /** frame.Push(v), or Push2, on the thread's top frame `f`. */
  method PushTop(t: Thread, v: Value, two: bool) returns (r: Result<()>, ghost f: Frame?)
    requires t.Valid()
    modifies t.Repr
    ensures r.Ok? ==> t.Valid() && t.Frames() == old(t.Frames()) && |t.Frames()| > 0 && f == t.Top()
    ensures r.Ok? ==> f.Operands() == old(f.Operands()) + Slots(v, two)
  {
    f := null;
    var top :- t.Peek();
    f := top;
    if two {
      r := top.Push2(v);
    } else {
      r := top.Push(v);
    }
    if r.Ok? {
      FrameEdited(t, top);
    }
  }

  /** A new object `o` allocated and pushed on the thread's top frame `f`. */
  method PushNew(t: Thread, o: ObjectData) returns (r: Result<()>, ghost f: Frame?)
    requires t.Valid()
    modifies t.Repr, t.heap
    ensures r.Ok? ==> t.Valid() && t.Frames() == old(t.Frames()) && |t.Frames()| > 0 && f == t.Top()
    ensures r.Ok? ==> t.heap.objects == old(t.heap.objects) + [o] &&
                      f.Operands() == old(f.Operands()) + [Obj(|old(t.heap.objects)|)]
  {
    var v := t.heap.Alloc(o);
    assert t.Valid();
    r, f := PushTop(t, v, false);
  }

  // ---------------------------------------------------------------------
  // Constants.
  // ---------------------------------------------------------------------

  /** toJavaName: every '/' becomes '.'. */
  function ToJavaName(name: string): (r: string)
    ensures |r| == |name|
    ensures forall i | 0 <= i < |name| :: r[i] == (if name[i] == '/' then '.' else name[i])
  {
    if name == [] then []
    else [if name[0] == '/' then '.' else name[0]] + ToJavaName(name[1..])
  }

  /** A Java name has no slashes left, and converting it again changes nothing. */
  lemma JavaNameSettled(name: string)
    ensures '/' !in ToJavaName(name)
    ensures ToJavaName(ToJavaName(name)) == ToJavaName(name)
  {
    var r := ToJavaName(name);
    assert forall i | 0 <= i < |r| :: r[i] != '/';
  }

  /**
   * Whether `v` is a class object for `name`: an object of a loaded class,
   * no array, whose slots hold the interned string `name`.
   */
  ghost predicate ClassObject(t: Thread, v: Value, name: string)
    reads t, t.heap
  {
    v.Obj? && v.addr < |t.heap.objects| && name in t.strings &&
    var o := t.heap.objects[v.addr];
    o.cls != null && t.strings[name] in o.fields && o.arrayData == []
  }

  /**
   * makeClassObject: an instance of java/lang/Class whose "name" field holds
   * the interned string `name`; the other slots are nil. A missing class or
   * field is a nil pointer.
   */
  method MakeClassObject(t: Thread, name: string, fuel: nat) returns (r: Result<Value>)
    requires t.Valid()
    modifies t, t.heap, t.loader
    ensures r.Ok? ==> t.Valid() && Grown(t) && t.Repr == old(t.Repr) && t.Frames() == old(t.Frames())
    ensures r.Ok? ==> ClassObject(t, r.value, name) && |old(t.heap.objects)| <= r.value.addr &&
                      t.heap.objects[..|old(t.heap.objects)|] == old(t.heap.objects)
  {
    var layout :- ClassLayout(t, fuel);
    var (c, slot) := layout;
    var fields := seq(c.instSlotCount, _ => Nil);
    var s :- t.NewString(name, fuel);
    if slot >= |fields| {
      return Fail(IndexOutOfRange);
    }
    var v := t.heap.Alloc(ObjectData(c, fields[slot := s], 0, []));
    assert t.heap.objects[v.addr].fields[slot] == s;
    r := Ok(v);
  }

  /**
   * The class makeClassObject instantiates, java/lang/Class, and the slot of
   * its "name" field; a missing class or field is a nil pointer.
   */
  method ClassLayout(t: Thread, fuel: nat) returns (r: Result<(Class, nat)>)
    requires t.Valid()
    modifies t.loader
    ensures r.Ok? ==> t.Valid() && Grown(t)
  {
    var c :- Load(t, "java/lang/Class", fuel);
    if c == null {
      return Fail(NilDereference);
    }
    assert c in t.loader.classes.Values && c.Valid();
    var field :- Model.GetField(c.file, "name", "Ljava/lang/String;");
    if field.None? {
      return Fail(NilDereference);
    }
    r := Ok((c, c.slotIds[field.value]));
  }

  /** The constant-pool index after ldc (one byte) or ldc_w (two bytes). */
  function LdcIndex(code: seq<byte>, pc: int, wide: bool): Result<nat>
  {
    if wide then
      var index :- Sem.U16Operand(code, pc);
      Ok(index)
    else
      var index :- Sem.U8Operand(code, pc);
      Ok(index)
  }

  /** The value a numeric constant pushes, and whether it takes two slots. */
  function Numeric(c: Const): Option<(Value, bool)>
  {
    if c.tag == CONST_INTEGER then Some((Int(c.integer), false))
    else if c.tag == CONST_FLOAT then Some((Float(c.floatBits), false))
    else if c.tag == CONST_LONG then Some((Long(c.long), true))
    else if c.tag == CONST_DOUBLE then Some((Double(c.doubleBits), true))
    else None
  }

  /** The constant kinds ldc pushes. */
  predicate Loadable(c: Const)
  {
    Numeric(c).Some? || c.tag == CONST_STRING || c.tag == CONST_CLASS
  }

  /**
   * The switch of ldc: a number as it is, a string constant as its interned
   * string, a class constant as a class object named in Java form. Any other
   * kind of constant is refused.
   */
  method LdcValue(t: Thread, consts: seq<Const>, c: Const, fuel: nat) returns (r: Result<(Value, bool)>)
    requires t.Valid()
    modifies t, t.heap, t.loader
    ensures r.Ok? ==> t.Valid() && Grown(t) && t.Repr == old(t.Repr) && t.Frames() == old(t.Frames())
    ensures !Loadable(c) ==> r == Fail(UnsupportedConstant)
    ensures Numeric(c).Some? ==> r == Ok(Numeric(c).value) && t.heap.objects == old(t.heap.objects)
    ensures r.Ok? && c.tag == CONST_STRING ==>
              GetString(consts, c.index).Ok? && GetString(consts, c.index).value in t.strings &&
              r.value == (t.strings[GetString(consts, c.index).value], false)
    ensures r.Ok? && c.tag == CONST_CLASS ==>
              GetString(consts, c.index).Ok? && !r.value.1 &&
              ClassObject(t, r.value.0, ToJavaName(GetString(consts, c.index).value))
  {
    var n := Numeric(c);
    if n.Some? {
      return Ok(n.value);
    }
    if c.tag == CONST_STRING {
      var text :- GetString(consts, c.index);
      var s :- t.NewString(text, fuel);
      r := Ok((s, false));
    } else if c.tag == CONST_CLASS {
      var name :- GetString(consts, c.index);
      var v :- MakeClassObject(t, ToJavaName(name), fuel);
      r := Ok((v, false));
    } else {
      r := Fail(UnsupportedConstant);
    }
  }

  /**
   * ldc and ldc_w: the constant at the operand's index pushed on the top
   * frame; the next instruction follows the one- or two-byte index.
   */
  method Ldc(t: Thread, consts: seq<Const>, code: seq<byte>, pc: int, wide: bool, fuel: nat)
    returns (r: Result<int>, ghost top: Frame?, ghost v: Value, ghost two: bool)
    requires t.Valid()
    modifies t, t.Repr, t.heap, t.loader
    ensures r.Ok? ==> t.Valid() && Grown(t) && t.Repr == old(t.Repr) && t.Frames() == old(t.Frames()) &&
                      |t.Frames()| > 0 && top == t.Top() && r.value == pc + (if wide then 2 else 1)
    ensures r.Ok? ==>
              LdcIndex(code, pc, wide).Ok? && LdcIndex(code, pc, wide).value < |consts| &&
              var c := consts[LdcIndex(code, pc, wide).value];
              Loadable(c) && (Numeric(c).Some? ==> (v, two) == Numeric(c).value) &&
              (c.tag == CONST_STRING ==>
                 GetString(consts, c.index).Ok? && GetString(consts, c.index).value in t.strings &&
                 v == t.strings[GetString(consts, c.index).value] && !two) &&
              (c.tag == CONST_CLASS ==>
                 GetString(consts, c.index).Ok? && ClassObject(t, v, ToJavaName(GetString(consts, c.index).value)) && !two) &&
              top.Operands() == old(top.Operands()) + Slots(v, two)
  {
    top, v, two := null, Nil, false;
    var index :- LdcIndex(code, pc, wide);
    if index >= |consts| {
      r := Fail(IndexOutOfRange);
      return;
    }
    var _ :- t.Peek();
    var pushed :- LdcValue(t, consts, consts[index], fuel);
    v, two := pushed.0, pushed.1;
    var _, f :- PushTop(t, pushed.0, pushed.1);
    top := f;
    r := Ok(pc + if wide then 2 else 1);
  }

  // ---------------------------------------------------------------------
  // Objects.
  // ---------------------------------------------------------------------

  /** A new instance of `c`: one nil slot per instance slot, no array part. */
  function Instance(c: Class): (o: ObjectData)
    reads c
    ensures o.cls == c && |o.fields| == c.instSlotCount && o.arrayData == []
    ensures forall i | 0 <= i < |o.fields| :: o.fields[i] == Nil
  {
    ObjectData(c, seq(c.instSlotCount, _ => Nil), 0, [])
  }

  /**
   * The class new instantiates: the class the operand names, which must
   * exist and be neither an interface nor abstract.
   */
  method Instantiable(t: Thread, consts: seq<Const>, code: seq<byte>, pc: int, fuel: nat) returns (r: Result<Class>)
    requires t.Valid()
    modifies t.loader
    ensures r.Ok? ==> t.Valid() && Grown(t)
    ensures r.Ok? ==> ClassOperand(consts, code, pc).Ok? && ClassOperand(consts, code, pc).value in t.loader.classes &&
                      r.value == t.loader.classes[ClassOperand(consts, code, pc).value] &&
                      !IsInterface(r.value.file.access) && !IsAbstract(r.value.file.access)
  {
    var name :- ClassOperand(consts, code, pc);
    var c :- Load(t, name, fuel);
    if c == null {
      return Fail(NilDereference);
    }
    if IsInterface(c.file.access) || IsAbstract(c.file.access) {
      return Fail(CannotInstantiate);
    }
    r := Ok(c);
  }

  /**
   * new: loads the class the operand names and pushes a new instance whose
   * slots are all nil. An interface or an abstract class cannot be
   * instantiated; a class file declaring another name yields a nil class.
   */
  method New(t: Thread, consts: seq<Const>, code: seq<byte>, pc: int, fuel: nat) returns (r: Result<int>, ghost top: Frame?)
    requires t.Valid()
    modifies t.Repr, t.heap, t.loader
    ensures r.Ok? ==> t.Valid() && Grown(t) && t.Repr == old(t.Repr) && t.strings == old(t.strings) &&
                      t.Frames() == old(t.Frames()) && |t.Frames()| > 0 && top == t.Top() && r.value == pc + 2
    ensures r.Ok? ==>
              ClassOperand(consts, code, pc).Ok? && ClassOperand(consts, code, pc).value in t.loader.classes &&
              var c := t.loader.classes[ClassOperand(consts, code, pc).value];
              !IsInterface(c.file.access) && !IsAbstract(c.file.access) &&
              t.heap.objects == old(t.heap.objects) + [Instance(c)] &&
              top.Operands() == old(top.Operands()) + [Obj(|old(t.heap.objects)|)]
  {
    top := null;
    var c :- Instantiable(t, consts, code, pc, fuel);
    var _, f :- PushNew(t, Instance(c));
    top := f;
    r := Ok(pc + 2);
  }

  // ---------------------------------------------------------------------
  // Fields.
  // ---------------------------------------------------------------------

  /**
   * The class name, member name and descriptor that the field or method
   * reference at pool index `index` gives: the entry names a class and a
   * name-and-type entry.
   */
  function MemberRef(consts: seq<Const>, index: int): Result<(string, string, string)>
  {
    if !(0 <= index < |consts|) then Fail(IndexOutOfRange)
    else
      var className :- GetString(consts, consts[index].classIndex);
      var nameType := consts[index].nameTypeIndex;
      if nameType >= |consts| then Fail(IndexOutOfRange)
      else
        var name :- GetString(consts, consts[nameType].nameIndex);
        var desc :- GetString(consts, consts[nameType].descIndex);
        Ok((className, name, desc))
  }

  /** A class's fields, or its methods. */
  function Members(file: ClassFile, methods: bool): seq<Member>
  {
    if methods then file.methods else file.fields
  }

  /**
   * Whether member `k` of class `c` is what the reference at `index`
   * resolves to: the class is the one cached under the reference's class
   * name and `k` its first member of that name and descriptor.
   */
  ghost predicate ResolvesTo(t: Thread, consts: seq<Const>, index: int, methods: bool, c: Class, k: nat)
    reads t.loader
  {
    MemberRef(consts, index).Ok? &&
    var (className, name, desc) := MemberRef(consts, index).value;
    className in t.loader.classes && t.loader.classes[className] == c &&
    k < |Members(c.file, methods)| && FindMember(c.file.consts, Members(c.file, methods), name, desc, 0) == Ok(Some(k))
  }

  /**
   * loadClassAndField and loadClassAndMethod: the class the reference names,
   * loaded, and its member of the reference's name and descriptor. A class
   * file declaring another name, or a member the class does not have, is a
   * nil pointer.
   */
  method LoadMember(t: Thread, consts: seq<Const>, index: int, methods: bool, fuel: nat) returns (r: Result<(Class, nat)>)
    requires t.Valid()
    modifies t.loader
    ensures r.Ok? ==> t.Valid() && Grown(t) && r.value.0.Valid() && r.value.0 in t.loader.classes.Values
    ensures r.Ok? ==> ResolvesTo(t, consts, index, methods, r.value.0, r.value.1)
  {
    if !(0 <= index < |consts|) {
      return Fail(IndexOutOfRange);
    }
    var className :- GetString(consts, consts[index].classIndex);
    var c :- Load(t, className, fuel);
    var nameType := consts[index].nameTypeIndex;
    if nameType >= |consts| {
      return Fail(IndexOutOfRange);
    }
    var name :- GetString(consts, consts[nameType].nameIndex);
    var desc :- GetString(consts, consts[nameType].descIndex);
    if c == null {
      return Fail(NilDereference);
    }
    var k :- FindMember(c.file.consts, Members(c.file, methods), name, desc, 0);
    if k.None? {
      return Fail(NilDereference);
    }
    r := Ok((c, k.value));
  }

  /**
   * The field a getstatic, putstatic, getfield or putfield operand resolves
   * to, which must be static for the first two and not static for the
   * others, and whether it takes two slots.
   */
  method ResolveField(t: Thread, consts: seq<Const>, code: seq<byte>, pc: int, isStatic: bool, fuel: nat)
    returns (r: Result<(Class, nat, bool)>)
    requires t.Valid()
    modifies t.loader
    ensures r.Ok? ==> t.Valid() && Grown(t) && r.value.0 in t.loader.classes.Values && r.value.0.Valid()
    ensures r.Ok? ==> var (c, k, two) := r.value;
              Sem.U16Operand(code, pc).Ok? && ResolvesTo(t, consts, Sem.U16Operand(code, pc).value, false, c, k) &&
              IsStatic(c.file.fields[k].access) == isStatic &&
              IsTwoSlot(c.file.consts, c.file.fields[k]) == Ok(two)
    ensures r.Ok? ==> old(t.Frames()) != []
  {
    var index :- Sem.U16Operand(code, pc);
    var member :- LoadMember(t, consts, index, false, fuel);
    var (c, k) := member;
    var field := c.file.fields[k];
    if isStatic && !IsStatic(field.access) {
      return Fail(ExpectedStatic);
    }
    if !isStatic && IsStatic(field.access) {
      return Fail(UnexpectedStatic);
    }
    var _ :- t.Peek();
    var two :- IsTwoSlot(c.file.consts, field);
    r := Ok((c, k, two));
  }

  /** getstatic on the thread's top frame `f`, once the field is resolved. */
  method TopGetStatic(t: Thread, c: Class, slot: nat, two: bool) returns (r: Result<()>, ghost f: Frame?)
    requires t.Valid()
    modifies t.Repr
    ensures r.Ok? ==> t.Valid() && t.Frames() == old(t.Frames()) && |t.Frames()| > 0 && f == t.Top()
    ensures r.Ok? ==> Sem.GetStaticValue(old(f.Operands()), f.Capacity(), c.staticValues, slot, two) == Ok(f.Operands())
  {
    f := null;
    var top :- t.Peek();
    f := top;
    r := Handlers.GetStatic(top, c, slot, two);
    if r.Ok? {
      FrameEdited(t, top);
    }
  }

  /** getstatic: the static slot of the resolved field pushed on the top frame. */
  method GetStatic(t: Thread, consts: seq<Const>, code: seq<byte>, pc: int, fuel: nat)
    returns (r: Result<int>, ghost top: Frame?, ghost field: (Class?, nat, bool))
    requires t.Valid()
    modifies t.Repr, t.loader
    ensures r.Ok? ==> t.Valid() && Grown(t) && t.Frames() == old(t.Frames()) && |t.Frames()| > 0 &&
                      top == t.Top() && r.value == pc + 2
    ensures r.Ok? ==> var (c, k, two) := field;
              c != null && c.Valid() && Sem.U16Operand(code, pc).Ok? &&
              ResolvesTo(t, consts, Sem.U16Operand(code, pc).value, false, c, k) &&
              IsStatic(c.file.fields[k].access) && IsTwoSlot(c.file.consts, c.file.fields[k]) == Ok(two) &&
              Sem.GetStaticValue(old(top.Operands()), top.Capacity(), c.staticValues, c.slotIds[k], two) == Ok(top.Operands())
  {
    top, field := null, (null, 0, false);
    var resolved :- ResolveField(t, consts, code, pc, true, fuel);
    var (c, k, two) := resolved;
    field := (c, k, two);
    var _, f :- TopGetStatic(t, c, c.slotIds[k], two);
    top := f;
    r := Ok(pc + 2);
  }

  /** putstatic on the thread's top frame `f`, once the field is resolved. */
  method TopPutStatic(t: Thread, c: Class, slot: nat, two: bool) returns (r: Result<()>, ghost f: Frame?)
    requires t.Valid()
    requires c in t.loader.classes.Values
    modifies t.Repr, c`staticValues
    ensures r.Ok? ==> t.Valid() && t.Frames() == old(t.Frames()) && |t.Frames()| > 0 && f == t.Top()
    ensures r.Ok? ==> Sem.PutStaticValue(old(f.Operands()), old(c.staticValues), slot, two) == Ok((f.Operands(), c.staticValues))
  {
    f := null;
    var top :- t.Peek();
    f := top;
    r := Handlers.PutStatic(top, c, slot, two);
    if r.Ok? {
      FrameEdited(t, top);
    }
  }

  /**
   * putstatic: the value on top of the top frame popped into the static slot
   * of the resolved field. `statics` are the class's static values once the
   * field is resolved, which are the values it had before unless resolving
   * loaded the class.
   */
  method PutStatic(t: Thread, consts: seq<Const>, code: seq<byte>, pc: int, fuel: nat)
    returns (r: Result<int>, ghost top: Frame?, ghost field: (Class?, nat, bool), ghost statics: seq<Value>)
    requires t.Valid()
    modifies t.Repr, t.loader, t.loader.classes.Values
    ensures r.Ok? ==> t.Valid() && Grown(t) && t.Frames() == old(t.Frames()) && |t.Frames()| > 0 &&
                      top == t.Top() && r.value == pc + 2
    ensures r.Ok? ==> var (c, k, two) := field;
              c != null && c.Valid() && Sem.U16Operand(code, pc).Ok? &&
              ResolvesTo(t, consts, Sem.U16Operand(code, pc).value, false, c, k) &&
              IsStatic(c.file.fields[k].access) && IsTwoSlot(c.file.consts, c.file.fields[k]) == Ok(two) &&
              (c in old(t.loader.classes.Values) ==> statics == old(c.staticValues)) &&
              Sem.PutStaticValue(old(top.Operands()), statics, c.slotIds[k], two) == Ok((top.Operands(), c.staticValues))
  {
    top, field, statics := null, (null, 0, false), [];
    var resolved :- ResolveField(t, consts, code, pc, true, fuel);
    var (c, k, two) := resolved;
    field, statics := (c, k, two), c.staticValues;
    var _, f :- TopPutStatic(t, c, c.slotIds[k], two);
    top := f;
    r := Ok(pc + 2);
  }

  /** getfield on the thread's top frame `f`, once the field is resolved. */
  method TopGetField(t: Thread, slot: nat, two: bool) returns (r: Result<()>, ghost f: Frame?)
    requires t.Valid()
    modifies t.Repr
    ensures r.Ok? ==> t.Valid() && t.Frames() == old(t.Frames()) && |t.Frames()| > 0 && f == t.Top()
    ensures r.Ok? ==> Sem.GetFieldValue(old(f.Operands()), f.Capacity(), t.heap.objects, slot, two) == Ok(f.Operands())
  {
    f := null;
    var top :- t.Peek();
    f := top;
    r := Handlers.GetField(top, t.heap, slot, two);
    if r.Ok? {
      FrameEdited(t, top);
    }
  }

  /** getfield: the resolved field of the object on top of the top frame, in its place. */
  method GetField(t: Thread, consts: seq<Const>, code: seq<byte>, pc: int, fuel: nat)
    returns (r: Result<int>, ghost top: Frame?, ghost field: (Class?, nat, bool))
    requires t.Valid()
    modifies t.Repr, t.loader
    ensures r.Ok? ==> t.Valid() && Grown(t) && t.Frames() == old(t.Frames()) && |t.Frames()| > 0 &&
                      top == t.Top() && r.value == pc + 2
    ensures r.Ok? ==> var (c, k, two) := field;
              c != null && c.Valid() && Sem.U16Operand(code, pc).Ok? &&
              ResolvesTo(t, consts, Sem.U16Operand(code, pc).value, false, c, k) &&
              !IsStatic(c.file.fields[k].access) && IsTwoSlot(c.file.consts, c.file.fields[k]) == Ok(two) &&
              Sem.GetFieldValue(old(top.Operands()), top.Capacity(), t.heap.objects, c.slotIds[k], two) == Ok(top.Operands())
  {
    top, field := null, (null, 0, false);
    var resolved :- ResolveField(t, consts, code, pc, false, fuel);
    var (c, k, two) := resolved;
    field := (c, k, two);
    var _, f :- TopGetField(t, c.slotIds[k], two);
    top := f;
    r := Ok(pc + 2);
  }

  /** putfield on the thread's top frame `f`, once the field is resolved. */
  method TopPutField(t: Thread, slot: nat, two: bool) returns (r: Result<()>, ghost f: Frame?)
    requires t.Valid()
    modifies t.Repr, t.heap
    ensures r.Ok? ==> t.Valid() && t.Frames() == old(t.Frames()) && |t.Frames()| > 0 && f == t.Top()
    ensures r.Ok? ==> Sem.PutFieldValue(old(f.Operands()), old(t.heap.objects), slot, two) == Ok((f.Operands(), t.heap.objects))
  {
    f := null;
    var top :- t.Peek();
    f := top;
    r := Handlers.PutField(top, t.heap, slot, two);
    if r.Ok? {
      FrameEdited(t, top);
    }
  }

  /** putfield: the value on top of the top frame stored in the resolved field of the object under it. */
  method PutField(t: Thread, consts: seq<Const>, code: seq<byte>, pc: int, fuel: nat)
    returns (r: Result<int>, ghost top: Frame?, ghost field: (Class?, nat, bool))
    requires t.Valid()
    modifies t.Repr, t.heap, t.loader
    ensures r.Ok? ==> t.Valid() && Grown(t) && t.Frames() == old(t.Frames()) && |t.Frames()| > 0 &&
                      top == t.Top() && r.value == pc + 2
    ensures r.Ok? ==> var (c, k, two) := field;
              c != null && c.Valid() && Sem.U16Operand(code, pc).Ok? &&
              ResolvesTo(t, consts, Sem.U16Operand(code, pc).value, false, c, k) &&
              !IsStatic(c.file.fields[k].access) && IsTwoSlot(c.file.consts, c.file.fields[k]) == Ok(two) &&
              Sem.PutFieldValue(old(top.Operands()), old(t.heap.objects), c.slotIds[k], two) == Ok((top.Operands(), t.heap.objects))
  {
    top, field := null, (null, 0, false);
    var resolved :- ResolveField(t, consts, code, pc, false, fuel);
    var (c, k, two) := resolved;
    field := (c, k, two);
    var _, f :- TopPutField(t, c.slotIds[k], two);
    top := f;
    r := Ok(pc + 2);
  }

  // ---------------------------------------------------------------------
  // Type tests.
  // ---------------------------------------------------------------------

  /** frame.Pop() on the thread's top frame `f`. */
  method PopTop(t: Thread) returns (r: Result<Value>, ghost f: Frame?)
    requires t.Valid()
    modifies t.Repr
    ensures r.Ok? ==> t.Valid() && t.Frames() == old(t.Frames()) && |t.Frames()| > 0 && f == t.Top()
    ensures r.Ok? ==> old(f.Operands()) == f.Operands() + [r.value]
  {
    f := null;
    var top :- t.Peek();
    f := top;
    r := top.Pop();
    if r.Ok? {
      FrameEdited(t, top);
    }
  }

  /** The superclass name a class file gives, None when its super index is 0 (java/lang/Object). */
  function SuperName(c: Class): (r: Result<Option<string>>)
    ensures r.Ok? && r.value.None? <==> c.file.superIndex == 0
    ensures c.file.superIndex != 0 ==>
              var name := GetString(c.file.consts, c.file.superIndex as int);
              (r.Ok? <==> name.Ok?) && (r.Ok? ==> r.value == Some(name.value))
  {
    if c.file.superIndex == 0 then Ok(None)
    else
      var name :- GetString(c.file.consts, c.file.superIndex as int);
      Ok(Some(name))
  }

  /**
   * `chain` is the walk instanceOf makes from `sub` looking for `target`:
   * every class before the last is non-nil, is not the target and names a
   * superclass (the next class is the one loaded under that name). The
   * answer is yes when the walk reached the target, and no when it reached a
   * class without a superclass.
   */
  ghost predicate Decides(chain: seq<Class?>, sub: Class?, target: Class?, answer: bool)
  {
    |chain| > 0 && chain[0] == sub && target !in chain[..|chain| - 1] &&
    (forall i | 0 <= i < |chain| - 1 :: chain[i] != null && SuperName(chain[i]).Ok? && SuperName(chain[i]).value.Some?) &&
    (answer ==> chain[|chain| - 1] == target) &&
    (!answer ==> chain[|chain| - 1] != target && chain[|chain| - 1] != null && SuperName(chain[|chain| - 1]) == Ok(None))
  }

  /**
   * Whether `sub` is `target` or one of its superclasses is: the walk up
   * the superclass chain, loading each superclass by name. Interfaces are
   * not consulted. A nil class before the target is a nil dereference.
   */
  method IsInstance(t: Thread, sub: Class?, target: Class?, fuel: nat) returns (r: Result<bool>, ghost chain: seq<Class?>)
    requires t.Valid()
    modifies t.loader
    ensures r.Ok? ==> t.Valid() && Grown(t) && Decides(chain, sub, target, r.value)
    ensures sub == target ==> r == Ok(true)
  {
    var c := sub;
    chain := [sub];
    var steps := fuel;
    while c != target
      invariant t.Valid() && Grown(t)
      invariant |chain| > 0 && chain[0] == sub && chain[|chain| - 1] == c && target !in chain[..|chain| - 1]
      invariant forall i | 0 <= i < |chain| - 1 :: chain[i] != null && SuperName(chain[i]).Ok? && SuperName(chain[i]).value.Some?
      decreases steps
    {
      if c == null {
        r := Fail(NilDereference);
        return;
      }
      var super :- SuperName(c);
      if super.None? {
        r := Ok(false);
        return;
      }
      if steps == 0 {
        r := Fail(OutOfFuel);
        return;
      }
      steps := steps - 1;
      ghost var before := chain;
      c :- Load(t, super.value, fuel);
      chain := chain + [c];
      assert chain[..|chain| - 1] == before;
    }
    r := Ok(true);
  }

  /** frame.Pop() then frame.Push(v) on the thread's top frame `f`: the top operand replaced. */
  method SwapTop(t: Thread, v: Value) returns (r: Result<()>, ghost f: Frame?)
    requires t.Valid()
    modifies t.Repr
    ensures r.Ok? ==> t.Valid() && t.Frames() == old(t.Frames()) && |t.Frames()| > 0 && f == t.Top()
    ensures r.Ok? ==> var before := old(f.Operands());
              |before| > 0 && f.Operands() == before[..|before| - 1] + [v]
    ensures old(t.Frames()) != [] && old(t.Top().Operands()) != [] ==> r.Ok?
  {
    f := null;
    var top :- t.Peek();
    f := top;
    var _ :- top.Pop();
    r := top.Push(v);
    FrameEdited(t, top);
  }

  /** Whether the object `v` points to is an instance of `target`; a non-object is a nil dereference. */
  method Classify(t: Thread, v: Value, target: Class?, fuel: nat) returns (r: Result<bool>, ghost chain: seq<Class?>)
    requires t.Valid()
    modifies t.loader
    ensures r.Ok? ==> t.Valid() && Grown(t) && v.Obj? && v.addr < |t.heap.objects| &&
                      Decides(chain, t.heap.objects[v.addr].cls, target, r.value)
  {
    chain := [];
    var o :- Deref(t.heap.objects, v);
    r, chain := IsInstance(t, o.cls, target, fuel);
  }

  /** frame.Peek() on the thread's top frame. */
  method TopOperand(t: Thread) returns (r: Result<Value>)
    requires t.Valid()
    ensures r.Ok? ==> |t.Frames()| > 0 && t.Top().Operands() != [] &&
                      r.value == t.Top().Operands()[|t.Top().Operands()| - 1]
    ensures r.Fail? ==> r.fault == IndexOutOfRange
    ensures t.Frames() != [] && t.Top().Operands() != [] ==> r.Ok?
  {
    var f :- t.Peek();
    r := f.Peek();
  }

  /**
   * What instanceof and checkcast share: the class operand loaded, then
   * whether the object on top of the top frame is an instance of it.
   */
  method TypeTest(t: Thread, consts: seq<Const>, code: seq<byte>, pc: int, fuel: nat)
    returns (r: Result<bool>, ghost target: Class?, ghost chain: seq<Class?>)
    requires t.Valid()
    modifies t.loader
    ensures r.Ok? ==>
              t.Valid() && Grown(t) && ClassOperand(consts, code, pc).Ok? && |t.Frames()| > 0 &&
              var ops := t.Top().Operands();
              |ops| > 0 && ops[|ops| - 1].Obj? && ops[|ops| - 1].addr < |t.heap.objects| &&
              Decides(chain, t.heap.objects[ops[|ops| - 1].addr].cls, target, r.value)
  {
    target, chain := null, [];
    var name :- ClassOperand(consts, code, pc);
    var wanted :- Load(t, name, fuel);
    target := wanted;
    var v :- TopOperand(t);
    r, chain := Classify(t, v, wanted, fuel);
  }

  /**
   * instanceof: the object on top of the top frame replaced by 1 when its
   * class is the class operand or a subclass of it, else 0. A non-object on
   * the stack is a nil dereference (Go reads the class of a nil object).
   */
  method InstanceOf(t: Thread, consts: seq<Const>, code: seq<byte>, pc: int, fuel: nat)
    returns (r: Result<int>, ghost top: Frame?, ghost target: Class?, ghost chain: seq<Class?>, ghost answer: bool)
    requires t.Valid()
    modifies t.Repr, t.loader
    ensures r.Ok? ==> t.Valid() && Grown(t) && t.Frames() == old(t.Frames()) && |t.Frames()| > 0 &&
                      top == t.Top() && r.value == pc + 2 && ClassOperand(consts, code, pc).Ok?
    ensures r.Ok? ==> var before := old(top.Operands());
              |before| > 0 && var v := before[|before| - 1];
              v.Obj? && v.addr < |t.heap.objects| && Decides(chain, t.heap.objects[v.addr].cls, target, answer) &&
              top.Operands() == before[..|before| - 1] + [Int(if answer then 1 else 0)]
  {
    top, answer := null, false;
    var yes;
    yes, target, chain :- TypeTest(t, consts, code, pc, fuel);
    answer := yes;
    ghost var f0 := t.Top();
    ghost var v := f0.Operands()[|f0.Operands()| - 1];
    assert Decides(chain, t.heap.objects[v.addr].cls, target, answer);
    var _, g :- SwapTop(t, Int(if yes then 1 else 0));
    top := g;
    assert top == f0;
    r := Ok(pc + 2);
  }

  /**
   * checkcast: the object on top of the top frame left in place when its
   * class is the class operand or a subclass of it, a class-cast failure
   * (`refused`) otherwise.
   */
  method CheckCast(t: Thread, consts: seq<Const>, code: seq<byte>, pc: int, fuel: nat)
    returns (r: Result<int>, ghost target: Class?, ghost chain: seq<Class?>, ghost refused: bool)
    requires t.Valid()
    modifies t.loader
    ensures r.Ok? ==> r.value == pc + 2
    ensures refused ==> r == Fail(ClassCast)
    ensures r.Ok? || refused ==>
              t.Valid() && Grown(t) && ClassOperand(consts, code, pc).Ok? && |t.Frames()| > 0 &&
              var ops := t.Top().Operands();
              |ops| > 0 && ops[|ops| - 1].Obj? && ops[|ops| - 1].addr < |t.heap.objects| &&
              Decides(chain, t.heap.objects[ops[|ops| - 1].addr].cls, target, r.Ok?)
  {
    refused := false;
    var yes;
    yes, target, chain :- TypeTest(t, consts, code, pc, fuel);
    refused := !yes;
    r := if yes then Ok(pc + 2) else Fail(ClassCast);
  }

  // ---------------------------------------------------------------------
  // Arrays.
  // ---------------------------------------------------------------------

  /** A new object replacing the top operand of the thread's top frame `f`. */
  method SwapNew(t: Thread, o: ObjectData) returns (r: Result<()>, ghost f: Frame?)
    requires t.Valid()
    modifies t.Repr, t.heap
    ensures r.Ok? ==> t.Valid() && t.Frames() == old(t.Frames()) && |t.Frames()| > 0 && f == t.Top()
    ensures r.Ok? ==> var before := old(f.Operands());
              |before| > 0 && t.heap.objects == old(t.heap.objects) + [o] &&
              f.Operands() == before[..|before| - 1] + [Obj(|old(t.heap.objects)|)]
  {
    var v := t.heap.Alloc(o);
    assert t.Valid();
    r, f := SwapTop(t, v);
  }

  /**
   * The element count on top of the thread's top frame, as newarray and
   * anewarray read it: a nil slot is a nil dereference, a negative count
   * is refused.
   */
  method ArrayCount(t: Thread) returns (r: Result<int32>)
    requires t.Valid()
    ensures r.Ok? ==> |t.Frames()| > 0 && t.Top().Operands() != []
    ensures |t.Frames()| > 0 && t.Top().Operands() != [] ==>
              var n := IntegerOf(t.Top().Operands()[|t.Top().Operands()| - 1]);
              (n.Fail? ==> r == Fail(NilDereference)) &&
              (n.Ok? ==> (r.Ok? <==> n.value >= 0) && (r.Ok? ==> r.value == n.value) &&
                         (r.Fail? ==> r.fault == NegativeArraySize))
  {
    var f :- t.Peek();
    var v :- f.Peek();
    var n :- IntegerOf(v);
    if n < 0 {
      return Fail(NegativeArraySize);
    }
    r := Ok(n);
  }

  /**
   * The array class newarray (element type code operand) or anewarray
   * (element class operand) loads, with the element type code the new
   * array records (0 for arrays of references).
   */
  function ArrayType(consts: seq<Const>, code: seq<byte>, pc: int, references: bool): (r: Result<(string, int)>)
    ensures r.Ok? && references ==>
              ClassOperand(consts, code, pc).Ok? && r.value == ("[" + ClassOperand(consts, code, pc).value, 0)
    ensures r.Ok? && !references ==>
              0 <= pc < |code| && r.value == (ArrayClassName(code[pc] as int), code[pc] as int)
    ensures r.Fail? ==> if references then ClassOperand(consts, code, pc).Fail? else r == Fail(IndexOutOfRange)
  {
    if references then
      var element :- ClassOperand(consts, code, pc);
      Ok(("[" + element, 0))
    else
      var op :- Sem.U8Operand(code, pc);
      Ok((ArrayClassName(op as int), op as int))
  }

  /** A new array object of `count` nil elements. */
  function NewArrayObject(c: Class?, arrayType: int, count: nat): (o: ObjectData)
    ensures o.cls == c && o.fields == [] && o.arrayType == arrayType
    ensures |o.arrayData| == count && forall e | e in o.arrayData :: e == Nil
  {
    ObjectData(c, [], arrayType, seq(count, _ => Nil))
  }

  /**
   * newarray (`references` false) and anewarray (`references` true): the
   * count on top of the top frame replaced by a new array of that many nil
   * elements, whose class is the array class the operand names.
   */
  method NewArray(t: Thread, consts: seq<Const>, code: seq<byte>, pc: int, references: bool, fuel: nat)
    returns (r: Result<int>, ghost top: Frame?, ghost count: int32)
    requires t.Valid()
    modifies t.Repr, t.heap, t.loader
    ensures r.Ok? ==> t.Valid() && Grown(t) && t.Frames() == old(t.Frames()) && |t.Frames()| > 0 &&
                      top == t.Top() && r.value == pc + (if references then 2 else 1)
    ensures r.Ok? ==> var before := old(top.Operands());
              |before| > 0 && IntegerOf(before[|before| - 1]) == Ok(count) && count >= 0 &&
              ArrayType(consts, code, pc, references).Ok? &&
              var (name, arrayType) := ArrayType(consts, code, pc, references).value;
              var c := if name in t.loader.classes then t.loader.classes[name] else null;
              t.heap.objects == old(t.heap.objects) + [NewArrayObject(c, arrayType, count as nat)] &&
              top.Operands() == before[..|before| - 1] + [Obj(|old(t.heap.objects)|)]
  {
    top := null;
    count :| true;
    var n :- ArrayCount(t);
    count := n;
    var named :- ArrayType(consts, code, pc, references);
    var _, f :- SwapNewArray(t, named.0, named.1, n as nat, fuel);
    top := f;
    r := Ok(pc + (if references then 2 else 1));
  }

  /** The value on top of the top frame replaced by a new array of `count` nil elements. */
  method SwapNewArray(t: Thread, name: string, arrayType: int, count: nat, fuel: nat) returns (r: Result<()>, ghost top: Frame?)
    requires t.Valid()
    modifies t.Repr, t.heap, t.loader
    ensures r.Ok? ==> t.Valid() && Grown(t) && t.Frames() == old(t.Frames()) && |t.Frames()| > 0 && top == t.Top()
    ensures r.Ok? ==> var before := old(top.Operands());
              var c := if name in t.loader.classes then t.loader.classes[name] else null;
              |before| > 0 && t.heap.objects == old(t.heap.objects) + [NewArrayObject(c, arrayType, count)] &&
              top.Operands() == before[..|before| - 1] + [Obj(|old(t.heap.objects)|)]
  {
    top := null;
    var c :- Load(t, name, fuel);
    var _, f :- SwapNew(t, NewArrayObject(c, arrayType, count));
    top := f;
    r := Ok(());
  }

  /**
   * `v` points to an array of `counts[0]` elements with no type code; with
   * more counts each element is in turn shaped by the rest of them, and
   * otherwise every element is nil.
   */
  ghost predicate Shaped(objects: seq<ObjectData>, v: Value, counts: seq<int32>)
    decreases |counts|
  {
    v.Obj? && v.addr < |objects| && |counts| > 0 && counts[0] >= 0 &&
    var o := objects[v.addr];
    o.fields == [] && o.arrayType == 0 && |o.arrayData| == counts[0] as int &&
    forall e | e in o.arrayData :: if |counts| > 1 then Shaped(objects, e, counts[1..]) else e == Nil
  }

  /** Allocating more objects leaves the shape of existing arrays alone. */
  lemma {:induction false} ShapedExtends(objects: seq<ObjectData>, more: seq<ObjectData>, v: Value, counts: seq<int32>)
    requires Shaped(objects, v, counts)
    ensures Shaped(objects + more, v, counts)
    decreases |counts|
  {
    var o := objects[v.addr];
    assert (objects + more)[v.addr] == o;
    if |counts| > 1 {
      forall e | e in o.arrayData
        ensures Shaped(objects + more, e, counts[1..])
      {
        ShapedExtends(objects, more, e, counts[1..]);
      }
    }
  }

  /** Every value of `data` keeps its shape when the heap grows from `before` to `after`. */
  lemma AllShapedExtend(before: seq<ObjectData>, after: seq<ObjectData>, data: seq<Value>, counts: seq<int32>)
    requires before <= after
    requires forall e | e in data :: Shaped(before, e, counts)
    ensures forall e | e in data :: Shaped(after, e, counts)
  {
    assert after == before + after[|before|..];
    forall e | e in data
      ensures Shaped(after, e, counts)
    {
      ShapedExtends(before, after[|before|..], e, counts);
    }
  }

  /**
   * makeMultiArray: an array of `counts[0]` elements whose class is the one
   * loaded under `name`; with more counts each element is a new array made
   * the same way from `name` without its first character and the remaining
   * counts, and otherwise every element is nil. The elements are made
   * before the outer class is loaded.
   */
  method MakeMultiArray(t: Thread, name: string, counts: seq<int32>, fuel: nat) returns (r: Result<Value>)
    requires t.Valid()
    modifies t.heap, t.loader
    ensures r.Ok? ==> t.Valid() && Grown(t) && old(t.heap.objects) <= t.heap.objects
    ensures r.Ok? ==> Shaped(t.heap.objects, r.value, counts) && r.value.addr >= |old(t.heap.objects)| &&
                      t.heap.objects[r.value.addr].cls == (if name in t.loader.classes then t.loader.classes[name] else null)
    ensures counts == [] ==> r == Fail(IndexOutOfRange)
    ensures counts != [] && counts[0] < 0 ==> r == Fail(NegativeArraySize)
    decreases |counts|
  {
    if |counts| == 0 {
      return Fail(IndexOutOfRange);
    }
    if counts[0] < 0 {
      return Fail(NegativeArraySize);
    }
    var data: seq<Value> := seq(counts[0] as int, _ => Nil);
    if |counts| > 1 {
      data := [];
      while |data| < counts[0] as int
        invariant t.Valid() && Grown(t) && old(t.heap.objects) <= t.heap.objects
        invariant |data| <= counts[0] as int
        invariant forall e | e in data :: Shaped(t.heap.objects, e, counts[1..])
      {
        if |name| == 0 {
          return Fail(IndexOutOfRange);
        }
        ghost var before := t.heap.objects;
        var e :- MakeMultiArray(t, name[1..], counts[1..], fuel);
        AllShapedExtend(before, t.heap.objects, data, counts[1..]);
        data := data + [e];
      }
    }
    var c :- Load(t, name, fuel);
    ghost var before := t.heap.objects;
    var v := t.heap.Alloc(ObjectData(c, [], 0, data));
    if |counts| > 1 {
      AllShapedExtend(before, t.heap.objects, data, counts[1..]);
    }
    assert t.Valid();
    r := Ok(v);
  }

  /** `dim` int operands popped off `f`, the deepest first in the result. */
  method PopInts(f: Frame, dim: nat) returns (r: Result<seq<int32>>)
    requires f.Valid()
    modifies f.stack
    ensures f.Valid()
    ensures r.Ok? ==> var before := old(f.Operands());
              |r.value| == dim <= |before| && f.Operands() == before[..|before| - dim] &&
              forall i | 0 <= i < dim :: IntegerOf(before[|before| - dim + i]) == Ok(r.value[i])
  {
    ghost var before := f.Operands();
    var counts: seq<int32> := [];
    while |counts| < dim
      invariant f.Valid() && |counts| <= dim && |counts| <= |before|
      invariant f.Operands() == before[..|before| - |counts|]
      invariant forall i | 0 <= i < |counts| :: IntegerOf(before[|before| - |counts| + i]) == Ok(counts[i])
    {
      var v :- f.Pop();
      var n :- IntegerOf(v);
      counts := [n] + counts;
    }
    r := Ok(counts);
  }

  /** PopInts on the thread's top frame `f`. */
  method PopCounts(t: Thread, dim: nat) returns (r: Result<seq<int32>>, ghost f: Frame?)
    requires t.Valid()
    modifies t.Repr
    ensures r.Ok? ==> t.Valid() && t.Frames() == old(t.Frames()) && |t.Frames()| > 0 && f == t.Top()
    ensures r.Ok? ==> var before := old(f.Operands());
              |r.value| == dim <= |before| && f.Operands() == before[..|before| - dim] &&
              forall i | 0 <= i < dim :: IntegerOf(before[|before| - dim + i]) == Ok(r.value[i])
  {
    f := null;
    var top :- t.Peek();
    f := top;
    r := PopInts(top, dim);
    FrameEdited(t, top);
  }

  /** makeMultiArray, the result pushed onto the thread's top frame `f`. */
  method PushMultiArray(t: Thread, name: string, counts: seq<int32>, fuel: nat) returns (r: Result<()>, ghost f: Frame?)
    requires t.Valid()
    modifies t.Repr, t.heap, t.loader
    ensures r.Ok? ==> t.Valid() && Grown(t) && t.Frames() == old(t.Frames()) && |t.Frames()| > 0 && f == t.Top() &&
                      old(t.heap.objects) <= t.heap.objects
    ensures r.Ok? ==> var before := old(f.Operands());
              |f.Operands()| == |before| + 1 && f.Operands()[..|before|] == before &&
              Shaped(t.heap.objects, f.Operands()[|before|], counts)
  {
    f := null;
    var v :- MakeMultiArray(t, name, counts, fuel);
    r, f := PushTop(t, v, false);
  }

  /**
   * multianewarray: as many counts as the dimension operand says popped off
   * the top frame (the deepest is the outermost), replaced by the nested
   * array makeMultiArray builds from them.
   */
  method MultiArray(t: Thread, consts: seq<Const>, code: seq<byte>, pc: int, fuel: nat)
    returns (r: Result<int>, ghost top: Frame?, ghost counts: seq<int32>)
    requires t.Valid()
    modifies t.Repr, t.heap, t.loader
    ensures r.Ok? ==> t.Valid() && Grown(t) && t.Frames() == old(t.Frames()) && |t.Frames()| > 0 &&
                      top == t.Top() && r.value == pc + 3 && old(t.heap.objects) <= t.heap.objects
    ensures r.Ok? ==>
              ClassOperand(consts, code, pc).Ok? && 0 <= pc + 2 < |code| &&
              var dim := code[pc + 2] as int;
              var before := old(top.Operands());
              |counts| == dim <= |before| &&
              (forall i | 0 <= i < dim :: IntegerOf(before[|before| - dim + i]) == Ok(counts[i])) &&
              |top.Operands()| == |before| - dim + 1 && top.Operands()[..|before| - dim] == before[..|before| - dim] &&
              Shaped(t.heap.objects, top.Operands()[|before| - dim], counts)
  {
    top, counts := null, [];
    var name :- ClassOperand(consts, code, pc);
    var dim :- Sem.U8Operand(code, pc + 2);
    var _, f, popped :- SwapCounts(t, name, dim as nat, fuel);
    top, counts := f, popped;
    r := Ok(pc + 3);
  }

  /** The `dim` counts on top of the top frame replaced by the array they shape. */
  method SwapCounts(t: Thread, name: string, dim: nat, fuel: nat)
    returns (r: Result<()>, ghost top: Frame?, ghost counts: seq<int32>)
    requires t.Valid()
    modifies t.Repr, t.heap, t.loader
    ensures r.Ok? ==> t.Valid() && Grown(t) && t.Frames() == old(t.Frames()) && |t.Frames()| > 0 &&
                      top == t.Top() && old(t.heap.objects) <= t.heap.objects
    ensures r.Ok? ==>
              var before := old(top.Operands());
              |counts| == dim <= |before| &&
              (forall i | 0 <= i < dim :: IntegerOf(before[|before| - dim + i]) == Ok(counts[i])) &&
              |top.Operands()| == |before| - dim + 1 && top.Operands()[..|before| - dim] == before[..|before| - dim] &&
              Shaped(t.heap.objects, top.Operands()[|before| - dim], counts)
  {
    top, counts := null, [];
    var popped, f :- PopCounts(t, dim);
    counts := popped;
    var _, g :- PushMultiArray(t, name, popped, fuel);
    top := g;
    r := Ok(());
  }

  // ---------------------------------------------------------------------
  // Control transfer.
  // ---------------------------------------------------------------------

  /** The pc every return handler hands back: past the end of any method's code, so its loop ends. */
  const RETURNED: int := 0xFFFF_FFFF

  /** return: the top frame popped. */
  method Return(t: Thread) returns (r: Result<int>, ghost callee: Frame?)
    requires t.Valid()
    modifies t.frames
    ensures r.Ok? ==> t.Valid() && r.value == RETURNED && old(t.Frames()) == t.Frames() + [callee]
    ensures r.Fail? ==> r.fault == IndexOutOfRange && old(t.Frames()) == []
  {
    callee := null;
    var f :- t.Pop();
    callee := f;
    r := Ok(RETURNED);
  }

  /**
   * A thread stays valid when, the frame stack itself untouched, only the
   * parts of two frames changed, one of which need not be on the stack any
   * more.
   */
  twostate lemma PairEdited(t: Thread, new f: Frame, new g: Frame)
    requires old(t.Valid())
    requires t.Repr == old(t.Repr) && unchanged(t.frames, t.frames.data)
    requires f.stack in old(t.Repr) && f.stack.data in old(t.Repr) && f.locals in old(t.Repr)
    requires g.stack in old(t.Repr) && g.stack.data in old(t.Repr) && g.locals in old(t.Repr) && g.Valid()
    requires forall i | 0 <= i < t.frames.index :: t.frames.data[i] != null && t.frames.data[i].stack != f.stack
    requires forall o | o in old(t.Repr) && o != f.stack && o != f.stack.data && o != f.locals &&
                        o != g.stack && o != g.stack.data && o != g.locals :: unchanged(o)
    requires t.loader.Valid()
    requires forall c | c in t.loader.classes.Values :: c in old(t.loader.classes.Values) || fresh(c)
    ensures t.Valid()
  {
    forall i | 0 <= i < t.frames.index
      ensures t.Owns(t.frames.data[i])
    {
      assert old(t.Owns(t.frames.data[i]));
    }
  }

  /** frame.Push(oldFrame.Pop()), or the same with Pop2 and Push2: the callee's result moved to the caller. */
  method Transfer(f: Frame, g: Frame, two: bool) returns (r: Result<Value>)
    requires f.Valid() && g.Valid() && f.stack != g.stack
    modifies f.stack, g.stack, g.stack.data
    ensures g.Valid()
    ensures r.Ok? ==> Sem.PopSlots(old(f.Operands()), two).Ok? && r.value == Sem.PopSlots(old(f.Operands()), two).value.1 &&
                      g.Operands() == old(g.Operands()) + Slots(r.value, two)
  {
    r := Handlers.PopValue(f, two);
    if r.Ok? {
      var pushed := Handlers.PushValue(g, r.value, two);
      if pushed.Fail? {
        r := Fail(pushed.fault);
      }
    }
  }

  /** The top frame `f` popped off the thread, and the frame `g` under it, now on top. */
  method PopCallee(t: Thread) returns (r: Result<(Frame, Frame)>)
    requires t.Valid()
    modifies t.frames
    ensures t.Valid() && t.Repr == old(t.Repr)
    ensures r.Ok? ==> var (f, g) := r.value;
              old(t.Frames()) == t.Frames() + [f] && |t.Frames()| > 0 && g == t.Top() &&
              f.Valid() && t.Owns(f) && f.stack != g.stack &&
              old(allocated(f)) && old(f.Valid()) && old(f.Operands()) == f.Operands() &&
              old(allocated(g)) && old(g.Valid()) && old(g.Operands()) == g.Operands() &&
              forall i | 0 <= i < t.frames.index :: t.frames.data[i] != null && t.frames.data[i].stack != f.stack
  {
    var f :- t.Pop();
    var g :- t.Peek();
    assert old(t.Frames())[|t.Frames()|] == f && old(t.Frames())[|t.Frames()| - 1] == g;
    assert old(t.frames.index) == t.frames.index + 1 && t.frames.data[t.frames.index] == f;
    forall i | 0 <= i < t.frames.index
      ensures t.frames.data[i] != null && t.frames.data[i].stack != f.stack
    {
      assert old(t.Owns(t.frames.data[i]));
    }
    r := Ok((f, g));
  }

  /**
   * ireturn, freturn, areturn (`two` false) and lreturn, dreturn (`two`
   * true): the top frame popped, and the value on top of its operand stack
   * moved onto the caller's, taking two slots when `two`.
   */
  method ReturnValue(t: Thread, two: bool) returns (r: Result<int>, ghost callee: Frame?, ghost caller: Frame?, ghost v: Value)
    requires t.Valid()
    modifies t.Repr
    ensures r.Ok? ==> t.Valid() && r.value == RETURNED && old(t.Frames()) == t.Frames() + [callee] &&
                      |t.Frames()| > 0 && caller == t.Top() && callee != null &&
                      old(allocated(callee)) && old(callee.Valid()) && old(allocated(caller)) && old(caller.Valid())
    ensures r.Ok? ==> Sem.PopSlots(old(callee.Operands()), two).Ok? && v == Sem.PopSlots(old(callee.Operands()), two).value.1 &&
                      caller.Operands() == old(caller.Operands()) + Slots(v, two)
  {
    callee, caller, v := null, null, Nil;
    var pair :- PopCallee(t);
    var (f, g) := pair;
    callee, caller := f, g;
    label Popped:
    var x :- Transfer(f, g, two);
    v := x;
    PairEdited@Popped(t, f, g);
    r := Ok(RETURNED);
  }

  /** The class file of a thrown object's class, None for a nil class. */
  function FileOf(c: Class?): (r: Option<ClassFile>)
    ensures r.Some? <==> c != null
    ensures r.Some? ==> r.value == c.file
  {
    if c == null then None else Some(c.file)
  }

  /**
   * FindException from the first entry, where the thrown object may have
   * a nil class: then the first entry covering `pc` dereferences it.
   */
  function Catch(entries: seq<ExceptionEntry>, catcher: seq<Const>, pc: int, thrown: Option<ClassFile>): (r: Result<Option<nat>>)
    ensures thrown.None? ==>
              (r.Fail? <==> exists k | 0 <= k < |entries| :: Covers(entries[k], pc)) &&
              (r.Fail? ==> r.fault == NilDereference) && (r.Ok? ==> r.value.None?)
    ensures thrown.Some? ==> r == FindException(entries, catcher, pc, thrown.value, 0)
    ensures r.Ok? && r.value.Some? ==> r.value.value < |entries|
  {
    match thrown
    case None =>
      if exists k | 0 <= k < |entries| :: Covers(entries[k], pc) then Fail(NilDereference) else Ok(None)
    case Some(file) => FindException(entries, catcher, pc, file, 0)
  }

  /**
   * The object athrow pops off the top frame: a nil slot is a nil
   * dereference and any other non-object value a null throw.
   */
  method PopThrown(t: Thread) returns (r: Result<nat>)
    requires t.Valid()
    modifies t.Repr
    ensures r.Ok? ==> t.Valid() && t.Frames() == old(t.Frames()) && |t.Frames()| > 0 && r.value < |t.heap.objects|
    ensures r.Ok? ==> var ops := old(t.Top().Operands());
              ops != [] && ops[|ops| - 1] == Obj(r.value) && t.Top().Operands() == ops[..|ops| - 1]
  {
    var f :- t.Peek();
    label Start:
    var v :- f.Pop();
    FrameEdited@Start(t, f);
    var obj :- ObjectOf(v);
    if obj.None? {
      return Fail(NullThrow);
    }
    var _ :- Deref(t.heap.objects, Obj(obj.value));
    r := Ok(obj.value);
  }

  /** frame.Clear() then frame.Push(the thrown object) on the thread's top frame `f`. */
  method EnterHandler(t: Thread, a: nat) returns (r: Result<()>, ghost f: Frame?)
    requires t.Valid()
    modifies t.Repr
    ensures r.Ok? ==> t.Valid() && t.Frames() == old(t.Frames()) && |t.Frames()| > 0 && f == t.Top() &&
                      f.Operands() == [Obj(a)]
  {
    f := null;
    var g :- t.Peek();
    f := g;
    label Start:
    g.Clear();
    r := g.Push(Obj(a));
    FrameEdited@Start(t, g);
  }

  /** The handler the top frame's code has for a thrown object of class file `file`, if any. */
  method SearchTop(t: Thread, consts: seq<Const>, pc: int, file: Option<ClassFile>)
    returns (r: Result<Option<nat>>, entries: seq<ExceptionEntry>)
    requires t.Valid()
    ensures r.Ok? ==> |t.Frames()| > 0 && GetCodeAttribute(t.Top().methodRef.Member()).Some? &&
                      entries == GetCodeAttribute(t.Top().methodRef.Member()).value.exceptions &&
                      Catch(entries, consts, (pc - 1) % 65536, file) == r
  {
    entries := [];
    var g :- t.Peek();
    var code := GetCodeAttribute(g.methodRef.Member());
    if code.None? {
      r := Fail(NilDereference);
      return;
    }
    entries := code.value.exceptions;
    r := Catch(entries, consts, (pc - 1) % 65536, file);
  }

  /**
   * A thread stays valid when only frames were popped off it: nothing else
   * changed, and the frames left are the bottom ones.
   */
  twostate lemma Unstacked(t: Thread)
    requires old(t.Valid()) && unchanged(t, t.loader, t.frames.data) && t.frames.index <= old(t.frames.index)
    requires forall o | o in old(t.Repr) && o != t.frames :: unchanged(o)
    requires forall c | c in t.loader.classes.Values :: unchanged(c)
    ensures t.Valid() && t.Frames() == old(t.Frames())[..t.frames.index]
  {
    assert forall i | 0 <= i < t.frames.index :: old(t.Owns(t.frames.data[i]));
  }

  /**
   * The search for a handler of a thrown object of class file `file`,
   * frame by frame from the top: frames whose code has no entry catching it
   * are popped, and the search stops at the first that has one, or when no
   * frame is left (None).
   */
  method FindHandler(t: Thread, consts: seq<Const>, pc: int, file: Option<ClassFile>)
    returns (r: Result<Option<nat>>, entries: seq<ExceptionEntry>)
    requires t.Valid()
    modifies t.frames
    ensures r.Ok? ==> t.Valid() && |t.Frames()| <= |old(t.Frames())| && t.Frames() == old(t.Frames())[..|t.Frames()|]
    ensures r.Ok? && r.value.None? ==> t.Frames() == []
    ensures r.Ok? && r.value.Some? ==>
              |t.Frames()| > 0 && GetCodeAttribute(t.Top().methodRef.Member()).Some? &&
              entries == GetCodeAttribute(t.Top().methodRef.Member()).value.exceptions &&
              Catch(entries, consts, (pc - 1) % 65536, file) == r
  {
    entries := [];
    var empty := t.IsEmpty();
    while !empty
      invariant t.frames.index <= old(t.frames.index)
      invariant empty <==> t.frames.index == 0
      decreases t.frames.index
    {
      Unstacked(t);
      var found, es :- SearchTop(t, consts, pc, file);
      if found.Some? {
        return Ok(found), es;
      }
      var _ := t.Pop();
      empty := t.IsEmpty();
    }
    Unstacked(t);
    r := Ok(None);
  }

  /**
   * The search for a handler of the object at `a`: the frame that has one
   * keeps the object as its only operand, and the entry's handler pc is
   * the result.
   */
  method Unwind(t: Thread, consts: seq<Const>, pc: int, a: nat)
    returns (r: Result<int>, ghost catcher: Frame?, ghost k: nat, ghost unhandled: bool)
    requires t.Valid() && a < |t.heap.objects|
    modifies t.Repr
    ensures r.Ok? ==>
              t.Valid() && |t.Frames()| > 0 && catcher == t.Top() &&
              |t.Frames()| <= |old(t.Frames())| && t.Frames() == old(t.Frames())[..|t.Frames()|] &&
              catcher.Operands() == [Obj(a)] && GetCodeAttribute(catcher.methodRef.Member()).Some? &&
              var entries := GetCodeAttribute(catcher.methodRef.Member()).value.exceptions;
              Catch(entries, consts, (pc - 1) % 65536, FileOf(t.heap.objects[a].cls)) == Ok(Some(k)) &&
              k < |entries| && r.value == entries[k].handler as int
    ensures unhandled ==> r == Fail(UnhandledException) && t.Valid() && t.Frames() == []
  {
    catcher, k, unhandled := null, 0, false;
    var found, entries :- FindHandler(t, consts, pc, FileOf(t.heap.objects[a].cls));
    if found.None? {
      unhandled := true;
      r := Fail(UnhandledException);
      return;
    }
    var _, h :- EnterHandler(t, a);
    catcher, k := h, found.value;
    r := Ok(entries[found.value].handler as int);
  }

  /**
   * athrow: the object popped off the top frame is thrown. Frames are
   * searched from the top for an exception-table entry covering the
   * throwing pc (as a 16-bit number) whose catch type, read in the
   * throwing class's pool, names the object's class exactly; frames
   * without one are popped. The catching frame's operand stack is left
   * holding just the object, and its handler pc is what the throwing
   * method's loop continues from.
   */
  method AThrow(t: Thread, consts: seq<Const>, pc: int)
    returns (r: Result<int>, ghost thrown: nat, ghost catcher: Frame?, ghost k: nat, ghost unhandled: bool)
    requires t.Valid()
    modifies t.Repr
    ensures r.Ok? || unhandled ==> old(t.Frames()) != [] && var ops := old(t.Top().Operands());
              ops != [] && ops[|ops| - 1] == Obj(thrown)
    ensures r.Ok? ==>
              t.Valid() && |t.Frames()| > 0 && catcher == t.Top() &&
              |t.Frames()| <= |old(t.Frames())| && t.Frames() == old(t.Frames())[..|t.Frames()|] &&
              thrown < |t.heap.objects| && catcher.Operands() == [Obj(thrown)] &&
              GetCodeAttribute(catcher.methodRef.Member()).Some? &&
              var entries := GetCodeAttribute(catcher.methodRef.Member()).value.exceptions;
              Catch(entries, consts, (pc - 1) % 65536, FileOf(t.heap.objects[thrown].cls)) == Ok(Some(k)) &&
              k < |entries| && r.value == entries[k].handler as int
    ensures unhandled ==> r == Fail(UnhandledException) && t.Valid() && t.Frames() == []
  {
    thrown, catcher, k, unhandled := 0, null, 0, false;
    var a :- PopThrown(t);
    thrown := a;
    r, catcher, k, unhandled := Unwind(t, consts, pc, a);
  }

  // ---------------------------------------------------------------------
  // Native methods.
  // ---------------------------------------------------------------------

  /** Go's built-in max on two int32 values. */
  function MaxOf(x: int32, y: int32): (m: int32)
    ensures m >= x && m >= y
    ensures m == x || m == y
  {
    if x >= y then x else y
  }

  /** The two ints on top of `f` popped, then the larger pushed. */
  method MaxOnFrame(f: Frame) returns (r: Result<()>)
    requires f.Valid()
    modifies f.stack, f.stack.data
    ensures f.Valid()
    ensures r.Ok? ==> var before := old(f.Operands()); var n := |before|;
              n >= 2 && IntegerOf(before[n - 1]).Ok? && IntegerOf(before[n - 2]).Ok? &&
              f.Operands() == before[..n - 2] + [Int(MaxOf(IntegerOf(before[n - 1]).value, IntegerOf(before[n - 2]).value))]
  {
    var v1 :- f.Pop();
    var v2 :- f.Pop();
    var x :- IntegerOf(v1);
    var y :- IntegerOf(v2);
    r := f.Push(Int(MaxOf(x, y)));
  }

  /**
   * HelloWorld.max(II)I: the two ints on top of the top frame `f` replaced
   * by the larger. Both are popped before either is read, so a nil slot
   * fails only after both pops.
   */
  method NativeMax(t: Thread) returns (r: Result<()>, ghost f: Frame?)
    requires t.Valid()
    modifies t.Repr
    ensures r.Ok? ==> t.Valid() && t.Frames() == old(t.Frames()) && |t.Frames()| > 0 && f == t.Top()
    ensures r.Ok? ==> var before := old(f.Operands()); var n := |before|;
              n >= 2 && IntegerOf(before[n - 1]).Ok? && IntegerOf(before[n - 2]).Ok? &&
              f.Operands() == before[..n - 2] + [Int(MaxOf(IntegerOf(before[n - 1]).value, IntegerOf(before[n - 2]).value))]
  {
    f := null;
    var g :- t.Peek();
    f := g;
    label Start:
    r := MaxOnFrame(g);
    FrameEdited@Start(t, g);
  }

  /**
   * The internal name of the class of the object on top of the top frame,
   * as getClass reads it: a non-object or a nil class is a nil dereference.
   */
  method ClassNameOf(t: Thread) returns (r: Result<string>)
    requires t.Valid()
    ensures r.Ok? ==> |t.Frames()| > 0 && var ops := t.Top().Operands();
              ops != [] && ops[|ops| - 1].Obj? && ops[|ops| - 1].addr < |t.heap.objects| &&
              var c := t.heap.objects[ops[|ops| - 1].addr].cls;
              c != null && GetString(c.file.consts, c.file.thisIndex as int) == Ok(r.value)
  {
    var f :- t.Peek();
    var v :- f.Peek();
    var obj :- ObjectOf(v);
    if obj.None? {
      return Fail(NilDereference);
    }
    var o :- Deref(t.heap.objects, v);
    if o.cls == null {
      return Fail(NilDereference);
    }
    r := GetString(o.cls.file.consts, o.cls.file.thisIndex as int);
  }

  /**
   * java/lang/Object.getClass()Ljava/lang/Class;: the object on top of the
   * top frame replaced by a class object named by its class's internal
   * name (with '/', unlike the class objects ldc makes).
   */
  method NativeGetClass(t: Thread, fuel: nat) returns (r: Result<()>, ghost f: Frame?, ghost name: string)
    requires t.Valid()
    modifies t, t.Repr, t.heap, t.loader
    ensures r.Ok? ==> t.Valid() && Grown(t) && t.Frames() == old(t.Frames()) && |t.Frames()| > 0 && f == t.Top()
    ensures r.Ok? ==> var before := old(f.Operands()); var n := |before|;
              n > 0 && before[n - 1].Obj? && before[n - 1].addr < |old(t.heap.objects)| &&
              var c := old(t.heap.objects[before[n - 1].addr].cls);
              c != null && GetString(c.file.consts, c.file.thisIndex as int) == Ok(name) &&
              |f.Operands()| == n && f.Operands()[..n - 1] == before[..n - 1] &&
              ClassObject(t, f.Operands()[n - 1], name)
  {
    f, name := null, "";
    var text :- ClassNameOf(t);
    name := text;
    r, f := SwapClassObject(t, text, fuel);
  }

  /** The value on top of the top frame replaced by a new class object for `name`. */
  method SwapClassObject(t: Thread, name: string, fuel: nat) returns (r: Result<()>, ghost f: Frame?)
    requires t.Valid()
    modifies t, t.Repr, t.heap, t.loader
    ensures r.Ok? ==> t.Valid() && Grown(t) && t.Frames() == old(t.Frames()) && |t.Frames()| > 0 && f == t.Top()
    ensures r.Ok? ==> var before := old(f.Operands()); var n := |before|;
              n > 0 && |f.Operands()| == n && f.Operands()[..n - 1] == before[..n - 1] &&
              ClassObject(t, f.Operands()[n - 1], name) &&
              |old(t.heap.objects)| <= |t.heap.objects| && t.heap.objects[..|old(t.heap.objects)|] == old(t.heap.objects)
  {
    f := null;
    ghost var frames := t.Frames();
    var v :- MakeClassObject(t, name, fuel);
    assert t.Frames() == frames;
    r, f := SwapTop(t, v);
    assert r.Ok? ==> ClassObject(t, v, name);
  }

  /**
   * java/lang/Object.hashCode()I: the value on top of the top frame
   * replaced by the int32 truncation of the host address of its object,
   * 0 for a value that is not an object.
   */
  method NativeHashCode(t: Thread) returns (r: Result<()>, ghost f: Frame?)
    requires t.Valid()
    modifies t.Repr
    ensures r.Ok? ==> t.Valid() && t.Frames() == old(t.Frames()) && |t.Frames()| > 0 && f == t.Top()
    ensures r.Ok? ==> var before := old(f.Operands()); var n := |before|;
              n > 0 && !before[n - 1].Nil? &&
              f.Operands() == before[..n - 1] + [Int(Wrap32(if before[n - 1].Obj? then t.identity(before[n - 1].addr) else 0))]
  {
    f := null;
    var g :- t.Peek();
    var v :- g.Peek();
    var obj :- ObjectOf(v);
    var address := if obj.Some? then t.identity(obj.value) else 0;
    r, f := SwapTop(t, Int(Wrap32(address)));
  }

  /** Calling a native function found in the registry. */
  method CallNative(t: Thread, native: Natives.NativeFunc, fuel: nat) returns (r: Result<()>)
    requires t.Valid()
    modifies t, t.Repr, t.heap, t.loader
    ensures r.Ok? ==> t.Valid() && Grown(t) && t.Frames() == old(t.Frames())
  {
    match native
    case Max =>
      var res, top := NativeMax(t);
      r := res;
    case GetClass =>
      var res, top, name := NativeGetClass(t, fuel);
      r := res;
    case HashCode =>
      var res, top := NativeHashCode(t);
      r := res;
  }

  // ---------------------------------------------------------------------
  // Method invocation.
  // ---------------------------------------------------------------------

  /**
   * parseArgCount: the operand slots a call to `m` takes off the caller's
   * stack, read from its descriptor in the pool `consts` of its class: one
   * per argument, two for a long or double, and one for `this` unless the
   * method is static. A descriptor the parser rejects fails with its fault.
   */
  method ArgCount(consts: seq<Const>, m: Member) returns (r: Result<nat>)
    ensures r.Ok? <==> GetString(consts, m.descIndex as int).Ok? && Descriptor.DescAt(GetString(consts, m.descIndex as int).value, 0).Ok?
    ensures r.Ok? ==>
              var desc := Descriptor.DescAt(GetString(consts, m.descIndex as int).value, 0).value.0;
              r.value == Descriptor.SlotCount(desc.argTypes) + (if IsStatic(m.access) then 0 else 1)
  {
    var text :- GetString(consts, m.descIndex as int);
    var parser := new Descriptor.MethodDescParser(text);
    var desc :- parser.Parse();
    var count := 0;
    var i := 0;
    while i < |desc.argTypes|
      invariant 0 <= i <= |desc.argTypes| && count == Descriptor.SlotCount(desc.argTypes[..i])
    {
      Descriptor.SlotCountAppend(desc.argTypes[..i], desc.argTypes[i]);
      assert desc.argTypes[..i + 1] == desc.argTypes[..i] + [desc.argTypes[i]];
      count := count + 1;
      if desc.argTypes[i] == "D" || desc.argTypes[i] == "J" {
        count := count + 1;
      }
      i := i + 1;
    }
    assert desc.argTypes[..i] == desc.argTypes;
    if !IsStatic(m.access) {
      count := count + 1;
    }
    r := Ok(count);
  }
}
