/**
 * The run-time data area of book/rtda.go: guest objects, frames with their
 * local variables and operand stack, the thread's stack of frames, and the
 * table of interned strings.
 */
module Runtime {
  import opened Base
  import opened Model
  import opened Values
  import opened Collection
  import opened ClassLoader
  import OperandStack
  import Natives

  /**
   * A method as a frame holds it: its class and its position in that class's
   * method table (Go keeps a pointer to the method record, whose Class field
   * points back to the class).
   */
  datatype MethodRef = MethodRef(owner: Class, index: nat)
  {
    predicate Resolved()
    {
      index < |owner.file.methods|
    }

    function Member(): Member
      requires Resolved()
    {
      owner.file.methods[index]
    }
  }

  /**
   * A guest object: its class (nil when LoadClass found a class file that
   * declares another name), its instance slots and, for an array, the element
   * type code and the elements. Slots nobody has written hold Nil.
   */
  datatype ObjectData = ObjectData(cls: Class?, fields: seq<Value>, arrayType: int, arrayData: seq<Value>)

  /**
   * The object a value points to. A nil value, a value of another kind and an
   * address outside the heap all read as Go's nil pointer; the last cannot
   * arise, since values only ever hold addresses the heap handed out.
   */
  function Deref(objects: seq<ObjectData>, v: Value): (r: Result<ObjectData>)
    ensures r.Ok? <==> v.Obj? && v.addr < |objects|
    ensures r.Ok? ==> r.value == objects[v.addr]
    ensures r.Fail? ==> r.fault == NilDereference
  {
    if v.Obj? && v.addr < |objects| then Ok(objects[v.addr]) else Fail(NilDereference)
  }

  /** Go's memory for guest objects: objects are never freed, so addresses only grow. */
  class Heap {
    var objects: seq<ObjectData>

    constructor ()
      ensures objects == []
    {
      objects := [];
    }

    /** A new object at the next address. */
    method Alloc(o: ObjectData) returns (v: Value)
      modifies this
      ensures objects == old(objects) + [o]
      ensures v == Obj(|old(objects)|)
    {
      v := Obj(|objects|);
      objects := objects + [o];
    }

    /**
     * The two objects of a new string: an instance of `cls` and, at the next
     * address, a char array holding `text`, stored in the instance's slot `slot`.
     */
    method AllocString(cls: Class, slot: nat, charClass: Class?, text: string) returns (r: Result<Value>)
      modifies this
      ensures r.Ok? <==> slot < cls.instSlotCount
      ensures r.Fail? ==> r.fault == IndexOutOfRange
      ensures r.Ok? ==> var n := |old(objects)|;
                r.value == Obj(n) && objects == old(objects) + [
                  ObjectData(cls, seq(cls.instSlotCount, _ => Nil)[slot := Obj(n + 1)], 0, []),
                  ObjectData(charClass, [], ARRAY_CHAR, Chars(text))]
    {
      if slot >= cls.instSlotCount {
        return Fail(IndexOutOfRange);
      }
      var fields := seq(cls.instSlotCount, _ => Nil)[slot := Obj(|objects| + 1)];
      var str := Alloc(ObjectData(cls, fields, 0, []));
      var _ := Alloc(ObjectData(charClass, [], ARRAY_CHAR, Chars(text)));
      r := Ok(str);
    }
  }

  /** The elements NewString gives a string's char array: one int per character. */
  function Chars(text: string): (r: seq<Value>)
    ensures |r| == |text|
    ensures forall i | 0 <= i < |text| :: r[i] == Int(text[i] as int)
  {
    seq(|text|, i requires 0 <= i < |text| => Int(text[i] as int))
  }

  /**
   * The char array the `value` field of type char[] of the String object `v`
   * holds, if `v` is an object whose class has that field and the field
   * holds an array.
   */
  function CharsOf(objects: seq<ObjectData>, v: Value): Option<seq<Value>>
    reads if v.Obj? && v.addr < |objects| && objects[v.addr].cls != null then {objects[v.addr].cls} else {}
  {
    if !(v.Obj? && v.addr < |objects|) || objects[v.addr].cls == null then None
    else
      var s := objects[v.addr];
      match FindMember(s.cls.file.consts, s.cls.file.fields, "value", "[C", 0)
      case Ok(Some(k)) =>
        if k < |s.cls.slotIds| && s.cls.slotIds[k] < |s.fields| && Deref(objects, s.fields[s.cls.slotIds[k]]).Ok?
        then Some(Deref(objects, s.fields[s.cls.slotIds[k]]).value.arrayData)
        else None
      case _ => None
  }

  /**
   * A frame of book/rtda.go: the method it runs, a fixed array of local
   * variables and a bounded operand stack. Long and double values take two
   * slots on the stack and in the locals; the model, like the source, keeps
   * the value in the lower slot.
   */
  class Frame {
    const methodRef: MethodRef
    const locals: array<Value>
    const stack: Stack<Value>

    /** The operand stack is well formed and does not share its buffer with the locals. */
    ghost predicate Valid()
      reads stack
    {
      stack.Valid() && locals != stack.data
    }

    /** The operand stack, bottom first. */
    ghost function Operands(): (r: seq<Value>)
      reads stack, stack.data
      requires Valid()
      ensures |r| <= Capacity()
    {
      stack.Contents()
    }

    /** The operand stack's capacity, the method's max_stack. */
    function Capacity(): nat
    {
      stack.data.Length
    }

    /**
     * NewFrame, once the arguments are known to fit: `maxLocal` locals holding
     * the arguments first and nil after them, and an empty operand stack.
     */
    constructor (m: MethodRef, maxLocal: nat, maxStack: nat, args: seq<Value>)
      requires |args| <= maxLocal
      ensures Valid() && fresh(locals) && fresh(stack) && fresh(stack.data)
      ensures this.methodRef == m && Operands() == [] && Capacity() == maxStack
      ensures locals[..] == args + seq(maxLocal - |args|, _ => Nil)
    {
      this.methodRef := m;
      var local := new Value[maxLocal](_ => Nil);
      var i := 0;
      while i < |args|
        invariant 0 <= i <= |args|
        invariant local[..] == args[..i] + seq(maxLocal - i, _ => Nil)
      {
        local[i] := args[i];
        i := i + 1;
      }
      assert args[..i] == args;
      locals := local;
      stack := new Stack<Value>(maxStack);
    }

    method Push(val: Value) returns (r: Result<()>)
      requires Valid()
      modifies stack, stack.data
      ensures Valid()
      ensures r.Fail? ==> r.fault == StackOverflow
      ensures r.Ok? <==> |old(Operands())| < Capacity()
      ensures Operands() == if r.Ok? then old(Operands()) + [val] else old(Operands())
      ensures r.Ok? ==> OperandStack.Push(old(Operands()), Capacity(), val) == Ok(Operands())
    {
      r := stack.Push(val);
    }

    /** Push2: the same value into two slots, for a long or a double. */
    method Push2(val: Value) returns (r: Result<()>)
      requires Valid()
      modifies stack, stack.data
      ensures Valid()
      ensures r.Fail? ==> r.fault == StackOverflow
      ensures r.Ok? <==> |old(Operands())| + 2 <= Capacity()
      ensures r.Ok? ==> Operands() == old(Operands()) + [val, val]
    {
      var _ :- stack.Push(val);
      r := stack.Push(val);
    }

    method Pop() returns (r: Result<Value>)
      requires Valid()
      modifies stack
      ensures Valid()
      ensures r.Fail? ==> r.fault == IndexOutOfRange
      ensures r.Ok? <==> |old(Operands())| > 0
      ensures r.Ok? ==> old(Operands()) == Operands() + [r.value]
      ensures r.Ok? ==> OperandStack.Pop(old(Operands())) == Ok((Operands(), r.value))
    {
      if stack.index == 0 {
        return Fail(IndexOutOfRange);
      }
      var v := stack.Pop();
      r := Ok(v);
      OperandStack.PushThenPop(Operands(), Capacity(), v);
    }

    /** Pop2: drops the upper slot of a long or double and returns the lower one. */
    method Pop2() returns (r: Result<Value>)
      requires Valid()
      modifies stack
      ensures Valid()
      ensures r.Fail? ==> r.fault == IndexOutOfRange
      ensures r.Ok? <==> |old(Operands())| > 1
      ensures r.Ok? ==> Operands() == old(Operands())[..|old(Operands())| - 2]
      ensures r.Ok? ==> r.value == old(Operands())[|old(Operands())| - 2]
    {
      var _ :- Pop();
      r := Pop();
    }

    method Peek() returns (r: Result<Value>)
      requires Valid()
      ensures r.Ok? <==> Operands() != []
      ensures r.Ok? ==> r.value == Operands()[|Operands()| - 1]
      ensures r.Fail? ==> r.fault == IndexOutOfRange
    {
      if stack.index == 0 {
        return Fail(IndexOutOfRange);
      }
      var v := stack.Peek();
      r := Ok(v);
    }

    /**
     * PeekAt: the value `k` places below the top. The buffer is indexed
     * directly, so only the buffer's bounds are checked.
     */
    method PeekAt(k: int) returns (r: Result<Value>)
      requires Valid()
      ensures r.Ok? <==> 0 <= |Operands()| - k - 1 < Capacity()
      ensures r.Ok? ==> r.value == stack.data[|Operands()| - k - 1]
      ensures r.Ok? && 0 <= k ==> r.value == Operands()[|Operands()| - 1 - k]
      ensures r.Fail? ==> r.fault == IndexOutOfRange
    {
      if !(0 <= stack.index - k - 1 < stack.data.Length) {
        return Fail(IndexOutOfRange);
      }
      var v := stack.PeekAt(k);
      r := Ok(v);
    }

    /** Get: local variable `index`, nil if never written. */
    method Get(index: int) returns (r: Result<Value>)
      ensures r.Ok? <==> 0 <= index < locals.Length
      ensures r.Ok? ==> r.value == locals[index]
      ensures r.Fail? ==> r.fault == IndexOutOfRange
    {
      if !(0 <= index < locals.Length) {
        return Fail(IndexOutOfRange);
      }
      r := Ok(locals[index]);
    }

    /** Set: writes local variable `index` and no other. */
    method Set(val: Value, index: int) returns (r: Result<()>)
      modifies locals
      ensures r.Ok? <==> 0 <= index < locals.Length
      ensures r.Ok? ==> locals[..] == old(locals[..])[index := val]
      ensures r.Fail? ==> r.fault == IndexOutOfRange && locals[..] == old(locals[..])
    {
      if !(0 <= index < locals.Length) {
        return Fail(IndexOutOfRange);
      }
      locals[index] := val;
      r := Ok(());
    }

    /** Clear: pops until the operand stack is empty; the locals are left alone. */
    method Clear()
      requires Valid()
      modifies stack
      ensures Valid() && Operands() == []
    {
      var empty := stack.IsEmpty();
      while !empty
        invariant Valid() && (empty <==> Operands() == [])
        decreases stack.index
      {
        var _ := stack.Pop();
        empty := stack.IsEmpty();
      }
    }
  }

  /** NewFrame: panics when there are more arguments than local variables. */
  method NewFrame(m: MethodRef, maxLocal: nat, maxStack: nat, args: seq<Value>) returns (r: Result<Frame>)
    ensures r.Ok? <==> |args| <= maxLocal
    ensures r.Fail? ==> r.fault == IndexOutOfRange
    ensures r.Ok? ==> var f := r.value;
              f.Valid() && fresh(f) && fresh(f.locals) && fresh(f.stack) && fresh(f.stack.data) &&
              f.methodRef == m && f.Operands() == [] && f.Capacity() == maxStack &&
              f.locals[..] == args + seq(maxLocal - |args|, _ => Nil)
  {
    if |args| > maxLocal {
      return Fail(IndexOutOfRange);
    }
    var f := new Frame(m, maxLocal, maxStack, args);
    r := Ok(f);
  }

  /**
   * A thread: its stack of frames, with the class loader, the heap, the
   * interned strings and the native registry that the Go program keeps in
   * globals. `Repr` holds the frame stack and the parts of every frame on it.
   * Pc is set to 0 and never used. `fpu` is the host's floating-point
   * arithmetic and `identity` the host address of the object at each heap
   * address, which the hashCode native reports.
   */
  class Thread {
    var pc: int
    const frames: Stack<Frame?>
    const loader: Loader
    const heap: Heap
    const natives: Natives.Registry
    const fpu: FloatUnit
    const identity: nat -> int
    var strings: map<string, Value>
    ghost var Repr: set<object>

    /** Whether `f` is a frame whose parts the thread owns. */
    ghost predicate Owns(f: Frame?)
      reads this, Repr
    {
      f != null && f.stack in Repr && f.stack.data in Repr && f.locals in Repr && f.Valid() &&
      f.methodRef.Resolved()
    }

    /** The frame stack holds owned frames, no two of which share an operand stack. */
    ghost predicate FramesValid()
      reads this, Repr
    {
      frames in Repr && frames.data in Repr && frames.Valid() &&
      (forall i | 0 <= i < frames.index :: Owns(frames.data[i])) &&
      forall i, j | 0 <= i < j < frames.index && frames.data[i] != null && frames.data[j] != null ::
        frames.data[i].stack != frames.data[j].stack
    }

    ghost predicate Valid()
      reads this, Repr, loader, loader.classes.Values
    {
      FramesValid() &&
      this !in Repr && loader !in Repr && heap !in Repr && natives !in Repr &&
      (forall c | c in loader.classes.Values :: c !in Repr) &&
      loader.Valid()
    }

    /** The frames, outermost first. */
    ghost function Frames(): seq<Frame?>
      reads this, Repr
      requires FramesValid()
    {
      frames.Contents()
    }

    /** Every frame on the stack is owned. */
    lemma FramesOwned()
      requires FramesValid()
      ensures forall i | 0 <= i < |Frames()| :: Owns(Frames()[i])
    {
      forall i | 0 <= i < |Frames()|
        ensures Owns(Frames()[i])
      {
        assert Frames()[i] == frames.data[i];
      }
    }

    /** The frame on top, the one every instruction works on. */
    ghost function Top(): (f: Frame)
      reads this, Repr
      requires FramesValid() && |Frames()| > 0
      ensures Owns(f) && f == Frames()[|Frames()| - 1]
    {
      frames.data[frames.index - 1]
    }

    /** NewThread: no frames yet, room for `maxStackDepth` of them. */
    constructor (loader: Loader, natives: Natives.Registry, fpu: FloatUnit, identity: nat -> int, maxStackDepth: nat)
      requires loader.Valid()
      ensures Valid() && fresh(Repr) && fresh(heap)
      ensures this.loader == loader && this.natives == natives && this.fpu == fpu && this.identity == identity
      ensures Frames() == [] && frames.data.Length == maxStackDepth
      ensures heap.objects == [] && strings == map[] && pc == 0
    {
      pc := 0;
      frames := new Stack<Frame?>(maxStackDepth);
      this.loader := loader;
      heap := new Heap();
      this.natives := natives;
      this.fpu := fpu;
      this.identity := identity;
      strings := map[];
      new;
      Repr := {frames, frames.data};
    }

    method Push(f: Frame) returns (r: Result<()>)
      requires Valid() && f.Valid() && f.methodRef.Resolved()
      requires f.stack !in Repr && f.stack.data !in Repr && f.locals !in Repr
      modifies this, frames, frames.data
      ensures Valid()
      ensures r.Ok? <==> |old(Frames())| < frames.data.Length
      ensures r.Ok? ==> Frames() == old(Frames()) + [f] && Repr == old(Repr) + {f.stack, f.stack.data, f.locals}
      ensures r.Fail? ==> r.fault == StackOverflow && Frames() == old(Frames()) && Repr == old(Repr)
      ensures strings == old(strings) && pc == old(pc)
    {
      r := frames.Push(f);
      if r.Ok? {
        Repr := Repr + {f.stack, f.stack.data, f.locals};
        forall i | 0 <= i < frames.index - 1
          ensures frames.data[i] == old(frames.data[i]) && Owns(frames.data[i]) && frames.data[i].stack != f.stack
        {
          assert old(Owns(frames.data[i]));
        }
      }
    }

    method Pop() returns (r: Result<Frame>)
      requires Valid()
      modifies frames
      ensures Valid() && Repr == old(Repr)
      ensures r.Ok? <==> old(Frames()) != []
      ensures r.Ok? ==> old(Frames()) == Frames() + [r.value] && Owns(r.value)
      ensures r.Fail? ==> r.fault == IndexOutOfRange
    {
      if frames.index == 0 {
        return Fail(IndexOutOfRange);
      }
      assert Owns(frames.data[frames.index - 1]);
      var f := frames.Pop();
      r := Ok(f);
    }

    method Peek() returns (r: Result<Frame>)
      requires Valid()
      ensures r.Ok? <==> Frames() != []
      ensures r.Ok? ==> r.value == Top() && Owns(r.value)
      ensures r.Fail? ==> r.fault == IndexOutOfRange
    {
      if frames.index == 0 {
        return Fail(IndexOutOfRange);
      }
      var f := frames.Peek();
      assert Owns(frames.data[frames.index - 1]);
      r := Ok(f);
    }

    method IsEmpty() returns (empty: bool)
      requires Valid()
      ensures empty <==> Frames() == []
    {
      empty := frames.IsEmpty();
    }

    /**
     * The classes NewString loads, java/lang/String and [C, and the slot of
     * the string's "value" field; a missing class or field is a nil pointer.
     */
    method StringLayout(fuel: nat) returns (r: Result<(Class, Class?, nat)>)
      requires Valid()
      modifies loader
      ensures Valid()
      ensures old(loader.classes).Keys <= loader.classes.Keys
      ensures forall c | c in loader.classes.Values :: c in old(loader.classes.Values) || fresh(c)
      ensures r.Ok? ==>
                var (cls, _, slot) := r.value;
                cls.Valid() && GetField(cls.file, "value", "[C").Ok? && GetField(cls.file, "value", "[C").value.Some? &&
                var k := GetField(cls.file, "value", "[C").value.value;
                k < |cls.slotIds| && slot == cls.slotIds[k]
    {
      var cls, _ :- loader.LoadClass("java/lang/String", fuel);
      if cls == null {
        return Fail(NilDereference);
      }
      assert cls in loader.classes.Values && cls.Valid();
      var charClass, _ :- loader.LoadClass("[C", fuel);
      var field :- GetField(cls.file, "value", "[C");
      if field.None? {
        return Fail(NilDereference);
      }
      r := Ok((cls, charClass, cls.slotIds[field.value]));
    }

    /**
     * NewString: the interned string object for `text`. The first request
     * makes a java/lang/String object and a char array holding one int per
     * character, stores the array in the string's "value" field and interns
     * the string; later requests return the same value.
     */
    method NewString(text: string, fuel: nat) returns (r: Result<Value>)
      requires Valid()
      modifies this, heap, loader
      ensures Valid() && Repr == old(Repr) && Frames() == old(Frames()) && pc == old(pc)
      ensures old(loader.classes).Keys <= loader.classes.Keys
      ensures forall c | c in loader.classes.Values :: c in old(loader.classes.Values) || fresh(c)
      ensures text in old(strings) ==> r == Ok(old(strings)[text]) && strings == old(strings) && heap.objects == old(heap.objects)
      ensures r.Ok? ==> strings == old(strings)[text := r.value]
      ensures r.Ok? && text !in old(strings) ==>
                var n := |old(heap.objects)|;
                r.value == Obj(n) && |heap.objects| == n + 2 && heap.objects[..n] == old(heap.objects) &&
                heap.objects[n + 1].arrayType == ARRAY_CHAR && heap.objects[n + 1].arrayData == Chars(text) &&
                heap.objects[n].cls != null && CharsOf(heap.objects, r.value) == Some(Chars(text))
    {
      if text in strings {
        return Ok(strings[text]);
      }
      var layout :- StringLayout(fuel);
      var (cls, charClass, slot) := layout;
      var res :- heap.AllocString(cls, slot, charClass, text);
      assert heap.objects[res.addr].fields[slot] == Obj(res.addr + 1);
      strings := strings[text := res];
      r := Ok(res);
    }
  }

  /**
   * The index of the first line-number entry that starts at or after `pc`
   * (GetLine's loop).
   */
  function FirstFrom(table: seq<LineNumber>, pc: u16): (r: Option<nat>)
    ensures r.Some? ==> r.value < |table| && table[r.value].start >= pc &&
                        forall j | 0 <= j < r.value :: table[j].start < pc
    ensures r.None? ==> forall j | 0 <= j < |table| :: table[j].start < pc
  {
    if table == [] then None
    else if table[0].start >= pc then Some(0)
    else match FirstFrom(table[1..], pc)
      case None => None
      case Some(k) => Some(k + 1)
  }

  /** GetLine: the line of the first entry starting at or after `pc`, or 0. */
  function GetLine(table: seq<LineNumber>, pc: u16): (r: u16)
  {
    match FirstFrom(table, pc)
    case None => 0
    case Some(k) => table[k].line
  }

  /**
   * GetLine reports the first entry at or after pc, not the entry whose range
   * holds pc: with entries at 0 and 10, pc 5 reads the line of the entry at 10.
   */
  lemma GetLineLooksAhead()
    ensures GetLine([LineNumber(0, 1), LineNumber(10, 2)], 5) == 2
    ensures GetLine([LineNumber(0, 1), LineNumber(10, 2)], 11) == 0
  {
    assert FirstFrom([LineNumber(10, 2)], 5) == Some(0);
    assert FirstFrom([LineNumber(0, 1), LineNumber(10, 2)], 5) == Some(1);
  }
}
