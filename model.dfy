/**
 * The in-memory form of a parsed class file (book/model.go): the constant
 * pool, members, attributes and exception tables, with the lookups the loader
 * and the interpreter perform on them.
 */
module Model {
  import opened Base

  // Access flags.
  const ACC_PUBLIC: u16 := 0x0001
  const ACC_PRIVATE: u16 := 0x0002
  const ACC_PROTECTED: u16 := 0x0004
  const ACC_STATIC: u16 := 0x0008
  const ACC_FINAL: u16 := 0x0010
  const ACC_SUPER: u16 := 0x0020
  const ACC_SYNCHRONIZED: u16 := 0x0020
  const ACC_VOLATILE: u16 := 0x0040
  const ACC_BRIDGE: u16 := 0x0040
  const ACC_TRANSIENT: u16 := 0x0080
  const ACC_VARARGS: u16 := 0x0080
  const ACC_NATIVE: u16 := 0x0100
  const ACC_INTERFACE: u16 := 0x0200
  const ACC_ABSTRACT: u16 := 0x0400
  const ACC_STRICT: u16 := 0x0800
  const ACC_SYNTHETIC: u16 := 0x1000
  const ACC_ANNOTATION: u16 := 0x2000
  const ACC_ENUM: u16 := 0x4000

  // Constant pool tags.
  const CONST_UTF8: byte := 1
  const CONST_INTEGER: byte := 3
  const CONST_FLOAT: byte := 4
  const CONST_LONG: byte := 5
  const CONST_DOUBLE: byte := 6
  const CONST_CLASS: byte := 7
  const CONST_STRING: byte := 8
  const CONST_FIELD: byte := 9
  const CONST_METHOD: byte := 10
  const CONST_INTERFACE_METHOD: byte := 11
  const CONST_NAME_TYPE: byte := 12
  const CONST_METHOD_HANDLE: byte := 15
  const CONST_METHOD_TYPE: byte := 16
  const CONST_INVOKE_DYNAMIC: byte := 18

  // Attribute names.
  const ATTR_CODE: string := "Code"
  const ATTR_SOURCE_FILE: string := "SourceFile"
  const ATTR_EXCEPTIONS: string := "Exceptions"
  const ATTR_LINE_NUMBER_TABLE: string := "LineNumberTable"
  const ATTR_CONSTANT_VALUE: string := "ConstantValue"

  /**
   * A constant pool entry. As in the Go struct, every entry has every field;
   * the parser fills those its tag uses and leaves the rest zero. Float and
   * double constants are kept as their IEEE 754 bit patterns.
   */
  datatype Const = Const(
    tag: byte,
    index: u16,
    str: string,
    integer: int32,
    floatBits: u32,
    long: int64,
    doubleBits: u64,
    classIndex: u16,
    nameTypeIndex: u16,
    nameIndex: u16,
    descIndex: u16)

  /** The all-zero entry: slot 0 of every pool and the slot after a long or double. */
  const EmptyConst: Const := Const(0, 0, "", 0, 0, 0, 0, 0, 0, 0, 0)

  datatype ExceptionEntry = ExceptionEntry(start: u16, end: u16, handler: u16, catchType: u16)

  datatype LineNumber = LineNumber(start: u16, line: u16)

  datatype Attribute = Attribute(
    name: string,
    data: seq<byte>,
    code: Option<Code>,
    sourceFileIndex: u16,
    exceptionIndexes: seq<u16>,
    lineNumbers: seq<LineNumber>,
    constantValueIndex: u16)

  datatype Code = Code(
    maxStack: u16,
    maxLocal: u16,
    code: seq<byte>,
    exceptions: seq<ExceptionEntry>,
    attributes: seq<Attribute>)

  /** A field or a method as the class file declares it. */
  datatype Member = Member(access: u16, nameIndex: u16, descIndex: u16, attributes: seq<Attribute>)

  datatype ClassFile = ClassFile(
    magic: u32,
    minor: u16,
    major: u16,
    consts: seq<Const>,
    access: u16,
    thisIndex: u16,
    superIndex: u16,
    interfaces: seq<u16>,
    fields: seq<Member>,
    methods: seq<Member>,
    attributes: seq<Attribute>)

  function EmptyAttribute(name: string): Attribute
  {
    Attribute(name, [], None, 0, [], [], 0)
  }

  /** Whether the entry makes GetString follow its index. */
  predicate IsIndirect(c: Const)
  {
    c.tag == CONST_CLASS || c.tag == CONST_STRING
  }

  /**
   * GetString with a bound on the number of indirections followed. The Go
   * recursion has no bound; `Resolve` fails once `steps` is used up.
   */
  function Resolve(consts: seq<Const>, i: int, steps: nat): (r: Result<string>)
    decreases steps
    ensures r.Ok? ==> 0 <= i < |consts|
    ensures r.Fail? ==> r.fault == IndexOutOfRange || r.fault == StackExhausted
  {
    if i < 0 || i >= |consts| then Fail(IndexOutOfRange)
    else if IsIndirect(consts[i]) then
      if steps == 0 then Fail(StackExhausted) else Resolve(consts, consts[i].index, steps - 1)
    else Ok(consts[i].str)
  }

  /**
   * GetString: the text of entry `i`, following Class and String entries to
   * the entry they name. A chain of more than |consts| indirections visits
   * some entry twice, so the Go recursion would never end: the model reports
   * that as StackExhausted. GetStringComplete proves the bound loses nothing.
   */
  function GetString(consts: seq<Const>, i: int): Result<string>
  {
    Resolve(consts, i, |consts|)
  }

  /** The entry the chain of indirections from `i` ends at, after `steps` steps at most. */
  function ChainEnd(consts: seq<Const>, i: int, steps: nat): Option<nat>
    decreases steps
  {
    if i < 0 || i >= |consts| then None
    else if IsIndirect(consts[i]) then
      if steps == 0 then None else ChainEnd(consts, consts[i].index, steps - 1)
    else Some(i)
  }

  /** Resolve yields exactly the text of the entry the chain ends at. */
  lemma {:induction false} ResolveChainEnd(consts: seq<Const>, i: int, steps: nat)
    ensures Resolve(consts, i, steps).Ok? <==> ChainEnd(consts, i, steps).Some?
    ensures ChainEnd(consts, i, steps).Some? ==>
              var e := ChainEnd(consts, i, steps).value;
              e < |consts| && !IsIndirect(consts[e]) && Resolve(consts, i, steps) == Ok(consts[e].str)
    decreases steps
  {
    if 0 <= i < |consts| && IsIndirect(consts[i]) && steps > 0 {
      ResolveChainEnd(consts, consts[i].index, steps - 1);
    }
  }

  /** A Class or String entry that names a plain entry reads as that entry's text. */
  lemma GetStringIndirect(consts: seq<Const>, i: int)
    requires 0 <= i < |consts| && IsIndirect(consts[i])
    requires consts[i].index < |consts| && !IsIndirect(consts[consts[i].index])
    ensures GetString(consts, i) == Ok(consts[consts[i].index].str)
  {
    assert Resolve(consts, consts[i].index, |consts| - 1) == Ok(consts[consts[i].index].str);
  }

  /** More steps never change a resolved result: the bound only cuts off endless chains. */
  lemma {:induction false} ResolveMonotone(consts: seq<Const>, i: int, steps: nat, more: nat)
    requires Resolve(consts, i, steps) != Fail(StackExhausted)
    requires steps <= more
    ensures Resolve(consts, i, more) == Resolve(consts, i, steps)
    decreases steps
  {
    if 0 <= i < |consts| && IsIndirect(consts[i]) {
      ResolveMonotone(consts, consts[i].index, steps - 1, more - 1);
    }
  }

  /*
   * GetString's bound of one step per pool entry loses nothing: a chain that
   * ends at all visits distinct entries on its way, so it ends within
   * |consts| steps.
   */

  /** The entry reached from `i` after `n` indirections, reading every entry as one; -1 once outside the pool. */
  ghost function Walk(consts: seq<Const>, i: int, n: nat): int
    decreases n
  {
    if n == 0 then i
    else if 0 <= i < |consts| then Walk(consts, consts[i].index, n - 1)
    else -1
  }

  /** Whether the chain from `i` passes `m` Class or String entries and then stops at a plain entry. */
  ghost predicate Chain(consts: seq<Const>, i: int, m: nat)
  {
    (forall t | 0 <= t < m :: 0 <= Walk(consts, i, t) < |consts| && IsIndirect(consts[Walk(consts, i, t)])) &&
    0 <= Walk(consts, i, m) < |consts| && !IsIndirect(consts[Walk(consts, i, m)])
  }

  /** The set of entries the first `j` + 1 positions of the walk from `i` visit. */
  ghost function Visited(consts: seq<Const>, i: int, j: nat): set<int>
  {
    set t | 0 <= t <= j :: Walk(consts, i, t)
  }

  /** A resolved entry has a chain no longer than the steps used. */
  lemma {:induction false} ResolveChain(consts: seq<Const>, i: int, k: nat) returns (m: nat)
    requires Resolve(consts, i, k).Ok?
    ensures m <= k && Chain(consts, i, m)
    decreases k
  {
    if IsIndirect(consts[i]) {
      var next := consts[i].index;
      var rest := ResolveChain(consts, next, k - 1);
      m := rest + 1;
      forall t | 0 < t <= m
        ensures Walk(consts, i, t) == Walk(consts, next, t - 1)
      {
      }
    } else {
      m := 0;
    }
  }

  /** A chain of `m` indirections resolves with any `k` >= `m` steps. */
  lemma {:induction false} ChainResolves(consts: seq<Const>, i: int, m: nat, k: nat)
    requires Chain(consts, i, m) && m <= k
    ensures Resolve(consts, i, k).Ok?
    decreases m
  {
    if m > 0 {
      assert Walk(consts, i, 0) == i;
      var next := consts[i].index;
      forall t | 0 <= t <= m - 1
        ensures Walk(consts, next, t) == Walk(consts, i, t + 1)
      {
      }
      ChainResolves(consts, next, m - 1, k - 1);
    }
  }

  /** Walking `x` and then `y` steps is walking `x + y` steps. */
  lemma {:induction false} WalkAdd(consts: seq<Const>, i: int, x: nat, y: nat)
    ensures Walk(consts, i, x + y) == Walk(consts, Walk(consts, i, x), y)
    decreases x
  {
    if x > 0 && 0 <= i < |consts| {
      WalkAdd(consts, consts[i].index, x - 1, y);
    }
  }

  /** A chain never visits an entry twice: a repeat would make it cycle past its plain end. */
  lemma ChainInjective(consts: seq<Const>, i: int, m: nat, a: nat, b: nat)
    requires Chain(consts, i, m) && a < b <= m
    ensures Walk(consts, i, a) != Walk(consts, i, b)
  {
    WalkAdd(consts, i, b, m - b);
    WalkAdd(consts, i, a, m - b);
    assert a + (m - b) < m;
  }

  /** The walk along a chain visits one new entry per position. */
  lemma {:induction false} VisitedCount(consts: seq<Const>, i: int, m: nat, j: nat)
    requires Chain(consts, i, m) && j <= m
    ensures |Visited(consts, i, j)| == j + 1
    decreases j
  {
    if j == 0 {
      assert Visited(consts, i, 0) == {i};
    } else {
      VisitedCount(consts, i, m, j - 1);
      assert Visited(consts, i, j) == Visited(consts, i, j - 1) + {Walk(consts, i, j)};
      forall t | 0 <= t <= j - 1
        ensures Walk(consts, i, t) != Walk(consts, i, j)
      {
        ChainInjective(consts, i, m, t, j);
      }
    }
  }

  /** The pool indices 0 to n - 1, n of them. */
  ghost function Indices(n: nat): (r: set<int>)
    ensures forall x :: x in r <==> 0 <= x < n
    ensures |r| == n
  {
    if n == 0 then {} else Indices(n - 1) + {n - 1}
  }

  /** A chain that ends is shorter than the pool, since it visits distinct entries. */
  lemma ChainShort(consts: seq<Const>, i: int, m: nat)
    requires Chain(consts, i, m)
    ensures m < |consts|
  {
    var visited := Visited(consts, i, m);
    var pool := Indices(|consts|);
    VisitedCount(consts, i, m, m);
    assert visited <= pool;
    assert |pool| == |visited| + |pool - visited|;
  }

  /** GetString resolves every entry that any number of steps resolves, to the same text. */
  lemma GetStringComplete(consts: seq<Const>, i: int, k: nat)
    ensures Resolve(consts, i, k).Ok? ==> GetString(consts, i) == Resolve(consts, i, k)
  {
    if Resolve(consts, i, k).Ok? {
      var m := ResolveChain(consts, i, k);
      ChainShort(consts, i, m);
      ChainResolves(consts, i, m, |consts|);
      if k <= |consts| {
        ResolveMonotone(consts, i, k, |consts|);
      } else {
        ResolveMonotone(consts, i, |consts|, k);
      }
    }
  }

  /** Whether member `m` has the given name and descriptor in `consts`. */
  ghost predicate Named(consts: seq<Const>, m: Member, name: string, desc: string)
  {
    GetString(consts, m.nameIndex) == Ok(name) && GetString(consts, m.descIndex) == Ok(desc)
  }

  ghost predicate Readable(consts: seq<Const>, m: Member)
  {
    GetString(consts, m.nameIndex).Ok? && GetString(consts, m.descIndex).Ok?
  }

  /**
   * The loop of GetMethod and GetField from position `from`: the first member
   * whose name and then descriptor match. The descriptor is only read when
   * the name matched.
   */
  function FindMember(consts: seq<Const>, members: seq<Member>, name: string, desc: string, from: nat): (r: Result<Option<nat>>)
    requires from <= |members|
    decreases |members| - from
    ensures r.Ok? && r.value.Some? ==>
              var k := r.value.value;
              from <= k < |members| && Named(consts, members[k], name, desc) &&
              forall j | from <= j < k :: !Named(consts, members[j], name, desc)
    ensures r.Ok? && r.value.None? ==> forall j | from <= j < |members| :: !Named(consts, members[j], name, desc)
    ensures (forall j | from <= j < |members| :: Readable(consts, members[j])) ==> r.Ok?
  {
    if from == |members| then Ok(None)
    else
      var n :- GetString(consts, members[from].nameIndex);
      if n != name then FindMember(consts, members, name, desc, from + 1)
      else
        var d :- GetString(consts, members[from].descIndex);
        if d == desc then Ok(Some(from)) else FindMember(consts, members, name, desc, from + 1)
  }

  /** GetMethod: the index of the first method of `c` with this name and descriptor. */
  function GetMethod(c: ClassFile, name: string, desc: string): Result<Option<nat>>
  {
    FindMember(c.consts, c.methods, name, desc, 0)
  }

  /** GetField: the index of the first field of `c` with this name and descriptor. */
  function GetField(c: ClassFile, name: string, desc: string): Result<Option<nat>>
  {
    FindMember(c.consts, c.fields, name, desc, 0)
  }

  /** The position of the first attribute with the given name. */
  function FirstNamed(attrs: seq<Attribute>, name: string): (r: Option<nat>)
    ensures r.Some? ==> r.value < |attrs| && attrs[r.value].name == name &&
                        forall j | 0 <= j < r.value :: attrs[j].name != name
    ensures r.None? <==> forall j | 0 <= j < |attrs| :: attrs[j].name != name
  {
    if attrs == [] then None
    else if attrs[0].name == name then Some(0)
    else match FirstNamed(attrs[1..], name)
      case None => None
      case Some(k) => Some(k + 1)
  }

  /** GetCodeAttribute: the code of the first "Code" attribute, if there is one. */
  function GetCodeAttribute(m: Member): (r: Option<Code>)
    ensures (forall j | 0 <= j < |m.attributes| :: m.attributes[j].name != ATTR_CODE) ==> r.None?
    ensures r.Some? ==> exists k | 0 <= k < |m.attributes| ::
              m.attributes[k].name == ATTR_CODE && m.attributes[k].code == r &&
              forall j | 0 <= j < k :: m.attributes[j].name != ATTR_CODE
  {
    match FirstNamed(m.attributes, ATTR_CODE)
    case None => None
    case Some(k) => m.attributes[k].code
  }

  /** GetConstantValueAttribute: the pool index of the first "ConstantValue" attribute, or 0. */
  function GetConstantValueAttribute(m: Member): (r: u16)
    ensures (forall j | 0 <= j < |m.attributes| :: m.attributes[j].name != ATTR_CONSTANT_VALUE) ==> r == 0
    ensures r != 0 ==> exists k | 0 <= k < |m.attributes| ::
              m.attributes[k].name == ATTR_CONSTANT_VALUE && m.attributes[k].constantValueIndex == r &&
              forall j | 0 <= j < k :: m.attributes[j].name != ATTR_CONSTANT_VALUE
  {
    match FirstNamed(m.attributes, ATTR_CONSTANT_VALUE)
    case None => 0
    case Some(k) => m.attributes[k].constantValueIndex
  }

  /** IsTwoSlot: whether the member's descriptor is "J" (long) or "D" (double). */
  function IsTwoSlot(consts: seq<Const>, m: Member): (r: Result<bool>)
    ensures r.Ok? <==> GetString(consts, m.descIndex).Ok?
    ensures r.Ok? ==> (r.value <==> GetString(consts, m.descIndex).value in {"J", "D"})
  {
    var desc :- GetString(consts, m.descIndex);
    Ok(desc == "J" || desc == "D")
  }

  /** Whether the bit `mask` is set in an access word (Go's `access&mask > 0`). */
  predicate HasFlag(access: u16, mask: u16)
  {
    (access as bv16) & (mask as bv16) != 0
  }

  predicate IsStatic(access: u16) { HasFlag(access, ACC_STATIC) }
  predicate IsFinal(access: u16) { HasFlag(access, ACC_FINAL) }
  predicate IsInterface(access: u16) { HasFlag(access, ACC_INTERFACE) }
  predicate IsAbstract(access: u16) { HasFlag(access, ACC_ABSTRACT) }
  predicate IsNative(access: u16) { HasFlag(access, ACC_NATIVE) }

  /** Each access predicate tests one bit of the access word, read as a number. */
  lemma AccessBits(access: u16)
    ensures IsStatic(access) <==> (access as int / ACC_STATIC as int) % 2 == 1
    ensures IsFinal(access) <==> (access as int / ACC_FINAL as int) % 2 == 1
    ensures IsInterface(access) <==> (access as int / ACC_INTERFACE as int) % 2 == 1
    ensures IsAbstract(access) <==> (access as int / ACC_ABSTRACT as int) % 2 == 1
    ensures IsNative(access) <==> (access as int / ACC_NATIVE as int) % 2 == 1
  {
  }

  /** Whether an exception-table entry covers `pc`: both ends are inclusive. */
  predicate Covers(e: ExceptionEntry, pc: int)
  {
    !(e.start > pc || e.end < pc)
  }

  /** Whether `e` covers `pc` and its catch type reads as `thrown` in `catcher`'s pool. */
  ghost predicate Catches(catcher: seq<Const>, e: ExceptionEntry, pc: int, thrown: string)
  {
    Covers(e, pc) && GetString(catcher, e.catchType) == Ok(thrown)
  }

  /**
   * FindException from position `from`: the first entry covering `pc` whose
   * catch type names the thrown object's class exactly. The catch type is read
   * in the pool of `catcher`, the class of the code executing athrow. The
   * thrown object's class name is read before each comparison.
   */
  function FindException(entries: seq<ExceptionEntry>, catcher: seq<Const>, pc: int, thrown: ClassFile, from: nat): (r: Result<Option<nat>>)
    requires from <= |entries|
    decreases |entries| - from
    ensures r.Ok? && r.value.Some? ==>
              var k := r.value.value;
              from <= k < |entries| && GetString(thrown.consts, thrown.thisIndex).Ok? &&
              Catches(catcher, entries[k], pc, GetString(thrown.consts, thrown.thisIndex).value) &&
              forall j | from <= j < k :: !Catches(catcher, entries[j], pc, GetString(thrown.consts, thrown.thisIndex).value)
    ensures r.Ok? && r.value.None? ==>
              forall j | from <= j < |entries| :: Covers(entries[j], pc) ==>
                GetString(thrown.consts, thrown.thisIndex).Ok? &&
                !Catches(catcher, entries[j], pc, GetString(thrown.consts, thrown.thisIndex).value)
  {
    if from == |entries| then Ok(None)
    else if !Covers(entries[from], pc) then FindException(entries, catcher, pc, thrown, from + 1)
    else
      var name :- GetString(thrown.consts, thrown.thisIndex);
      var caught :- GetString(catcher, entries[from].catchType);
      if name == caught then Ok(Some(from)) else FindException(entries, catcher, pc, thrown, from + 1)
  }

  /**
   * A catch type of 0, which the class file format uses for "any exception",
   * reads as the empty text of slot 0, so it never catches a class whose name
   * is not empty.
   */
  lemma CatchAllNeverCatches(catcher: seq<Const>, e: ExceptionEntry, pc: int, thrown: string)
    requires |catcher| > 0 && catcher[0] == EmptyConst
    requires e.catchType == 0 && thrown != ""
    ensures !Catches(catcher, e, pc, thrown)
  {
  }
}
