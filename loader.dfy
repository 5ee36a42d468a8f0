/**
 * The class loader of book/loader.go: it finds a class file by name, parses
 * it, loads its superclass and interfaces first, caches it under its own
 * name, and links it by laying out instance and static slots and storing the
 * constant values of static final fields.
 */
module ClassLoader {
  import opened Base
  import opened Model
  import opened Values
  import Parser

  /**
   * A class as the loader holds it: the parsed class file, which never
   * changes, and what linking computes. `slotIds[k]` is the slot of field `k`
   * of the file (Go keeps it in the field record itself).
   */
  class Class {
    const file: ClassFile
    var instSlotCount: nat
    var staticSlotCount: nat
    var staticValues: seq<Value>
    var slotIds: seq<nat>

    ghost predicate Valid()
      reads this
    {
      |slotIds| == |file.fields|
    }

    /** A class straight from the parser: nothing laid out yet. */
    constructor (file: ClassFile)
      ensures this.file == file && Valid()
      ensures instSlotCount == 0 && staticSlotCount == 0 && staticValues == []
      ensures slotIds == seq(|file.fields|, _ => 0)
    {
      this.file := file;
      instSlotCount := 0;
      staticSlotCount := 0;
      staticValues := [];
      slotIds := seq(|file.fields|, _ => 0);
    }
  }

  /** The name a class file gives itself. */
  function ThisName(file: ClassFile): Result<string>
  {
    GetString(file.consts, file.thisIndex)
  }

  predicate IsArrayName(name: string)
  {
    |name| > 0 && name[0] == '['
  }

  const OBJECT: string := "java/lang/Object"

  /**
   * The class LoadClass makes up for an array type: its pool names the array
   * type itself, java/lang/Object as superclass and java/lang/Cloneable and
   * java/io/Serializable as interfaces, and it has no members.
   */
  function ArrayClassFile(name: string): ClassFile
  {
    var consts := [
      EmptyConst,
      EmptyConst.(tag := CONST_CLASS, index := 2), EmptyConst.(tag := CONST_UTF8, str := name),
      EmptyConst.(tag := CONST_CLASS, index := 4), EmptyConst.(tag := CONST_UTF8, str := OBJECT),
      EmptyConst.(tag := CONST_CLASS, index := 6), EmptyConst.(tag := CONST_UTF8, str := "java/lang/Cloneable"),
      EmptyConst.(tag := CONST_CLASS, index := 8), EmptyConst.(tag := CONST_UTF8, str := "java/io/Serializable")];
    ClassFile(0, 0, 0, consts, ACC_PUBLIC, 1, 3, [5, 7], [], [], [])
  }

  /** The synthetic array class names itself, Object, Cloneable and Serializable. */
  lemma ArrayClassNames(name: string)
    ensures ThisName(ArrayClassFile(name)) == Ok(name)
    ensures GetString(ArrayClassFile(name).consts, ArrayClassFile(name).superIndex) == Ok(OBJECT)
    ensures GetString(ArrayClassFile(name).consts, ArrayClassFile(name).interfaces[0]) == Ok("java/lang/Cloneable")
    ensures GetString(ArrayClassFile(name).consts, ArrayClassFile(name).interfaces[1]) == Ok("java/io/Serializable")
  {
    var consts := ArrayClassFile(name).consts;
    assert Resolve(consts, 2, 8) == Ok(name);
    assert Resolve(consts, 4, 8) == Ok(OBJECT);
    assert Resolve(consts, 6, 8) == Ok("java/lang/Cloneable");
    assert Resolve(consts, 8, 8) == Ok("java/io/Serializable");
  }

  /**
   * LoadData over the search paths, each given as the class files it holds by
   * file name: the bytes from the first path that has the file.
   */
  function FindData(paths: seq<map<string, seq<byte>>>, file: string): (r: Result<seq<byte>>)
    ensures r.Fail? <==> forall i | 0 <= i < |paths| :: file !in paths[i]
    ensures r.Fail? ==> r.fault == ClassNotFound(file)
    ensures r.Ok? ==> exists i | 0 <= i < |paths| ::
              file in paths[i] && r.value == paths[i][file] &&
              forall j | 0 <= j < i :: file !in paths[j]
  {
    if paths == [] then Fail(ClassNotFound(file))
    else if file in paths[0] then Ok(paths[0][file])
    else
      var r := FindData(paths[1..], file);
      assert r.Ok? ==> exists i | 0 <= i < |paths[1..]| ::
               (file in paths[1..][i] && r.value == paths[1..][i][file] && forall j | 0 <= j < i :: file !in paths[1..][j]);
      assert r.Ok? ==> exists i | 1 <= i < |paths| ::
               (file in paths[i] && r.value == paths[i][file] && forall j | 1 <= j < i :: file !in paths[j]);
      r
  }

  // ---------------------------------------------------------------------
  // Slot layout.
  // ---------------------------------------------------------------------

  /** Whether field `m` belongs to the pass that lays out static (or instance) slots. */
  predicate InPass(m: Member, statics: bool)
  {
    IsStatic(m.access) == statics
  }

  /** The slots a field takes: two for J and D, one otherwise. */
  function Width(consts: seq<Const>, m: Member): nat
  {
    if IsTwoSlot(consts, m) == Ok(true) then 2 else 1
  }

  /**
   * The slot loop of calcuStaticSlotID and calcuInstSlotID from field `i`:
   * every field of the pass gets the next free slot, and the next free slot
   * moves on by its width. The result is the new slot table and the next free
   * slot after the last field.
   */
  function Layout(consts: seq<Const>, fields: seq<Member>, statics: bool, ids: seq<nat>, next: nat, i: nat): (r: Result<(seq<nat>, nat)>)
    requires |ids| == |fields| && i <= |fields|
    decreases |fields| - i
    ensures r.Ok? ==> |r.value.0| == |fields| && r.value.1 >= next
  {
    if i == |fields| then Ok((ids, next))
    else if !InPass(fields[i], statics) then Layout(consts, fields, statics, ids, next, i + 1)
    else
      var two :- IsTwoSlot(consts, fields[i]);
      Layout(consts, fields, statics, ids[i := next], next + (if two then 2 else 1), i + 1)
  }

  /** The slots the fields of a pass take together, from field `i` on. */
  function PassSize(consts: seq<Const>, fields: seq<Member>, statics: bool, i: nat): nat
    requires i <= |fields|
    decreases |fields| - i
  {
    if i == |fields| then 0
    else (if InPass(fields[i], statics) then Width(consts, fields[i]) else 0) + PassSize(consts, fields, statics, i + 1)
  }

  /**
   * What a layout keeps: the table's length, the slots of the fields before
   * `i` and of the fields outside the pass; the count is `next` plus the
   * total width of the pass.
   */
  lemma {:induction false} LayoutKeeps(consts: seq<Const>, fields: seq<Member>, statics: bool, ids: seq<nat>, next: nat, i: nat)
    requires |ids| == |fields| && i <= |fields|
    requires Layout(consts, fields, statics, ids, next, i).Ok?
    decreases |fields| - i
    ensures var (out, count) := Layout(consts, fields, statics, ids, next, i).value;
      |out| == |fields| &&
      count == next + PassSize(consts, fields, statics, i) &&
      (forall k | 0 <= k < i :: out[k] == ids[k]) &&
      (forall k | i <= k < |fields| && !InPass(fields[k], statics) :: out[k] == ids[k])
  {
    if i < |fields| {
      if !InPass(fields[i], statics) {
        LayoutKeeps(consts, fields, statics, ids, next, i + 1);
      } else {
        var two := IsTwoSlot(consts, fields[i]).value;
        assert (if two then 2 else 1) == Width(consts, fields[i]);
        LayoutKeeps(consts, fields, statics, ids[i := next], next + (if two then 2 else 1), i + 1);
      }
    }
  }

  /**
   * What a layout assigns: the slots of the pass lie between `next` and the
   * count and do not overlap.
   */
  lemma {:induction false} LayoutSlots(consts: seq<Const>, fields: seq<Member>, statics: bool, ids: seq<nat>, next: nat, i: nat)
    requires |ids| == |fields| && i <= |fields|
    requires Layout(consts, fields, statics, ids, next, i).Ok?
    decreases |fields| - i, 1
    ensures var (out, count) := Layout(consts, fields, statics, ids, next, i).value;
      (forall k | i <= k < |fields| && InPass(fields[k], statics) ::
         IsTwoSlot(consts, fields[k]).Ok? && next <= out[k] && out[k] + Width(consts, fields[k]) <= count) &&
      (forall k, l | i <= k < l < |fields| && InPass(fields[k], statics) && InPass(fields[l], statics) ::
         out[k] + Width(consts, fields[k]) <= out[l])
  {
    if i < |fields| {
      if !InPass(fields[i], statics) {
        assert Layout(consts, fields, statics, ids, next, i) == Layout(consts, fields, statics, ids, next, i + 1);
        LayoutSlots(consts, fields, statics, ids, next, i + 1);
      } else {
        LayoutPlace(consts, fields, statics, ids, next, i);
      }
    }
  }

  /** The step of `LayoutSlots` at a field of the pass, which takes slot `next`. */
  lemma {:induction false} LayoutPlace(consts: seq<Const>, fields: seq<Member>, statics: bool, ids: seq<nat>, next: nat, i: nat)
    requires |ids| == |fields| && i < |fields| && InPass(fields[i], statics)
    requires Layout(consts, fields, statics, ids, next, i).Ok?
    decreases |fields| - i, 0
    ensures var (out, count) := Layout(consts, fields, statics, ids, next, i).value;
      (forall k | i <= k < |fields| && InPass(fields[k], statics) ::
         IsTwoSlot(consts, fields[k]).Ok? && next <= out[k] && out[k] + Width(consts, fields[k]) <= count) &&
      (forall k, l | i <= k < l < |fields| && InPass(fields[k], statics) && InPass(fields[l], statics) ::
         out[k] + Width(consts, fields[k]) <= out[l])
  {
    var two := IsTwoSlot(consts, fields[i]).value;
    var w := if two then 2 else 1;
    assert w == Width(consts, fields[i]);
    var placed := ids[i := next];
    assert Layout(consts, fields, statics, ids, next, i) == Layout(consts, fields, statics, placed, next + w, i + 1);
    LayoutSlots(consts, fields, statics, placed, next + w, i + 1);
    LayoutKeeps(consts, fields, statics, placed, next + w, i + 1);
    var (out, count) := Layout(consts, fields, statics, placed, next + w, i + 1).value;
    assert out[i] == next;
    forall k | i <= k < |fields| && InPass(fields[k], statics)
      ensures IsTwoSlot(consts, fields[k]).Ok? && next <= out[k] && out[k] + Width(consts, fields[k]) <= count
    {
    }
    forall k, l | i <= k < l < |fields| && InPass(fields[k], statics) && InPass(fields[l], statics)
      ensures out[k] + Width(consts, fields[k]) <= out[l]
    {
    }
  }

  /** Both halves of what a layout does. */
  lemma LayoutShape(consts: seq<Const>, fields: seq<Member>, statics: bool, ids: seq<nat>, next: nat, i: nat)
    requires |ids| == |fields| && i <= |fields|
    requires Layout(consts, fields, statics, ids, next, i).Ok?
    ensures var (out, count) := Layout(consts, fields, statics, ids, next, i).value;
      |out| == |fields| &&
      count == next + PassSize(consts, fields, statics, i) &&
      (forall k | 0 <= k < i :: out[k] == ids[k]) &&
      (forall k | i <= k < |fields| && !InPass(fields[k], statics) :: out[k] == ids[k]) &&
      (forall k | i <= k < |fields| && InPass(fields[k], statics) ::
         IsTwoSlot(consts, fields[k]).Ok? && next <= out[k] && out[k] + Width(consts, fields[k]) <= count) &&
      (forall k, l | i <= k < l < |fields| && InPass(fields[k], statics) && InPass(fields[l], statics) ::
         out[k] + Width(consts, fields[k]) <= out[l])
  {
    LayoutKeeps(consts, fields, statics, ids, next, i);
    LayoutSlots(consts, fields, statics, ids, next, i);
  }

  /**
   * The constant a static final field starts with, by its descriptor: an int
   * for Z, B, C, S and I, a long, float or double for J, F and D, nothing for a
   * String (Go leaves that slot nil), and a panic for any other descriptor.
   */
  function StaticConstant(desc: string, cv: Const): (r: Result<Option<Value>>)
    ensures r.Fail? <==> desc !in {"Z", "B", "C", "S", "I", "J", "F", "D", "Ljava/lang/String;"}
    ensures r.Fail? ==> r.fault == UnsupportedDescriptor(desc)
    ensures r.Ok? ==> (r.value.None? <==> desc == "Ljava/lang/String;")
    ensures r.Ok? && r.value.Some? ==> (r.value.value.Long? || r.value.value.Double? <==> desc in {"J", "D"})
  {
    if desc in {"Z", "B", "C", "S", "I"} then Ok(Some(Int(cv.integer)))
    else if desc == "J" then Ok(Some(Long(cv.long)))
    else if desc == "F" then Ok(Some(Float(cv.floatBits)))
    else if desc == "D" then Ok(Some(Double(cv.doubleBits)))
    else if desc == "Ljava/lang/String;" then Ok(None)
    else Fail(UnsupportedDescriptor(desc))
  }

  /** Whether field `m` is static and final. */
  predicate StaticFinal(m: Member)
  {
    IsStatic(m.access) && IsFinal(m.access)
  }

  /**
   * The loop of initStaticFinalField from field `i`: each static final field
   * with a ConstantValue attribute stores its constant in its slot.
   */
  function StaticInit(consts: seq<Const>, fields: seq<Member>, ids: seq<nat>, values: seq<Value>, i: nat): Result<seq<Value>>
    requires |ids| == |fields| && i <= |fields|
    decreases |fields| - i
  {
    if i == |fields| then Ok(values)
    else if !StaticFinal(fields[i]) || GetConstantValueAttribute(fields[i]) == 0 then
      StaticInit(consts, fields, ids, values, i + 1)
    else
      var cvi := GetConstantValueAttribute(fields[i]);
      if cvi >= |consts| then Fail(IndexOutOfRange)
      else
        var desc :- GetString(consts, fields[i].descIndex);
        var v :- StaticConstant(desc, consts[cvi]);
        if v.None? then StaticInit(consts, fields, ids, values, i + 1)
        else if ids[i] >= |values| then Fail(IndexOutOfRange)
        else StaticInit(consts, fields, ids, values[ids[i] := v.value], i + 1)
  }

  /** The constant field `m` stores, when it is a static final field with one. */
  ghost function InitialValue(consts: seq<Const>, m: Member): Option<Value>
  {
    var cvi := GetConstantValueAttribute(m);
    if !StaticFinal(m) || cvi == 0 || cvi >= |consts| then None
    else match GetString(consts, m.descIndex)
      case Fail(_) => None
      case Ok(desc) =>
        match StaticConstant(desc, consts[cvi])
        case Fail(_) => None
        case Ok(v) => v
  }

  /**
   * What the static initialisation writes: the table keeps its length, and
   * a field with a constant has it in its slot unless a later static field
   * shares the slot.
   */
  lemma {:induction false} StaticInitShape(consts: seq<Const>, fields: seq<Member>, ids: seq<nat>, values: seq<Value>, i: nat)
    requires |ids| == |fields| && i <= |fields|
    requires StaticInit(consts, fields, ids, values, i).Ok?
    decreases |fields| - i, 1
    ensures var out := StaticInit(consts, fields, ids, values, i).value;
      |out| == |values| &&
      (forall k | i <= k < |fields| && InitialValue(consts, fields[k]).Some? &&
                  (forall l | k < l < |fields| && IsStatic(fields[l].access) :: ids[l] != ids[k]) ::
         ids[k] < |out| && out[ids[k]] == InitialValue(consts, fields[k]).value)
  {
    if i < |fields| {
      var f := fields[i];
      if InitialValue(consts, f).Some? {
        StaticInitStore(consts, fields, ids, values, i);
      } else {
        StaticInitSkip(consts, fields, ids, values, i);
        StaticInitShape(consts, fields, ids, values, i + 1);
      }
    }
  }

  /** A field without a constant leaves the initialisation to the fields after it. */
  lemma StaticInitSkip(consts: seq<Const>, fields: seq<Member>, ids: seq<nat>, values: seq<Value>, i: nat)
    requires |ids| == |fields| && i < |fields|
    requires InitialValue(consts, fields[i]).None?
    requires StaticInit(consts, fields, ids, values, i).Ok?
    ensures StaticInit(consts, fields, ids, values, i) == StaticInit(consts, fields, ids, values, i + 1)
  {
  }

  /** The step of `StaticInitShape` at a field that stores its constant. */
  lemma {:induction false} StaticInitStore(consts: seq<Const>, fields: seq<Member>, ids: seq<nat>, values: seq<Value>, i: nat)
    requires |ids| == |fields| && i < |fields|
    requires InitialValue(consts, fields[i]).Some?
    requires StaticInit(consts, fields, ids, values, i).Ok?
    decreases |fields| - i, 0
    ensures var out := StaticInit(consts, fields, ids, values, i).value;
      |out| == |values| &&
      (forall k | i <= k < |fields| && InitialValue(consts, fields[k]).Some? &&
                  (forall l | k < l < |fields| && IsStatic(fields[l].access) :: ids[l] != ids[k]) ::
         ids[k] < |out| && out[ids[k]] == InitialValue(consts, fields[k]).value)
  {
    var f := fields[i];
    var v := InitialValue(consts, f).value;
    assert ids[i] < |values|;
    var stored := values[ids[i] := v];
    assert StaticInit(consts, fields, ids, values, i) == StaticInit(consts, fields, ids, stored, i + 1);
    StaticInitShape(consts, fields, ids, stored, i + 1);
    StaticInitKeeps(consts, fields, ids, stored, i);
    var out := StaticInit(consts, fields, ids, stored, i + 1).value;
    forall k | i <= k < |fields| && InitialValue(consts, fields[k]).Some? &&
               (forall l | k < l < |fields| && IsStatic(fields[l].access) :: ids[l] != ids[k])
      ensures ids[k] < |out| && out[ids[k]] == InitialValue(consts, fields[k]).value
    {
      if k == i {
        assert IsStatic(f.access);
      }
    }
  }

  /**
   * The constant field `i` just stored survives the rest of the
   * initialisation when no later static field shares its slot.
   */
  lemma StaticInitKeeps(consts: seq<Const>, fields: seq<Member>, ids: seq<nat>, values: seq<Value>, i: nat)
    requires |ids| == |fields| && i < |fields|
    requires StaticInit(consts, fields, ids, values, i + 1).Ok?
    ensures var out := StaticInit(consts, fields, ids, values, i + 1).value;
      |out| == |values| &&
      ((forall l | i < l < |fields| && IsStatic(fields[l].access) :: ids[l] != ids[i]) && ids[i] < |values| ==>
         out[ids[i]] == values[ids[i]])
  {
    WritesOnlyConstants(consts, fields, ids, values, i + 1);
  }

  /**
   * Linking as a whole, on the static side: after the static layout from
   * slot 0 and the initialisation of a table of that many nil slots, every
   * static final field with a constant finds it in its own slot, and every
   * slot that no static final field fills is still nil.
   */
  lemma StaticFinalValues(consts: seq<Const>, fields: seq<Member>, ids0: seq<nat>, ids: seq<nat>, count: nat, values: seq<Value>)
    requires |ids0| == |fields| && |ids| == |fields|
    requires Layout(consts, fields, true, ids0, 0, 0) == Ok((ids, count))
    requires StaticInit(consts, fields, ids, seq(count, _ => Nil), 0) == Ok(values)
    ensures |values| == count
    ensures forall k | 0 <= k < |fields| && InitialValue(consts, fields[k]).Some? ::
              ids[k] < count && values[ids[k]] == InitialValue(consts, fields[k]).value
    ensures forall s | 0 <= s < count && (forall k | 0 <= k < |fields| && InitialValue(consts, fields[k]).Some? :: ids[k] != s) ::
              values[s] == Nil
  {
    LayoutShape(consts, fields, true, ids0, 0, 0);
    StaticInitShape(consts, fields, ids, seq(count, _ => Nil), 0);
    forall k | 0 <= k < |fields| && InitialValue(consts, fields[k]).Some?
      ensures ids[k] < count && values[ids[k]] == InitialValue(consts, fields[k]).value
    {
      assert InPass(fields[k], true);
      forall l | k < l < |fields| && IsStatic(fields[l].access)
        ensures ids[l] != ids[k]
      {
        assert ids[k] + Width(consts, fields[k]) <= ids[l];
      }
    }
    StaticSlotsCovered(consts, fields, ids, values, count);
  }

  /** A slot that no field with a constant names is one the initialisation leaves nil. */
  lemma StaticSlotsCovered(consts: seq<Const>, fields: seq<Member>, ids: seq<nat>, values: seq<Value>, count: nat)
    requires |ids| == |fields|
    requires StaticInit(consts, fields, ids, seq(count, _ => Nil), 0) == Ok(values)
    ensures |values| == count
    ensures forall s | 0 <= s < count && (forall k | 0 <= k < |fields| && InitialValue(consts, fields[k]).Some? :: ids[k] != s) ::
              values[s] == Nil
  {
    WritesOnlyConstants(consts, fields, ids, seq(count, _ => Nil), 0);
  }

  /** Every slot the initialisation changes is the slot of a field with a constant. */
  lemma {:induction false} WritesOnlyConstants(consts: seq<Const>, fields: seq<Member>, ids: seq<nat>, values: seq<Value>, i: nat)
    requires |ids| == |fields| && i <= |fields|
    requires StaticInit(consts, fields, ids, values, i).Ok?
    decreases |fields| - i
    ensures var out := StaticInit(consts, fields, ids, values, i).value;
      |out| == |values| &&
      forall s | 0 <= s < |values| && (forall k | i <= k < |fields| && InitialValue(consts, fields[k]).Some? :: ids[k] != s) ::
        out[s] == values[s]
  {
    if i < |fields| {
      var f := fields[i];
      if !StaticFinal(f) || GetConstantValueAttribute(f) == 0 {
        WritesOnlyConstants(consts, fields, ids, values, i + 1);
      } else {
        var cvi := GetConstantValueAttribute(f);
        var desc := GetString(consts, f.descIndex).value;
        var v := StaticConstant(desc, consts[cvi]).value;
        if v.None? {
          WritesOnlyConstants(consts, fields, ids, values, i + 1);
        } else {
          assert InitialValue(consts, f) == v;
          WritesOnlyConstants(consts, fields, ids, values[ids[i] := v.value], i + 1);
        }
      }
    }
  }

  // ---------------------------------------------------------------------
  // The loader.
  // ---------------------------------------------------------------------

  /**
   * Linking's two layouts of a fresh class: the instance pass numbers from
   * `base` over the all-zero slot table, giving `mid`, and the static pass
   * numbers from 0 over `mid`, giving `ids`.
   */
  ghost predicate LaidOut(file: ClassFile, base: nat, mid: seq<nat>, ids: seq<nat>, instCount: nat, staticCount: nat)
  {
    |mid| == |file.fields| &&
    Layout(file.consts, file.fields, false, seq(|file.fields|, _ => 0), base, 0) == Ok((mid, instCount)) &&
    Layout(file.consts, file.fields, true, mid, 0, 0) == Ok((ids, staticCount))
  }

  /** The cache of loaded classes, by name, over a fixed list of search paths. */
  class Loader {
    const paths: seq<map<string, seq<byte>>>
    var classes: map<string, Class>

    ghost predicate Valid()
      reads this, classes.Values
    {
      forall c | c in classes.Values :: c.Valid()
    }

    /** A loader with an empty cache. */
    constructor (paths: seq<map<string, seq<byte>>>)
      ensures Valid() && this.paths == paths && classes == map[]
    {
      this.paths := paths;
      classes := map[];
    }

    /** Whether the class file found under `name` parses and calls itself `name`. */
    ghost predicate Declares(name: string)
    {
      var data := FindData(paths, name + ".class");
      data.Ok? ==>
        var file := Parser.ClassAt(data.value, 0);
        file.Ok? ==> ThisName(file.value.0) == Ok(name)
    }

    /**
     * Whether loading `name` has left it in the cache, as it does whenever the
     * name is an array type or the class file under it declares that name.
     */
    ghost predicate Settled(name: string)
      reads this
    {
      name in classes || !(IsArrayName(name) || Declares(name))
    }

    /**
     * Whether `c` is the class parsed from the class file found under `name`,
     * defined under the name it declares and linked: both layouts done and
     * its static constants in place.
     */
    ghost predicate LoadedFrom(name: string, c: Class)
      reads this, c
    {
      var data := FindData(paths, name + ".class");
      data.Ok? && var file := Parser.ClassAt(data.value, 0);
      file.Ok? && c.file == file.value.0 &&
      ThisName(c.file).Ok? && ThisName(c.file).value in classes &&
      (exists base, mid :: LaidOut(c.file, base, mid, c.slotIds, c.instSlotCount, c.staticSlotCount)) &&
      StaticInit(c.file.consts, c.file.fields, c.slotIds, seq(c.staticSlotCount, _ => Nil), 0) == Ok(c.staticValues)
    }

    /**
     * LoadClass: the cached class of this name, loading it first if need be.
     * The result is whatever the cache holds under the name afterwards, which
     * is null when the class file found under the name declares another
     * name. `fuel` bounds the nesting of loads through superclasses and
     * interfaces, which never ends in Go on a cyclic hierarchy.
     */
    method LoadClass(name: string, fuel: nat) returns (r: Result<Class?>, ghost loaded: Class?)
      requires Valid()
      modifies this
      ensures Valid()
      ensures old(classes).Keys <= classes.Keys
      ensures forall c | c in classes.Values :: c in old(classes.Values) || fresh(c)
      ensures name in old(classes) ==> r == Ok(old(classes)[name]) && classes == old(classes)
      ensures r.Ok? ==> r.value == (if name in classes then classes[name] else null)
      ensures r.Ok? && (IsArrayName(name) || Declares(name)) ==> name in classes
      ensures name !in old(classes) && IsArrayName(name) ==>
                r.Ok? && r.value != null && fresh(r.value) && classes == old(classes)[name := r.value] &&
                r.value.file == ArrayClassFile(name) && r.value.instSlotCount == 0 && r.value.staticValues == []
      ensures name !in old(classes) && name == "" ==> r == Fail(IndexOutOfRange)
      ensures name !in old(classes) && name != "" && !IsArrayName(name) && FindData(paths, name + ".class").Fail? ==>
                r == Fail(ClassNotFound(name + ".class"))
      ensures name !in old(classes) && !IsArrayName(name) && r.Ok? ==>
                loaded != null && fresh(loaded) && LoadedFrom(name, loaded)
      decreases fuel, 2
    {
      loaded := null;
      if name in classes {
        return Ok(classes[name]), loaded;
      }
      if |name| == 0 {
        return Fail(IndexOutOfRange), loaded;
      }
      if name[0] == '[' {
        var c := new Class(ArrayClassFile(name));
        classes := classes[name := c];
        return Ok(c), loaded;
      }
      var data :- FindData(paths, name + ".class");
      var parser := new Parser.Parser(data);
      var file :- parser.ParseClass();
      var c := new Class(file);
      loaded := c;
      var defined :- DefineClass(c, fuel);
      var linked, base, mid := LinkClass(c, fuel);
      if linked.Fail? {
        return Fail(linked.fault), loaded;
      }
      assert LaidOut(c.file, base, mid, c.slotIds, c.instSlotCount, c.staticSlotCount);
      r := Ok(if name in classes then classes[name] else null);
    }

    /**
     * DefineClass: loads the superclass (unless the class is
     * java/lang/Object) and then each interface, and only then caches the
     * class under its own name, replacing any class cached there.
     */
    method DefineClass(c: Class, fuel: nat) returns (r: Result<()>)
      requires Valid() && c.Valid()
      modifies this
      ensures Valid()
      ensures old(classes).Keys <= classes.Keys
      ensures forall x | x in classes.Values :: x in old(classes.Values) || fresh(x) || x == c
      ensures r.Ok? ==> ThisName(c.file).Ok? && ThisName(c.file).value in classes && classes[ThisName(c.file).value] == c
      ensures r.Ok? && ThisName(c.file).value != OBJECT ==>
                GetString(c.file.consts, c.file.superIndex).Ok? && Settled(GetString(c.file.consts, c.file.superIndex).value)
      ensures r.Ok? ==> forall k | 0 <= k < |c.file.interfaces| ::
                GetString(c.file.consts, c.file.interfaces[k]).Ok? && Settled(GetString(c.file.consts, c.file.interfaces[k]).value)
      decreases fuel, 1
    {
      var className :- GetString(c.file.consts, c.file.thisIndex);
      if className != OBJECT {
        var superName :- GetString(c.file.consts, c.file.superIndex);
        if fuel == 0 {
          return Fail(OutOfFuel);
        }
        var loaded, _ :- LoadClass(superName, fuel - 1);
      }
      var i := 0;
      while i < |c.file.interfaces|
        invariant Valid() && 0 <= i <= |c.file.interfaces|
        invariant old(classes).Keys <= classes.Keys
        invariant forall x | x in classes.Values :: x in old(classes.Values) || fresh(x)
        invariant className != OBJECT ==>
                    GetString(c.file.consts, c.file.superIndex).Ok? && Settled(GetString(c.file.consts, c.file.superIndex).value)
        invariant forall k | 0 <= k < i ::
                    GetString(c.file.consts, c.file.interfaces[k]).Ok? && Settled(GetString(c.file.consts, c.file.interfaces[k]).value)
      {
        var interfaceName :- GetString(c.file.consts, c.file.interfaces[i]);
        if fuel == 0 {
          return Fail(OutOfFuel);
        }
        var loaded, _ :- LoadClass(interfaceName, fuel - 1);
        i := i + 1;
      }
      classes := classes[className := c];
      r := Ok(());
    }

    /**
     * LinkClass: the instance layout, then the static layout, then the static
     * constants. `base` is the instance slot count the superclass had, the
     * first instance slot of this class; `mid` is the slot table between the
     * two layouts.
     */
    method LinkClass(c: Class, fuel: nat) returns (r: Result<()>, ghost base: nat, ghost mid: seq<nat>)
      requires Valid() && c.Valid()
      modifies this, c
      ensures Valid() && c.Valid()
      ensures old(classes).Keys <= classes.Keys
      ensures forall x | x in classes.Values :: x in old(classes.Values) || fresh(x)
      ensures r.Ok? ==> |mid| == |c.file.fields|
      ensures r.Ok? ==> Layout(c.file.consts, c.file.fields, false, old(c.slotIds), base, 0) == Ok((mid, c.instSlotCount))
      ensures r.Ok? ==> Layout(c.file.consts, c.file.fields, true, mid, 0, 0) == Ok((c.slotIds, c.staticSlotCount))
      ensures r.Ok? ==> StaticInit(c.file.consts, c.file.fields, c.slotIds, seq(c.staticSlotCount, _ => Nil), 0) == Ok(c.staticValues)
      ensures r.Ok? && c.file.superIndex == 0 ==> base == 0
      decreases fuel, 1
    {
      mid := [];
      var inst;
      inst, base := CalcInstSlotIds(c, fuel);
      if inst.Fail? {
        return Fail(inst.fault), base, mid;
      }
      mid := c.slotIds;
      var staticLayout := CalcStaticSlotIds(c);
      if staticLayout.Fail? {
        return Fail(staticLayout.fault), base, mid;
      }
      r := InitStaticFinalField(c);
    }

    /**
     * calcuInstSlotID: instance slots continue from the superclass's
     * instance slot count, or from 0 when the class has no superclass index.
     */
    method CalcInstSlotIds(c: Class, fuel: nat) returns (r: Result<()>, ghost base: nat)
      requires Valid() && c.Valid()
      modifies this, c
      ensures Valid() && c.Valid()
      ensures old(classes).Keys <= classes.Keys
      ensures forall x | x in classes.Values :: x in old(classes.Values) || fresh(x)
      ensures c.staticSlotCount == old(c.staticSlotCount) && c.staticValues == old(c.staticValues)
      ensures r.Ok? ==> Layout(c.file.consts, c.file.fields, false, old(c.slotIds), base, 0) == Ok((c.slotIds, c.instSlotCount))
      ensures r.Ok? && c.file.superIndex == 0 ==> base == 0
      ensures r.Ok? && c.file.superIndex > 0 ==>
                GetString(c.file.consts, c.file.superIndex).Ok? &&
                var superName := GetString(c.file.consts, c.file.superIndex).value;
                superName in classes && (classes[superName] != c ==> classes[superName].instSlotCount == base)
      decreases fuel, 0
    {
      var slotId: nat := 0;
      base := 0;
      if c.file.superIndex > 0 {
        var superName :- GetString(c.file.consts, c.file.superIndex);
        if fuel == 0 {
          return Fail(OutOfFuel), base;
        }
        var superClass, _ :- LoadClass(superName, fuel - 1);
        if superClass == null {
          return Fail(NilDereference), base;
        }
        slotId := superClass.instSlotCount;
        base := slotId;
      }
      var count :- NumberSlots(c, false, slotId);
      c.instSlotCount := count;
      r := Ok(());
    }

    /** calcuStaticSlotID: static slots are numbered from 0, over static fields only. */
    method CalcStaticSlotIds(c: Class) returns (r: Result<()>)
      requires c.Valid()
      modifies c
      ensures c.Valid()
      ensures c.instSlotCount == old(c.instSlotCount) && c.staticValues == old(c.staticValues)
      ensures r.Ok? <==> Layout(c.file.consts, c.file.fields, true, old(c.slotIds), 0, 0).Ok?
      ensures r.Ok? ==> Layout(c.file.consts, c.file.fields, true, old(c.slotIds), 0, 0) == Ok((c.slotIds, c.staticSlotCount))
      ensures r.Fail? ==> r == Layout(c.file.consts, c.file.fields, true, old(c.slotIds), 0, 0).PropagateFailure()
    {
      var count :- NumberSlots(c, true, 0);
      c.staticSlotCount := count;
      r := Ok(());
    }

    /**
     * The slot loop the two passes share: every field of the pass, in order,
     * gets slot `next`, which then moves on by the field's width. The result
     * is the next free slot after the last field.
     */
    method NumberSlots(c: Class, statics: bool, next: nat) returns (r: Result<nat>)
      requires c.Valid()
      modifies c
      ensures c.Valid()
      ensures c.instSlotCount == old(c.instSlotCount) && c.staticSlotCount == old(c.staticSlotCount) &&
              c.staticValues == old(c.staticValues)
      ensures r.Ok? <==> Layout(c.file.consts, c.file.fields, statics, old(c.slotIds), next, 0).Ok?
      ensures r.Ok? ==> Layout(c.file.consts, c.file.fields, statics, old(c.slotIds), next, 0) == Ok((c.slotIds, r.value))
      ensures r.Fail? ==> Layout(c.file.consts, c.file.fields, statics, old(c.slotIds), next, 0) == Fail(r.fault)
    {
      var slotId := next;
      ghost var spec := Layout(c.file.consts, c.file.fields, statics, c.slotIds, slotId, 0);
      var i := 0;
      while i < |c.file.fields|
        invariant c.Valid() && 0 <= i <= |c.file.fields|
        invariant c.instSlotCount == old(c.instSlotCount) && c.staticSlotCount == old(c.staticSlotCount) &&
                  c.staticValues == old(c.staticValues)
        invariant spec == Layout(c.file.consts, c.file.fields, statics, c.slotIds, slotId, i)
      {
        var field := c.file.fields[i];
        if InPass(field, statics) {
          var two :- IsTwoSlot(c.file.consts, field);
          c.slotIds := c.slotIds[i := slotId];
          slotId := slotId + 1;
          if two {
            slotId := slotId + 1;
          }
        }
        i := i + 1;
      }
      r := Ok(slotId);
    }

    /**
     * initStaticFinalField: a table of `staticSlotCount` nil slots, then the
     * constant of each static final field that has one, in field order.
     */
    method InitStaticFinalField(c: Class) returns (r: Result<()>)
      requires c.Valid()
      modifies c
      ensures c.Valid()
      ensures c.instSlotCount == old(c.instSlotCount) && c.staticSlotCount == old(c.staticSlotCount)
      ensures c.slotIds == old(c.slotIds)
      ensures r.Ok? <==> StaticInit(c.file.consts, c.file.fields, c.slotIds, seq(c.staticSlotCount, _ => Nil), 0).Ok?
      ensures r.Ok? ==> StaticInit(c.file.consts, c.file.fields, c.slotIds, seq(c.staticSlotCount, _ => Nil), 0) == Ok(c.staticValues)
    {
      c.staticValues := seq(c.staticSlotCount, _ => Nil);
      ghost var spec := StaticInit(c.file.consts, c.file.fields, c.slotIds, c.staticValues, 0);
      var i := 0;
      while i < |c.file.fields|
        invariant c.Valid() && 0 <= i <= |c.file.fields|
        invariant c.instSlotCount == old(c.instSlotCount) && c.staticSlotCount == old(c.staticSlotCount)
        invariant c.slotIds == old(c.slotIds)
        invariant spec == StaticInit(c.file.consts, c.file.fields, c.slotIds, c.staticValues, i)
      {
        var field := c.file.fields[i];
        if StaticFinal(field) {
          var cvi := GetConstantValueAttribute(field);
          if cvi != 0 {
            if cvi >= |c.file.consts| {
              return Fail(IndexOutOfRange);
            }
            var constantValue := c.file.consts[cvi];
            var desc :- GetString(c.file.consts, field.descIndex);
            var v :- StaticConstant(desc, constantValue);
            if v.Some? {
              if c.slotIds[i] >= |c.staticValues| {
                return Fail(IndexOutOfRange);
              }
              c.staticValues := c.staticValues[c.slotIds[i] := v.value];
            }
          }
        }
        i := i + 1;
      }
      r := Ok(());
    }
  }
}
