/**
 * The class-file reader of book/parser.go. A Parser is a byte string and a
 * cursor; every read advances the cursor by exactly the bytes it consumes
 * and panics when they are not there. Attribute bodies are read by a nested
 * parser over exactly the attribute's declared length.
 *
 * Each reading method is proved equal to a decoding function on the byte
 * string (ConstsAt, AttributesAt, ...), and the properties of the format are
 * proved about those functions.
 */
module Parser {
  import opened Base
  import opened Utils
  import opened Model

  // ---------------------------------------------------------------------
  // Decoding functions: what each reading method yields from position pos.
  // ---------------------------------------------------------------------

  /** The big-endian value of the n bytes at pos, if they are there. */
  function UIntAt(data: seq<byte>, pos: nat, n: nat): (r: Result<nat>)
    ensures r.Ok? <==> pos + n <= |data|
    ensures r.Ok? ==> r.value < Pow256(n)
  {
    if pos + n <= |data| then
      BigEndianBound(data[pos..pos + n]);
      Ok(BigEndian(data[pos..pos + n]))
    else Fail(IndexOutOfRange)
  }

  lemma Pow256Values()
    ensures Pow256(1) == TWO_8 && Pow256(2) == TWO_16
    ensures Pow256(4) == TWO_32 && Pow256(8) == TWO_64
  {
    assert Pow256(2) == TWO_16;
    assert Pow256(4) == TWO_32;
    assert Pow256(8) == TWO_64;
  }

  function U8At(data: seq<byte>, pos: nat): Result<byte>
  {
    Pow256Values();
    var v :- UIntAt(data, pos, 1);
    Ok(v)
  }

  function U16At(data: seq<byte>, pos: nat): Result<u16>
  {
    Pow256Values();
    var v :- UIntAt(data, pos, 2);
    Ok(v)
  }

  function U32At(data: seq<byte>, pos: nat): Result<u32>
  {
    Pow256Values();
    var v :- UIntAt(data, pos, 4);
    Ok(v)
  }

  function U64At(data: seq<byte>, pos: nat): Result<u64>
  {
    Pow256Values();
    var v :- UIntAt(data, pos, 8);
    Ok(v)
  }

  /** U16At reads the same value as ParseU16 of utils.go. */
  lemma U16AtParseU16(data: seq<byte>, pos: nat)
    requires pos + 2 <= |data|
    ensures U16At(data, pos) == Ok(ParseU16(data, pos))
  {
  }

  /** The bytes from pos to pos + n. */
  function BytesAt(data: seq<byte>, pos: nat, n: nat): Result<seq<byte>>
  {
    if pos + n <= |data| then Ok(data[pos..pos + n]) else Fail(IndexOutOfRange)
  }

  /** ParseString of parser.go: the text field of entry `index`, without following it. */
  function ParseString(consts: seq<Const>, index: int): (r: Result<string>)
    ensures r.Ok? <==> 0 <= index < |consts|
    ensures r.Ok? && !IsIndirect(consts[index]) ==> r == GetString(consts, index)
  {
    if 0 <= index < |consts| then Ok(consts[index].str) else Fail(IndexOutOfRange)
  }

  /** One constant pool entry at pos: its tag and the payload the tag calls for. */
  function ConstAt(data: seq<byte>, pos: nat): Result<(Const, nat)>
  {
    var tag :- U8At(data, pos);
    var p := pos + 1;
    if tag == CONST_UTF8 then
      var n :- U16At(data, p);
      var s :- BytesAt(data, p + 2, n);
      Ok((EmptyConst.(tag := tag, str := BytesToString(s)), p + 2 + n))
    else if tag == CONST_INTEGER then
      var v :- U32At(data, p);
      Ok((EmptyConst.(tag := tag, integer := Wrap32(v)), p + 4))
    else if tag == CONST_FLOAT then
      var v :- U32At(data, p);
      Ok((EmptyConst.(tag := tag, floatBits := v), p + 4))
    else if tag == CONST_LONG then
      var v :- U64At(data, p);
      Ok((EmptyConst.(tag := tag, long := Wrap64(v)), p + 8))
    else if tag == CONST_DOUBLE then
      var v :- U64At(data, p);
      Ok((EmptyConst.(tag := tag, doubleBits := v), p + 8))
    else if tag == CONST_CLASS || tag == CONST_STRING || tag == CONST_METHOD_TYPE then
      var v :- U16At(data, p);
      Ok((EmptyConst.(tag := tag, index := v), p + 2))
    else if tag == CONST_FIELD || tag == CONST_METHOD || tag == CONST_INTERFACE_METHOD || tag == CONST_INVOKE_DYNAMIC then
      var c :- U16At(data, p);
      var nt :- U16At(data, p + 2);
      Ok((EmptyConst.(tag := tag, classIndex := c, nameTypeIndex := nt), p + 4))
    else if tag == CONST_NAME_TYPE then
      var n :- U16At(data, p);
      var d :- U16At(data, p + 2);
      Ok((EmptyConst.(tag := tag, nameIndex := n, descIndex := d), p + 4))
    else if tag == CONST_METHOD_HANDLE then
      var kind :- U8At(data, p);
      var ref :- U16At(data, p + 1);
      Ok((EmptyConst.(tag := tag), p + 3))
    else
      Fail(UnknownConstantType(tag))
  }

  /** Whether an entry occupies two pool slots. */
  predicate IsWide(c: Const)
  {
    c.tag == CONST_LONG || c.tag == CONST_DOUBLE
  }

  /**
   * The loop of ParseConsts from slot i of count, with the entries `acc`
   * read so far: a long or double entry is followed by an empty slot and
   * counts twice.
   */
  function PoolLoop(data: seq<byte>, pos: nat, i: nat, count: nat, acc: seq<Const>): Result<(seq<Const>, nat)>
    decreases count - i
  {
    if i >= count then Ok((acc, pos))
    else
      var cp :- ConstAt(data, pos);
      if IsWide(cp.0) then PoolLoop(data, cp.1, i + 2, count, acc + [cp.0, EmptyConst])
      else PoolLoop(data, cp.1, i + 1, count, acc + [cp.0])
  }

  /** ParseConsts from pos: the count, then entries 1 to count - 1 after an empty slot 0. */
  function ConstsAt(data: seq<byte>, pos: nat): Result<(seq<Const>, nat)>
  {
    var count :- U16At(data, pos);
    PoolLoop(data, pos + 2, 1, count, [EmptyConst])
  }

  /** ReadU16s from pos: a count, then that many 16-bit values. */
  function U16sAt(data: seq<byte>, pos: nat): (r: Result<(seq<u16>, nat)>)
    ensures r.Ok? ==> U16At(data, pos).Ok? && var count := U16At(data, pos).value;
              |r.value.0| == count && r.value.1 == pos + 2 + 2 * count &&
              forall k | 0 <= k < count :: U16At(data, pos + 2 + 2 * k) == Ok(r.value.0[k])
  {
    var count :- U16At(data, pos);
    if pos + 2 + 2 * count <= |data| then
      Ok((seq(count, k requires 0 <= k < count => U16At(data, pos + 2 + 2 * k).value), pos + 2 + 2 * count))
    else Fail(IndexOutOfRange)
  }

  function ExceptionEntryAt(data: seq<byte>, p: nat): ExceptionEntry
    requires p + 8 <= |data|
  {
    ExceptionEntry(U16At(data, p).value, U16At(data, p + 2).value, U16At(data, p + 4).value, U16At(data, p + 6).value)
  }

  /** ParseExceptions from pos: a count, then that many 8-byte entries. */
  function ExceptionsAt(data: seq<byte>, pos: nat): (r: Result<(seq<ExceptionEntry>, nat)>)
    ensures r.Ok? ==> U16At(data, pos).Ok? && var count := U16At(data, pos).value;
              |r.value.0| == count && r.value.1 == pos + 2 + 8 * count
  {
    var count :- U16At(data, pos);
    if pos + 2 + 8 * count <= |data| then
      Ok((seq(count, k requires 0 <= k < count => ExceptionEntryAt(data, pos + 2 + 8 * k)), pos + 2 + 8 * count))
    else Fail(IndexOutOfRange)
  }

  function LineNumberAt(data: seq<byte>, p: nat): LineNumber
    requires p + 4 <= |data|
  {
    LineNumber(U16At(data, p).value, U16At(data, p + 2).value)
  }

  /** ParseLineNumbers from pos: a count, then that many 4-byte entries. */
  function LineNumbersAt(data: seq<byte>, pos: nat): (r: Result<(seq<LineNumber>, nat)>)
    ensures r.Ok? ==> U16At(data, pos).Ok? && var count := U16At(data, pos).value;
              |r.value.0| == count && r.value.1 == pos + 2 + 4 * count
  {
    var count :- U16At(data, pos);
    if pos + 2 + 4 * count <= |data| then
      Ok((seq(count, k requires 0 <= k < count => LineNumberAt(data, pos + 2 + 4 * k)), pos + 2 + 4 * count))
    else Fail(IndexOutOfRange)
  }

  /** ParseCode from pos: limits, the bytecode, the exception table and nested attributes. */
  function CodeAt(consts: seq<Const>, data: seq<byte>, pos: nat): Result<(Code, nat)>
    decreases |data|, 4
  {
    var maxStack :- U16At(data, pos);
    var maxLocal :- U16At(data, pos + 2);
    var n :- U32At(data, pos + 4);
    var code :- BytesAt(data, pos + 8, n);
    var ex :- ExceptionsAt(data, pos + 8 + n);
    var attrs :- AttributesAt(consts, data, ex.1);
    Ok((Code(maxStack, maxLocal, code, ex.0, attrs.0), attrs.1))
  }

  /** The attribute called `name` whose body is `body`, read by a parser of its own. */
  function AttributeBody(consts: seq<Const>, name: string, body: seq<byte>): Result<Attribute>
    decreases |body|, 5
  {
    var attr := EmptyAttribute(name);
    if name == ATTR_CODE then
      var code :- CodeAt(consts, body, 0);
      Ok(attr.(code := Some(code.0)))
    else if name == ATTR_SOURCE_FILE then
      var index :- U16At(body, 0);
      Ok(attr.(sourceFileIndex := index))
    else if name == ATTR_EXCEPTIONS then
      var indexes :- U16sAt(body, 0);
      Ok(attr.(exceptionIndexes := indexes.0))
    else if name == ATTR_LINE_NUMBER_TABLE then
      var lines :- LineNumbersAt(body, 0);
      Ok(attr.(lineNumbers := lines.0))
    else if name == ATTR_CONSTANT_VALUE then
      var index :- U16At(body, 0);
      Ok(attr.(constantValueIndex := index))
    else
      Ok(attr.(data := body))
  }

  /** One attribute at pos: its name index, its length, and a body of that length. */
  function AttributeAt(consts: seq<Const>, data: seq<byte>, pos: nat): Result<(Attribute, nat)>
    decreases |data|, 1
  {
    var nameIndex :- U16At(data, pos);
    var name :- ParseString(consts, nameIndex);
    var n :- U32At(data, pos + 2);
    var body :- BytesAt(data, pos + 6, n);
    var attr :- AttributeBody(consts, name, body);
    Ok((attr, pos + 6 + n))
  }

  function AttributeLoop(consts: seq<Const>, data: seq<byte>, pos: nat, i: nat, count: nat, acc: seq<Attribute>): Result<(seq<Attribute>, nat)>
    decreases |data|, 2, count - i
  {
    if i >= count then Ok((acc, pos))
    else
      var ap :- AttributeAt(consts, data, pos);
      AttributeLoop(consts, data, ap.1, i + 1, count, acc + [ap.0])
  }

  /** ParseAttributes from pos: a count, then that many attributes. */
  function AttributesAt(consts: seq<Const>, data: seq<byte>, pos: nat): Result<(seq<Attribute>, nat)>
    decreases |data|, 3
  {
    var count :- U16At(data, pos);
    AttributeLoop(consts, data, pos + 2, 0, count, [])
  }

  /** The attribute loop keeps what it has read and reads exactly the attributes still to go. */
  lemma {:induction false} AttributeLoopCount(consts: seq<Const>, data: seq<byte>, pos: nat, i: nat, count: nat, acc: seq<Attribute>)
    requires i <= count && AttributeLoop(consts, data, pos, i, count, acc).Ok?
    ensures var attrs := AttributeLoop(consts, data, pos, i, count, acc).value.0;
            |attrs| == |acc| + count - i && attrs[..|acc|] == acc
    decreases count - i
  {
    if i < count {
      var ap := AttributeAt(consts, data, pos).value;
      AttributeLoopCount(consts, data, ap.1, i + 1, count, acc + [ap.0]);
    }
  }

  /** An attribute table holds as many attributes as its count says. */
  lemma AttributesAtCount(consts: seq<Const>, data: seq<byte>, pos: nat)
    ensures AttributesAt(consts, data, pos).Ok? ==>
              U16At(data, pos).Ok? && |AttributesAt(consts, data, pos).value.0| == U16At(data, pos).value
  {
    if AttributesAt(consts, data, pos).Ok? {
      AttributeLoopCount(consts, data, pos + 2, 0, U16At(data, pos).value, []);
    }
  }

  /** One field or method at pos. */
  function MemberAt(consts: seq<Const>, data: seq<byte>, pos: nat): Result<(Member, nat)>
  {
    var access :- U16At(data, pos);
    var nameIndex :- U16At(data, pos + 2);
    var descIndex :- U16At(data, pos + 4);
    var attrs :- AttributesAt(consts, data, pos + 6);
    Ok((Member(access, nameIndex, descIndex, attrs.0), attrs.1))
  }

  function MemberLoop(consts: seq<Const>, data: seq<byte>, pos: nat, i: nat, count: nat, acc: seq<Member>): Result<(seq<Member>, nat)>
    decreases count - i
  {
    if i >= count then Ok((acc, pos))
    else
      var mp :- MemberAt(consts, data, pos);
      MemberLoop(consts, data, mp.1, i + 1, count, acc + [mp.0])
  }

  /** ParseFields from pos: a count, then that many members. */
  function MembersAt(consts: seq<Const>, data: seq<byte>, pos: nat): Result<(seq<Member>, nat)>
  {
    var count :- U16At(data, pos);
    MemberLoop(consts, data, pos + 2, 0, count, [])
  }

  /** The member loop keeps what it has read and reads exactly the members still to go. */
  lemma {:induction false} MemberLoopCount(consts: seq<Const>, data: seq<byte>, pos: nat, i: nat, count: nat, acc: seq<Member>)
    requires i <= count && MemberLoop(consts, data, pos, i, count, acc).Ok?
    ensures var ms := MemberLoop(consts, data, pos, i, count, acc).value.0;
            |ms| == |acc| + count - i && ms[..|acc|] == acc
    decreases count - i
  {
    if i < count {
      var mp := MemberAt(consts, data, pos).value;
      MemberLoopCount(consts, data, mp.1, i + 1, count, acc + [mp.0]);
    }
  }

  /** A field or method table holds as many members as its count says. */
  lemma MembersAtCount(consts: seq<Const>, data: seq<byte>, pos: nat)
    ensures MembersAt(consts, data, pos).Ok? ==>
              U16At(data, pos).Ok? && |MembersAt(consts, data, pos).value.0| == U16At(data, pos).value
  {
    if MembersAt(consts, data, pos).Ok? {
      MemberLoopCount(consts, data, pos + 2, 0, U16At(data, pos).value, []);
    }
  }

  /** The header of a class file at pos: everything before the fields. */
  function ClassHeadAt(data: seq<byte>, pos: nat): Result<(ClassFile, nat)>
  {
    var pre :- PreambleAt(data, pos);
    var (magic, minor, major, consts) := pre.0;
    var p := pre.1;
    var access :- U16At(data, p);
    var thisIndex :- U16At(data, p + 2);
    var superIndex :- U16At(data, p + 4);
    var interfaces :- U16sAt(data, p + 6);
    Ok((ClassFile(magic, minor, major, consts, access, thisIndex, superIndex, interfaces.0, [], [], []), interfaces.1))
  }

  /** The magic number, the two versions and the constant pool. */
  function PreambleAt(data: seq<byte>, pos: nat): Result<((u32, u16, u16, seq<Const>), nat)>
  {
    var magic :- U32At(data, pos);
    var minor :- U16At(data, pos + 4);
    var major :- U16At(data, pos + 6);
    var consts :- ConstsAt(data, pos + 8);
    Ok(((magic, minor, major, consts.0), consts.1))
  }

  /** ParseClass from pos: the class file's parts in the order the format lays them out. */
  function ClassAt(data: seq<byte>, pos: nat): Result<(ClassFile, nat)>
  {
    var head :- ClassHeadAt(data, pos);
    var c := head.0;
    var fields :- MembersAt(c.consts, data, head.1);
    var methods :- MembersAt(c.consts, data, fields.1);
    var attrs :- AttributesAt(c.consts, data, methods.1);
    Ok((c.(fields := fields.0, methods := methods.0, attributes := attrs.0), attrs.1))
  }

  /** Whether a reading method's result and final cursor agree with a decoding function. */
  ghost predicate Decoded<T>(r: Result<T>, index: nat, spec: Result<(T, nat)>)
  {
    match spec
    case Ok(vp) => r == Ok(vp.0) && index == vp.1
    case Fail(f) => r == Fail(f)
  }

  // ---------------------------------------------------------------------
  // Properties of the format.
  // ---------------------------------------------------------------------

  /** Whether every long or double entry after slot 0 is followed by an empty slot. */
  ghost predicate TwoSlotRule(consts: seq<Const>)
  {
    forall k | 1 <= k < |consts| && IsWide(consts[k]) :: k + 1 < |consts| && consts[k + 1] == EmptyConst
  }

  /**
   * The pool ParseConsts builds: slot 0 is empty, each long or double entry
   * takes the next slot as an empty one (section 4.4.5 of the Java Virtual
   * Machine Specification, SE 8), and there are exactly `count` slots, one
   * more when the last entry read is a long or a double.
   */
  lemma {:induction false} PoolLoopShape(data: seq<byte>, pos: nat, i: nat, count: nat, acc: seq<Const>)
    requires 1 <= i && |acc| == i && acc[0] == EmptyConst && TwoSlotRule(acc)
    requires i <= count || (i == count + 1 && i >= 2 && IsWide(acc[i - 2]))
    requires PoolLoop(data, pos, i, count, acc).Ok?
    ensures var pool := PoolLoop(data, pos, i, count, acc).value.0;
            |pool| >= i && pool[0] == EmptyConst && TwoSlotRule(pool) && pool[..i] == acc &&
            (|pool| == count || (|pool| == count + 1 && count >= 1 && IsWide(pool[count - 1])))
    decreases count - i
  {
    if i < count {
      var cp := ConstAt(data, pos).value;
      if IsWide(cp.0) {
        var next := acc + [cp.0, EmptyConst];
        assert TwoSlotRule(next) by {
          forall k | 1 <= k < |next| && IsWide(next[k]) ensures k + 1 < |next| && next[k + 1] == EmptyConst {
            if k < |acc| - 1 {
              assert next[k] == acc[k] && next[k + 1] == acc[k + 1];
            }
          }
        }
        PoolLoopShape(data, cp.1, i + 2, count, next);
        var pool := PoolLoop(data, pos, i, count, acc).value.0;
        assert pool[..i] == next[..i] == acc;
      } else {
        var next := acc + [cp.0];
        assert TwoSlotRule(next) by {
          forall k | 1 <= k < |next| && IsWide(next[k]) ensures k + 1 < |next| && next[k + 1] == EmptyConst {
            assert k < |acc| - 1;
            assert next[k] == acc[k] && next[k + 1] == acc[k + 1];
          }
        }
        PoolLoopShape(data, cp.1, i + 1, count, next);
        var pool := PoolLoop(data, pos, i, count, acc).value.0;
        assert pool[..i] == next[..i] == acc;
      }
    }
  }

  lemma ConstsAtShape(data: seq<byte>, pos: nat)
    requires ConstsAt(data, pos).Ok?
    ensures var pool := ConstsAt(data, pos).value.0;
            var count := U16At(data, pos).value;
            |pool| >= 1 && pool[0] == EmptyConst && TwoSlotRule(pool) &&
            (|pool| == count || (count == 0 && |pool| == 1) || (|pool| == count + 1 && count >= 1 && IsWide(pool[count - 1])))
  {
    var count := U16At(data, pos).value;
    if count == 0 {
      assert ConstsAt(data, pos).value.0 == [EmptyConst];
    } else {
      PoolLoopShape(data, pos + 2, 1, count, [EmptyConst]);
    }
  }

  /**
   * An attribute, whatever its name, takes exactly its six header bytes and
   * its declared length: the reader resumes right after it.
   */
  lemma AttributeAtLength(consts: seq<Const>, data: seq<byte>, pos: nat)
    requires AttributeAt(consts, data, pos).Ok?
    ensures pos + 6 <= |data|
    ensures AttributeAt(consts, data, pos).value.1 == pos + 6 + U32At(data, pos + 2).value <= |data|
  {
  }

  /** An attribute with an unrecognised name keeps its body as raw bytes. */
  lemma UnknownAttributeKeepsBody(consts: seq<Const>, data: seq<byte>, pos: nat)
    requires AttributeAt(consts, data, pos).Ok?
    ensures var a := AttributeAt(consts, data, pos).value.0;
            a.name !in {ATTR_CODE, ATTR_SOURCE_FILE, ATTR_EXCEPTIONS, ATTR_LINE_NUMBER_TABLE, ATTR_CONSTANT_VALUE} ==>
              a.data == data[pos + 6 .. AttributeAt(consts, data, pos).value.1]
  {
  }

  // ---------------------------------------------------------------------
  // The Parser.
  // ---------------------------------------------------------------------

  class Parser {
    const data: seq<byte>
    var index: nat

    ghost predicate Valid()
      reads this
    {
      index <= |data|
    }

    /** NewParser: a parser at the start of `data`. */
    constructor (data: seq<byte>)
      ensures Valid() && this.data == data && index == 0
    {
      this.data := data;
      index := 0;
    }

    /** ReadBytes: the next `count` bytes; panics when fewer remain. */
    method ReadBytes(count: nat) returns (r: Result<seq<byte>>)
      requires Valid()
      modifies this
      ensures Valid()
      ensures r == BytesAt(data, old(index), count)
      ensures r.Ok? ==> index == old(index) + count && r.value == data[old(index)..index]
    {
      if index + count > |data| {
        return Fail(IndexOutOfRange);
      }
      r := Ok(data[index..index + count]);
      index := index + count;
    }

    method ReadU8() returns (r: Result<byte>)
      requires Valid()
      modifies this
      ensures Valid()
      ensures r == U8At(data, old(index))
      ensures r.Ok? ==> index == old(index) + 1 && r.value == data[old(index)]
    {
      var bs :- ReadBytes(1);
      Pow256Values();
      assert bs[..0] == [];
      r := Ok(bs[0]);
    }

    method ReadU16() returns (r: Result<u16>)
      requires Valid()
      modifies this
      ensures Valid()
      ensures r == U16At(data, old(index))
      ensures r.Ok? ==> index == old(index) + 2
    {
      var bs :- ReadBytes(2);
      Pow256Values();
      BigEndianBound(bs);
      r := Ok(BigEndian(bs));
    }

    method ReadU32() returns (r: Result<u32>)
      requires Valid()
      modifies this
      ensures Valid()
      ensures r == U32At(data, old(index))
      ensures r.Ok? ==> index == old(index) + 4
    {
      var bs :- ReadBytes(4);
      Pow256Values();
      BigEndianBound(bs);
      r := Ok(BigEndian(bs));
    }

    method ReadU64() returns (r: Result<u64>)
      requires Valid()
      modifies this
      ensures Valid()
      ensures r == U64At(data, old(index))
      ensures r.Ok? ==> index == old(index) + 8
    {
      var bs :- ReadBytes(8);
      Pow256Values();
      BigEndianBound(bs);
      r := Ok(BigEndian(bs));
    }

    /** ReadAll: every byte not read yet; the parser is then exhausted. */
    method ReadAll() returns (bs: seq<byte>)
      requires Valid()
      modifies this
      ensures Valid() && index == |data|
      ensures bs == data[old(index)..]
    {
      bs := data[index..];
      index := |data|;
    }

    /** Reads one constant pool entry. */
    method ParseConst() returns (r: Result<Const>)
      requires Valid()
      modifies this
      ensures Valid()
      ensures Decoded(r, index, ConstAt(data, old(index)))
    {
      var tag :- ReadU8();
      var item := EmptyConst.(tag := tag);
      if tag == CONST_UTF8 {
        var n :- ReadU16();
        var s :- ReadBytes(n);
        item := item.(str := BytesToString(s));
      } else if tag == CONST_INTEGER {
        var v :- ReadU32();
        item := item.(integer := Wrap32(v));
      } else if tag == CONST_FLOAT {
        var v :- ReadU32();
        item := item.(floatBits := v);
      } else if tag == CONST_LONG {
        var v :- ReadU64();
        item := item.(long := Wrap64(v));
      } else if tag == CONST_DOUBLE {
        var v :- ReadU64();
        item := item.(doubleBits := v);
      } else if tag == CONST_CLASS || tag == CONST_STRING || tag == CONST_METHOD_TYPE {
        var v :- ReadU16();
        item := item.(index := v);
      } else if tag == CONST_FIELD || tag == CONST_METHOD || tag == CONST_INTERFACE_METHOD || tag == CONST_INVOKE_DYNAMIC {
        var c :- ReadU16();
        var nt :- ReadU16();
        item := item.(classIndex := c, nameTypeIndex := nt);
      } else if tag == CONST_NAME_TYPE {
        var n :- ReadU16();
        var d :- ReadU16();
        item := item.(nameIndex := n, descIndex := d);
      } else if tag == CONST_METHOD_HANDLE {
        var kind :- ReadU8();
        var ref :- ReadU16();
      } else {
        return Fail(UnknownConstantType(tag));
      }
      r := Ok(item);
    }

    /** ParseConsts: the constant pool, with the empty slot 0 and a slot after each long or double. */
    method ParseConsts() returns (r: Result<seq<Const>>)
      requires Valid()
      modifies this
      ensures Valid()
      ensures Decoded(r, index, ConstsAt(data, old(index)))
    {
      var count :- ReadU16();
      var consts := [EmptyConst];
      var i: nat := 1;
      ghost var spec := ConstsAt(data, old(index));
      while i < count
        invariant Valid() && 1 <= i
        invariant spec == PoolLoop(data, index, i, count, consts)
        decreases count - i
      {
        var item :- ParseConst();
        if IsWide(item) {
          consts := consts + [item, EmptyConst];
          i := i + 2;
        } else {
          consts := consts + [item];
          i := i + 1;
        }
      }
      r := Ok(consts);
    }

    /** ReadU16s: a count, then that many 16-bit values. */
    method ReadU16s() returns (r: Result<seq<u16>>)
      requires Valid()
      modifies this
      ensures Valid()
      ensures Decoded(r, index, U16sAt(data, old(index)))
    {
      ghost var start := index;
      var count :- ReadU16();
      var res: seq<u16> := [];
      var i := 0;
      while i < count
        invariant Valid() && i <= count
        invariant index == start + 2 + 2 * i
        invariant res == seq(i, k requires 0 <= k < i => U16At(data, start + 2 + 2 * k).value)
      {
        var v :- ReadU16();
        res := res + [v];
        i := i + 1;
      }
      r := Ok(res);
    }

    /** ParseExceptions: a count, then that many exception-table entries. */
    method ParseExceptions() returns (r: Result<seq<ExceptionEntry>>)
      requires Valid()
      modifies this
      ensures Valid()
      ensures Decoded(r, index, ExceptionsAt(data, old(index)))
    {
      ghost var start := index;
      var count :- ReadU16();
      var res: seq<ExceptionEntry> := [];
      var i := 0;
      while i < count
        invariant Valid() && i <= count
        invariant index == start + 2 + 8 * i
        invariant res == seq(i, k requires 0 <= k < i => ExceptionEntryAt(data, start + 2 + 8 * k))
      {
        var s :- ReadU16();
        var e :- ReadU16();
        var h :- ReadU16();
        var c :- ReadU16();
        res := res + [ExceptionEntry(s, e, h, c)];
        i := i + 1;
      }
      r := Ok(res);
    }

    /** ParseLineNumbers: a count, then that many line-number entries. */
    method ParseLineNumbers() returns (r: Result<seq<LineNumber>>)
      requires Valid()
      modifies this
      ensures Valid()
      ensures Decoded(r, index, LineNumbersAt(data, old(index)))
    {
      ghost var start := index;
      var count :- ReadU16();
      var res: seq<LineNumber> := [];
      var i := 0;
      while i < count
        invariant Valid() && i <= count
        invariant index == start + 2 + 4 * i
        invariant res == seq(i, k requires 0 <= k < i => LineNumberAt(data, start + 2 + 4 * k))
      {
        var s :- ReadU16();
        var l :- ReadU16();
        res := res + [LineNumber(s, l)];
        i := i + 1;
      }
      r := Ok(res);
    }

    /** ParseCode: the body of a "Code" attribute. */
    method ParseCode(consts: seq<Const>) returns (r: Result<Code>)
      requires Valid()
      modifies this
      ensures Valid()
      ensures Decoded(r, index, CodeAt(consts, data, old(index)))
      decreases |data|, 4
    {
      var maxStack :- ReadU16();
      var maxLocal :- ReadU16();
      var n :- ReadU32();
      var code :- ReadBytes(n);
      var exceptions :- ParseExceptions();
      var attrs :- ParseAttributes(consts);
      r := Ok(Code(maxStack, maxLocal, code, exceptions, attrs));
    }

    /** ParseAttributes: a count, then that many attributes. */
    method ParseAttributes(consts: seq<Const>) returns (r: Result<seq<Attribute>>)
      requires Valid()
      modifies this
      ensures Valid()
      ensures Decoded(r, index, AttributesAt(consts, data, old(index)))
      ensures r.Ok? ==> U16At(data, old(index)).Ok? && |r.value| == U16At(data, old(index)).value
      decreases |data|, 3
    {
      var count :- ReadU16();
      var attrs: seq<Attribute> := [];
      var i: nat := 0;
      ghost var spec := AttributesAt(consts, data, old(index));
      while i < count
        invariant Valid()
        invariant spec == AttributeLoop(consts, data, index, i, count, attrs)
        decreases count - i
      {
        var attr :- ParseAttribute(consts);
        attrs := attrs + [attr];
        i := i + 1;
      }
      r := Ok(attrs);
      AttributesAtCount(consts, data, old(index));
    }

    /** One iteration of ParseAttributes: the name, the length, and the body read by a parser of its own. */
    method ParseAttribute(consts: seq<Const>) returns (r: Result<Attribute>)
      requires Valid()
      modifies this
      ensures Valid()
      ensures Decoded(r, index, AttributeAt(consts, data, old(index)))
      decreases |data|, 2
    {
      var nameIndex :- ReadU16();
      var name :- ParseString(consts, nameIndex);
      var n :- ReadU32();
      var body :- ReadBytes(n);
      r := ReadAttributeBody(consts, name, body);
    }
    /** ParseFields: a count, then that many fields or methods with their attributes. */
    method ParseFields(consts: seq<Const>) returns (r: Result<seq<Member>>)
      requires Valid()
      modifies this
      ensures Valid()
      ensures Decoded(r, index, MembersAt(consts, data, old(index)))
      ensures r.Ok? ==> U16At(data, old(index)).Ok? && |r.value| == U16At(data, old(index)).value
    {
      var count :- ReadU16();
      var fields: seq<Member> := [];
      var i: nat := 0;
      ghost var spec := MembersAt(consts, data, old(index));
      while i < count
        invariant Valid()
        invariant spec == MemberLoop(consts, data, index, i, count, fields)
        decreases count - i
      {
        var access :- ReadU16();
        var nameIndex :- ReadU16();
        var descIndex :- ReadU16();
        var attrs :- ParseAttributes(consts);
        fields := fields + [Member(access, nameIndex, descIndex, attrs)];
        i := i + 1;
      }
      r := Ok(fields);
      MembersAtCount(consts, data, old(index));
    }

    /** The start of ParseClass: the magic number, the versions and the constant pool. */
    method ParsePreamble() returns (r: Result<(u32, u16, u16, seq<Const>)>)
      requires Valid()
      modifies this
      ensures Valid()
      ensures Decoded(r, index, PreambleAt(data, old(index)))
    {
      var magic :- ReadU32();
      var minor :- ReadU16();
      var major :- ReadU16();
      var consts :- ParseConsts();
      r := Ok((magic, minor, major, consts));
    }

    /** The first half of ParseClass: everything before the fields. */
    method ParseClassHead() returns (r: Result<ClassFile>)
      requires Valid()
      modifies this
      ensures Valid()
      ensures Decoded(r, index, ClassHeadAt(data, old(index)))
    {
      var pre :- ParsePreamble();
      var (magic, minor, major, consts) := pre;
      var access :- ReadU16();
      var thisIndex :- ReadU16();
      var superIndex :- ReadU16();
      var interfaces :- ReadU16s();
      r := Ok(ClassFile(magic, minor, major, consts, access, thisIndex, superIndex, interfaces, [], [], []));
    }

    /** ParseClass: a whole class file. */
    method ParseClass() returns (r: Result<ClassFile>)
      requires Valid()
      modifies this
      ensures Valid()
      ensures Decoded(r, index, ClassAt(data, old(index)))
    {
      var head :- ParseClassHead();
      var fields :- ParseFields(head.consts);
      var methods :- ParseFields(head.consts);
      var attrs :- ParseAttributes(head.consts);
      r := Ok(head.(fields := fields, methods := methods, attributes := attrs));
    }
  }

  /** The switch of ParseAttributes on the attribute's name, run by a parser over the body alone. */
  method ReadAttributeBody(consts: seq<Const>, name: string, body: seq<byte>) returns (r: Result<Attribute>)
    ensures r == AttributeBody(consts, name, body)
    decreases |body|, 5
  {
    var temp := new Parser(body);
    var attr := EmptyAttribute(name);
    if name == ATTR_CODE {
      var code :- temp.ParseCode(consts);
      attr := attr.(code := Some(code));
    } else if name == ATTR_SOURCE_FILE {
      var v :- temp.ReadU16();
      attr := attr.(sourceFileIndex := v);
    } else if name == ATTR_EXCEPTIONS {
      var v :- temp.ReadU16s();
      attr := attr.(exceptionIndexes := v);
    } else if name == ATTR_LINE_NUMBER_TABLE {
      var v :- temp.ParseLineNumbers();
      attr := attr.(lineNumbers := v);
    } else if name == ATTR_CONSTANT_VALUE {
      var v :- temp.ReadU16();
      attr := attr.(constantValueIndex := v);
    } else {
      var rest := temp.ReadAll();
      attr := attr.(data := rest);
    }
    r := Ok(attr);
  }
}
