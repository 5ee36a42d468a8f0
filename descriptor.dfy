/**
 * The method descriptor parser of book/rtda.go (MethodDescParser): it reads
 * "(" then argument types up to ")" then the return type. A type is one of
 * the letters I, V, Z, J, a class name written L...; (returned without the L
 * and the semicolon), or "[" followed by a type (returned with the "[").
 * Every other letter, D, F, B, C and S among them, panics.
 */
module Descriptor {
  import opened Base

  datatype MethodDesc = MethodDesc(argTypes: seq<string>, retType: string)

  /** The letters ParseType accepts as a whole type. */
  predicate IsBaseLetter(c: char)
  {
    c == 'I' || c == 'V' || c == 'Z' || c == 'J'
  }

  // ---------------------------------------------------------------------
  // The parse, as functions of the text and a position in it.
  // ---------------------------------------------------------------------

  /** The scan of ParseType's 'L' case: the first ';' at or after `j`; running off the end is an index panic. */
  function SemicolonFrom(desc: string, j: nat): (r: Result<nat>)
    decreases |desc| - j
    ensures r.Ok? <==> exists k | j <= k < |desc| :: desc[k] == ';'
    ensures r.Ok? ==> j <= r.value < |desc| && desc[r.value] == ';' &&
                      forall k | j <= k < r.value :: desc[k] != ';'
    ensures r.Fail? ==> r.fault == IndexOutOfRange
  {
    if j >= |desc| then Fail(IndexOutOfRange)
    else if desc[j] == ';' then Ok(j)
    else SemicolonFrom(desc, j + 1)
  }

  /** ParseType at position `i`: the type's text and the position after it. */
  function TypeAt(desc: string, i: nat): (r: Result<(string, nat)>)
    decreases |desc| - i
    ensures r.Ok? ==> i < r.value.1 <= |desc|
  {
    if i >= |desc| then Fail(IndexOutOfRange)
    else if IsBaseLetter(desc[i]) then Ok(([desc[i]], i + 1))
    else if desc[i] == 'L' then
      var e :- SemicolonFrom(desc, i + 1);
      Ok((desc[i + 1..e], e + 1))
    else if desc[i] == '[' then
      var t :- TypeAt(desc, i + 1);
      Ok((['['] + t.0, t.1))
    else Fail(UnknownType(desc[i]))
  }

  /** The argument loop of Parse from position `i`, with the types `acc` already read. */
  function ArgsAt(desc: string, i: nat, acc: seq<string>): (r: Result<(seq<string>, nat)>)
    decreases |desc| - i
    ensures r.Ok? ==> i < r.value.1 <= |desc|
  {
    if i >= |desc| then Fail(IndexOutOfRange)
    else if desc[i] == ')' then Ok((acc, i + 1))
    else
      var t :- TypeAt(desc, i);
      ArgsAt(desc, t.1, acc + [t.0])
  }

  /** Parse from position `i`: "(", the arguments, ")", the return type. */
  function DescAt(desc: string, i: nat): (r: Result<(MethodDesc, nat)>)
  {
    if i >= |desc| then Fail(IndexOutOfRange)
    else if desc[i] != '(' then Fail(UnexpectedToken('('))
    else
      var args :- ArgsAt(desc, i + 1, []);
      var ret :- TypeAt(desc, args.1);
      Ok((MethodDesc(args.0, ret.0), ret.1))
  }

  // ---------------------------------------------------------------------
  // The parser object.
  // ---------------------------------------------------------------------

  class MethodDescParser {
    const desc: string
    var index: nat

    /** NewMethodDescParser: a parser at the start of `desc`. */
    constructor (desc: string)
      ensures this.desc == desc && index == 0
    {
      this.desc := desc;
      index := 0;
    }

    /** Match: steps over `token` if it is next; reading past the end panics. */
    method Match(token: char) returns (r: Result<bool>)
      modifies this
      ensures r.Ok? <==> old(index) < |desc|
      ensures r.Ok? ==> (r.value <==> desc[old(index)] == token)
      ensures index == if r == Ok(true) then old(index) + 1 else old(index)
      ensures r.Fail? ==> r.fault == IndexOutOfRange
    {
      if index >= |desc| {
        return Fail(IndexOutOfRange);
      }
      if desc[index] != token {
        return Ok(false);
      }
      index := index + 1;
      r := Ok(true);
    }

    /** Must: Match, panicking when the token is not there. */
    method Must(token: char) returns (r: Result<()>)
      modifies this
      ensures r.Ok? <==> old(index) < |desc| && desc[old(index)] == token
      ensures r.Ok? ==> index == old(index) + 1
      ensures r.Fail? ==> r.fault == if old(index) < |desc| then UnexpectedToken(token) else IndexOutOfRange
    {
      var matched :- Match(token);
      if !matched {
        return Fail(UnexpectedToken(token));
      }
      r := Ok(());
    }

    /** ParseType: one type, as TypeAt reads it. */
    method ParseType() returns (r: Result<string>)
      modifies this
      decreases |desc| - index
      ensures match TypeAt(desc, old(index))
              case Ok(t) => r == Ok(t.0) && index == t.1
              case Fail(e) => r == Fail(e)
    {
      if index >= |desc| {
        return Fail(IndexOutOfRange);
      }
      var c := desc[index];
      if IsBaseLetter(c) {
        index := index + 1;
        return Ok([c]);
      } else if c == 'L' {
        index := index + 1;
        var start := index;
        while true
          invariant start <= index
          invariant forall k | start <= k < index :: k < |desc| && desc[k] != ';'
          invariant SemicolonFrom(desc, start) == SemicolonFrom(desc, index)
          decreases |desc| - index
        {
          if index >= |desc| {
            return Fail(IndexOutOfRange);
          }
          if desc[index] == ';' {
            break;
          }
          index := index + 1;
        }
        var res := desc[start..index];
        index := index + 1;
        return Ok(res);
      } else if c == '[' {
        index := index + 1;
        var t :- ParseType();
        return Ok("[" + t);
      }
      r := Fail(UnknownType(c));
    }

    /** Parse: the whole descriptor, as DescAt reads it from where the parser stands. */
    method Parse() returns (r: Result<MethodDesc>)
      modifies this
      ensures match DescAt(desc, old(index))
              case Ok(d) => r == Ok(d.0) && index == d.1
              case Fail(e) => r == Fail(e)
    {
      var _ :- Must('(');
      var argTypes: seq<string> := [];
      ghost var spec := ArgsAt(desc, index, []);
      while true
        invariant ArgsAt(desc, index, argTypes) == spec
        decreases |desc| - index
      {
        var closed :- Match(')');
        if closed {
          break;
        }
        var t :- ParseType();
        argTypes := argTypes + [t];
      }
      var ret :- ParseType();
      r := Ok(MethodDesc(argTypes, ret));
    }
  }

  /** parseArgCount's count for a parsed descriptor: one slot per argument, two for D and J. */
  function SlotCount(argTypes: seq<string>): (n: nat)
    ensures |argTypes| <= n <= 2 * |argTypes|
  {
    if argTypes == [] then 0
    else (if argTypes[0] == "D" || argTypes[0] == "J" then 2 else 1) + SlotCount(argTypes[1..])
  }

  /** Counting one more argument adds its width: two slots for D and J, one otherwise. */
  lemma {:induction false} SlotCountAppend(argTypes: seq<string>, t: string)
    ensures SlotCount(argTypes + [t]) == SlotCount(argTypes) + (if t == "D" || t == "J" then 2 else 1)
  {
    if argTypes != [] {
      assert (argTypes + [t])[1..] == argTypes[1..] + [t];
      SlotCountAppend(argTypes[1..], t);
    }
  }

  // ---------------------------------------------------------------------
  // Properties.
  // ---------------------------------------------------------------------

  /** The types a descriptor can spell and the parser reads. */
  datatype FieldType = Letter(c: char) | Ref(name: string) | ArrayOf(elem: FieldType)

  /** A type the parser accepts: a letter it knows, a class name without ';'. */
  predicate WellFormed(t: FieldType)
  {
    match t
    case Letter(c) => IsBaseLetter(c)
    case Ref(name) => forall k | 0 <= k < |name| :: name[k] != ';'
    case ArrayOf(e) => WellFormed(e)
  }

  /** How a type is written in a descriptor. */
  function Render(t: FieldType): string
  {
    match t
    case Letter(c) => [c]
    case Ref(name) => "L" + name + ";"
    case ArrayOf(e) => "[" + Render(e)
  }

  /** The text ParseType returns for a type: a class name loses its L and ';'. */
  function Name(t: FieldType): string
  {
    match t
    case Letter(c) => [c]
    case Ref(name) => name
    case ArrayOf(e) => "[" + Name(e)
  }

  /** A class name written as L...; at `i` reads back without the L and the ';'. */
  lemma RefAt(s: string, i: nat, name: string)
    requires forall k | 0 <= k < |name| :: name[k] != ';'
    requires i + |name| + 2 <= |s| && s[i..i + |name| + 2] == "L" + name + ";"
    ensures TypeAt(s, i) == Ok((name, i + |name| + 2))
  {
    var text := "L" + name + ";";
    var e := i + 1 + |name|;
    assert s[i] == text[0] == 'L';
    assert s[e] == text[1 + |name|] == ';';
    forall k | i + 1 <= k < e
      ensures s[k] == name[k - i - 1]
    {
      assert s[k] == text[k - i];
    }
    assert SemicolonFrom(s, i + 1) == Ok(e);
    assert s[i + 1..e] == name;
  }

  /**
   * ParseType reads back exactly the type written at `i`, whatever surrounds
   * it; a written type never starts with ')'.
   */
  lemma {:induction false} TypeAtIn(s: string, i: nat, t: FieldType)
    requires WellFormed(t)
    requires i + |Render(t)| <= |s| && s[i..i + |Render(t)|] == Render(t)
    ensures TypeAt(s, i) == Ok((Name(t), i + |Render(t)|)) && s[i] != ')'
    decreases t
  {
    assert s[i] == Render(t)[0];
    match t
    case Letter(c) =>
    case Ref(name) =>
      RefAt(s, i, name);
    case ArrayOf(elem) =>
      SliceSplit(s, i, "[", Render(elem));
      TypeAtIn(s, i + 1, elem);
  }

  /** The two halves of a text written at `i`, each at its own place. */
  lemma SliceSplit<T>(s: seq<T>, i: nat, a: seq<T>, b: seq<T>)
    requires i + |a + b| <= |s| && s[i..i + |a + b|] == a + b
    ensures s[i..i + |a|] == a && s[i + |a|..i + |a| + |b|] == b
  {
    assert s[i..i + |a|] == s[i..i + |a + b|][..|a|];
    assert s[i + |a|..i + |a| + |b|] == s[i..i + |a + b|][|a|..];
  }

  predicate AllWellFormed(ts: seq<FieldType>)
  {
    ts == [] || (WellFormed(ts[0]) && AllWellFormed(ts[1..]))
  }

  /** Every argument type written in sequence, as in a descriptor between the parentheses. */
  function RenderAll(ts: seq<FieldType>): string
  {
    if ts == [] then "" else Render(ts[0]) + RenderAll(ts[1..])
  }

  function NameAll(ts: seq<FieldType>): seq<string>
  {
    if ts == [] then [] else [Name(ts[0])] + NameAll(ts[1..])
  }

  /** One turn of the argument loop: a type that is not ')' is read and appended. */
  lemma ArgsAtStep(s: string, i: nat, acc: seq<string>, name: string, j: nat)
    requires i < |s| && s[i] != ')'
    requires TypeAt(s, i) == Ok((name, j))
    ensures ArgsAt(s, i, acc) == ArgsAt(s, j, acc + [name])
  {
  }

  /**
   * The argument loop reads arguments written at `i` one by one, then steps
   * over the ')' that follows them.
   */
  lemma {:induction false} ArgsAtWritten(s: string, i: nat, acc: seq<string>, ts: seq<FieldType>)
    requires AllWellFormed(ts)
    requires i + |RenderAll(ts)| < |s| && s[i..i + |RenderAll(ts)|] == RenderAll(ts) && s[i + |RenderAll(ts)|] == ')'
    ensures ArgsAt(s, i, acc) == Ok((acc + NameAll(ts), i + |RenderAll(ts)| + 1))
    decreases ts
  {
    if ts == [] {
      assert acc + NameAll(ts) == acc;
    } else {
      var j := i + |Render(ts[0])|;
      SplitWritten(s, i, ts);
      TypeAtIn(s, i, ts[0]);
      ArgsAtWritten(s, j, acc + [Name(ts[0])], ts[1..]);
      ArgsAtJoin(s, i, j, acc, Name(ts[0]), NameAll(ts[1..]), j + |RenderAll(ts[1..])| + 1);
    }
  }

  /** The arguments written at `i`: the first one there, the others right after it. */
  lemma SplitWritten(s: string, i: nat, ts: seq<FieldType>)
    requires ts != []
    requires i + |RenderAll(ts)| < |s| && s[i..i + |RenderAll(ts)|] == RenderAll(ts) && s[i + |RenderAll(ts)|] == ')'
    ensures var j := i + |Render(ts[0])|;
            |RenderAll(ts)| == |Render(ts[0])| + |RenderAll(ts[1..])| &&
            s[i..j] == Render(ts[0]) &&
            j + |RenderAll(ts[1..])| < |s| && s[j..j + |RenderAll(ts[1..])|] == RenderAll(ts[1..]) &&
            s[j + |RenderAll(ts[1..])|] == ')'
  {
    SliceSplit(s, i, Render(ts[0]), RenderAll(ts[1..]));
  }

  /** Reading one type and then the rest of the list reads the whole list. */
  lemma ArgsAtJoin(s: string, i: nat, j: nat, acc: seq<string>, name: string, rest: seq<string>, end: nat)
    requires i < |s| && s[i] != ')' && TypeAt(s, i) == Ok((name, j))
    requires ArgsAt(s, j, acc + [name]) == Ok((acc + [name] + rest, end))
    ensures ArgsAt(s, i, acc) == Ok((acc + ([name] + rest), end))
  {
    ArgsAtStep(s, i, acc, name, j);
    assert acc + [name] + rest == acc + ([name] + rest);
  }

  /** A type written at the end of a text reads back to the end. */
  lemma TypeAtEnd(head: string, t: FieldType)
    requires WellFormed(t)
    ensures TypeAt(head + Render(t), |head|) == Ok((Name(t), |head| + |Render(t)|))
  {
    AppendedAt(head, Render(t));
    TypeAtIn(head + Render(t), |head|, t);
  }

  /** The second part of a concatenation, where it stands in it. */
  lemma AppendedAt<T>(a: seq<T>, b: seq<T>)
    ensures (a + b)[|a|..|a| + |b|] == b
  {
  }

  /** Parse succeeds when "(", the argument loop and the return type each do. */
  lemma DescAtParts(text: string, args: seq<string>, argsEnd: nat, ret: string, end: nat)
    requires 0 < |text| && text[0] == '('
    requires ArgsAt(text, 1, []) == Ok((args, argsEnd))
    requires TypeAt(text, argsEnd) == Ok((ret, end))
    ensures DescAt(text, 0) == Ok((MethodDesc(args, ret), end))
  {
  }

  /** The argument list of a written descriptor reads back, whatever follows it. */
  lemma ArgsAtHead(ts: seq<FieldType>, tail: string)
    requires AllWellFormed(ts)
    ensures ArgsAt("(" + RenderAll(ts) + ")" + tail, 1, []) == Ok((NameAll(ts), |RenderAll(ts)| + 2))
    ensures ("(" + RenderAll(ts) + ")" + tail)[0] == '('
  {
    var s := "(" + RenderAll(ts) + ")" + tail;
    assert 1 + |RenderAll(ts)| < |s| && s[1..1 + |RenderAll(ts)|] == RenderAll(ts) && s[1 + |RenderAll(ts)|] == ')';
    assert ArgsAt(s, 1, []) == Ok(([] + NameAll(ts), 1 + |RenderAll(ts)| + 1)) by {
      ArgsAtWritten(s, 1, [], ts);
    }
    assert [] + NameAll(ts) == NameAll(ts);
  }

  /**
   * Round trip: a descriptor written from argument types and a return type
   * parses back to their names, and the parser stops right after it.
   */
  lemma DescAtRender(ts: seq<FieldType>, ret: FieldType)
    requires AllWellFormed(ts)
    requires WellFormed(ret)
    ensures var text := "(" + RenderAll(ts) + ")" + Render(ret);
            DescAt(text, 0) == Ok((MethodDesc(NameAll(ts), Name(ret)), |text|))
  {
    var head := "(" + RenderAll(ts) + ")";
    var text := head + Render(ret);
    assert text[0] == '(' && ArgsAt(text, 1, []) == Ok((NameAll(ts), |head|)) by {
      ArgsAtHead(ts, Render(ret));
    }
    assert TypeAt(text, |head|) == Ok((Name(ret), |text|)) by {
      TypeAtEnd(head, ret);
    }
    DescAtParts(text, NameAll(ts), |head|, Name(ret), |text|);
  }

  /** The parser has no case for D (nor F, B, C, S): a double argument panics. */
  lemma DoubleIsUnknown(rest: string)
    ensures TypeAt("D" + rest, 0) == Fail(UnknownType('D'))
    ensures DescAt("(D" + rest, 0) == Fail(UnknownType('D'))
  {
    assert ("(D" + rest)[1] == 'D';
  }

  /**
   * The "D" that parseArgCount counts as two slots is therefore never a
   * double: it is what a reference to a class named D, written LD;, parses to.
   */
  lemma ClassNamedD()
    ensures DescAt("(LD;)V", 0) == Ok((MethodDesc(["D"], "V"), 6))
    ensures SlotCount(["D"]) == 2
  {
    var text := "(LD;)V";
    assert TypeAt(text, 1) == Ok(("D", 4)) by {
      assert text[1..4] == "L" + "D" + ";";
      RefAt(text, 1, "D");
    }
    assert [] + ["D"] == ["D"];
    assert ArgsAt(text, 4, ["D"]) == Ok((["D"], 5));
    assert TypeAt(text, 5) == Ok(("V", 6)) by { assert text[5] == 'V'; }
    DescAtParts(text, ["D"], 5, "V", 6);
  }

  /** The descriptor of an int method of two ints. */
  lemma IntPairExample()
    ensures DescAt("(II)I", 0) == Ok((MethodDesc(["I", "I"], "I"), 5))
  {
    var text := "(II)I";
    assert ArgsAt(text, 3, ["I", "I"]) == Ok((["I", "I"], 4));
    assert TypeAt(text, 2) == Ok(("I", 3)) by { assert text[2] == 'I'; }
    assert ["I"] + ["I"] == ["I", "I"];
    assert ArgsAt(text, 2, ["I"]) == Ok((["I", "I"], 4));
    assert TypeAt(text, 1) == Ok(("I", 2)) by { assert text[1] == 'I'; }
    assert [] + ["I"] == ["I"];
    assert ArgsAt(text, 1, []) == Ok((["I", "I"], 4));
    DescAtParts(text, ["I", "I"], 4, "I", 5);
  }
}
