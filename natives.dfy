/**
 * The registry of native methods of book/native.go: a map from a
 * "class-name-descriptor" key to the function that stands in for the method.
 * What the three registered functions do to a thread is in instructions.dfy.
 */
module Natives {
  import opened Base

  /** The native functions InitNativeFunc registers, named by what they do. */
  datatype NativeFunc = Max | GetClass | HashCode

  /** The registry key of a native method: class, name and descriptor joined with '-'. */
  function Key(c: string, n: string, d: string): string
  {
    c + "-" + n + "-" + d
  }

  /** GetNativeFunc on a registry's contents: absent keys read as Go's nil function. */
  function Lookup(funcs: map<string, NativeFunc>, c: string, n: string, d: string): Option<NativeFunc>
  {
    var k := Key(c, n, d);
    if k in funcs then Some(funcs[k]) else None
  }

  /** The process-wide registry of native functions, as explicit state. */
  class Registry {
    var funcs: map<string, NativeFunc>

    constructor ()
      ensures funcs == map[]
    {
      funcs := map[];
    }

    /** RegisterNativeFunc: binds the key of the triple, replacing an earlier binding. */
    method Register(c: string, n: string, d: string, f: NativeFunc)
      modifies this
      ensures funcs == old(funcs)[Key(c, n, d) := f]
      ensures Get(c, n, d) == Some(f)
    {
      funcs := funcs[Key(c, n, d) := f];
    }

    /** GetNativeFunc. */
    function Get(c: string, n: string, d: string): Option<NativeFunc>
      reads this
    {
      Lookup(funcs, c, n, d)
    }
  }

  /** InitNativeFunc: registers max, getClass and hashCode. */
  method InitNativeFuncs(registry: Registry)
    modifies registry
    ensures registry.Get("HelloWorld", "max", "(II)I") == Some(Max)
    ensures registry.Get("java/lang/Object", "getClass", "()Ljava/lang/Class;") == Some(GetClass)
    ensures registry.Get("java/lang/Object", "hashCode", "()I") == Some(HashCode)
    ensures registry.funcs.Keys == old(registry.funcs.Keys) + {
              Key("HelloWorld", "max", "(II)I"),
              Key("java/lang/Object", "getClass", "()Ljava/lang/Class;"),
              Key("java/lang/Object", "hashCode", "()I")}
  {
    registry.Register("HelloWorld", "max", "(II)I", Max);
    registry.Register("java/lang/Object", "getClass", "()Ljava/lang/Class;", GetClass);
    registry.Register("java/lang/Object", "hashCode", "()I", HashCode);
    assert Key("HelloWorld", "max", "(II)I") != Key("java/lang/Object", "getClass", "()Ljava/lang/Class;");
    assert Key("HelloWorld", "max", "(II)I") != Key("java/lang/Object", "hashCode", "()I");
    assert Key("java/lang/Object", "getClass", "()Ljava/lang/Class;") != Key("java/lang/Object", "hashCode", "()I") by {
      assert Key("java/lang/Object", "getClass", "()Ljava/lang/Class;")[17] == 'g';
      assert Key("java/lang/Object", "hashCode", "()I")[17] == 'h';
    }
  }

  /**
   * Registering a triple makes every triple with the same key look up the new
   * function, and leaves the lookup of every other key as it was.
   */
  lemma LookupAfterRegister(funcs: map<string, NativeFunc>, c: string, n: string, d: string, f: NativeFunc,
                            c2: string, n2: string, d2: string)
    ensures Key(c2, n2, d2) == Key(c, n, d) ==> Lookup(funcs[Key(c, n, d) := f], c2, n2, d2) == Some(f)
    ensures Key(c2, n2, d2) != Key(c, n, d) ==> Lookup(funcs[Key(c, n, d) := f], c2, n2, d2) == Lookup(funcs, c2, n2, d2)
  {
  }

  /**
   * The key does not tell the triple apart when a part contains '-': two
   * different methods can share one registry entry.
   */
  lemma KeysCollide()
    ensures ("a-b", "c", "d") != ("a", "b-c", "d")
    ensures Key("a-b", "c", "d") == Key("a", "b-c", "d")
  {
    assert Key("a-b", "c", "d") == "a-b-c-d";
    assert Key("a", "b-c", "d") == "a-b-c-d";
  }
}
