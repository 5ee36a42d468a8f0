/**
 * The operand stack of a frame as a value: its contents, bottom first, and
 * the capacity fixed when the frame was made (the method's max_stack). These
 * are Stack.Push and Stack.Pop of book/collection.go and the Push2 and Pop2 of
 * book/rtda.go, by which long and double values take two slots: Push2 writes
 * the same value twice, Pop2 drops the upper copy and returns the lower one.
 */
module OperandStack {
  import opened Base
  import opened Values

  function Push(s: seq<Value>, cap: nat, v: Value): Result<seq<Value>>
  {
    if |s| < cap then Ok(s + [v]) else Fail(StackOverflow)
  }

  /** Two copies of `v` on top, or an overflow if fewer than two slots are free. */
  function Push2(s: seq<Value>, cap: nat, v: Value): (r: Result<seq<Value>>)
    ensures r.Ok? <==> |s| + 2 <= cap
    ensures r.Ok? ==> r.value == s + [v, v]
    ensures r.Fail? ==> r.fault == StackOverflow
  {
    assert s + [v] + [v] == s + [v, v];
    var once :- Push(s, cap, v);
    Push(once, cap, v)
  }

  /** The rest of the stack and the value taken off its top. */
  function Pop(s: seq<Value>): Result<(seq<Value>, Value)>
  {
    if |s| == 0 then Fail(IndexOutOfRange) else Ok((s[..|s| - 1], s[|s| - 1]))
  }

  /** The stack without its top two slots, and the lower of the two. */
  function Pop2(s: seq<Value>): (r: Result<(seq<Value>, Value)>)
    ensures r.Ok? <==> |s| >= 2
    ensures r.Ok? ==> r.value == (s[..|s| - 2], s[|s| - 2])
    ensures r.Fail? ==> r.fault == IndexOutOfRange
  {
    assert |s| >= 2 ==> s[..|s| - 1][..|s| - 2] == s[..|s| - 2];
    var upper :- Pop(s);
    Pop(upper.0)
  }

  /** Last in, first out: a pop undoes a push that had room. */
  lemma PushThenPop(s: seq<Value>, cap: nat, v: Value)
    requires |s| < cap
    ensures Push(s, cap, v).Ok?
    ensures Pop(Push(s, cap, v).value) == Ok((s, v))
  {
    assert (s + [v])[..|s|] == s;
  }

  /** Pop2 undoes Push2: the pair leaves and its value comes back. */
  lemma Push2ThenPop2(s: seq<Value>, cap: nat, v: Value)
    requires |s| + 2 <= cap
    ensures Push2(s, cap, v).Ok?
    ensures Pop2(Push2(s, cap, v).value) == Ok((s, v))
  {
    PushThenPop(s, cap, v);
    PushThenPop(s + [v], cap, v);
  }

  /** Push2 takes two slots: it fails on a stack with fewer than two free, and never half-succeeds. */
  lemma Push2Room(s: seq<Value>, cap: nat, v: Value)
    ensures Push2(s, cap, v).Ok? <==> |s| + 2 <= cap
    ensures Push2(s, cap, v).Ok? ==> |Push2(s, cap, v).value| == |s| + 2
    ensures Push2(s, cap, v).Fail? ==> Push2(s, cap, v).fault == StackOverflow
  {
  }

  /**
   * Pop2 returns the lower of the two top slots and never reads the upper
   * one, so whatever the upper slot holds makes no difference.
   */
  lemma Pop2IgnoresUpper(s: seq<Value>, lower: Value, upper: Value)
    ensures Pop2(s + [lower, upper]) == Ok((s, lower))
  {
    assert (s + [lower, upper])[..|s| + 1] == s + [lower];
    assert (s + [lower])[..|s|] == s;
  }

  /** Popping an empty stack is Go's index -1: a panic, not a null. */
  lemma PopEmpty()
    ensures Pop([]) == Fail(IndexOutOfRange)
    ensures Pop2([]) == Fail(IndexOutOfRange)
  {
  }
}
