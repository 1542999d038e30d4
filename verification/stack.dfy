/** The fixed-size call stack of src/stack.rs: sixteen `usize` slots and a
    pointer to the first free slot. */
module Stack {
  import opened Common

  const STACK_SIZE: nat := 16

  datatype Stack = Stack(slots: seq<nat>, pointer: nat) {
    /** Sixteen slots, and the pointer never passes the last one. */
    predicate Valid() {
      |slots| == STACK_SIZE && pointer <= STACK_SIZE
    }

    /** The addresses currently stored, bottom first. */
    function Contents(): seq<nat>
      requires Valid()
    {
      slots[..pointer]
    }
  }

  /** `Stack::new`: pointer 0 and every slot 0. */
  function New(): (s: Stack)
    ensures s.Valid() && s.pointer == 0 && s.Contents() == []
    ensures forall k | 0 <= k < STACK_SIZE :: s.slots[k] == 0
  {
    Stack(seq(STACK_SIZE, _ => 0), 0)
  }

  /** `Stack::push`: store `address` on top, or fail with a full stack. */
  function Push(s: Stack, address: nat): (r: Result<Stack>)
    requires s.Valid()
    ensures r.Err? <==> |s.Contents()| == STACK_SIZE
    ensures r.Err? ==> r.error == StackOverflow(address)
    ensures r.Ok? ==> r.value.Valid() && r.value.Contents() == s.Contents() + [address]
  {
    if s.pointer >= STACK_SIZE then Err(StackOverflow(address))
    else Ok(Stack(s.slots[s.pointer := address], s.pointer + 1))
  }

  /** `Stack::pop`: remove and return the top address, or fail when the
      stack is empty. */
  function Pop(s: Stack): (r: Result<(Stack, nat)>)
    requires s.Valid()
    ensures r.Err? <==> s.Contents() == []
    ensures r.Err? ==> r.error == StackUnderflow
    ensures r.Ok? ==> r.value.0.Valid() && s.Contents() == r.value.0.Contents() + [r.value.1]
  {
    if s.pointer == 0 then Err(StackUnderflow)
    else Ok((Stack(s.slots, s.pointer - 1), s.slots[s.pointer - 1]))
  }

  /** A push followed by a pop hands back the pushed address and restores
      the pointer and the stored addresses. */
  lemma PushThenPop(s: Stack, address: nat)
    requires s.Valid() && s.pointer < STACK_SIZE
    ensures Push(s, address).Ok?
    ensures var p := Pop(Push(s, address).value);
            && p.Ok? && p.value.1 == address
            && p.value.0.pointer == s.pointer && p.value.0.Contents() == s.Contents()
  {
    var t := Push(s, address).value;
    assert t.Contents() == s.Contents() + [address];
    var p := Pop(t).value;
    assert p.0.Contents() + [p.1] == s.Contents() + [address];
    assert p.0.Contents() == s.Contents();
  }

  /** Push every address of `xs` in order. */
  function PushAll(s: Stack, xs: seq<nat>): (r: Result<Stack>)
    requires s.Valid()
    ensures r.Ok? ==> r.value.Valid()
    decreases |xs|
  {
    if xs == [] then Ok(s)
    else
      var t :- Push(s, xs[0]);
      PushAll(t, xs[1..])
  }

  /** Pop `n` times, collecting the popped addresses in pop order. */
  function PopN(s: Stack, n: nat): (r: Result<(Stack, seq<nat>)>)
    requires s.Valid()
    ensures r.Ok? ==> r.value.0.Valid() && |r.value.1| == n
    decreases n
  {
    if n == 0 then Ok((s, []))
    else
      var (t, a) :- Pop(s);
      var (u, rest) :- PopN(t, n - 1);
      Ok((u, [a] + rest))
  }

  function Reverse(xs: seq<nat>): (r: seq<nat>)
    ensures |r| == |xs|
  {
    if xs == [] then [] else Reverse(xs[1..]) + [xs[0]]
  }

  /** Pushing fits exactly when the addresses fit in the free slots, and
      appends them in order. */
  lemma {:induction false} PushAllContents(s: Stack, xs: seq<nat>)
    requires s.Valid()
    ensures PushAll(s, xs).Ok? <==> |s.Contents()| + |xs| <= STACK_SIZE
    ensures PushAll(s, xs).Ok? ==> PushAll(s, xs).value.Contents() == s.Contents() + xs
    decreases |xs|
  {
    if xs != [] {
      var p := Push(s, xs[0]);
      if p.Ok? {
        PushAllContents(p.value, xs[1..]);
        assert s.Contents() + [xs[0]] + xs[1..] == s.Contents() + xs;
      }
    }
  }

  /** Popping `n` addresses off a stack whose contents end in `ys` yields
      `ys` in reverse. */
  lemma {:induction false} PopNReverse(s: Stack, ys: seq<nat>)
    requires s.Valid()
    requires |ys| <= |s.Contents()| && s.Contents()[|s.Contents()| - |ys|..] == ys
    ensures PopN(s, |ys|).Ok?
    ensures PopN(s, |ys|).value.1 == Reverse(ys)
    ensures PopN(s, |ys|).value.0.Contents() == s.Contents()[..|s.Contents()| - |ys|]
    decreases |ys|
  {
    if ys != [] {
      var c := s.Contents();
      var (t, a) := Pop(s).value;
      assert c == t.Contents() + [a];
      assert a == ys[|ys| - 1];
      var init := ys[..|ys| - 1];
      assert t.Contents()[|t.Contents()| - |init|..] == init;
      PopNReverse(t, init);
      ReverseLast(ys);
      assert t.Contents()[..|t.Contents()| - |init|] == c[..|c| - |ys|];
    }
  }

  lemma {:induction false} ReverseLast(ys: seq<nat>)
    requires ys != []
    ensures Reverse(ys) == [ys[|ys| - 1]] + Reverse(ys[..|ys| - 1])
    decreases |ys|
  {
    if |ys| > 1 {
      var tail := ys[1..];
      ReverseLast(tail);
      assert tail[..|tail| - 1] == ys[..|ys| - 1][1..];
    }
  }

  /** LIFO: pushing up to sixteen addresses onto a fresh stack and popping
      them all returns them in reverse and empties the stack. */
  lemma PushAllPopAll(xs: seq<nat>)
    requires |xs| <= STACK_SIZE
    ensures PushAll(New(), xs).Ok?
    ensures var p := PopN(PushAll(New(), xs).value, |xs|);
            p.Ok? && p.value.1 == Reverse(xs) && p.value.0.Contents() == []
  {
    PushAllContents(New(), xs);
    var s := PushAll(New(), xs).value;
    assert s.Contents() == xs;
    PopNReverse(s, xs);
  }

  /** Sixteen pushes succeed and the seventeenth overflows. */
  lemma SeventeenthPushFails(xs: seq<nat>, address: nat)
    requires |xs| == STACK_SIZE
    ensures PushAll(New(), xs).Ok?
    ensures Push(PushAll(New(), xs).value, address) == Err(StackOverflow(address))
  {
    PushAllContents(New(), xs);
  }

  /** Push 42, push 7, then the pops give 7 and then 42; popping a fresh
      stack fails. */
  lemma PushPopExample()
    ensures PopN(PushAll(New(), [42, 7]).value, 2).value.1 == [7, 42]
    ensures Pop(New()) == Err(StackUnderflow)
  {
    PushAllPopAll([42, 7]);
    assert Reverse([42, 7]) == [7, 42] by {
      assert [42, 7][1..] == [7];
    }
  }
}
