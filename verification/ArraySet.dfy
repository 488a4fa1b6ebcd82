/** A worklist with two buffers that accepts new elements while it is iterated over. */
module ArraySets {
  import opened Sequences

  /** A queue that ignores elements which are waiting already. */
  function Enqueued<T(==)>(pending: seq<T>, x: T): seq<T> {
    if x in pending then pending else pending + [x]
  }

  function EnqueuedAll<T(==)>(pending: seq<T>, xs: seq<T>): seq<T> {
    if xs == [] then pending else Enqueued(EnqueuedAll(pending, xs[..|xs| - 1]), xs[|xs| - 1])
  }

  /** Elements go in one after the other, each behind all that wait, unless it waits already. */
  lemma EnqueuedInOrder<T>(pending: seq<T>, xs: seq<T>, x: T)
    ensures EnqueuedAll(pending, []) == pending
    ensures x in EnqueuedAll(pending, xs) ==> EnqueuedAll(pending, xs + [x]) == EnqueuedAll(pending, xs)
    ensures x !in EnqueuedAll(pending, xs) ==> EnqueuedAll(pending, xs + [x]) == EnqueuedAll(pending, xs) + [x]
  {
    assert (xs + [x])[..|xs|] == xs;
  }

  /** What the body of an iteration sees, call by call, what is pending in the end, and whether the iteration has
      ended. The n-th call of the body inserts the elements of script[n]; behind the script, the body does not
      return. */
  function Delivered<T(==)>(pending: seq<T>, script: seq<seq<T>>): (r: (seq<T>, seq<T>, bool))
    decreases |script|
  {
    if pending == [] then ([], [], true)
    else if script == [] then ([pending[0]], pending[1..], false)
    else
      var (calls, rest, done) := Delivered(EnqueuedAll(pending[1..], script[0]), script[1..]);
      ([pending[0]] + calls, rest, done)
  }

  /** The elements that the queue accepts, in the order in which they come in. */
  function Accepted<T(==)>(pending: seq<T>, xs: seq<T>): (r: seq<T>) {
    if xs == [] then []
    else
      var before, x := EnqueuedAll(pending, xs[..|xs| - 1]), xs[|xs| - 1];
      Accepted(pending, xs[..|xs| - 1]) + (if x in before then [] else [x])
  }

  function AcceptedDuring<T(==)>(pending: seq<T>, script: seq<seq<T>>): (r: seq<T>)
    decreases |script|
  {
    if pending == [] || script == [] then []
    else
      Accepted(pending[1..], script[0]) + AcceptedDuring(EnqueuedAll(pending[1..], script[0]), script[1..])
  }

  lemma {:induction false} AcceptedAreAppended<T>(pending: seq<T>, xs: seq<T>)
    ensures EnqueuedAll(pending, xs) == pending + Accepted(pending, xs)
  {
    if xs != [] {
      AcceptedAreAppended(pending, xs[..|xs| - 1]);
    }
  }

  /** Everything that was pending or is accepted is delivered exactly once and in order, or still pending. */
  lemma {:induction false} DeliveredOnce<T>(pending: seq<T>, script: seq<seq<T>>)
    ensures var (calls, rest, done) := Delivered(pending, script);
            && calls + rest == pending + AcceptedDuring(pending, script)
            && (done ==> rest == []) && (!done ==> |calls| == |script| + 1)
    decreases |script|
  {
    hide EnqueuedAll;
    if pending != [] && script != [] {
      var tail := pending[1..];
      AcceptedAreAppended(tail, script[0]);
      var next := EnqueuedAll(tail, script[0]);
      DeliveredOnce(next, script[1..]);
      var (calls, rest, _) := Delivered(next, script[1..]);
      assert pending == [pending[0]] + tail;
      assert [pending[0]] + calls + rest == [pending[0]] + (calls + rest);
    }
  }

  lemma {:induction false} StaysDistinct<T>(pending: seq<T>, xs: seq<T>)
    requires Distinct(pending)
    ensures Distinct(EnqueuedAll(pending, xs))
  {
    if xs != [] {
      StaysDistinct(pending, xs[..|xs| - 1]);
    }
  }

  class ArraySet<T(==)> {
    /** One buffer takes new elements, the other one is iterated over. */
    var vecs: seq<seq<T>>
    var insertIndex: nat
    var iterIdx: nat

    ghost predicate Shape()
      reads this
    {
      |vecs| == 2 && insertIndex < 2
    }

    ghost function Pending(): seq<T>
      requires Shape()
      reads this
    {
      DropFront(vecs[1 - insertIndex], iterIdx + 1) + vecs[insertIndex]
    }

    /** Between two iterations. */
    ghost predicate Idle()
      reads this
    {
      Shape() && iterIdx == 0 && vecs[1 - insertIndex] == [] && Distinct(vecs[insertIndex])
    }

    /** Inside a call of the body. */
    ghost predicate InBody()
      reads this
    {
      Shape() && iterIdx < |vecs[1 - insertIndex]| && Distinct(Pending())
    }

    constructor ()
      ensures Idle() && Pending() == []
    {
      vecs, insertIndex, iterIdx := [[], []], 0, 0;
    }

    static function DropFront(s: seq<T>, drop: nat): seq<T> {
      if drop >= |s| then [] else s[drop..]
    }

    method Insert(value: T) returns (inserted: bool)
      requires Idle() || InBody()
      modifies `vecs
      ensures old(Idle()) ==> Idle()
      ensures old(InBody()) ==> InBody() && vecs[1 - insertIndex] == old(vecs[1 - insertIndex])
      ensures inserted == (value !in old(Pending()))
      ensures Pending() == Enqueued(old(Pending()), value)
      ensures inserted <==> value !in old(vecs)[insertIndex] &&
                            (iterIdx < |old(vecs)[1 - insertIndex]| ==> value !in old(vecs)[1 - insertIndex][iterIdx + 1..])
      ensures vecs == if inserted then old(vecs)[insertIndex := old(vecs)[insertIndex] + [value]] else old(vecs)
    {
      var other := DropFront(vecs[1 - insertIndex], iterIdx + 1);
      ghost var pending := Pending();
      if value in vecs[insertIndex] || value in other {
        assert value in pending;
        return false;
      }
      vecs := vecs[insertIndex := vecs[insertIndex] + [value]];
      assert Pending() == pending + [value];
      inserted := true;
    }

    predicate Empty()
      requires Shape()
      reads this
    {
      vecs[0] == [] && vecs[1] == []
    }

    /** The body's insertions during one of its calls. */
    method RunBody(xs: seq<T>)
      requires InBody()
      modifies `vecs
      ensures InBody() && vecs[1 - insertIndex] == old(vecs[1 - insertIndex])
      ensures Pending() == EnqueuedAll(old(Pending()), xs)
    {
      for i := 0 to |xs|
        invariant InBody() && vecs[1 - insertIndex] == old(vecs[1 - insertIndex])
        invariant Pending() == EnqueuedAll(old(Pending()), xs[..i])
      {
        var _ := Insert(xs[i]);
        assert xs[..i + 1][..i] == xs[..i];
      }
      assert xs[..|xs|] == xs;
    }

    /** Calls the body for every element, also for those that it inserts itself. */
    method Foreach(script: seq<seq<T>>) returns (calls: seq<T>, done: bool)
      requires Idle()
      modifies this
      ensures if done then Idle() && Empty() else InBody()
      ensures (calls, Pending(), done) == Delivered(old(Pending()), script)
    {
      hide Continues, Delivered, EnqueuedAll, Distinct, Waiting;
      ghost var total := Delivered(Pending(), script);
      WaitingWhenIdle();
      ContinuesFromStart(Waiting(), script);
      assert script[0..] == script;
      var n, again := 0, true;
      calls := [];
      while again
        invariant Shape() && iterIdx == 0 && n <= |script| && Distinct(Waiting()) && (!again ==> Empty() && Waiting() == [])
        invariant Continues(total, calls, Waiting(), script[n..])
        decreases |script| - n, if !again then 0 else if |vecs[1 - insertIndex]| == 0 then 2 else 1
      {
        var inBody;
        calls, n, inBody := IterateBuffer(script, calls, n, total);
        if inBody {
          return calls, false;
        }
        SwapBuffers();
        again := vecs[1 - insertIndex] != [];
      }
      ContinuesStep(total, calls, Waiting(), script[n..]);
      NothingLeft();
      done := true;
    }

    method SwapBuffers()
      requires Shape()
      modifies this
      ensures Shape() && iterIdx == 0 && vecs[insertIndex] == [] && vecs[1 - insertIndex] == old(vecs[insertIndex])
      ensures Waiting() == old(vecs[insertIndex])
    {
      var qIndex := 1 - insertIndex;
      vecs := vecs[qIndex := []];
      iterIdx := 0;
      insertIndex := qIndex;
    }

    /** Calls the body for the elements of one buffer; new elements go to the other one. */
    method IterateBuffer(script: seq<seq<T>>, before: seq<T>, n0: nat, ghost total: (seq<T>, seq<T>, bool))
      returns (calls: seq<T>, n: nat, inBody: bool)
      requires Shape() && iterIdx == 0 && n0 <= |script| && Distinct(Waiting())
      requires Continues(total, before, Waiting(), script[n0..])
      modifies `vecs, `iterIdx
      ensures inBody ==> InBody() && total == (calls, Pending(), false)
      ensures !inBody ==> Shape() && vecs[1 - insertIndex] == old(vecs[1 - insertIndex]) && Distinct(vecs[insertIndex])
      ensures !inBody ==> n == n0 + |vecs[1 - insertIndex]| <= |script|
      ensures !inBody ==> Continues(total, calls, vecs[insertIndex], script[n..])
    {
      hide Continues, Delivered, EnqueuedAll, Distinct, Waiting, Pending, InBody;
      var qIndex := 1 - insertIndex;
      ghost var q0 := vecs[qIndex];
      calls, n := before, n0;
      while iterIdx != |vecs[qIndex]|
        invariant Shape() && vecs[qIndex] == q0 && iterIdx <= |q0|
        invariant n == n0 + iterIdx <= |script| && Distinct(Waiting())
        invariant Continues(total, calls, Waiting(), script[n..])
        decreases |q0| - iterIdx
      {
        EnterBody();
        ContinuesStep(total, calls, Waiting(), script[n..]);
        calls := calls + [vecs[qIndex][iterIdx]];
        if n == |script| {
          return calls, n, true;
        }
        RunBody(script[n]);
        assert script[n..][1..] == script[n + 1..];
        LeaveBody();
        n := n + 1;
      }
      AllVisited();
      inBody := false;
    }

    lemma EnterBody()
      requires Shape() && iterIdx < |vecs[1 - insertIndex]| && Distinct(Waiting())
      ensures InBody() && Waiting() == [vecs[1 - insertIndex][iterIdx]] + Pending() && Waiting()[1..] == Pending()
    {
      assert Waiting() == [vecs[1 - insertIndex][iterIdx]] + Pending();
      assert forall i: nat :: i < |Pending()| ==> Pending()[i] == Waiting()[i + 1];
    }

    method LeaveBody()
      requires InBody()
      modifies `iterIdx
      ensures Shape() && iterIdx == old(iterIdx) + 1 <= |vecs[1 - insertIndex]|
      ensures Waiting() == old(Pending()) && Distinct(Waiting())
    {
      iterIdx := iterIdx + 1;
      assert Waiting() == DropFront(vecs[1 - insertIndex], iterIdx) + vecs[insertIndex];
    }

    lemma AllVisited()
      requires Shape() && iterIdx == |vecs[1 - insertIndex]|
      ensures Waiting() == vecs[insertIndex]
    {
    }

    lemma WaitingWhenIdle()
      requires Idle()
      ensures Waiting() == Pending() && Distinct(Waiting())
    {
    }

    lemma NothingLeft()
      requires Shape() && Empty() && iterIdx == 0
      ensures Idle() && Pending() == []
    {
    }

    /** What the iteration has still to deliver before it enters the body at its current place. */
    ghost function Waiting(): seq<T>
      requires Shape() && iterIdx <= |vecs[1 - insertIndex]|
      reads this
    {
      vecs[1 - insertIndex][iterIdx..] + vecs[insertIndex]
    }
  }

  ghost predicate Continues<T>(total: (seq<T>, seq<T>, bool), calls: seq<T>, waiting: seq<T>, script: seq<seq<T>>) {
    var (more, rest, done) := Delivered(waiting, script);
    total == (calls + more, rest, done)
  }

  lemma ContinuesFromStart<T>(waiting: seq<T>, script: seq<seq<T>>)
    ensures Continues(Delivered(waiting, script), [], waiting, script)
  {
    var (more, rest, done) := Delivered(waiting, script);
    assert [] + more == more;
  }

  lemma ContinuesStep<T>(total: (seq<T>, seq<T>, bool), calls: seq<T>, waiting: seq<T>, script: seq<seq<T>>)
    requires Continues(total, calls, waiting, script)
    ensures waiting == [] ==> total == (calls, [], true)
    ensures waiting != [] && script == [] ==> total == (calls + [waiting[0]], waiting[1..], false)
    ensures waiting != [] && script != [] ==>
              Continues(total, calls + [waiting[0]], EnqueuedAll(waiting[1..], script[0]), script[1..])
  {
    if waiting == [] {
      assert calls + [] == calls;
    } else if script != [] {
      var (more, rest, done) := Delivered(EnqueuedAll(waiting[1..], script[0]), script[1..]);
      assert calls + ([waiting[0]] + more) == calls + [waiting[0]] + more;
    }
  }
}
