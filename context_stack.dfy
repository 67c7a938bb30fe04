/**
 * `ContextStackEvaluator`: a depth-first traversal without recursion. A work stack starts with
 * one context; the loop evaluates the top context until the stack is empty. A Flat context is
 * evaluated once and replaced by its successor, if it has one; a Recursive context stays below
 * each successor it hands out and is popped when it hands out none.
 *
 * A context's evaluation is the caller's (the tree walker, the binary reader): `Advance` is the
 * stack update after one evaluation, with the top of the Java deque as the last element here.
 * A Recursive context carries its iterator, so its state after the evaluation is passed in.
 */
module ContextStackEvaluator {
  import opened Wrappers

  datatype ContextType = Flat | Recursive

  /**
   * The stack after the top context was evaluated to `updated` and returned `out`. The contexts
   * below the top are untouched, and the size changes by at most one.
   */
  function Advance<C>(stack: seq<C>, kind: ContextType, updated: C, out: Option<C>): (r: seq<C>)
    requires stack != []
    ensures |stack| - 1 <= |r| <= |stack| + 1
    ensures r[..|stack| - 1] == stack[..|stack| - 1]
    ensures kind == Flat ==> (|r| == |stack| - 1 <==> out.None?)
    ensures kind == Flat && out.Some? ==> |r| == |stack| && r[|r| - 1] == out.value
    ensures kind == Recursive ==> (|r| == |stack| - 1 <==> out.None?)
    ensures kind == Recursive && out.Some? ==> |r| == |stack| + 1 && r[|stack| - 1] == updated && r[|stack|] == out.value
    ensures r == [] <==> |stack| == 1 && out.None?
  {
    var below := stack[..|stack| - 1];
    match kind
    case Flat =>
      // popped, then the successor pushed
      if out.Some? then below + [out.value] else below
    case Recursive =>
      // kept while it hands out successors
      if out.Some? then below + [updated] + [out.value] else below
  }

  /** What one evaluation of a context did: its state afterwards, its successor, the calls made. */
  datatype Step<C, E> = Step(updated: C, out: Option<C>, calls: seq<E>)

  /**
   * The calls of a naive recursive traversal of `c` (its successors included) split as the
   * evaluator needs them: the calls made now, then the successor's, then (for a Recursive
   * context that handed out a successor) the updated context's.
   */
  ghost predicate Splits<C, E>(kind: ContextType, rest: C -> seq<E>, c: C, s: Step<C, E>)
  {
    |s.calls| >= 1 &&
    if s.out.None? then rest(c) == s.calls
    else if kind == Flat then rest(c) == s.calls + rest(s.out.value)
    else rest(c) == s.calls + rest(s.out.value) + rest(s.updated)
  }

  /** The calls the whole stack has still to make, the top first. */
  function Pending<C, E>(rest: C -> seq<E>, stack: seq<C>): seq<E>
  {
    if stack == [] then [] else rest(stack[|stack| - 1]) + Pending(rest, stack[..|stack| - 1])
  }

  lemma PendingPush<C, E>(rest: C -> seq<E>, below: seq<C>, c: C)
    ensures Pending(rest, below + [c]) == rest(c) + Pending(rest, below)
  {
    assert (below + [c])[..|below|] == below;
  }

  /** One iteration turns the pending calls into the calls made plus the new pending calls. */
  lemma StepPending<C, E>(rest: C -> seq<E>, below: seq<C>, top: C, kind: ContextType, s: Step<C, E>)
    requires Splits(kind, rest, top, s)
    ensures Pending(rest, below + [top]) == s.calls + Pending(rest, Advance(below + [top], kind, s.updated, s.out))
  {
    var stack := below + [top];
    assert stack[..|stack| - 1] == below;
    PendingPush(rest, below, top);
    var next := Advance(stack, kind, s.updated, s.out);
    if s.out.None? {
      assert next == below;
    } else if kind == Flat {
      assert next == below + [s.out.value];
      PendingPush(rest, below, s.out.value);
    } else {
      assert next == below + [s.updated] + [s.out.value];
      PendingPush(rest, below, s.updated);
      PendingPush(rest, below + [s.updated], s.out.value);
    }
  }

  /**
   * `evaluate(c)`: the stack starts as `[c]`; while it is not empty the top context is evaluated
   * and the stack advanced. When every evaluation splits the recursive traversal `rest`, the
   * calls made are exactly `rest(start)`, in order.
   */
  method Evaluate<C, E>(start: C, kind: C -> ContextType, evaluate: C -> Step<C, E>, ghost rest: C -> seq<E>)
    returns (trace: seq<E>)
    requires forall c :: Splits(kind(c), rest, c, evaluate(c))
    ensures trace == rest(start)
  {
    var stack := [start];
    trace := [];
    PendingPush(rest, [], start);
    while stack != []
      invariant forall c :: Splits(kind(c), rest, c, evaluate(c))
      invariant trace + Pending(rest, stack) == rest(start)
      decreases |rest(start)| - |trace|
    {
      var top := stack[|stack| - 1];
      var s := evaluate(top);
      assert Splits(kind(top), rest, top, s);
      assert stack == stack[..|stack| - 1] + [top];
      StepPending(rest, stack[..|stack| - 1], top, kind(top), s);
      trace := trace + s.calls;
      stack := Advance(stack, kind(top), s.updated, s.out);
    }
  }
}
