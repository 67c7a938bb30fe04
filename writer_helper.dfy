/**
 * `AbstractWriterHelper` and the error handling of the writers built on it. All the visitors of
 * one writer share one output stream and one list of caught exceptions: `run(action)` performs
 * the action only while the list is empty and records the `IOException` the action throws
 * instead of passing it on; `close()` closes the stream, recording a failure there too, and
 * throws the first recorded exception with the others attached as suppressed.
 *
 * The stream is a sequence of output elements (bytes for the binary writer, characters for the
 * text writer) with a capacity: a single write that would go past it throws and writes nothing.
 * An action is the list of the single writes it makes, in order.
 */
module WriterHelper {
  import opened Wrappers

  /** The exceptions a writer records. */
  datatype IoError =
    // a write the stream refused, with the length of the output at that point
    | WriteFailed(offset: nat)
    // `close()` of the stream threw
    | CloseFailed
    // the text writer's "String representation doesn't allow end tags"
    | EndTagInText

  /** The output written so far and the exceptions caught so far. */
  datatype Stream<T> = Stream(out: seq<T>, caught: seq<IoError>)

  /** The elements of a list of writes, one after the other. */
  function Flatten<T>(writes: seq<seq<T>>): seq<T>
  {
    if writes == [] then [] else writes[0] + Flatten(writes[1..])
  }

  /** The writes of an action, in order, until the first that the stream refuses. */
  function Perform<T>(capacity: nat, out: seq<T>, writes: seq<seq<T>>): (seq<T>, Option<IoError>)
    decreases |writes|
  {
    if writes == [] then (out, None)
    else if |out| + |writes[0]| > capacity then (out, Some(WriteFailed(|out|)))
    else Perform(capacity, out + writes[0], writes[1..])
  }

  /** `run(action)`: nothing once an exception is recorded; otherwise the action, recording its exception. */
  function RunOf<T>(capacity: nat, st: Stream<T>, writes: seq<seq<T>>): Stream<T>
  {
    if st.caught != [] then st
    else
      var (out, err) := Perform(capacity, st.out, writes);
      Stream(out, if err.Some? then [err.value] else [])
  }

  /** What `throwException()` throws for a list of caught exceptions. */
  datatype Thrown = Thrown(first: IoError, suppressed: seq<IoError>)

  function ThrowOf(caught: seq<IoError>): (r: Option<Thrown>)
  {
    if caught == [] then None else Some(Thrown(caught[0], caught[1..]))
  }

  lemma {:induction false} FlattenAppend<T>(a: seq<seq<T>>, b: seq<seq<T>>)
    ensures Flatten(a + b) == Flatten(a) + Flatten(b)
  {
    if a == [] {
      assert a + b == b;
    } else {
      assert (a + b)[0] == a[0] && (a + b)[1..] == a[1..] + b;
      FlattenAppend(a[1..], b);
      calc {
        Flatten(a + b);
        a[0] + Flatten(a[1..] + b);
        a[0] + (Flatten(a[1..]) + Flatten(b));
        (a[0] + Flatten(a[1..])) + Flatten(b);
        Flatten(a) + Flatten(b);
      }
    }
  }

  /** A one-write action writes that write. */
  lemma FlattenSingle<T>(x: seq<T>)
    ensures Flatten([x]) == x
  {
    assert [x][1..] == [];
    assert x + [] == x;
  }

  lemma FlattenCons<T>(x: seq<T>, xs: seq<seq<T>>)
    ensures Flatten([x] + xs) == x + Flatten(xs)
  {
    assert ([x] + xs)[0] == x && ([x] + xs)[1..] == xs;
  }

  /** The groupings of a concatenation the writers' proofs need spelled out. */
  lemma Associate<T>(a: seq<T>, b: seq<T>, c: seq<T>, d: seq<T>)
    ensures a + b + c == a + (b + c)
    ensures a + b + c + d == a + (b + (c + d))
    ensures a + b + c + d == a + (b + c + d)
  {
  }

  /**
   * An action succeeds exactly when all its output fits, and then appends all of it; a failing
   * action leaves the output it had written before the refused write, within the capacity.
   */
  lemma {:induction false} PerformSpec<T>(capacity: nat, out: seq<T>, writes: seq<seq<T>>)
    requires |out| <= capacity
    ensures var (o, err) := Perform(capacity, out, writes);
      && (err.None? <==> |out| + |Flatten(writes)| <= capacity)
      && (err.None? ==> o == out + Flatten(writes))
      && (err.Some? ==> err == Some(WriteFailed(|o|)) && out <= o && o <= out + Flatten(writes))
      && |o| <= capacity
    decreases |writes|
  {
    if writes != [] {
      var w := writes[0];
      assert Flatten(writes) == w + Flatten(writes[1..]);
      if |out| + |w| <= capacity {
        PerformSpec(capacity, out + w, writes[1..]);
        assert out + w + Flatten(writes[1..]) == out + Flatten(writes);
        var (o, err) := Perform(capacity, out + w, writes[1..]);
        if err.Some? {
          assert out <= out + w;
        }
      } else {
        assert |Flatten(writes)| >= |w|;
      }
    }
  }

  /** An action that has finished its writes goes on with the next one's. */
  lemma {:induction false} PerformAppend<T>(capacity: nat, out: seq<T>, a: seq<seq<T>>, b: seq<seq<T>>)
    ensures Perform(capacity, out, a + b)
         == (var (o, err) := Perform(capacity, out, a); if err.Some? then (o, err) else Perform(capacity, o, b))
    decreases |a|
  {
    if a == [] {
      assert a + b == b;
    } else {
      assert (a + b)[0] == a[0] && (a + b)[1..] == a[1..] + b;
      if |out| + |a[0]| <= capacity {
        PerformAppend(capacity, out + a[0], a[1..], b);
      }
    }
  }

  /**
   * Two `run` calls in a row do what one `run` of both actions does: the second is skipped once
   * the first has recorded an exception.
   */
  lemma RunTwice<T>(capacity: nat, st: Stream<T>, a: seq<seq<T>>, b: seq<seq<T>>)
    ensures RunOf(capacity, RunOf(capacity, st, a), b) == RunOf(capacity, st, a + b)
  {
    if st.caught == [] {
      PerformAppend(capacity, st.out, a, b);
    }
  }

  /**
   * On a fresh stream, actions whose output fits leave all of it and no exception; otherwise
   * they leave a strict prefix of it and the failure of the write that went past the capacity.
   */
  lemma RunFromFresh<T>(capacity: nat, writes: seq<seq<T>>)
    ensures var st := RunOf(capacity, Stream([], []), writes);
      && (|Flatten(writes)| <= capacity ==> st == Stream(Flatten(writes), []))
      && (|Flatten(writes)| > capacity ==> st.out < Flatten(writes) && st.caught == [WriteFailed(|st.out|)])
  {
    PerformSpec(capacity, [], writes);
    assert [] + Flatten(writes) == Flatten(writes);
    var (o, err) := Perform(capacity, [], writes);
    if |Flatten(writes)| > capacity {
      assert o <= Flatten(writes) && |o| < |Flatten(writes)|;
    }
  }

  /** Through `run` alone at most one exception is ever recorded, and a recorded one stays first. */
  lemma RunKeepsFirstFailure<T>(capacity: nat, st: Stream<T>, writes: seq<seq<T>>)
    requires |st.caught| <= 1 && |st.out| <= capacity
    ensures |RunOf(capacity, st, writes).caught| <= 1
    ensures st.caught != [] ==> RunOf(capacity, st, writes) == st
    ensures RunOf(capacity, st, writes).caught != [] ==>
      RunOf(capacity, st, writes).caught[0] == (if st.caught != [] then st.caught[0] else WriteFailed(|RunOf(capacity, st, writes).out|))
  {
    if st.caught == [] {
      PerformSpec(capacity, st.out, writes);
    }
  }

  /**
   * The output and the exception list that `AbstractWriterHelper` objects share: a stream of a
   * given capacity whose `close()` may fail.
   */
  class Sink<T> {
    const capacity: nat
    const closeFails: bool
    var out: seq<T>
    var caught: seq<IoError>

    function State(): Stream<T>
      reads this
    {
      Stream(out, caught)
    }

    constructor (capacity: nat, closeFails: bool)
      ensures this.capacity == capacity && this.closeFails == closeFails
      ensures State() == Stream([], [])
    {
      this.capacity := capacity;
      this.closeFails := closeFails;
      out := [];
      caught := [];
    }

    /** `run(action)` for an action making the given writes. */
    method Run(writes: seq<seq<T>>)
      modifies this
      ensures State() == RunOf(capacity, old(State()), writes)
    {
      if caught != [] {
        return;
      }
      var i := 0;
      while i < |writes|
        invariant 0 <= i <= |writes| && caught == []
        invariant Perform(capacity, out, writes[i..]) == Perform(capacity, old(out), writes)
      {
        assert writes[i..][0] == writes[i] && writes[i..][1..] == writes[i + 1..];
        if |out| + |writes[i]| > capacity {
          caught := [WriteFailed(|out|)];
          return;
        }
        out := out + writes[i];
        i := i + 1;
      }
    }

    /** Adds an exception unless one is recorded already (the text writer's value `visitEnd`). */
    method RecordFirst(e: IoError)
      modifies this
      ensures out == old(out)
      ensures caught == if old(caught) == [] then [e] else old(caught)
    {
      if caught == [] {
        caught := [e];
      }
    }

    /**
     * `close()`: `closeParentQuietly()`, then `throwException()`, which attaches every caught
     * exception after the first to the first as suppressed and throws it.
     */
    method Close() returns (thrown: Option<Thrown>)
      modifies this
      ensures out == old(out)
      ensures caught == old(caught) + (if closeFails then [CloseFailed] else [])
      ensures thrown == ThrowOf(caught)
    {
      if closeFails {
        caught := caught + [CloseFailed];
      }
      if caught == [] {
        return None;
      }
      var first := caught[0];
      var suppressed := [];
      var i := 1;
      while i < |caught|
        invariant 1 <= i <= |caught|
        invariant suppressed == caught[1..i]
      {
        suppressed := suppressed + [caught[i]];
        i := i + 1;
      }
      assert caught[1..i] == caught[1..];
      return Some(Thrown(first, suppressed));
    }
  }

  /**
   * After actions run through `run` alone, `close()` throws the first write failure, with a
   * failed close as its only suppressed exception; with no write failure it throws the close
   * failure or nothing.
   */
  lemma CloseAfterRuns<T>(st: Stream<T>, closeFails: bool)
    requires |st.caught| <= 1
    ensures var t := ThrowOf(st.caught + (if closeFails then [CloseFailed] else []));
      && (t.None? <==> st.caught == [] && !closeFails)
      && (st.caught != [] ==> t == Some(Thrown(st.caught[0], if closeFails then [CloseFailed] else [])))
      && (st.caught == [] && closeFails ==> t == Some(Thrown(CloseFailed, [])))
  {
    if st.caught == [] {
      assert st.caught + [CloseFailed] == [CloseFailed] && [CloseFailed][1..] == [];
    }
  }
}
