/**
 * The three visitor interfaces (value, list and compound visitor) flattened into one alphabet of
 * calls. A trace of events is what a producer (the tree walker, the binary reader) delivers and
 * what a consumer (the builder, the binary and text writers) interprets.
 *
 * Which visitor a call goes to is not part of the event: every producer and consumer keeps a
 * stack of the visitors that are alive, and `Protocol` below says which calls each kind of visitor
 * has and what the stack looks like afterwards.
 */
module Events {
  import opened Wrappers
  import opened Binary
  import opened NBTType
  import opened ImmutableArrays

  datatype Event =
    // calls on a value visitor
    | VisitByte(b: Int8)
    | VisitShort(s: Int16)
    | VisitInt(i: Int32)
    | VisitLong(l: Int64)
    | VisitFloat(f: Bits32)
    | VisitDouble(d: Bits64)
    | VisitString(str: string)
    | VisitByteArray(bytes: ImmutableBytes)
    | VisitIntArray(ints: ImmutableInts)
    | VisitLongArray(longs: ImmutableLongs)
    | VisitCompound
    | VisitList
    // a compound visitor's `visitValue(key)`
    | VisitKey(key: string)
    // calls on a list visitor; `VisitValue` is the list visitor's `visitValue()`
    | VisitType(t: Type)
    | VisitLength(n: Int32)
    | VisitValue
    // `visitEnd` of any of the three visitors
    | VisitEnd

  /** The three visitor interfaces. */
  datatype Role = ValueRole | ListRole | CompoundRole

  /** The calls of the value visitor interface. */
  predicate IsValueCall(e: Event)
  {
    !(e.VisitKey? || e.VisitType? || e.VisitLength? || e.VisitValue?)
  }

  /**
   * The visitors alive after `e` is called on the innermost one (the last of `roles`): a value
   * visitor is finished by one of its value calls, or replaced by the compound or list visitor
   * that `visitCompound`/`visitList` return; a compound or list visitor gets a child value visitor
   * from `visitValue` and is finished by `visitEnd`. `None` when the innermost visitor has no
   * such call, or when none is alive (a call the Java types would not let a caller make).
   */
  function Protocol(roles: seq<Role>, e: Event): (r: Option<seq<Role>>)
    ensures r.Some? ==> roles != [] && |r.value| + 1 >= |roles| && |r.value| <= |roles| + 1
    ensures r.Some? && e == VisitEnd ==> r.value == roles[..|roles| - 1]
  {
    if roles == [] then None
    else
      var below := roles[..|roles| - 1];
      match roles[|roles| - 1]
      case ValueRole =>
        if !IsValueCall(e) then None
        else if e == VisitCompound then Some(below + [CompoundRole])
        else if e == VisitList then Some(below + [ListRole])
        else Some(below)
      case ListRole =>
        if e.VisitType? || e.VisitLength? then Some(roles)
        else if e == VisitValue then Some(roles + [ValueRole])
        else if e == VisitEnd then Some(below)
        else None
      case CompoundRole =>
        if e.VisitKey? then Some(roles + [ValueRole])
        else if e == VisitEnd then Some(below)
        else None
  }

  /** The visitors alive after a whole trace, or `None` if some call had no receiver. */
  function Run(roles: seq<Role>, trace: seq<Event>): Option<seq<Role>>
    decreases |trace|
  {
    if trace == [] then Some(roles)
    else match Protocol(roles, trace[0])
      case None => None
      case Some(next) => Run(next, trace[1..])
  }

  /** A trace that drives one value visitor from its first call to its completion. */
  predicate Complete(trace: seq<Event>)
  {
    Run([ValueRole], trace) == Some([])
  }

  lemma {:induction false} RunAppend(roles: seq<Role>, a: seq<Event>, b: seq<Event>)
    ensures Run(roles, a + b) == (match Run(roles, a) case None => None case Some(mid) => Run(mid, b))
    decreases |a|
  {
    if a != [] {
      assert (a + b)[0] == a[0];
      assert (a + b)[1..] == a[1..] + b;
      match Protocol(roles, a[0])
      case None =>
      case Some(next) => RunAppend(next, a[1..], b);
    } else {
      assert a + b == b;
    }
  }

  /**
   * Running a trace below some enclosing visitors leaves them untouched, as long as the trace
   * drives its own visitor to completion.
   */
  lemma {:induction false} RunFramed(outer: seq<Role>, roles: seq<Role>, trace: seq<Event>)
    requires roles != []
    ensures Run(roles, trace) == Some([]) ==> Run(outer + roles, trace) == Some(outer)
    decreases |trace|
  {
    if trace != [] && Run(roles, trace) == Some([]) {
      var next := Protocol(roles, trace[0]).value;
      assert (outer + roles)[..|outer + roles| - 1] == outer + roles[..|roles| - 1];
      assert (outer + roles)[|outer + roles| - 1] == roles[|roles| - 1];
      assert Protocol(outer + roles, trace[0]) == Some(outer + next) by {
        assert outer + roles + [ValueRole] == outer + (roles + [ValueRole]);
        assert outer + roles[..|roles| - 1] + [CompoundRole] == outer + (roles[..|roles| - 1] + [CompoundRole]);
        assert outer + roles[..|roles| - 1] + [ListRole] == outer + (roles[..|roles| - 1] + [ListRole]);
      }
      if next == [] {
        RunNothing(trace[1..]);
        assert outer + next == outer;
      } else {
        RunFramed(outer, next, trace[1..]);
      }
    }
  }

  /** Once no visitor is alive, only the empty trace leaves none alive. */
  lemma RunNothing(trace: seq<Event>)
    ensures Run([], trace) == Some([]) ==> trace == []
  {
    if trace != [] {
      assert Protocol([], trace[0]) == None;
    }
  }

  /** Two traces that each drive a visitor to completion, one after the other. */
  lemma RunSequence(roles: seq<Role>, a: seq<Event>, b: seq<Event>, mid: seq<Role>, last: seq<Role>)
    requires Run(roles, a) == Some(mid) && Run(mid, b) == Some(last)
    ensures Run(roles, a + b) == Some(last)
  {
    RunAppend(roles, a, b);
  }

  /** A container's opening call, calls that leave its visitor alive, then its `visitEnd`. */
  lemma RunEnclosed(opening: seq<Event>, body: seq<Event>, container: Role)
    requires container != ValueRole
    requires Run([ValueRole], opening) == Some([container])
    requires Run([container], body) == Some([container])
    ensures Run([ValueRole], opening + body + [VisitEnd]) == Some([])
  {
    RunAppend([ValueRole], opening, body);
    RunAppend([ValueRole], opening + body, [VisitEnd]);
    assert [VisitEnd][1..] == [];
  }
}
