/**
 * What `NbtReader` reads from a byte stream, as recursive functions over the bytes still unread:
 * the visitor calls it makes, the bytes it leaves, and the exception that stops it, if any. The
 * calls made before an exception are kept, because the Java reader hands each call to its
 * visitor as soon as it has read the bytes for it.
 *
 * The two snapshots differ in their type table (ids 0 to 12, or 0 to 10) and in the value
 * switch, where the legacy reader has no branch for the array types and throws
 * `IllegalArgumentException` from its `default` branch.
 */
module Decoding {
  import opened Wrappers
  import opened Binary
  import opened NBTType
  import opened ImmutableArrays
  import opened Events
  import opened ContextStackEvaluator
  import Utf8

  datatype Snapshot = Current | Legacy

  /** The exceptions a read ends with. */
  datatype ReadError =
    // `EOFException`: the stream ended inside a value
    | Truncated
    // `IOException("Unknown type: ...")`: a type byte no constant has
    | UnknownType(id: int)
    // `IOException("Size exceeds ...")`: an array length outside [0, 0x7FFFFFF7]
    | SizeExceeds(length: Int32)
    // `IOException("Lists may not contain end tags")`
    | EndInList
    // `IllegalArgumentException("Type: ...")` from the legacy value switch
    | UnsupportedType(t: Type)

  /** The largest array length the reader accepts. */
  const MaxArrayLength: int := 0x7FFF_FFF7

  /** A value read from the front of the input, and the input after it. */
  datatype Read<T> = Read(value: T, rest: seq<uint8>)

  /** `readFully` of `k` bytes. */
  function ReadBytes(s: seq<uint8>, k: nat): (r: Result<Read<seq<uint8>>, ReadError>)
    ensures r.Success? <==> k <= |s|
    ensures r.Success? ==> r.value.value == s[..k] && r.value.rest == s[k..]
    ensures r.Failure? ==> r.error == Truncated
  {
    if |s| < k then Failure(Truncated) else Success(Read(s[..k], s[k..]))
  }

  /** `readByte`, `readShort`, `readInt`, `readLong`: `n` bytes, two's complement. */
  function ReadSigned(s: seq<uint8>, n: Width): (r: Result<Read<int>, ReadError>)
    ensures r.Success? <==> n <= |s|
    ensures r.Success? ==> r.value.value == DecodeSigned(s[..n]) && r.value.rest == s[n..]
    ensures r.Success? ==> InSigned(r.value.value, n)
    ensures r.Failure? ==> r.error == Truncated
  {
    var b :- ReadBytes(s, n);
    DecodeSignedInSigned(b.value, n);
    Success(Read(DecodeSigned(b.value), b.rest))
  }

  /** `readFloat`, `readDouble`: `n` bytes taken as the raw bits of the value. */
  function ReadUnsigned(s: seq<uint8>, n: Width): (r: Result<Read<nat>, ReadError>)
    ensures r.Success? <==> n <= |s|
    ensures r.Success? ==> r.value.value == DecodeUnsigned(s[..n]) && r.value.rest == s[n..]
    ensures r.Success? ==> r.value.value < Modulus(n)
    ensures r.Failure? ==> r.error == Truncated
  {
    var b :- ReadBytes(s, n);
    Success(Read(DecodeUnsigned(b.value), b.rest))
  }

  /** The type table of a snapshot. */
  function Lookup(snap: Snapshot, id: int): (r: Result<Type, LookupError>)
    ensures r.Success? <==> 0 <= id <= (if snap == Current then 12 else 10)
    ensures r.Success? ==> Id(r.value) == id
  {
    LegacyGetByIdSpec(id);
    if snap == Current then GetById(id) else LegacyGetById(id)
  }

  /** `nextType()`: a signed byte, looked up in the type table. */
  function ReadType(snap: Snapshot, s: seq<uint8>): (r: Result<Read<Type>, ReadError>)
    ensures |s| == 0 ==> r == Failure(Truncated)
    ensures |s| >= 1 ==> (r.Success? <==> Lookup(snap, DecodeSigned(s[..1])).Success?)
    ensures r.Success? ==> |s| >= 1 && r.value.rest == s[1..] && Id(r.value.value) == DecodeSigned(s[..1])
    ensures |s| >= 1 && r.Failure? ==> r.error == UnknownType(DecodeSigned(s[..1]))
  {
    var b :- ReadSigned(s, 1);
    match Lookup(snap, b.value)
    case Failure(_) => Failure(UnknownType(b.value))
    case Success(t) =>
      Success(Read(t, b.rest))
  }

  /** `nextString()`: an unsigned 16-bit length, then that many bytes decoded as UTF-8. */
  function ReadString(s: seq<uint8>): (r: Result<Read<string>, ReadError>)
    ensures r.Success? ==> |s| >= 2 && |r.value.rest| <= |s| - 2
  {
    var len :- ReadBytes(s, 2);
    var body :- ReadBytes(len.rest, DecodeUnsigned(len.value));
    Success(Read(Utf8.Decode(body.value), body.rest))
  }

  /** The length in front of an array: a signed int that must lie in [0, 0x7FFFFFF7]. */
  function ReadArrayLength(s: seq<uint8>): (r: Result<Read<nat>, ReadError>)
    ensures r.Success? ==> |s| >= 4 && r.value.rest == s[4..]
    ensures r.Success? ==> r.value.value == DecodeSigned(s[..4]) && r.value.value <= MaxArrayLength
    ensures r.Failure? && |s| >= 4 ==> var len := DecodeSigned(s[..4]); len < 0 || len > MaxArrayLength
    ensures |s| < 4 ==> r == Failure(Truncated)
  {
    var len :- ReadSigned(s, 4);
    if len.value < 0 || len.value > MaxArrayLength then Failure(SizeExceeds(len.value))
    else Success(Read(len.value as nat, len.rest))
  }

  /** `count` values of `n` bytes each, read signed. */
  function ReadValues(s: seq<uint8>, n: Width, count: nat): (r: Result<Read<seq<int>>, ReadError>)
    ensures r.Success? <==> Span(n, count) <= |s|
    ensures r.Success? ==> r.value.value == DecodeAll(s, n, count) && r.value.rest == s[Span(n, count)..]
    ensures r.Failure? ==> r.error == Truncated
  {
    if |s| < Span(n, count) then Failure(Truncated) else Success(Read(DecodeAll(s, n, count), s[Span(n, count)..]))
  }

  /**
   * One value of a type other than Compound and List: its single visitor call. An End value
   * reads nothing; arrays read their length, then their elements.
   */
  function ReadLeaf(snap: Snapshot, t: Type, s: seq<uint8>): (r: Result<Read<Event>, ReadError>)
    requires t != Compound && t != List
    ensures r.Success? ==> |r.value.rest| <= |s|
    ensures r.Success? ==> IsValueCall(r.value.value) && r.value.value != VisitCompound && r.value.value != VisitList
    ensures t == End ==> r == Success(Read(VisitEnd, s))
    ensures snap == Legacy && (t == ByteArray || t == IntArray || t == LongArray) ==> r == Failure(UnsupportedType(t))
  {
    match t
    case End => Success(Read(VisitEnd, s))
    case Byte =>
      var x :- ReadSigned(s, 1);
      Success(Read(VisitByte(x.value), x.rest))
    case Short =>
      var x :- ReadSigned(s, 2);
      Success(Read(VisitShort(x.value), x.rest))
    case Int =>
      var x :- ReadSigned(s, 4);
      Success(Read(VisitInt(x.value), x.rest))
    case Long =>
      var x :- ReadSigned(s, 8);
      Success(Read(VisitLong(x.value), x.rest))
    case Float =>
      var x :- ReadUnsigned(s, 4);
      Success(Read(VisitFloat(x.value), x.rest))
    case Double =>
      var x :- ReadUnsigned(s, 8);
      Success(Read(VisitDouble(x.value), x.rest))
    case String =>
      var x :- ReadString(s);
      Success(Read(VisitString(x.value), x.rest))
    case ByteArray | IntArray | LongArray =>
      if snap == Legacy then Failure(UnsupportedType(t)) else ReadArray(t, s)
  }

  /** An array value: its length, then its elements. */
  function ReadArray(t: Type, s: seq<uint8>): (r: Result<Read<Event>, ReadError>)
    requires t == ByteArray || t == IntArray || t == LongArray
    ensures r.Success? ==> |r.value.rest| <= |s|
  {
    var len :- ReadArrayLength(s);
    match t
    case ByteArray =>
      var x :- ReadValues(len.rest, 1, len.value);
      DecodeAllInSigned(len.rest, 1, len.value);
      Success(Read(VisitByteArray(ImmutableBytes(x.value)), x.rest))
    case IntArray =>
      var x :- ReadValues(len.rest, 4, len.value);
      DecodeAllInSigned(len.rest, 4, len.value);
      Success(Read(VisitIntArray(ImmutableInts(x.value)), x.rest))
    case LongArray =>
      var x :- ReadValues(len.rest, 8, len.value);
      DecodeAllInSigned(len.rest, 8, len.value);
      Success(Read(VisitLongArray(ImmutableLongs(x.value)), x.rest))
  }

  /** A list's header: the entry type, then a signed length; End entries need a length of at most 0. */
  function ReadListHeader(snap: Snapshot, s: seq<uint8>): (r: Result<Read<(Type, Int32)>, ReadError>)
    ensures r.Success? ==> |s| >= 5 && r.value.rest == s[5..]
    ensures ReadType(snap, s).Failure? ==> r == Failure(ReadType(snap, s).error)
    ensures ReadType(snap, s).Success? && |s| >= 5 ==>
      var t := ReadType(snap, s).value.value;
      var n := DecodeSigned(s[1..5]);
      && (r.Success? <==> !(t == End && n > 0))
      && (r.Success? ==> r.value.value.0 == t && r.value.value.1 == n)
      && (r.Failure? ==> r.error == EndInList)
  {
    var t :- ReadType(snap, s);
    var n :- ReadSigned(t.rest, 4);
    assert t.rest[..4] == s[1..5];
    if t.value == End && n.value > 0 then Failure(EndInList)
    else Success(Read((t.value, n.value as Int32), n.rest))
  }

  /** The calls made, the input left, and the exception that ended the read, if any. */
  datatype Decoded = Decoded(events: seq<Event>, rest: seq<uint8>, error: Option<ReadError>)

  /** An exception before any call; what remains of the input is of no further interest. */
  function Fail(e: ReadError): Decoded
  {
    Decoded([], [], Some(e))
  }

  /** Calls made before the rest of a read. */
  function Prepend(events: seq<Event>, d: Decoded): Decoded
  {
    d.(events := events + d.events)
  }

  /**
   * `ValueContext.evaluate()` for a value of type `t`, followed by everything its successors
   * read: a compound's entries, a list's elements.
   */
  function DecodeValue(snap: Snapshot, t: Type, s: seq<uint8>): (r: Decoded)
    ensures |r.rest| <= |s|
    decreases |s|, 2, 0
  {
    match t
    case Compound => Prepend([VisitCompound], DecodeEntries(snap, s))
    case List =>
      (match ReadListHeader(snap, s)
       case Failure(e) => Fail(e)
       case Success(h) =>
         var d := DecodeElems(snap, h.value.0, h.value.1, h.rest);
         Prepend([VisitList, VisitType(h.value.0), VisitLength(h.value.1)], d))
    case _ =>
      (match ReadLeaf(snap, t, s)
       case Failure(e) => Fail(e)
       case Success(x) => Decoded([x.value], x.rest, None))
  }

  /**
   * A compound's entries (`CompoundContext.evaluate()` until it meets End): per entry a type,
   * a name, the `visitValue(name)` call and the value; End makes `visitEnd`.
   */
  function DecodeEntries(snap: Snapshot, s: seq<uint8>): (r: Decoded)
    ensures |r.rest| <= |s|
    decreases |s|, 1, 0
  {
    match ReadType(snap, s)
    case Failure(e) => Fail(e)
    case Success(t) =>
      if t.value == End then Decoded([VisitEnd], t.rest, None)
      else
        match ReadString(t.rest)
        case Failure(e) => Fail(e)
        case Success(name) =>
          var d := DecodeValue(snap, t.value, name.rest);
          if d.error.Some? then Prepend([VisitKey(name.value)], d)
          else
            var more := DecodeEntries(snap, d.rest);
            Prepend([VisitKey(name.value)] + d.events, more)
  }

  /**
   * A list's elements (`ListContext.evaluate()` while its counter is positive): per element
   * the `visitValue()` call and the value; then `visitEnd`. A length of zero or less reads no
   * element.
   */
  function DecodeElems(snap: Snapshot, t: Type, left: int, s: seq<uint8>): (r: Decoded)
    ensures |r.rest| <= |s|
    decreases |s|, 3, left
  {
    if left <= 0 then Decoded([VisitEnd], s, None)
    else
      var d := DecodeValue(snap, t, s);
      if d.error.Some? then Prepend([VisitValue], d)
      else
        var more := DecodeElems(snap, t, left - 1, d.rest);
        Prepend([VisitValue] + d.events, more)
  }

  /** What the constructor reads: the root's type, and its name unless the root is End. */
  datatype Header = Header(rootType: Type, name: string, body: seq<uint8>)

  function ReadHeader(snap: Snapshot, s: seq<uint8>): (r: Result<Header, ReadError>)
    ensures r.Success? ==> |r.value.body| < |s|
    ensures r.Success? && r.value.rootType == End ==> r.value.name == [] && r.value.body == s[1..]
  {
    var t :- ReadType(snap, s);
    if t.value == End then Success(Header(End, "", t.rest))
    else
      var name :- ReadString(t.rest);
      Success(Header(t.value, name.value, name.rest))
  }

  /** `applyVisitor`: the root value and everything below it. */
  function DecodeBody(snap: Snapshot, h: Header): Decoded
  {
    DecodeValue(snap, h.rootType, h.body)
  }

  /**
   * The contexts on the reader's evaluator stack: a value of a known type (Flat), a list with
   * its counter of elements left, and a compound (both Recursive).
   */
  datatype ReaderContext = ValueContext(t: Type) | ListContext(elemType: Type, left: int) | CompoundContext

  function KindOf(c: ReaderContext): ContextType
  {
    if c.ValueContext? then Flat else Recursive
  }

  /** What a context reads from `s`, its successors included. */
  function ContextRest(snap: Snapshot, c: ReaderContext, s: seq<uint8>): (r: Decoded)
  {
    match c
    case ValueContext(t) => DecodeValue(snap, t, s)
    case ListContext(t, left) => DecodeElems(snap, t, left, s)
    case CompoundContext => DecodeEntries(snap, s)
  }

  /** `ContextRest` of one snapshot, as the function the stack lemmas below take. */
  function RestOf(snap: Snapshot): (ReaderContext, seq<uint8>) -> Decoded
  {
    (c, s) => ContextRest(snap, c, s)
  }

  /** A read `d`, followed (unless it failed) by what the contexts `below` read after it. */
  function Then(rest: (ReaderContext, seq<uint8>) -> Decoded, d: Decoded, below: seq<ReaderContext>): Decoded
    decreases |below|, 1
  {
    if d.error.Some? then d else Prepend(d.events, PendingRun(rest, below, d.rest))
  }

  /** What the whole stack reads from `s`, the top (last) context first. */
  function PendingRun(rest: (ReaderContext, seq<uint8>) -> Decoded, stack: seq<ReaderContext>, s: seq<uint8>): Decoded
    decreases |stack|, 0
  {
    if stack == [] then Decoded([], s, None)
    else Then(rest, rest(stack[|stack| - 1], s), stack[..|stack| - 1])
  }

  /**
   * One `evaluate()` of `c` on input `s` made the calls of `st`, left input `s2` and handed out
   * `st.out`, and what `c` reads in full is exactly that: the calls, then what the successor
   * reads, then (for a Recursive context) what its updated self reads.
   */
  ghost predicate StepSplits(rest: (ReaderContext, seq<uint8>) -> Decoded, c: ReaderContext, s: seq<uint8>,
                             st: Step<ReaderContext, Event>, s2: seq<uint8>)
  {
    |st.calls| >= 1 &&
    if st.out.None? then rest(c, s) == Decoded(st.calls, s2, None)
    else if KindOf(c) == Flat then rest(c, s) == Prepend(st.calls, rest(st.out.value, s2))
    else
      var d := rest(st.out.value, s2);
      rest(c, s) == Prepend(st.calls, if d.error.Some? then d else Prepend(d.events, rest(st.updated, d.rest)))
  }

  lemma PrependPrepend(a: seq<Event>, b: seq<Event>, d: Decoded)
    ensures Prepend(a, Prepend(b, d)) == Prepend(a + b, d)
  {
    assert a + (b + d.events) == a + b + d.events;
  }

  lemma ThenPrepend(rest: (ReaderContext, seq<uint8>) -> Decoded, events: seq<Event>, d: Decoded, below: seq<ReaderContext>)
    ensures Then(rest, Prepend(events, d), below) == Prepend(events, Then(rest, d, below))
  {
  }

  /** A read followed by a stack of one context. */
  lemma ThenSingle(rest: (ReaderContext, seq<uint8>) -> Decoded, d: Decoded, u: ReaderContext)
    ensures Then(rest, d, [u]) == if d.error.Some? then d else Prepend(d.events, rest(u, d.rest))
  {
    if d.error.None? {
      var e := rest(u, d.rest);
      assert [u][..0] == [];
      assert PendingRun(rest, [u], d.rest) == Then(rest, e, []);
      assert Then(rest, e, []) == e;
    }
  }

  /** A read followed by one more context and then `below` is the read followed by the stack. */
  lemma ThenPush(rest: (ReaderContext, seq<uint8>) -> Decoded, d: Decoded, u: ReaderContext, below: seq<ReaderContext>)
    ensures
      (if d.error.Some? then Then(rest, d, below)
       else Then(rest, Prepend(d.events, rest(u, d.rest)), below))
      == Then(rest, d, below + [u])
  {
    var stack := below + [u];
    assert stack[..|stack| - 1] == below;
    if d.error.None? {
      ThenPrepend(rest, d.events, rest(u, d.rest), below);
    }
  }

  /** An evaluation that read without failing turns the stack's read into its calls plus the new stack's read. */
  lemma StepPendingRun(rest: (ReaderContext, seq<uint8>) -> Decoded, below: seq<ReaderContext>, c: ReaderContext,
                       s: seq<uint8>, st: Step<ReaderContext, Event>, s2: seq<uint8>)
    requires StepSplits(rest, c, s, st, s2)
    ensures PendingRun(rest, below + [c], s)
         == Prepend(st.calls, PendingRun(rest, Advance(below + [c], KindOf(c), st.updated, st.out), s2))
  {
    var stack := below + [c];
    assert stack[..|stack| - 1] == below;
    var next := Advance(stack, KindOf(c), st.updated, st.out);
    if st.out.None? {
      assert next == below;
    } else if KindOf(c) == Flat {
      assert next == below + [st.out.value];
      assert next[..|next| - 1] == below;
      ThenPrepend(rest, st.calls, rest(st.out.value, s2), below);
    } else {
      var d := rest(st.out.value, s2);
      assert next == below + [st.updated] + [st.out.value];
      assert next[..|next| - 1] == below + [st.updated];
      ThenPush(rest, d, st.updated, below);
      var x := if d.error.Some? then d else Prepend(d.events, rest(st.updated, d.rest));
      ThenPrepend(rest, st.calls, x, below);
    }
  }

  /** The evaluator loop's invariant survives one evaluation that read without failing. */
  lemma StepKeepsRun(rest: (ReaderContext, seq<uint8>) -> Decoded, trace: seq<Event>, below: seq<ReaderContext>,
                     c: ReaderContext, s: seq<uint8>, st: Step<ReaderContext, Event>, s2: seq<uint8>, spec: Decoded)
    requires StepSplits(rest, c, s, st, s2)
    requires Prepend(trace, PendingRun(rest, below + [c], s)) == spec
    ensures Prepend(trace + st.calls, PendingRun(rest, Advance(below + [c], KindOf(c), st.updated, st.out), s2)) == spec
    ensures |trace| < |trace + st.calls| <= |spec.events|
  {
    var next := PendingRun(rest, Advance(below + [c], KindOf(c), st.updated, st.out), s2);
    StepPendingRun(rest, below, c, s, st, s2);
    PrependPrepend(trace, st.calls, next);
  }

  /** An evaluation that failed ends the whole stack's read with its exception. */
  lemma StepPendingFail(rest: (ReaderContext, seq<uint8>) -> Decoded, below: seq<ReaderContext>, c: ReaderContext,
                        s: seq<uint8>, e: ReadError)
    requires rest(c, s) == Fail(e)
    ensures PendingRun(rest, below + [c], s) == Fail(e)
  {
    var stack := below + [c];
    assert stack[..|stack| - 1] == below;
  }

  /** The read of a stack of one context is that context's read. */
  lemma PendingRunSingle(rest: (ReaderContext, seq<uint8>) -> Decoded, c: ReaderContext, s: seq<uint8>)
    ensures PendingRun(rest, [c], s) == rest(c, s)
  {
    ThenSingle(rest, Decoded([], s, None), c);
    assert [c] == [] + [c];
    ThenPush(rest, Decoded([], s, None), c, []);
  }

  /** `ListContext.evaluate()` with elements left: one `visitValue()`, the element, then the rest of the list. */
  lemma ListStepSplits(snap: Snapshot, t: Type, left: int, s: seq<uint8>)
    requires left > 0
    ensures StepSplits(RestOf(snap), ListContext(t, left), s, Step(ListContext(t, left - 1), Some(ValueContext(t)), [VisitValue]), s)
  {
    var d := DecodeValue(snap, t, s);
    ElemsUnfold(snap, t, left, s);
    RestOfContexts(snap, t, left, s, d.rest);
    RecursiveSplits(RestOf(snap), ListContext(t, left), s, [VisitValue], ValueContext(t), ListContext(t, left - 1), s);
  }

  /** `RestOf` applied to the contexts of a list step. */
  lemma RestOfContexts(snap: Snapshot, t: Type, left: int, s: seq<uint8>, s2: seq<uint8>)
    ensures RestOf(snap)(ValueContext(t), s) == DecodeValue(snap, t, s)
    ensures RestOf(snap)(ListContext(t, left), s) == DecodeElems(snap, t, left, s)
    ensures RestOf(snap)(ListContext(t, left - 1), s2) == DecodeElems(snap, t, left - 1, s2)
  {
  }

  /** A Recursive context whose read is its calls, its successor's read, then its updated self's read. */
  lemma RecursiveSplits(rest: (ReaderContext, seq<uint8>) -> Decoded, c: ReaderContext, s: seq<uint8>, calls: seq<Event>,
                        child: ReaderContext, updated: ReaderContext, s2: seq<uint8>)
    requires !c.ValueContext? && |calls| >= 1
    requires var d := rest(child, s2);
      rest(c, s) == Prepend(calls, if d.error.Some? then d else Prepend(d.events, rest(updated, d.rest)))
    ensures StepSplits(rest, c, s, Step(updated, Some(child), calls), s2)
  {
  }

  /** `DecodeElems` with an element left: the element's read, then (unless it failed) the other elements. */
  lemma ElemsUnfold(snap: Snapshot, t: Type, left: int, s: seq<uint8>)
    requires left > 0
    ensures var d := DecodeValue(snap, t, s);
      DecodeElems(snap, t, left, s) == Prepend([VisitValue], if d.error.Some? then d else Prepend(d.events, DecodeElems(snap, t, left - 1, d.rest)))
  {
    var d := DecodeValue(snap, t, s);
    if d.error.None? {
      var more := DecodeElems(snap, t, left - 1, d.rest);
      PrependPrepend([VisitValue], d.events, more);
    }
  }

  /** `DecodeEntries` past an entry's type and name: the value's read, then (unless it failed) the other entries. */
  lemma EntriesUnfold(snap: Snapshot, s: seq<uint8>, t: Type, s1: seq<uint8>, name: string, s2: seq<uint8>)
    requires ReadType(snap, s) == Success(Read(t, s1)) && t != End
    requires ReadString(s1) == Success(Read(name, s2))
    ensures var d := DecodeValue(snap, t, s2);
      DecodeEntries(snap, s) == Prepend([VisitKey(name)], if d.error.Some? then d else Prepend(d.events, DecodeEntries(snap, d.rest)))
  {
    var d := DecodeValue(snap, t, s2);
    if d.error.None? {
      PrependPrepend([VisitKey(name)], d.events, DecodeEntries(snap, d.rest));
    }
  }

  /** `CompoundContext.evaluate()` meeting End: one `visitEnd()`, and the compound is done. */
  lemma CompoundEndSplits(snap: Snapshot, s: seq<uint8>, s1: seq<uint8>)
    requires ReadType(snap, s) == Success(Read(End, s1))
    ensures StepSplits(RestOf(snap), CompoundContext, s, Step(CompoundContext, None, [VisitEnd]), s1)
  {
    assert RestOf(snap)(CompoundContext, s) == DecodeEntries(snap, s);
  }

  /** `CompoundContext.evaluate()` meeting an entry: `visitValue(name)`, the value, then the other entries. */
  lemma CompoundEntrySplits(snap: Snapshot, s: seq<uint8>, t: Type, s1: seq<uint8>, name: string, s2: seq<uint8>)
    requires ReadType(snap, s) == Success(Read(t, s1)) && t != End
    requires ReadString(s1) == Success(Read(name, s2))
    ensures StepSplits(RestOf(snap), CompoundContext, s, Step(CompoundContext, Some(ValueContext(t)), [VisitKey(name)]), s2)
  {
    EntriesUnfold(snap, s, t, s1, name, s2);
    var d := DecodeValue(snap, t, s2);
    var R := RestOf(snap);
    assert R(ValueContext(t), s2) == d;
    assert R(CompoundContext, s) == DecodeEntries(snap, s);
    assert R(CompoundContext, d.rest) == DecodeEntries(snap, d.rest);
  }

  /** `ValueContext.evaluate()` of a compound: `visitCompound()`, then the compound's entries. */
  lemma CompoundValueSplits(snap: Snapshot, s: seq<uint8>)
    ensures StepSplits(RestOf(snap), ValueContext(Compound), s, Step(ValueContext(Compound), Some(CompoundContext), [VisitCompound]), s)
  {
    var R := RestOf(snap);
    assert R(ValueContext(Compound), s) == DecodeValue(snap, Compound, s);
    assert R(CompoundContext, s) == DecodeEntries(snap, s);
  }

  /** `ValueContext.evaluate()` of a list: the three header calls, then the list's elements. */
  lemma ListValueSplits(snap: Snapshot, s: seq<uint8>, et: Type, size: Int32, s1: seq<uint8>)
    requires ReadListHeader(snap, s) == Success(Read((et, size), s1))
    ensures StepSplits(RestOf(snap), ValueContext(List), s,
                       Step(ValueContext(List), Some(ListContext(et, size)), [VisitList, VisitType(et), VisitLength(size)]), s1)
  {
    var R := RestOf(snap);
    assert R(ValueContext(List), s) == DecodeValue(snap, List, s);
    assert R(ListContext(et, size), s1) == DecodeElems(snap, et, size, s1);
  }

  /** `ValueContext.evaluate()` of any other value: its one call, and nothing after it. */
  lemma LeafValueSplits(snap: Snapshot, t: Type, s: seq<uint8>, e: Event, s1: seq<uint8>)
    requires t != Compound && t != List && ReadLeaf(snap, t, s) == Success(Read(e, s1))
    ensures StepSplits(RestOf(snap), ValueContext(t), s, Step(ValueContext(t), None, [e]), s1)
  {
    assert RestOf(snap)(ValueContext(t), s) == DecodeValue(snap, t, s);
  }
  // What a list reads, counted.

  /** The occurrences of one call in a trace. */
  function Occurrences(events: seq<Event>, x: Event): nat
  {
    if events == [] then 0 else (if events[0] == x then 1 else 0) + Occurrences(events[1..], x)
  }

  lemma {:induction false} OccurrencesAppend(a: seq<Event>, b: seq<Event>, x: Event)
    ensures Occurrences(a + b, x) == Occurrences(a, x) + Occurrences(b, x)
  {
    if a == [] {
      assert a + b == b;
    } else {
      assert (a + b)[0] == a[0] && (a + b)[1..] == a[1..] + b;
      OccurrencesAppend(a[1..], b, x);
    }
  }

  /** A value of a type other than Compound and List reads as its one call. */
  lemma LeafValue(snap: Snapshot, t: Type, s: seq<uint8>)
    requires t != Compound && t != List
    ensures var v := DecodeValue(snap, t, s);
      v.error.None? ==> ReadLeaf(snap, t, s).Success? && v == Decoded([ReadLeaf(snap, t, s).value.value], ReadLeaf(snap, t, s).value.rest, None)
  {
  }

  /** A list trace of `k` elements of one call each: `visitValue` `k` times, `visitEnd` last. */
  predicate CountedList(events: seq<Event>, k: nat)
  {
    && Occurrences(events, VisitValue) == k
    && |events| == 2 * k + 1
    && events[|events| - 1] == VisitEnd
  }

  /** One more element call in front of a counted list trace. */
  lemma CountedCons(e: Event, more: seq<Event>, k: nat)
    requires e != VisitValue && CountedList(more, k)
    ensures CountedList([VisitValue] + ([e] + more), k + 1)
  {
    var events := [VisitValue] + ([e] + more);
    assert events[0] == VisitValue && events[1..] == [e] + more;
    assert ([e] + more)[0] == e && ([e] + more)[1..] == more;
    assert events[|events| - 1] == more[|more| - 1];
  }

  /**
   * `ListContext` over elements that are neither compounds nor lists: `visitValue` exactly
   * max(size, 0) times, each followed by the one call of its element, and `visitEnd` last.
   */
  lemma {:induction false} LeafElemsCalls(snap: Snapshot, t: Type, left: int, s: seq<uint8>)
    requires t != Compound && t != List
    ensures DecodeElems(snap, t, left, s).error.None? ==>
      CountedList(DecodeElems(snap, t, left, s).events, if left > 0 then left else 0)
    decreases if left > 0 then left else 0
  {
    if left <= 0 {
      assert DecodeElems(snap, t, left, s).events == [VisitEnd];
      assert Occurrences([VisitEnd][1..], VisitValue) == 0;
    } else if DecodeElems(snap, t, left, s).error.None? {
      var e, rest := LeafElemsStep(snap, t, left, s);
      LeafElemsCalls(snap, t, left - 1, rest);
      CountedCons(e, DecodeElems(snap, t, left - 1, rest).events, left - 1);
    }
  }

  /** A successful list read with elements left: `visitValue`, the element's call, the rest of the list. */
  lemma LeafElemsStep(snap: Snapshot, t: Type, left: int, s: seq<uint8>) returns (e: Event, rest: seq<uint8>)
    requires t != Compound && t != List && left > 0
    requires DecodeElems(snap, t, left, s).error.None?
    ensures e != VisitValue
    ensures DecodeElems(snap, t, left - 1, rest).error.None?
    ensures DecodeElems(snap, t, left, s).events == [VisitValue] + ([e] + DecodeElems(snap, t, left - 1, rest).events)
  {
    var v := DecodeValue(snap, t, s);
    ElemsUnfold(snap, t, left, s);
    LeafValue(snap, t, s);
    e := ReadLeaf(snap, t, s).value.value;
    rest := v.rest;
  }
}
