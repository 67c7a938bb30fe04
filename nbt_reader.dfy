/**
 * `NbtReader`: reads a named binary tag document from a stream and hands what it reads to a
 * visitor, one context at a time on the explicit-stack evaluator. The stream is the byte
 * sequence `data` with a cursor `pos`; every read moves the cursor. Each method is proved to
 * read what the functions of `Decoding` say, and `ApplyVisitor` to make exactly the calls of the
 * recursive `DecodeValue`, ending with its exception if it has one.
 */
module NbtReader {
  import opened Wrappers
  import opened Binary
  import opened NBTType
  import opened ImmutableArrays
  import opened Events
  import opened ContextStackEvaluator
  import opened Decoding
  import opened Tags
  import TagWriter
  import Utf8

  /** A method's result with the input it left, in the form the reading functions return. */
  function Outcome<T>(r: Result<T, ReadError>, rest: seq<uint8>): Result<Read<T>, ReadError>
  {
    match r
    case Success(v) => Success(Read(v, rest))
    case Failure(e) => Failure(e)
  }

  /**
   * What `toTag()` / `toCompoundTag()` throw: the reader's exception, the builder's, "Unexpected
   * type" for a root that is no compound, or the null pointer of a root the builder never set.
   */
  datatype TagError =
    | ReadFailed(read: ReadError)
    | BuildFailed(build: TagWriter.BuildError)
    | UnexpectedType(found: Type)
    | NullRoot

  /**
   * `toTag()` on a decoding: the reader hands every call to the builder as soon as it has read
   * it, so a builder exception on one of the calls made comes before the reader's own exception,
   * which can only come after the last of them.
   */
  function ToTagOf(d: Decoded): (r: Result<Option<Tag>, TagError>)
    ensures r.Success? <==> d.error.None? && TagWriter.Build(d.events).Success?
    ensures r.Success? ==> r.value == TagWriter.Build(d.events).value
    ensures TagWriter.Build(d.events).Failure? ==> r == Failure(BuildFailed(TagWriter.Build(d.events).error))
  {
    match TagWriter.Build(d.events)
    case Failure(e) => Failure(BuildFailed(e))
    case Success(root) => if d.error.Some? then Failure(ReadFailed(d.error.value)) else Success(root)
  }

  /** `toCompoundTag()` after `toTag()`: only a compound root is returned. */
  function ToCompoundOf(r: Result<Option<Tag>, TagError>): (c: Result<Tag, TagError>)
    ensures c.Success? <==> r.Success? && r.value.Some? && TypeOf(r.value.value) == Compound
    ensures c.Success? ==> c.value == r.value.value
    ensures r.Success? && r.value.Some? && TypeOf(r.value.value) != Compound ==> c == Failure(UnexpectedType(TypeOf(r.value.value)))
  {
    match r
    case Failure(e) => Failure(e)
    case Success(None) => Failure(NullRoot)
    case Success(Some(t)) => if TypeOf(t) != Compound then Failure(UnexpectedType(TypeOf(t))) else Success(t)
  }

  /** `getName()` on a document whose root is End: `NoSuchElementException`. */
  datatype NameError = EndHasNoName

  class Reader {
    const snap: Snapshot
    const data: seq<uint8>
    var pos: nat
    var initialType: Type
    var initialName: string

    predicate Valid()
      reads this`pos
    {
      pos <= |data|
    }

    /** The bytes the stream has not delivered yet. */
    function Remaining(): seq<uint8>
      reads this`pos
      requires Valid()
    {
      data[pos..]
    }

    constructor Init(snap: Snapshot, data: seq<uint8>)
      ensures this.snap == snap && this.data == data && pos == 0 && Valid()
      ensures initialType == End && initialName == ""
    {
      this.snap := snap;
      this.data := data;
      pos := 0;
      initialType := End;
      initialName := "";
    }

    /**
     * `new NbtReader(stream)`: reads the root's type and, unless it is End, its name; an
     * exception here means there is no reader.
     */
    static method Open(snap: Snapshot, data: seq<uint8>) returns (r: Result<Reader, ReadError>)
      ensures r.Success? <==> ReadHeader(snap, data).Success?
      ensures r.Failure? ==> r.error == ReadHeader(snap, data).error
      ensures r.Success? ==>
        var h := ReadHeader(snap, data).value;
        fresh(r.value) && r.value.Valid() && r.value.snap == snap && r.value.data == data &&
        r.value.initialType == h.rootType && r.value.initialName == h.name && r.value.Remaining() == h.body
    {
      var reader := new Reader.Init(snap, data);
      var t := reader.NextType();
      if t.Failure? {
        return Failure(t.error);
      }
      reader.initialType := t.value;
      if t.value != End {
        var name := reader.NextString();
        if name.Failure? {
          return Failure(name.error);
        }
        reader.initialName := name.value;
      }
      return Success(reader);
    }

    /** `getName()`: the root's name; an End root has none. */
    function GetName(): (r: Result<string, NameError>)
      reads this
      ensures r.Failure? <==> initialType == End
      ensures r.Success? ==> r.value == initialName
    {
      if initialType == End then Failure(EndHasNoName) else Success(initialName)
    }

    /** `readFully` of `k` bytes. */
    method ReadFully(k: nat) returns (r: Result<seq<uint8>, ReadError>)
      requires Valid()
      modifies this`pos
      ensures Valid()
      ensures Outcome(r, Remaining()) == ReadBytes(old(Remaining()), k)
    {
      if |data| - pos < k {
        return Failure(Truncated);
      }
      assert data[pos..][..k] == data[pos..pos + k];
      assert data[pos..][k..] == data[pos + k..];
      r := Success(data[pos..pos + k]);
      pos := pos + k;
    }

    /** `readByte`/`readShort`/`readInt`/`readLong`. */
    method NextSigned(n: Width) returns (r: Result<int, ReadError>)
      requires Valid()
      modifies this`pos
      ensures Valid()
      ensures Outcome(r, Remaining()) == ReadSigned(old(Remaining()), n)
    {
      var b := ReadFully(n);
      if b.Failure? {
        return Failure(b.error);
      }
      r := Success(DecodeSigned(b.value));
    }

    /** `readFloat`/`readDouble`, as raw bits. */
    method NextBits(n: Width) returns (r: Result<nat, ReadError>)
      requires Valid()
      modifies this`pos
      ensures Valid()
      ensures Outcome(r, Remaining()) == ReadUnsigned(old(Remaining()), n)
    {
      var b := ReadFully(n);
      if b.Failure? {
        return Failure(b.error);
      }
      r := Success(DecodeUnsigned(b.value));
    }

    /** `nextType()`. */
    method NextType() returns (r: Result<Type, ReadError>)
      requires Valid()
      modifies this`pos
      ensures Valid()
      ensures Outcome(r, Remaining()) == ReadType(snap, old(Remaining()))
    {
      var b := NextSigned(1);
      if b.Failure? {
        return Failure(b.error);
      }
      var t := Lookup(snap, b.value);
      if t.Failure? {
        return Failure(UnknownType(b.value));
      }
      r := Success(t.value);
    }

    /** `nextString()`. */
    method NextString() returns (r: Result<string, ReadError>)
      requires Valid()
      modifies this`pos
      ensures Valid()
      ensures Outcome(r, Remaining()) == ReadString(old(Remaining()))
    {
      var len := ReadFully(2);
      if len.Failure? {
        return Failure(len.error);
      }
      var body := ReadFully(DecodeUnsigned(len.value));
      if body.Failure? {
        return Failure(body.error);
      }
      r := Success(Utf8.Decode(body.value));
    }

    /** The length in front of an array, checked against [0, 0x7FFFFFF7]. */
    method NextArrayLength() returns (r: Result<nat, ReadError>)
      requires Valid()
      modifies this`pos
      ensures Valid()
      ensures Outcome(r, Remaining()) == ReadArrayLength(old(Remaining()))
    {
      var len := NextSigned(4);
      if len.Failure? {
        return Failure(len.error);
      }
      if len.value < 0 || len.value > MaxArrayLength {
        return Failure(SizeExceeds(len.value));
      }
      r := Success(len.value);
    }

    /**
     * `asIntBuffer().get(ints, from, count)` (or the long version): `count` values of `n` bytes
     * decoded from `chunk` into `values[from..from + count]`.
     */
    static method CopyChunk(values: array<int>, from: nat, chunk: seq<uint8>, n: Width, count: nat)
      requires from + count <= values.Length && |chunk| == Span(n, count)
      modifies values
      ensures values[..from] == old(values[..from])
      ensures values[from..from + count] == DecodeAll(chunk, n, count)
    {
      var j, at := 0, 0;
      while j < count
        invariant j <= count && at == Span(n, j) && at <= |chunk|
        invariant values[..from] == old(values[..from])
        invariant values[from..from + j] == DecodeAll(chunk, n, j)
      {
        SpanMonotonic(n, j + 1, count);
        DecodeAllSnoc(chunk, n, j);
        values[from + j] := DecodeSigned(chunk[at..at + n]);
        assert values[from..from + j + 1] == values[from..from + j] + [values[from + j]];
        j, at := j + 1, at + n;
      }
    }

    /**
     * One pass of the chunked loop: `readFully` of the bytes of `count` values into the byte
     * buffer, then `get` of those values into `values` from index `from` on.
     */
    method NextChunk(values: array<int>, from: nat, n: Width, count: nat, ghost start: seq<uint8>) returns (ok: bool)
      requires Valid() && from + count <= values.Length
      requires Span(n, from) <= |start| && Remaining() == start[Span(n, from)..]
      requires values[..from] == DecodeAll(start, n, from)
      modifies this`pos, values
      ensures Valid()
      ensures ok <==> Span(n, from + count) <= |start|
      ensures ok ==> Remaining() == start[Span(n, from + count)..]
      ensures ok ==> values[..from + count] == DecodeAll(start, n, from + count)
    {
      ghost var here := Remaining();
      ghost var before := values[..from];
      SpanAdd(n, from, count);
      var chunk := ReadFully(Span(n, count));
      if chunk.Failure? {
        return false;
      }
      CopyChunk(values, from, chunk.value, n, count);
      DecodeAllPrefix(chunk.value, here, n, count);
      DropDrop(start, Span(n, from), Span(n, count));
      ChunkStep(start, n, from, count, before, values[from..from + count]);
      assert values[..from + count] == values[..from] + values[from..from + count];
      ok := true;
    }

    /** One chunk read continues the decoding where the chunks before it stopped. */
    static lemma ChunkStep(start: seq<uint8>, n: Width, done: nat, step: nat, before: seq<int>, chunk: seq<int>)
      requires Span(n, done) <= |start| && before == DecodeAll(start, n, done)
      requires Span(n, step) <= |start| - Span(n, done) && chunk == DecodeAll(start[Span(n, done)..], n, step)
      ensures Span(n, done + step) == Span(n, done) + Span(n, step) <= |start|
      ensures before + chunk == DecodeAll(start, n, done + step)
    {
      SpanAdd(n, done, step);
      DecodeAllSplit(start, n, done, step);
    }

    /** A chunk the stream cannot fill leaves the whole array unfilled. */
    static lemma ChunkShort(total: nat, n: Width, done: nat, step: nat, len: nat)
      requires Span(n, done + step) > total && done + step <= len
      ensures Span(n, len) > total
    {
      SpanMonotonic(n, done + step, len);
    }

    /** The bytes after the first `a + b` of `s` are those after the first `b` of those after `a`. */
    static lemma DropDrop(s: seq<uint8>, a: nat, b: nat)
      requires a + b <= |s|
      ensures s[a..][b..] == s[a + b..]
    {
    }

    /**
     * The int and long array reads: the elements arrive in chunks of at most `bufferLimit`
     * values (the 8192-byte buffer seen as ints or longs), each decoded into the result array
     * from `fillIndex` on.
     */
    method NextChunked(len: nat, n: Width, bufferLimit: nat) returns (r: Result<seq<int>, ReadError>)
      requires Valid() && bufferLimit >= 1
      modifies this`pos
      ensures Valid()
      ensures Outcome(r, Remaining()) == ReadValues(old(Remaining()), n, len)
    {
      ghost var start := Remaining();
      var values := new int[len];
      var fillIndex := 0;
      while fillIndex < len
        invariant Valid() && fillIndex <= len
        invariant Span(n, fillIndex) <= |start| && Remaining() == start[Span(n, fillIndex)..]
        invariant values[..fillIndex] == DecodeAll(start, n, fillIndex)
        decreases len - fillIndex
      {
        var step := if bufferLimit < len - fillIndex then bufferLimit else len - fillIndex;
        var ok := NextChunk(values, fillIndex, n, step, start);
        if !ok {
          ChunkShort(|start|, n, fillIndex, step, len);
          return Failure(Truncated);
        }
        fillIndex := fillIndex + step;
      }
      assert values[..] == values[..fillIndex];
      return Success(values[..]);
    }

    /** The value switch for every type but Compound and List: one visitor call. */
    method NextLeaf(t: Type) returns (r: Result<Event, ReadError>)
      requires Valid() && t != Compound && t != List
      modifies this`pos
      ensures Valid()
      ensures Outcome(r, Remaining()) == ReadLeaf(snap, t, old(Remaining()))
    {
      match t
      case End =>
        r := Success(VisitEnd);
      case Byte =>
        var x := NextSigned(1);
        if x.Failure? { return Failure(x.error); }
        r := Success(VisitByte(x.value));
      case Short =>
        var x := NextSigned(2);
        if x.Failure? { return Failure(x.error); }
        r := Success(VisitShort(x.value));
      case Int =>
        var x := NextSigned(4);
        if x.Failure? { return Failure(x.error); }
        r := Success(VisitInt(x.value));
      case Long =>
        var x := NextSigned(8);
        if x.Failure? { return Failure(x.error); }
        r := Success(VisitLong(x.value));
      case Float =>
        var x := NextBits(4);
        if x.Failure? { return Failure(x.error); }
        r := Success(VisitFloat(x.value));
      case Double =>
        var x := NextBits(8);
        if x.Failure? { return Failure(x.error); }
        r := Success(VisitDouble(x.value));
      case String =>
        var x := NextString();
        if x.Failure? { return Failure(x.error); }
        r := Success(VisitString(x.value));
      case ByteArray | IntArray | LongArray =>
        if snap == Legacy { return Failure(UnsupportedType(t)); }
        r := NextArray(t);
    }

    /** The array cases of the value switch: the length, then the elements. */
    method NextArray(t: Type) returns (r: Result<Event, ReadError>)
      requires Valid() && (t == ByteArray || t == IntArray || t == LongArray)
      modifies this`pos
      ensures Valid()
      ensures Outcome(r, Remaining()) == ReadArray(t, old(Remaining()))
    {
      var len := NextArrayLength();
      if len.Failure? { return Failure(len.error); }
      match t
      case ByteArray =>
        ghost var s := Remaining();
        SpanIsProduct(1, len.value);
        var bytes := ReadFully(len.value);
        if bytes.Failure? { return Failure(bytes.error); }
        DecodeAllPrefix(bytes.value, s, 1, len.value);
        DecodeAllInSigned(bytes.value, 1, len.value);
        r := Success(VisitByteArray(ImmutableBytes(DecodeAll(bytes.value, 1, len.value))));
      case IntArray =>
        ghost var s := Remaining();
        var x := NextChunked(len.value, 4, 8192 / 4);
        if x.Failure? { return Failure(x.error); }
        DecodeAllInSigned(s, 4, len.value);
        r := Success(VisitIntArray(ImmutableInts(x.value)));
      case LongArray =>
        ghost var s := Remaining();
        var x := NextChunked(len.value, 8, 8192 / 8);
        if x.Failure? { return Failure(x.error); }
        DecodeAllInSigned(s, 8, len.value);
        r := Success(VisitLongArray(ImmutableLongs(x.value)));
    }

    /** `ValueContext.evaluate()`: a compound or list hands out its context; any other value is one call. */
    method EvaluateValue(t: Type) returns (r: Result<Step<ReaderContext, Event>, ReadError>)
      requires Valid()
      modifies this`pos
      ensures Valid()
      ensures r.Success? ==> StepSplits(RestOf(snap), ValueContext(t), old(Remaining()), r.value, Remaining())
      ensures r.Failure? ==> DecodeValue(snap, t, old(Remaining())) == Fail(r.error)
    {
      ghost var s := Remaining();
      if t == Compound {
        r := Success(Step(ValueContext(t), Some(CompoundContext), [VisitCompound]));
        CompoundValueSplits(snap, s);
      } else if t == List {
        var et := NextType();
        if et.Failure? { return Failure(et.error); }
        var size := NextSigned(4);
        if size.Failure? { return Failure(size.error); }
        if et.value == End && size.value > 0 {
          return Failure(EndInList);
        }
        assert ReadListHeader(snap, s) == Success(Read((et.value, size.value as Int32), Remaining()));
        ListValueSplits(snap, s, et.value, size.value, Remaining());
        r := Success(Step(ValueContext(t), Some(ListContext(et.value, size.value)),
                          [VisitList, VisitType(et.value), VisitLength(size.value)]));
      } else {
        var x := NextLeaf(t);
        if x.Failure? { return Failure(x.error); }
        LeafValueSplits(snap, t, s, x.value, Remaining());
        r := Success(Step(ValueContext(t), None, [x.value]));
      }
    }

    /** `ListContext.evaluate()`: `left.getAndDecrement() <= 0` ends the list, otherwise one more element. */
    method EvaluateList(t: Type, left: int) returns (r: Step<ReaderContext, Event>)
      requires Valid()
      ensures StepSplits(RestOf(snap), ListContext(t, left), Remaining(), r, Remaining())
    {
      if left <= 0 {
        r := Step(ListContext(t, left - 1), None, [VisitEnd]);
      } else {
        r := Step(ListContext(t, left - 1), Some(ValueContext(t)), [VisitValue]);
        ListStepSplits(snap, t, left, Remaining());
      }
    }

    /** `CompoundContext.evaluate()`: a type; End ends the compound, otherwise a name and its value. */
    method EvaluateCompound() returns (r: Result<Step<ReaderContext, Event>, ReadError>)
      requires Valid()
      modifies this`pos
      ensures Valid()
      ensures r.Success? ==> StepSplits(RestOf(snap), CompoundContext, old(Remaining()), r.value, Remaining())
      ensures r.Failure? ==> DecodeEntries(snap, old(Remaining())) == Fail(r.error)
    {
      ghost var s := Remaining();
      var t := NextType();
      if t.Failure? { return Failure(t.error); }
      if t.value == End {
        CompoundEndSplits(snap, s, Remaining());
        return Success(Step(CompoundContext, None, [VisitEnd]));
      }
      ghost var s1 := Remaining();
      var name := NextString();
      if name.Failure? { return Failure(name.error); }
      CompoundEntrySplits(snap, s, t.value, s1, name.value, Remaining());
      r := Success(Step(CompoundContext, Some(ValueContext(t.value)), [VisitKey(name.value)]));
    }

    /** `evaluate()` of any context. */
    method Evaluate(c: ReaderContext) returns (r: Result<Step<ReaderContext, Event>, ReadError>)
      requires Valid()
      modifies this`pos
      ensures Valid()
      ensures r.Success? ==> StepSplits(RestOf(snap), c, old(Remaining()), r.value, Remaining())
      ensures r.Failure? ==> ContextRest(snap, c, old(Remaining())) == Fail(r.error)
    {
      match c
      case ValueContext(t) =>
        r := EvaluateValue(t);
      case ListContext(t, left) =>
        var st := EvaluateList(t, left);
        r := Success(st);
      case CompoundContext =>
        r := EvaluateCompound();
    }

    /**
     * `applyVisitor(visitor)`: the evaluator loop from the root's value context. It makes the
     * calls of `DecodeValue` for the root, in order, and stops with its exception if it has one.
     */
    method ApplyVisitor() returns (trace: seq<Event>, err: Option<ReadError>)
      requires Valid()
      modifies this`pos
      ensures Valid()
      ensures var d := DecodeValue(snap, initialType, old(Remaining()));
        trace == d.events && err == d.error && (err.None? ==> Remaining() == d.rest)
    {
      ghost var rest := RestOf(snap);
      ghost var spec := DecodeValue(snap, initialType, Remaining());
      var stack := [ValueContext(initialType)];
      trace := [];
      PendingRunSingle(rest, ValueContext(initialType), Remaining());
      while stack != []
        invariant Valid()
        invariant Prepend(trace, PendingRun(rest, stack, Remaining())) == spec
        decreases |spec.events| - |trace|
      {
        var top := stack[|stack| - 1];
        ghost var below := stack[..|stack| - 1];
        assert stack == below + [top];
        ghost var before := Remaining();
        var r := Evaluate(top);
        if r.Failure? {
          StepPendingFail(rest, below, top, before, r.error);
          return trace, Some(r.error);
        }
        StepKeepsRun(rest, trace, below, top, before, r.value, Remaining(), spec);
        trace := trace + r.value.calls;
        stack := Advance(stack, KindOf(top), r.value.updated, r.value.out);
      }
      err := None;
    }

    /** `toTag()`: a fresh builder takes every call the reader makes; `get()` is the root. */
    method ToTag() returns (r: Result<Option<Tag>, TagError>)
      requires Valid()
      modifies this`pos
      ensures Valid()
      ensures r == ToTagOf(DecodeValue(snap, initialType, old(Remaining())))
    {
      var trace, err := ApplyVisitor();
      var built := TagWriter.BuildAll(trace);
      if built.Failure? {
        return Failure(BuildFailed(built.error));
      }
      if err.Some? {
        return Failure(ReadFailed(err.value));
      }
      return Success(built.value);
    }

    /** `toCompoundTag()`: `toTag()`, then the root must be a compound. */
    method ToCompoundTag() returns (r: Result<Tag, TagError>)
      requires Valid()
      modifies this`pos
      ensures Valid()
      ensures r == ToCompoundOf(ToTagOf(DecodeValue(snap, initialType, old(Remaining()))))
    {
      var tag := ToTag();
      if tag.Failure? {
        return Failure(tag.error);
      }
      if tag.value.None? {
        return Failure(NullRoot);
      }
      var t := tag.value.value;
      if TypeOf(t) != Compound {
        return Failure(UnexpectedType(TypeOf(t)));
      }
      return Success(t);
    }
  }
}
