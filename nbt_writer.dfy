/**
 * `NbtWriter`: a visitor that writes what it is told as named binary tag bytes. A value writer
 * with a name writes a prefix (the type's id and, unless the type is End, the name) before the
 * value; list elements get a value writer without a name and so no prefix. A list writer writes
 * the entry type and the length; a compound writer writes a 0 byte at its end. Every write goes
 * through `run` of the shared `WriterHelper` state, so an `IOException` stops all later writes
 * and is thrown at `close()`.
 *
 * `EncodeStep` says what one call writes and which writers are alive afterwards; the class
 * `Writer` performs it on a `Sink`. `EncodeRun` is a whole trace on a stream that takes every
 * write, and `EncodeWalk` says what it writes for the walk of a tree.
 */
module NbtWriter {
  import opened Wrappers
  import opened Binary
  import opened NBTType
  import opened ImmutableArrays
  import opened Events
  import opened Tags
  import opened TagReader
  import opened WriterHelper
  import SmartIntEntry
  import Utf8

  /** `TMP_BUFFER_LENGTH`: the byte buffer the array writes go through. */
  const BufferLength: nat := 8192

  /** The visitors a binary writer hands out; a value writer's name is null for list elements. */
  datatype WriterFrame = ValueWriter(name: Option<string>) | ListWriter | CompoundWriter

  function RoleOf(f: WriterFrame): Role
  {
    match f
    case ValueWriter(_) => ValueRole
    case ListWriter => ListRole
    case CompoundWriter => CompoundRole
  }

  function Roles(frames: seq<WriterFrame>): (r: seq<Role>)
    ensures |r| == |frames|
  {
    if frames == [] then [] else Roles(frames[..|frames| - 1]) + [RoleOf(frames[|frames| - 1])]
  }

  lemma RolesSnoc(frames: seq<WriterFrame>, f: WriterFrame)
    ensures Roles(frames + [f]) == Roles(frames) + [RoleOf(f)]
  {
    assert (frames + [f])[..|frames + [f]| - 1] == frames;
  }

  /** The type whose id a value call's prefix carries. */
  function CallType(e: Event): Type
    requires IsValueCall(e)
  {
    match e
    case VisitByte(_) => Byte
    case VisitShort(_) => Short
    case VisitInt(_) => Int
    case VisitLong(_) => Long
    case VisitFloat(_) => Float
    case VisitDouble(_) => Double
    case VisitString(_) => String
    case VisitByteArray(_) => ByteArray
    case VisitIntArray(_) => IntArray
    case VisitLongArray(_) => LongArray
    case VisitCompound => Compound
    case VisitList => List
    case VisitEnd => End
  }

  /** `writeString(s)`: the UTF-8 length as a short, so only its low 16 bits, then the bytes. */
  function StringWrites(s: string): seq<seq<uint8>>
  {
    [Encode(|Utf8.Encode(s)|, 2), Utf8.Encode(s)]
  }

  /** `writePrefix(type)`: nothing without a name; else the id, then the name unless the type is End. */
  function PrefixWrites(name: Option<string>, t: Type): seq<seq<uint8>>
  {
    if name.None? then []
    else [Encode(Id(t), 1)] + (if t == End then [] else StringWrites(name.value))
  }

  /**
   * The array loop: chunks of at most `bufferLimit` elements, each put big-endian into the
   * buffer and written from it, until the offset reaches the length.
   */
  function ChunkWrites(vs: seq<int>, n: Width, bufferLimit: nat): seq<seq<uint8>>
    requires bufferLimit > 0
    decreases |vs|
  {
    if vs == [] then []
    else
      var step := Min(bufferLimit, |vs|);
      [EncodeAll(vs[..step], n)] + ChunkWrites(vs[step..], n, bufferLimit)
  }

  /** What a value call writes after its prefix; floats and doubles go through `floatToIntBits`/`doubleToLongBits`. */
  function PayloadWrites(e: Event): seq<seq<uint8>>
    requires IsValueCall(e)
  {
    match e
    case VisitByte(b) => [Encode(b, 1)]
    case VisitShort(v) => [Encode(v, 2)]
    case VisitInt(i) => [Encode(i, 4)]
    case VisitLong(l) => [Encode(l, 8)]
    case VisitFloat(f) => [Encode(FloatToIntBits(f), 4)]
    case VisitDouble(d) => [Encode(DoubleToLongBits(d), 8)]
    case VisitString(s) => StringWrites(s)
    case VisitByteArray(a) => [Encode(|a.bytes|, 4)] + ChunkWrites(a.bytes, 1, BufferLength / 1)
    case VisitIntArray(a) => [Encode(|a.ints|, 4)] + ChunkWrites(a.ints, 4, BufferLength / 4)
    case VisitLongArray(a) => [Encode(|a.longs|, 4)] + ChunkWrites(a.longs, 8, BufferLength / 8)
    case VisitCompound => []
    case VisitList => []
    case VisitEnd => []
  }

  /** The writers alive after a call, and the writes the call makes through `run`. */
  datatype Written = Written(frames: seq<WriterFrame>, writes: seq<seq<uint8>>)

  /** One call on the innermost writer; `None` when it has no such call. */
  function EncodeStep(frames: seq<WriterFrame>, e: Event): Option<Written>
  {
    if frames == [] then None
    else
      var below := frames[..|frames| - 1];
      match frames[|frames| - 1]
      case ValueWriter(name) =>
        if !IsValueCall(e) then None
        else
          var writes := PrefixWrites(name, CallType(e)) + PayloadWrites(e);
          if e == VisitCompound then Some(Written(below + [CompoundWriter], writes))
          else if e == VisitList then Some(Written(below + [ListWriter], writes))
          else Some(Written(below, writes))
      case ListWriter =>
        if e.VisitType? then Some(Written(frames, [Encode(Id(e.t), 1)]))
        else if e.VisitLength? then Some(Written(frames, [Encode(e.n, 4)]))
        else if e == VisitValue then Some(Written(frames + [ValueWriter(None)], []))
        else if e == VisitEnd then Some(Written(below, []))
        else None
      case CompoundWriter =>
        if e.VisitKey? then Some(Written(frames + [ValueWriter(Some(e.key))], []))
        else if e == VisitEnd then Some(Written(below, [[0]]))
        else None
  }

  /** The writers alive and the bytes on a stream that takes every write. */
  datatype Emitted = Emitted(frames: seq<WriterFrame>, bytes: seq<uint8>)

  /** A trace, call after call, each call's writes appended to the stream; `None` at a call without receiver. */
  function EncodeRun(st: Emitted, trace: seq<Event>): Option<Emitted>
    decreases |trace|
  {
    if trace == [] then Some(st)
    else
      match EncodeStep(st.frames, trace[0])
      case None => None
      case Some(w) => EncodeRun(Emitted(w.frames, st.bytes + Flatten(w.writes)), trace[1..])
  }

  /** The rest of a run after a first part. */
  function Then(r: Option<Emitted>, trace: seq<Event>): Option<Emitted>
  {
    match r
    case None => None
    case Some(st) => EncodeRun(st, trace)
  }

  lemma {:induction false} EncodeRunAppend(st: Emitted, a: seq<Event>, b: seq<Event>)
    ensures EncodeRun(st, a + b) == Then(EncodeRun(st, a), b)
    decreases |a|
  {
    if a == [] {
      assert a + b == b;
    } else {
      assert (a + b)[0] == a[0] && (a + b)[1..] == a[1..] + b;
      match EncodeStep(st.frames, a[0])
      case None =>
      case Some(w) => EncodeRunAppend(Emitted(w.frames, st.bytes + Flatten(w.writes)), a[1..], b);
    }
  }

  lemma EncodeRunChain(st: Emitted, a: seq<Event>, b: seq<Event>, mid: Emitted)
    requires EncodeRun(st, a) == Some(mid)
    ensures EncodeRun(st, a + b) == EncodeRun(mid, b)
  {
    EncodeRunAppend(st, a, b);
  }

  /** A run of one call is that call's step. */
  lemma EncodeRunOne(st: Emitted, e: Event)
    ensures EncodeRun(st, [e])
         == (match EncodeStep(st.frames, e)
             case None => None
             case Some(w) => Some(Emitted(w.frames, st.bytes + Flatten(w.writes))))
  {
    assert [e][1..] == [];
  }

  /**
   * A run succeeds exactly when every call has its receiver, leaves the protocol's visitors, and
   * only appends to the stream.
   */
  lemma {:induction false} EncodeRunProtocol(st: Emitted, trace: seq<Event>)
    ensures EncodeRun(st, trace).Some? <==> Run(Roles(st.frames), trace).Some?
    ensures EncodeRun(st, trace).Some? ==> Run(Roles(st.frames), trace) == Some(Roles(EncodeRun(st, trace).value.frames))
    ensures EncodeRun(st, trace).Some? ==> st.bytes <= EncodeRun(st, trace).value.bytes
    decreases |trace|
  {
    if trace != [] {
      EncodeStepProtocol(st.frames, trace[0]);
      match EncodeStep(st.frames, trace[0])
      case None =>
      case Some(w) =>
        var next := Emitted(w.frames, st.bytes + Flatten(w.writes));
        EncodeRunProtocol(next, trace[1..]);
        if EncodeRun(next, trace[1..]).Some? {
          assert st.bytes <= next.bytes;
        }
    }
  }

  /** The type id a tree's first call carries in its prefix. */
  function HeadType(t: Tag): Type
  {
    match t
    case CompoundTag(_) => Compound
    case ListTag(_, _) => List
    case SmartListTag(_, _) => List
    case _ => CallType(Accept(t))
  }

  /** A tree's type is its prefix's, once smart entries have integer widths. */
  lemma HeadTypeOf(t: Tag)
    requires t.SmartIntTag? ==> SmartIntEntry.IsWidth(t.parentWidth)
    ensures HeadType(t) == TypeOf(t)
  {
  }

  /**
   * The bytes the writer puts after a tree's prefix: a compound's named entries and a 0 byte; a
   * list's entry type id, its length as an int and its elements without prefixes; a leaf's
   * value.
   */
  function Payload(t: Tag): seq<uint8>
    decreases t, 1
  {
    match t
    case CompoundTag(es) => EntriesBytes(es) + [0]
    case ListTag(et, elems) => ListHead(et, |elems|) + ElemsBytes(elems)
    case SmartListTag(w, vs) => ListHead(w, |vs|) + SmartBytes(w, vs)
    case _ => Flatten(PayloadWrites(Accept(t)))
  }

  function ListHead(et: Type, n: nat): seq<uint8>
  {
    Encode(Id(et), 1) + Encode(LengthOf(n), 4)
  }

  /** A tree with its prefix: the type id, the name unless the type is End, then the payload. */
  function NamedBytes(name: Option<string>, t: Tag): seq<uint8>
    decreases t, 2
  {
    Flatten(PrefixWrites(name, HeadType(t))) + Payload(t)
  }

  function EntriesBytes(es: seq<Entry>): seq<uint8>
    decreases es, 0
  {
    if es == [] then [] else NamedBytes(Some(es[0].name), es[0].tag) + EntriesBytes(es[1..])
  }

  function ElemsBytes(elems: seq<Tag>): seq<uint8>
    decreases elems, 0
  {
    if elems == [] then [] else Payload(elems[0]) + ElemsBytes(elems[1..])
  }

  function SmartBytes(w: Type, vs: seq<Int64>): seq<uint8>
  {
    if vs == [] then [] else Flatten(PayloadWrites(SmartIntEntry.Accept(w, vs[0]))) + SmartBytes(w, vs[1..])
  }

  /**
   * Writing the walk of a tree with a value writer on top appends the tree's prefix and payload
   * to the stream, and leaves the writers below it.
   */
  lemma {:induction false} EncodeWalk(below: seq<WriterFrame>, name: Option<string>, t: Tag, out: seq<uint8>)
    ensures EncodeRun(Emitted(below + [ValueWriter(name)], out), Walk(t)) == Some(Emitted(below, out + NamedBytes(name, t)))
    decreases t, 1
  {
    match t
    case CompoundTag(es) => EncodeCompound(below, name, es, out);
    case ListTag(et, elems) => EncodeList(below, name, et, elems, out);
    case SmartListTag(w, vs) => EncodeSmartList(below, name, w, vs, out);
    case _ => EncodeLeaf(below, name, Accept(t), out);
  }

  lemma {:induction false} EncodeCompound(below: seq<WriterFrame>, name: Option<string>, es: seq<Entry>, out: seq<uint8>)
    ensures EncodeRun(Emitted(below + [ValueWriter(name)], out), Walk(CompoundTag(es)))
         == Some(Emitted(below, out + NamedBytes(name, CompoundTag(es))))
    decreases es, 2
  {
    var filled := out + Flatten(PrefixWrites(name, Compound)) + EntriesBytes(es);
    CompoundBody(below, name, es, out);
    CompoundClose(below, filled);
    WalkCompound(es);
    EncodeRunChain(Emitted(below + [ValueWriter(name)], out), [VisitCompound] + WalkEntries(es), [VisitEnd],
                   Emitted(below + [CompoundWriter], filled));
    CompoundBytes(name, es, out);
  }

  /** The opening call and the entries of a compound: its prefix and entries, the compound writer on top. */
  lemma {:induction false} CompoundBody(below: seq<WriterFrame>, name: Option<string>, es: seq<Entry>, out: seq<uint8>)
    ensures EncodeRun(Emitted(below + [ValueWriter(name)], out), [VisitCompound] + WalkEntries(es))
         == Some(Emitted(below + [CompoundWriter], out + Flatten(PrefixWrites(name, Compound)) + EntriesBytes(es)))
    decreases es, 1
  {
    var p := Flatten(PrefixWrites(name, Compound));
    CompoundOpen(below, name, out);
    EncodeEntries(below, es, out + p);
    EncodeRunChain(Emitted(below + [ValueWriter(name)], out), [VisitCompound], WalkEntries(es), Emitted(below + [CompoundWriter], out + p));
  }

  lemma CompoundBytes(name: Option<string>, es: seq<Entry>, out: seq<uint8>)
    ensures out + NamedBytes(name, CompoundTag(es)) == out + Flatten(PrefixWrites(name, Compound)) + EntriesBytes(es) + [0]
  {
    var p := Flatten(PrefixWrites(name, Compound));
    assert NamedBytes(name, CompoundTag(es)) == p + (EntriesBytes(es) + [0]);
    Associate(out, p, EntriesBytes(es), [0]);
  }

  lemma CompoundOpen(below: seq<WriterFrame>, name: Option<string>, out: seq<uint8>)
    ensures EncodeRun(Emitted(below + [ValueWriter(name)], out), [VisitCompound])
         == Some(Emitted(below + [CompoundWriter], out + Flatten(PrefixWrites(name, Compound))))
  {
    var top := below + [ValueWriter(name)];
    assert top[..|top| - 1] == below;
    EncodeRunOne(Emitted(top, out), VisitCompound);
    assert PrefixWrites(name, Compound) + [] == PrefixWrites(name, Compound);
  }

  lemma CompoundClose(below: seq<WriterFrame>, out: seq<uint8>)
    ensures EncodeRun(Emitted(below + [CompoundWriter], out), [VisitEnd]) == Some(Emitted(below, out + [0]))
  {
    var inner := below + [CompoundWriter];
    assert inner[..|inner| - 1] == below;
    EncodeRunOne(Emitted(inner, out), VisitEnd);
    assert Flatten([[0 as uint8]]) == [0];
  }

  lemma {:induction false} EncodeList(below: seq<WriterFrame>, name: Option<string>, et: Type, elems: seq<Tag>, out: seq<uint8>)
    ensures EncodeRun(Emitted(below + [ValueWriter(name)], out), Walk(ListTag(et, elems)))
         == Some(Emitted(below, out + NamedBytes(name, ListTag(et, elems))))
    decreases elems, 2
  {
    var st := Emitted(below + [ValueWriter(name)], out);
    var inner := below + [ListWriter];
    var head := out + Flatten(PrefixWrites(name, List)) + ListHead(et, |elems|);
    EncodeHeader(below, name, et, |elems|, out);
    EncodeElems(inner, elems, head);
    EncodeRunChain(st, ListHeader(et, |elems|), WalkElems(elems), Emitted(inner, head));
    ListEnd(below, head + ElemsBytes(elems));
    WalkList(et, elems);
    EncodeRunChain(st, ListHeader(et, |elems|) + WalkElems(elems), [VisitEnd], Emitted(inner, head + ElemsBytes(elems)));
    ListBytes(name, ListTag(et, elems), ListHead(et, |elems|), ElemsBytes(elems), out);
  }

  /** A list's bytes are its prefix, its header and its elements. */
  lemma ListBytes(name: Option<string>, t: Tag, head: seq<uint8>, body: seq<uint8>, out: seq<uint8>)
    requires HeadType(t) == List && Payload(t) == head + body
    ensures out + NamedBytes(name, t) == out + Flatten(PrefixWrites(name, List)) + head + body
  {
    Associate(out, Flatten(PrefixWrites(name, List)), head, body);
  }

  lemma EncodeSmartList(below: seq<WriterFrame>, name: Option<string>, w: Type, vs: seq<Int64>, out: seq<uint8>)
    ensures EncodeRun(Emitted(below + [ValueWriter(name)], out), Walk(SmartListTag(w, vs)))
         == Some(Emitted(below, out + NamedBytes(name, SmartListTag(w, vs))))
  {
    var st := Emitted(below + [ValueWriter(name)], out);
    var inner := below + [ListWriter];
    var head := out + Flatten(PrefixWrites(name, List)) + ListHead(w, |vs|);
    EncodeHeader(below, name, w, |vs|, out);
    EncodeSmart(inner, w, vs, head);
    EncodeRunChain(st, ListHeader(w, |vs|), WalkSmart(w, vs), Emitted(inner, head));
    ListEnd(below, head + SmartBytes(w, vs));
    WalkSmartList(w, vs);
    EncodeRunChain(st, ListHeader(w, |vs|) + WalkSmart(w, vs), [VisitEnd], Emitted(inner, head + SmartBytes(w, vs)));
    ListBytes(name, SmartListTag(w, vs), ListHead(w, |vs|), SmartBytes(w, vs), out);
  }

  /** A leaf call on a value writer appends its prefix and value and pops the writer. */
  lemma EncodeLeaf(below: seq<WriterFrame>, name: Option<string>, e: Event, out: seq<uint8>)
    requires IsValueCall(e) && e != VisitCompound && e != VisitList
    ensures EncodeRun(Emitted(below + [ValueWriter(name)], out), [e])
         == Some(Emitted(below, out + (Flatten(PrefixWrites(name, CallType(e))) + Flatten(PayloadWrites(e)))))
  {
    var top := below + [ValueWriter(name)];
    assert top[..|top| - 1] == below;
    EncodeRunOne(Emitted(top, out), e);
    FlattenAppend(PrefixWrites(name, CallType(e)), PayloadWrites(e));
  }

  /** The end of a list pops the list writer and writes nothing. */
  lemma ListEnd(below: seq<WriterFrame>, out: seq<uint8>)
    ensures EncodeRun(Emitted(below + [ListWriter], out), [VisitEnd]) == Some(Emitted(below, out))
  {
    var inner := below + [ListWriter];
    assert inner[..|inner| - 1] == below;
    EncodeRunOne(Emitted(inner, out), VisitEnd);
    assert out + [] == out;
  }

  /** A list's opening calls append its prefix, the entry type id and the length. */
  lemma EncodeHeader(below: seq<WriterFrame>, name: Option<string>, et: Type, n: nat, out: seq<uint8>)
    ensures EncodeRun(Emitted(below + [ValueWriter(name)], out), ListHeader(et, n))
         == Some(Emitted(below + [ListWriter], out + Flatten(PrefixWrites(name, List)) + ListHead(et, n)))
  {
    var st := Emitted(below + [ValueWriter(name)], out);
    var inner := below + [ListWriter];
    var p := Flatten(PrefixWrites(name, List));
    ListOpen(below, name, out);
    ListCall(inner, out + p, VisitType(et), Encode(Id(et), 1));
    EncodeRunChain(st, [VisitList], [VisitType(et)], Emitted(inner, out + p));
    ListCall(inner, out + p + Encode(Id(et), 1), VisitLength(LengthOf(n)), Encode(LengthOf(n), 4));
    EncodeRunChain(st, [VisitList] + [VisitType(et)], [VisitLength(LengthOf(n))],
      Emitted(inner, out + p + Encode(Id(et), 1)));
    assert [VisitList] + [VisitType(et)] + [VisitLength(LengthOf(n))] == ListHeader(et, n);
    Associate(out + p, Encode(Id(et), 1), Encode(LengthOf(n), 4), []);
  }

  lemma ListOpen(below: seq<WriterFrame>, name: Option<string>, out: seq<uint8>)
    ensures EncodeRun(Emitted(below + [ValueWriter(name)], out), [VisitList])
         == Some(Emitted(below + [ListWriter], out + Flatten(PrefixWrites(name, List))))
  {
    var top := below + [ValueWriter(name)];
    assert top[..|top| - 1] == below;
    EncodeRunOne(Emitted(top, out), VisitList);
    assert PrefixWrites(name, List) + [] == PrefixWrites(name, List);
  }

  /** `visitType` and `visitLength` append the id byte and the int, and keep the list writer. */
  lemma ListCall(inner: seq<WriterFrame>, out: seq<uint8>, e: Event, bytes: seq<uint8>)
    requires inner != [] && inner[|inner| - 1] == ListWriter
    requires e.VisitType? || e.VisitLength?
    requires bytes == if e.VisitType? then Encode(Id(e.t), 1) else Encode(e.n, 4)
    ensures EncodeRun(Emitted(inner, out), [e]) == Some(Emitted(inner, out + bytes))
  {
    EncodeRunOne(Emitted(inner, out), e);
    assert Flatten([bytes]) == bytes;
  }

  /** A compound's entries each append their name-prefixed tree, keeping the compound writer on top. */
  lemma {:induction false} EncodeEntries(below: seq<WriterFrame>, es: seq<Entry>, out: seq<uint8>)
    ensures EncodeRun(Emitted(below + [CompoundWriter], out), WalkEntries(es))
         == Some(Emitted(below + [CompoundWriter], out + EntriesBytes(es)))
    decreases es, 0
  {
    var inner := below + [CompoundWriter];
    if es == [] {
      assert out + [] == out;
    } else {
      var key := es[0].name;
      var st := Emitted(inner, out);
      var one := NamedBytes(Some(key), es[0].tag);
      EncodeRunOne(st, VisitKey(key));
      assert out + Flatten([]) == out;
      EncodeWalk(inner, Some(key), es[0].tag, out);
      EncodeRunChain(st, [VisitKey(key)], Walk(es[0].tag), Emitted(inner + [ValueWriter(Some(key))], out));
      EncodeEntries(below, es[1..], out + one);
      EncodeRunChain(st, [VisitKey(key)] + Walk(es[0].tag), WalkEntries(es[1..]), Emitted(inner, out + one));
      Associate(out, one, EntriesBytes(es[1..]), []);
    }
  }

  /** A list's elements each append their tree without a prefix, keeping the list writer on top. */
  lemma {:induction false} EncodeElems(inner: seq<WriterFrame>, elems: seq<Tag>, out: seq<uint8>)
    requires inner != [] && inner[|inner| - 1] == ListWriter
    ensures EncodeRun(Emitted(inner, out), WalkElems(elems)) == Some(Emitted(inner, out + ElemsBytes(elems)))
    decreases elems, 0
  {
    if elems == [] {
      assert out + [] == out;
    } else {
      var st := Emitted(inner, out);
      EncodeRunOne(st, VisitValue);
      assert out + Flatten([]) == out;
      EncodeWalk(inner, None, elems[0], out);
      assert NamedBytes(None, elems[0]) == Payload(elems[0]);
      EncodeRunChain(st, [VisitValue], Walk(elems[0]), Emitted(inner + [ValueWriter(None)], out));
      EncodeElems(inner, elems[1..], out + Payload(elems[0]));
      EncodeRunChain(st, [VisitValue] + Walk(elems[0]), WalkElems(elems[1..]), Emitted(inner, out + Payload(elems[0])));
      Associate(out, Payload(elems[0]), ElemsBytes(elems[1..]), []);
    }
  }

  /** A smart list's values each append their value at the list's width, without a prefix. */
  lemma {:induction false} EncodeSmart(inner: seq<WriterFrame>, w: Type, vs: seq<Int64>, out: seq<uint8>)
    requires inner != [] && inner[|inner| - 1] == ListWriter
    ensures EncodeRun(Emitted(inner, out), WalkSmart(w, vs)) == Some(Emitted(inner, out + SmartBytes(w, vs)))
  {
    if vs == [] {
      assert out + [] == out;
    } else {
      var e := SmartIntEntry.Accept(w, vs[0]);
      var one := Flatten(PayloadWrites(e));
      SmartValueEncodes(inner, e, out);
      EncodeSmart(inner, w, vs[1..], out + one);
      EncodeRunChain(Emitted(inner, out), [VisitValue] + [e], WalkSmart(w, vs[1..]), Emitted(inner, out + one));
      assert [VisitValue] + [e] + WalkSmart(w, vs[1..]) == WalkSmart(w, vs);
      Associate(out, one, SmartBytes(w, vs[1..]), []);
    }
  }

  /** One value of a list of scalars: `visitValue()` and the scalar's call append its payload alone. */
  lemma SmartValueEncodes(inner: seq<WriterFrame>, e: Event, out: seq<uint8>)
    requires inner != [] && inner[|inner| - 1] == ListWriter
    requires IsValueCall(e) && e != VisitCompound && e != VisitList
    ensures EncodeRun(Emitted(inner, out), [VisitValue] + [e]) == Some(Emitted(inner, out + Flatten(PayloadWrites(e))))
  {
    var one := Flatten(PayloadWrites(e));
    var st := Emitted(inner, out);
    EncodeRunOne(st, VisitValue);
    assert out + Flatten([]) == out;
    EncodeLeaf(inner, None, e, out);
    assert Flatten(PrefixWrites(None, CallType(e))) + one == one;
    EncodeRunChain(st, [VisitValue], [e], Emitted(inner + [ValueWriter(None)], out));
  }

  /**
   * The writer `new NbtWriter(out, name)` builds: a value writer with the root's name, over a
   * stream of the given capacity.
   */
  class Writer {
    var frames: seq<WriterFrame>
    const sink: Sink<uint8>

    /**
     * `new NbtWriter(out, name)`. A `null` name (`None`) makes a root writer that writes no
     * prefix: neither the type byte nor a name.
     */
    constructor Named(name: Option<string>, capacity: nat, closeFails: bool)
      ensures frames == [ValueWriter(name)]
      ensures fresh(sink) && sink.State() == Stream([], [])
      ensures sink.capacity == capacity && sink.closeFails == closeFails
    {
      frames := [ValueWriter(name)];
      sink := new Sink(capacity, closeFails);
    }

    /** `new NbtWriter(out)`: the root is named with the empty string. */
    constructor (capacity: nat, closeFails: bool)
      ensures frames == [ValueWriter(Some(""))]
      ensures fresh(sink) && sink.State() == Stream([], [])
      ensures sink.capacity == capacity && sink.closeFails == closeFails
    {
      frames := [ValueWriter(Some(""))];
      sink := new Sink(capacity, closeFails);
    }

    /**
     * One call on the innermost writer: its writes go through `run`, and the writers alive
     * afterwards are those `EncodeStep` says. A call the innermost writer does not have changes
     * nothing and is reported.
     */
    method Visit(e: Event) returns (ok: bool)
      modifies this, sink
      ensures ok <==> EncodeStep(old(frames), e).Some?
      ensures !ok ==> frames == old(frames) && sink.State() == old(sink.State())
      ensures ok ==> var w := EncodeStep(old(frames), e).value;
        frames == w.frames && sink.State() == RunOf(sink.capacity, old(sink.State()), w.writes)
    {
      if frames == [] {
        return false;
      }
      var below := frames[..|frames| - 1];
      match frames[|frames| - 1]
      case ValueWriter(name) =>
        if !IsValueCall(e) {
          return false;
        }
        ok := true;
        if e.VisitByteArray? || e.VisitIntArray? || e.VisitLongArray? {
          // one `run` for the prefix, the length and the chunk loop
          var writes := WriteArray(name, e);
          sink.Run(writes);
        } else {
          // one `run` for the prefix, one for the value
          ghost var before := sink.State();
          sink.Run(PrefixWrites(name, CallType(e)));
          sink.Run(PayloadWrites(e));
          RunTwice(sink.capacity, before, PrefixWrites(name, CallType(e)), PayloadWrites(e));
        }
        if e == VisitCompound {
          frames := below + [CompoundWriter];
        } else if e == VisitList {
          frames := below + [ListWriter];
        } else {
          frames := below;
        }
      case ListWriter =>
        if e.VisitType? {
          sink.Run([Encode(Id(e.t), 1)]);
          ok := true;
        } else if e.VisitLength? {
          sink.Run([Encode(e.n, 4)]);
          ok := true;
        } else if e == VisitValue {
          frames := frames + [ValueWriter(None)];
          ok := true;
        } else if e == VisitEnd {
          frames := below;
          ok := true;
        } else {
          ok := false;
        }
      case CompoundWriter =>
        if e.VisitKey? {
          frames := frames + [ValueWriter(Some(e.key))];
          ok := true;
        } else if e == VisitEnd {
          sink.Run([[0]]);
          frames := below;
          ok := true;
        } else {
          ok := false;
        }
    }

    /** `close()`: closes the stream and throws the first exception caught, if any. */
    method Close() returns (thrown: Option<Thrown>)
      modifies sink
      ensures sink.out == old(sink.out)
      ensures sink.caught == old(sink.caught) + (if sink.closeFails then [CloseFailed] else [])
      ensures thrown == ThrowOf(sink.caught)
    {
      thrown := sink.Close();
    }
  }

  /**
   * `new NbtWriter(out, name)`, the calls of a trace in order, then `close()`. When every call
   * has its receiver, the stream ends up with all the bytes `EncodeRun` appends if they fit; if
   * they do not, it ends up with a strict prefix of them, and `close()` throws the write failure
   * with a failed close as its only suppressed exception.
   */
  method WriteTrace(name: Option<string>, capacity: nat, closeFails: bool, trace: seq<Event>)
    returns (ok: bool, out: seq<uint8>, thrown: Option<Thrown>)
    ensures ok <==> EncodeRun(Emitted([ValueWriter(name)], []), trace).Some?
    ensures ok ==> var b := EncodeRun(Emitted([ValueWriter(name)], []), trace).value.bytes;
      && (|b| <= capacity ==> out == b && thrown == (if closeFails then Some(Thrown(CloseFailed, [])) else None))
      && (|b| > capacity ==> out < b && thrown == Some(Thrown(WriteFailed(|out|), if closeFails then [CloseFailed] else [])))
  {
    var start := Emitted([ValueWriter(name)], []);
    var w := new Writer.Named(name, capacity, closeFails);
    ghost var writes: seq<seq<uint8>> := [];
    var i := 0;
    while i < |trace|
      invariant 0 <= i <= |trace|
      invariant w.sink.capacity == capacity && w.sink.closeFails == closeFails
      invariant w.sink.State() == RunOf(capacity, Stream([], []), writes)
      invariant EncodeRun(start, trace[..i]) == Some(Emitted(w.frames, Flatten(writes)))
    {
      ghost var mid := Emitted(w.frames, Flatten(writes));
      ghost var step := EncodeStep(w.frames, trace[i]);
      var accepted := w.Visit(trace[i]);
      if !accepted {
        NoReceiver(start, trace, i, mid);
        return false, w.sink.out, None;
      }
      RunTwice(capacity, Stream([], []), writes, step.value.writes);
      OneMore(start, trace, i, mid, writes, step.value);
      writes := writes + step.value.writes;
      i := i + 1;
    }
    assert trace[..i] == trace;
    RunFromFresh(capacity, writes);
    CloseAfterRuns(w.sink.State(), closeFails);
    out := w.sink.out;
    thrown := w.Close();
    ok := true;
  }

  /** A call without a receiver fails the whole trace. */
  lemma NoReceiver(start: Emitted, trace: seq<Event>, i: nat, mid: Emitted)
    requires i < |trace| && EncodeRun(start, trace[..i]) == Some(mid)
    requires EncodeStep(mid.frames, trace[i]).None?
    ensures EncodeRun(start, trace).None?
  {
    EncodeRunChain(start, trace[..i], trace[i..], mid);
    assert trace[..i] + trace[i..] == trace;
    assert trace[i..][0] == trace[i];
  }

  /** A call with a receiver extends the run by its writes. */
  lemma OneMore(start: Emitted, trace: seq<Event>, i: nat, mid: Emitted, writes: seq<seq<uint8>>, step: Written)
    requires i < |trace| && EncodeRun(start, trace[..i]) == Some(mid) && mid.bytes == Flatten(writes)
    requires EncodeStep(mid.frames, trace[i]) == Some(step)
    ensures EncodeRun(start, trace[..i + 1]) == Some(Emitted(step.frames, Flatten(writes + step.writes)))
  {
    FlattenAppend(writes, step.writes);
    EncodeRunOne(mid, trace[i]);
    EncodeRunChain(start, trace[..i], [trace[i]], mid);
    assert trace[..i] + [trace[i]] == trace[..i + 1];
  }

  /** The action of an array visit: the prefix, the length, then the chunk loop over the elements. */
  method WriteArray(name: Option<string>, e: Event) returns (writes: seq<seq<uint8>>)
    requires e.VisitByteArray? || e.VisitIntArray? || e.VisitLongArray?
    ensures writes == PrefixWrites(name, CallType(e)) + PayloadWrites(e)
  {
    var chunks, length;
    if e.VisitByteArray? {
      length := |e.bytes.bytes|;
      chunks := Chunked(e.bytes.bytes, 1, BufferLength / 1);
    } else if e.VisitIntArray? {
      length := |e.ints.ints|;
      chunks := Chunked(e.ints.ints, 4, BufferLength / 4);
    } else {
      length := |e.longs.longs|;
      chunks := Chunked(e.longs.longs, 8, BufferLength / 8);
    }
    writes := PrefixWrites(name, CallType(e)) + ([Encode(length, 4)] + chunks);
  }

  /**
   * The loop `for (offset = 0; (bufferStep = min(bufferLimit, length - offset)) > 0; offset +=
   * bufferStep)`: each round writes the big-endian bytes of the next `bufferStep` elements.
   */
  method Chunked(vs: seq<int>, n: Width, bufferLimit: nat) returns (writes: seq<seq<uint8>>)
    requires bufferLimit > 0
    ensures writes == ChunkWrites(vs, n, bufferLimit)
  {
    writes := [];
    var offset := 0;
    assert vs[offset..] == vs;
    assert writes + ChunkWrites(vs, n, bufferLimit) == ChunkWrites(vs, n, bufferLimit);
    var step := Min(bufferLimit, |vs| - offset);
    while step > 0
      invariant 0 <= offset <= |vs|
      invariant step == Min(bufferLimit, |vs| - offset)
      invariant writes + ChunkWrites(vs[offset..], n, bufferLimit) == ChunkWrites(vs, n, bufferLimit)
      decreases |vs| - offset
    {
      ChunkAt(vs, offset, step, n, bufferLimit, writes);
      writes := writes + [EncodeAll(vs[offset..offset + step], n)];
      offset := offset + step;
      step := Min(bufferLimit, |vs| - offset);
    }
    assert vs[offset..] == [];
    assert writes + [] == writes;
  }

  /** One round of the loop, in terms of the offset. */
  lemma ChunkAt(vs: seq<int>, offset: nat, step: nat, n: Width, bufferLimit: nat, writes: seq<seq<uint8>>)
    requires bufferLimit > 0 && offset < |vs| && step == Min(bufferLimit, |vs| - offset)
    ensures offset + step <= |vs|
    ensures writes + ChunkWrites(vs[offset..], n, bufferLimit)
      == (writes + [EncodeAll(vs[offset..offset + step], n)]) + ChunkWrites(vs[offset + step..], n, bufferLimit)
  {
    var t := vs[offset..];
    assert |t| == |vs| - offset && step == Min(bufferLimit, |t|);
    assert t[..step] == vs[offset..offset + step];
    assert t[step..] == vs[offset + step..];
    var first, others := EncodeAll(t[..step], n), ChunkWrites(t[step..], n, bufferLimit);
    assert ChunkWrites(t, n, bufferLimit) == [first] + others;
    assert writes + ([first] + others) == (writes + [first]) + others;
  }

  /**
   * The chunks hold the elements' big-endian bytes, in order, and each fits the buffer: at most
   * `bufferLimit` elements of `n` bytes.
   */
  lemma {:induction false} ChunkWritesSpec(vs: seq<int>, n: Width, bufferLimit: nat)
    requires bufferLimit > 0
    ensures Flatten(ChunkWrites(vs, n, bufferLimit)) == EncodeAll(vs, n)
    ensures forall i :: 0 <= i < |ChunkWrites(vs, n, bufferLimit)| ==>
      0 < |ChunkWrites(vs, n, bufferLimit)[i]| <= Span(n, bufferLimit)
    decreases |vs|
  {
    if vs != [] {
      var step := Min(bufferLimit, |vs|);
      var c := ChunkWrites(vs, n, bufferLimit);
      var tail := ChunkWrites(vs[step..], n, bufferLimit);
      ChunkWritesSpec(vs[step..], n, bufferLimit);
      assert vs[..step] + vs[step..] == vs;
      EncodeAllAppend(vs[..step], vs[step..], n);
      SpanMonotonic(n, step, bufferLimit);
      SpanMonotonic(n, 1, step);
      assert c[1..] == tail;
      forall i | 0 <= i < |c|
        ensures 0 < |c[i]| <= Span(n, bufferLimit)
      {
        if i > 0 {
          assert c[i] == tail[i - 1];
        }
      }
    }
  }

  /** With `8192 / n` elements per chunk, every chunk fits the 8192-byte buffer. */
  lemma ChunksFitBuffer(n: Width)
    ensures Span(n, BufferLength / n) == BufferLength
  {
    SpanIsProduct(n, BufferLength / n);
  }

  /**
   * A call succeeds exactly when the protocol has it for the innermost writer, and leaves the
   * writers alive that the protocol says.
   */
  lemma EncodeStepProtocol(frames: seq<WriterFrame>, e: Event)
    ensures EncodeStep(frames, e).Some? <==> Protocol(Roles(frames), e).Some?
    ensures EncodeStep(frames, e).Some? ==> Protocol(Roles(frames), e) == Some(Roles(EncodeStep(frames, e).value.frames))
  {
    if frames != [] {
      var below := frames[..|frames| - 1];
      var top := frames[|frames| - 1];
      assert frames == below + [top];
      match top
      case ValueWriter(name) => ValueTopProtocol(below, name, e);
      case ListWriter => ListTopProtocol(below, e);
      case CompoundWriter => CompoundTopProtocol(below, e);
    }
  }

  /** One call on the writers `frames` agrees with the protocol on their roles. */
  predicate StepFollowsProtocol(frames: seq<WriterFrame>, e: Event)
  {
    && (EncodeStep(frames, e).Some? <==> Protocol(Roles(frames), e).Some?)
    && (EncodeStep(frames, e).Some? ==> Protocol(Roles(frames), e) == Some(Roles(EncodeStep(frames, e).value.frames)))
  }

  lemma ValueTopProtocol(below: seq<WriterFrame>, name: Option<string>, e: Event)
    ensures StepFollowsProtocol(below + [ValueWriter(name)], e)
  {
    RolesSnoc(below, ValueWriter(name));
    ValueWriterFrames(below, name, e);
    if !IsValueCall(e) {
      ValueRoleStep(Roles(below), e, None);
    } else if e == VisitCompound {
      RolesSnoc(below, CompoundWriter);
      ValueRoleStep(Roles(below), e, Some(Roles(below) + [CompoundRole]));
    } else if e == VisitList {
      RolesSnoc(below, ListWriter);
      ValueRoleStep(Roles(below), e, Some(Roles(below) + [ListRole]));
    } else {
      ValueRoleStep(Roles(below), e, Some(Roles(below)));
    }
  }

  /** The protocol's answer to a call on a value visitor. */
  lemma ValueRoleStep(below: seq<Role>, e: Event, r: Option<seq<Role>>)
    requires r == if !IsValueCall(e) then None
                  else if e == VisitCompound then Some(below + [CompoundRole])
                  else if e == VisitList then Some(below + [ListRole])
                  else Some(below)
    ensures Protocol(below + [ValueRole], e) == r
  {
    var roles := below + [ValueRole];
    assert roles[..|roles| - 1] == below && roles[|roles| - 1] == ValueRole;
  }

  /** The writers a value writer leaves: a container writer in its place, or none. */
  lemma ValueWriterFrames(below: seq<WriterFrame>, name: Option<string>, e: Event)
    ensures EncodeStep(below + [ValueWriter(name)], e).Some? <==> IsValueCall(e)
    ensures IsValueCall(e) ==>
      EncodeStep(below + [ValueWriter(name)], e).value.frames
      == (if e == VisitCompound then below + [CompoundWriter] else if e == VisitList then below + [ListWriter] else below)
  {
    var frames := below + [ValueWriter(name)];
    assert frames[..|frames| - 1] == below && frames[|frames| - 1] == ValueWriter(name);
  }

  lemma ListTopProtocol(below: seq<WriterFrame>, e: Event)
    ensures StepFollowsProtocol(below + [ListWriter], e)
  {
    var frames := below + [ListWriter];
    RolesSnoc(below, ListWriter);
    assert frames[..|frames| - 1] == below;
    var roles := Roles(frames);
    assert roles == Roles(below) + [ListRole];
    assert roles[..|roles| - 1] == Roles(below);
    if e.VisitType? || e.VisitLength? {
      assert EncodeStep(frames, e).value.frames == frames;
      assert Protocol(roles, e) == Some(roles);
    } else if e == VisitValue {
      RolesSnoc(frames, ValueWriter(None));
      assert EncodeStep(frames, e).value.frames == frames + [ValueWriter(None)];
      assert Protocol(roles, e) == Some(roles + [ValueRole]);
    } else if e == VisitEnd {
      assert EncodeStep(frames, e).value.frames == below;
      assert Protocol(roles, e) == Some(Roles(below));
    } else {
      assert EncodeStep(frames, e).None? && Protocol(roles, e).None?;
    }
  }

  lemma CompoundTopProtocol(below: seq<WriterFrame>, e: Event)
    ensures StepFollowsProtocol(below + [CompoundWriter], e)
  {
    var frames := below + [CompoundWriter];
    RolesSnoc(below, CompoundWriter);
    assert frames[..|frames| - 1] == below;
    var roles := Roles(frames);
    assert roles == Roles(below) + [CompoundRole];
    assert roles[..|roles| - 1] == Roles(below);
    if e.VisitKey? {
      RolesSnoc(frames, ValueWriter(Some(e.key)));
      assert EncodeStep(frames, e).value.frames == frames + [ValueWriter(Some(e.key))];
      assert Protocol(roles, e) == Some(roles + [ValueRole]);
    } else if e == VisitEnd {
      assert EncodeStep(frames, e).value.frames == below;
      assert Protocol(roles, e) == Some(Roles(below));
    } else {
      assert EncodeStep(frames, e).None? && Protocol(roles, e).None?;
    }
  }
}
