/**
 * Writing a tree with `NbtWriter` and reading the bytes back with `NbtReader` (current type
 * table) makes the same visitor calls as walking the tree with its NaNs made canonical, and
 * `toTag()` then rebuilds that tree. This holds for trees the builder accepts whose strings and
 * names fit the 16-bit length, whose arrays fit the reader's size limit, and whose compounds
 * hold no End value (an End value is written as its type byte alone, a 0, which the reader
 * takes for the end of the compound).
 */
module RoundTrip {
  import opened Wrappers
  import opened Binary
  import opened NBTType
  import opened ImmutableArrays
  import opened Events
  import opened Tags
  import opened TagReader
  import opened Decoding
  import opened NbtWriter
  import opened WriterHelper
  import SmartIntEntry
  import Utf8
  import TagWriter
  import NBTCompound
  import NbtReader

  /** A string whose UTF-8 form fits the unsigned 16-bit length in front of it. */
  predicate ShortString(s: string)
  {
    |Utf8.Encode(s)| < 0x1_0000
  }

  /** A call whose payload the reader takes back: short strings, arrays within the size limit. */
  predicate ReadableCall(e: Event)
  {
    && (e.VisitString? ==> ShortString(e.str))
    && (e.VisitByteArray? ==> |e.bytes.bytes| <= MaxArrayLength)
    && (e.VisitIntArray? ==> |e.ints.ints| <= MaxArrayLength)
    && (e.VisitLongArray? ==> |e.longs.longs| <= MaxArrayLength)
  }

  /** A float or double call whose bits `writeFloat`/`writeDouble` put on the stream unchanged. */
  predicate CanonicalCall(e: Event)
  {
    && (e.VisitFloat? ==> FloatToIntBits(e.f) == e.f)
    && (e.VisitDouble? ==> DoubleToLongBits(e.d) == e.d)
  }

  /**
   * The limits of the format and the reader, everywhere in a tree; when `exact`, also no float or
   * double NaN other than the canonical ones, which the writer would replace.
   */
  predicate Readable(t: Tag, exact: bool)
    decreases t
  {
    match t
    case CompoundTag(es) =>
      forall i :: 0 <= i < |es| ==>
        ShortString(es[i].name) && TypeOf(es[i].tag) != End && Readable(es[i].tag, exact)
    case ListTag(_, elems) => forall i :: 0 <= i < |elems| ==> Readable(elems[i], exact)
    case SmartListTag(_, _) => true
    case _ => ReadableCall(Accept(t)) && (exact ==> CanonicalCall(Accept(t)))
  }

  /** A tree the writer and reader carry unchanged: the builder accepts it and the reader reads it back exactly. */
  predicate WellFormed(t: Tag)
  {
    TagWriter.Buildable(t) && Readable(t, true)
  }

  /** A tree the builder accepts and the reader can read; it comes back with its NaNs canonical. */
  predicate Writable(t: Tag)
  {
    TagWriter.Buildable(t) && Readable(t, false)
  }

  /** A signed value written at its width reads back unchanged. */
  lemma SignedBack(v: int, n: Width, rest: seq<uint8>)
    requires InSigned(v, n)
    ensures ReadSigned(Encode(v, n) + rest, n) == Success(Read(v, rest))
  {
    var s := Encode(v, n) + rest;
    assert s[..n] == Encode(v, n) && s[n..] == rest;
    DecodeSignedOfEncode(v, n);
  }

  /** Raw bits written at their width read back unchanged. */
  lemma UnsignedBack(v: nat, n: Width, rest: seq<uint8>)
    requires v < Modulus(n)
    ensures ReadUnsigned(Encode(v, n) + rest, n) == Success(Read(v, rest))
  {
    var s := Encode(v, n) + rest;
    assert s[..n] == Encode(v, n) && s[n..] == rest;
    DecodeUnsignedOfEncode(v, n);
  }

  /** A type id byte reads back as its type. */
  lemma TypeBack(t: Type, rest: seq<uint8>)
    ensures ReadType(Current, Encode(Id(t), 1) + rest) == Success(Read(t, rest))
  {
    IdsConsecutive(t, t);
    SignedBack(Id(t), 1, rest);
    GetByIdOfId(t);
  }

  /** `writeString` then `nextString()`: the length, the bytes, and the string decoded from them. */
  lemma StringBack(s: string, rest: seq<uint8>)
    requires ShortString(s)
    ensures ReadString(Flatten(StringWrites(s)) + rest) == Success(Read(s, rest))
  {
    var u := Utf8.Encode(s);
    StringLayout(s, rest);
    DecodeUnsignedOfEncode(|u|, 2);
    LengthPrefixedBack(Encode(|u|, 2), u, rest);
    Utf8.DecodeOfEncode(s);
  }

  /** The bytes `writeString` leaves: the 2-byte length, then the UTF-8 bytes. */
  lemma StringLayout(s: string, rest: seq<uint8>)
    ensures Flatten(StringWrites(s)) + rest == Encode(|Utf8.Encode(s)|, 2) + (Utf8.Encode(s) + rest)
  {
    var u := Utf8.Encode(s);
    FlattenCons(Encode(|u|, 2), [u]);
    FlattenSingle(u);
  }

  /** `nextString()` on a 2-byte length followed by that many bytes. */
  lemma LengthPrefixedBack(len: seq<uint8>, u: seq<uint8>, rest: seq<uint8>)
    requires |len| == 2 && DecodeUnsigned(len) == |u|
    ensures ReadString(len + (u + rest)) == Success(Read(Utf8.Decode(u), rest))
  {
    var all := len + (u + rest);
    assert all[..2] == len && all[2..] == u + rest;
    assert (u + rest)[..|u|] == u && (u + rest)[|u|..] == rest;
  }

  /** An array's length and chunks read back as its length, then its elements. */
  lemma ArrayBack(vs: seq<int>, n: Width, limit: nat, rest: seq<uint8>)
    requires limit > 0 && |vs| <= MaxArrayLength
    requires forall i :: 0 <= i < |vs| ==> InSigned(vs[i], n)
    ensures var s := Flatten([Encode(|vs|, 4)] + ChunkWrites(vs, n, limit)) + rest;
      && ReadArrayLength(s) == Success(Read(|vs| as nat, EncodeAll(vs, n) + rest))
      && ReadValues(EncodeAll(vs, n) + rest, n, |vs|) == Success(Read(vs, rest))
  {
    FlattenCons(Encode(|vs|, 4), ChunkWrites(vs, n, limit));
    ChunkWritesSpec(vs, n, limit);
    Associate<uint8>(Encode(|vs|, 4), EncodeAll(vs, n), rest, []);
    SignedBack(|vs|, 4, EncodeAll(vs, n) + rest);
    DecodeAllOfEncodeAll(vs, n, rest);
    assert (EncodeAll(vs, n) + rest)[Span(n, |vs|)..] == rest;
  }

  /** Every leaf call's payload reads back as that call, with nothing more consumed. */
  lemma LeafBack(e: Event, rest: seq<uint8>)
    requires IsValueCall(e) && e != VisitCompound && e != VisitList && ReadableCall(e) && CanonicalCall(e)
    ensures ReadLeaf(Current, CallType(e), Flatten(PayloadWrites(e)) + rest) == Success(Read(e, rest))
  {
    if e.VisitByte? || e.VisitShort? || e.VisitInt? || e.VisitLong? {
      IntegerBack(e, rest);
    } else if e.VisitFloat? || e.VisitDouble? {
      BitsBack(e, rest);
    } else if e.VisitString? {
      StringBack(e.str, rest);
    } else if e.VisitByteArray? {
      ByteArrayBack(e.bytes, rest);
    } else if e.VisitIntArray? {
      IntArrayBack(e.ints, rest);
    } else if e.VisitLongArray? {
      LongArrayBack(e.longs, rest);
    } else {
      assert e == VisitEnd;
      assert [] + rest == rest;
    }
  }

  lemma IntegerBack(e: Event, rest: seq<uint8>)
    requires e.VisitByte? || e.VisitShort? || e.VisitInt? || e.VisitLong?
    ensures ReadLeaf(Current, CallType(e), Flatten(PayloadWrites(e)) + rest) == Success(Read(e, rest))
  {
    var v := SmartIntEntry.EventValue(e).value;
    var n: Width := if e.VisitByte? then 1 else if e.VisitShort? then 2 else if e.VisitInt? then 4 else 8;
    assert PayloadWrites(e) == [Encode(v, n)];
    FlattenSingle(Encode(v, n));
    SignedBack(v, n, rest);
  }

  lemma BitsBack(e: Event, rest: seq<uint8>)
    requires (e.VisitFloat? || e.VisitDouble?) && CanonicalCall(e)
    ensures ReadLeaf(Current, CallType(e), Flatten(PayloadWrites(e)) + rest) == Success(Read(e, rest))
  {
    if e.VisitFloat? {
      FlattenSingle(Encode(FloatToIntBits(e.f), 4));
      UnsignedBack(e.f, 4, rest);
    } else {
      FlattenSingle(Encode(DoubleToLongBits(e.d), 8));
      UnsignedBack(e.d, 8, rest);
    }
  }

  lemma ByteArrayBack(a: ImmutableBytes, rest: seq<uint8>)
    requires |a.bytes| <= MaxArrayLength
    ensures ReadLeaf(Current, ByteArray, Flatten(PayloadWrites(VisitByteArray(a))) + rest)
         == Success(Read(VisitByteArray(a), rest))
  {
    assert forall i :: 0 <= i < |a.bytes| ==> InSigned(a.bytes[i], 1);
    assert PayloadWrites(VisitByteArray(a)) == [Encode(|a.bytes|, 4)] + ChunkWrites(a.bytes, 1, BufferLength / 1);
    ArrayBack(a.bytes, 1, BufferLength / 1, rest);
    ByteArrayRead(a, Flatten(PayloadWrites(VisitByteArray(a))) + rest, EncodeAll(a.bytes, 1) + rest, rest);
  }

  /** Reading a ByteArray value: its length, then that many elements. */
  lemma ByteArrayRead(a: ImmutableBytes, s: seq<uint8>, elements: seq<uint8>, rest: seq<uint8>)
    requires ReadArrayLength(s) == Success(Read(|a.bytes| as nat, elements))
    requires ReadValues(elements, 1, |a.bytes|) == Success(Read(a.bytes, rest))
    ensures ReadLeaf(Current, ByteArray, s) == Success(Read(VisitByteArray(a), rest))
  {
    assert ReadArray(ByteArray, s) == Success(Read(VisitByteArray(ImmutableBytes(a.bytes)), rest));
  }

  lemma IntArrayBack(a: ImmutableInts, rest: seq<uint8>)
    requires |a.ints| <= MaxArrayLength
    ensures ReadLeaf(Current, IntArray, Flatten(PayloadWrites(VisitIntArray(a))) + rest)
         == Success(Read(VisitIntArray(a), rest))
  {
    assert forall i :: 0 <= i < |a.ints| ==> InSigned(a.ints[i], 4);
    assert PayloadWrites(VisitIntArray(a)) == [Encode(|a.ints|, 4)] + ChunkWrites(a.ints, 4, BufferLength / 4);
    ArrayBack(a.ints, 4, BufferLength / 4, rest);
    IntArrayRead(a, Flatten(PayloadWrites(VisitIntArray(a))) + rest, EncodeAll(a.ints, 4) + rest, rest);
  }

  /** Reading a IntArray value: its length, then that many elements. */
  lemma IntArrayRead(a: ImmutableInts, s: seq<uint8>, elements: seq<uint8>, rest: seq<uint8>)
    requires ReadArrayLength(s) == Success(Read(|a.ints| as nat, elements))
    requires ReadValues(elements, 4, |a.ints|) == Success(Read(a.ints, rest))
    ensures ReadLeaf(Current, IntArray, s) == Success(Read(VisitIntArray(a), rest))
  {
    assert ReadArray(IntArray, s) == Success(Read(VisitIntArray(ImmutableInts(a.ints)), rest));
  }

  lemma LongArrayBack(a: ImmutableLongs, rest: seq<uint8>)
    requires |a.longs| <= MaxArrayLength
    ensures ReadLeaf(Current, LongArray, Flatten(PayloadWrites(VisitLongArray(a))) + rest)
         == Success(Read(VisitLongArray(a), rest))
  {
    assert forall i :: 0 <= i < |a.longs| ==> InSigned(a.longs[i], 8);
    assert PayloadWrites(VisitLongArray(a)) == [Encode(|a.longs|, 4)] + ChunkWrites(a.longs, 8, BufferLength / 8);
    ArrayBack(a.longs, 8, BufferLength / 8, rest);
    LongArrayRead(a, Flatten(PayloadWrites(VisitLongArray(a))) + rest, EncodeAll(a.longs, 8) + rest, rest);
  }

  /** Reading a LongArray value: its length, then that many elements. */
  lemma LongArrayRead(a: ImmutableLongs, s: seq<uint8>, elements: seq<uint8>, rest: seq<uint8>)
    requires ReadArrayLength(s) == Success(Read(|a.longs| as nat, elements))
    requires ReadValues(elements, 8, |a.longs|) == Success(Read(a.longs, rest))
    ensures ReadLeaf(Current, LongArray, s) == Success(Read(VisitLongArray(a), rest))
  {
    assert ReadArray(LongArray, s) == Success(Read(VisitLongArray(ImmutableLongs(a.longs)), rest));
  }

  /** A leaf value's bytes decode to its single call. */
  lemma DecodeLeaf(e: Event, rest: seq<uint8>)
    requires IsValueCall(e) && e != VisitCompound && e != VisitList && ReadableCall(e) && CanonicalCall(e)
    ensures DecodeValue(Current, CallType(e), Flatten(PayloadWrites(e)) + rest) == Decoded([e], rest, None)
  {
    LeafBack(e, rest);
  }

  /**
   * The payload the writer produces for a tree decodes, read as a value of the tree's type, to
   * the calls of the tree's walk, leaving whatever follows it.
   */
  lemma {:induction false} DecodePayload(t: Tag, rest: seq<uint8>)
    requires WellFormed(t)
    ensures DecodeValue(Current, TypeOf(t), Payload(t) + rest) == Decoded(Walk(t), rest, None)
    decreases t, 1
  {
    match t
    case CompoundTag(es) => DecodeCompound(es, rest);
    case ListTag(et, elems) => DecodeList(et, elems, rest);
    case SmartListTag(w, vs) => DecodeSmartList(w, vs, rest);
    case _ =>
      HeadTypeOf(t);
      DecodeLeaf(Accept(t), rest);
  }

  lemma {:induction false} DecodeCompound(es: seq<Entry>, rest: seq<uint8>)
    requires WellFormed(CompoundTag(es))
    ensures DecodeValue(Current, Compound, Payload(CompoundTag(es)) + rest) == Decoded(Walk(CompoundTag(es)), rest, None)
    decreases es, 2
  {
    EntriesWellFormed(es);
    DecodeEntriesOf(es, [0] + rest);
    Associate<uint8>(EntriesBytes(es), [0], rest, []);
    Associate<Event>([VisitCompound], WalkEntries(es), [VisitEnd], []);
  }

  lemma EntriesWellFormed(es: seq<Entry>)
    requires WellFormed(CompoundTag(es))
    ensures forall i :: 0 <= i < |es| ==> EntryReadable(es[i])
  {
  }

  /** A compound entry that writes and reads back: a short name, a value that is not End. */
  predicate EntryReadable(e: Entry)
  {
    ShortString(e.name) && TypeOf(e.tag) != End && WellFormed(e.tag)
  }

  lemma ElemsWellFormed(et: Type, elems: seq<Tag>)
    requires WellFormed(ListTag(et, elems))
    ensures forall i :: 0 <= i < |elems| ==> TypeOf(elems[i]) == et && WellFormed(elems[i])
  {
  }

  /** A compound's named entries, then its 0 byte, decode to the entries' calls and `visitEnd`. */
  lemma {:induction false} DecodeEntriesOf(es: seq<Entry>, tail: seq<uint8>)
    requires forall i :: 0 <= i < |es| ==> EntryReadable(es[i])
    requires tail != [] && tail[0] == 0
    ensures DecodeEntries(Current, EntriesBytes(es) + tail) == Decoded(WalkEntries(es) + [VisitEnd], tail[1..], None)
    decreases es, 0
  {
    if es == [] {
      EntriesEndOf(es, tail);
    } else {
      ReadableTail(es);
      DecodeEntriesOf(es[1..], tail);
      EntryConsOf(es, tail);
    }
  }

  /** No entries: the 0 byte alone decodes to `visitEnd`. */
  lemma EntriesEndOf(es: seq<Entry>, tail: seq<uint8>)
    requires es == [] && tail != [] && tail[0] == 0
    ensures DecodeEntries(Current, EntriesBytes(es) + tail) == Decoded(WalkEntries(es) + [VisitEnd], tail[1..], None)
  {
    assert tail == Encode(Id(End), 1) + tail[1..];
    TypeBack(End, tail[1..]);
    assert [] + tail == tail;
  }

  lemma ReadableTail(es: seq<Entry>)
    requires es != [] && forall i :: 0 <= i < |es| ==> EntryReadable(es[i])
    ensures forall i :: 0 <= i < |es[1..]| ==> EntryReadable(es[1..][i])
  {
    forall i | 0 <= i < |es[1..]|
      ensures EntryReadable(es[1..][i])
    {
      assert es[1..][i] == es[i + 1];
    }
  }

  /** The first entry of `es` reads back in front of the rest of the entries. */
  lemma {:induction false} EntryConsOf(es: seq<Entry>, tail: seq<uint8>)
    requires es != [] && forall i :: 0 <= i < |es| ==> EntryReadable(es[i])
    requires tail != []
    requires DecodeEntries(Current, EntriesBytes(es[1..]) + tail) == Decoded(WalkEntries(es[1..]) + [VisitEnd], tail[1..], None)
    ensures DecodeEntries(Current, EntriesBytes(es) + tail) == Decoded(WalkEntries(es) + [VisitEnd], tail[1..], None)
    decreases es[0].tag, 2
  {
    var k, tag := es[0].name, es[0].tag;
    var others, walked := EntriesBytes(es[1..]), WalkEntries(es[1..]);
    assert EntryReadable(es[0]);
    DecodePayload(tag, others + tail);
    EntryConsBack(k, tag, others, tail, walked + [VisitEnd], tail[1..]);
    EntriesCons(es);
    Associate<Event>([VisitKey(k)] + Walk(tag), walked, [VisitEnd], []);
  }

  /** The bytes and the calls of a non-empty entry list, first entry apart. */
  lemma EntriesCons(es: seq<Entry>)
    requires es != []
    ensures EntriesBytes(es) == NamedBytes(Some(es[0].name), es[0].tag) + EntriesBytes(es[1..])
    ensures WalkEntries(es) == [VisitKey(es[0].name)] + Walk(es[0].tag) + WalkEntries(es[1..])
  {
  }

  /** One named entry whose value reads back, in front of entries that read back. */
  lemma EntryConsBack(k: string, tag: Tag, others: seq<uint8>, tail: seq<uint8>, events: seq<Event>, r: seq<uint8>)
    requires ShortString(k) && TypeOf(tag) != End && TagWriter.Buildable(tag)
    requires DecodeValue(Current, TypeOf(tag), Payload(tag) + (others + tail)) == Decoded(Walk(tag), others + tail, None)
    requires DecodeEntries(Current, others + tail) == Decoded(events, r, None)
    ensures DecodeEntries(Current, NamedBytes(Some(k), tag) + others + tail) == Decoded([VisitKey(k)] + Walk(tag) + events, r, None)
  {
    var more := others + tail;
    var strs := Flatten(StringWrites(k));
    NamedSplit(k, tag);
    Associate<uint8>(NamedBytes(Some(k), tag), others, tail, []);
    Associate<uint8>(Encode(Id(TypeOf(tag)), 1), strs, Payload(tag), more);
    TypeBack(TypeOf(tag), strs + (Payload(tag) + more));
    StringBack(k, Payload(tag) + more);
    EntryStep(NamedBytes(Some(k), tag) + others + tail, TypeOf(tag), strs + (Payload(tag) + more), k, Payload(tag) + more,
              Walk(tag), more, events, r);
  }

  /** `CompoundContext.evaluate()` over one entry read in full, then the entries after it. */
  lemma EntryStep(s: seq<uint8>, t: Type, s1: seq<uint8>, k: string, s2: seq<uint8>,
                  value: seq<Event>, m: seq<uint8>, others: seq<Event>, r: seq<uint8>)
    requires ReadType(Current, s) == Success(Read(t, s1)) && t != End
    requires ReadString(s1) == Success(Read(k, s2))
    requires DecodeValue(Current, t, s2) == Decoded(value, m, None)
    requires DecodeEntries(Current, m) == Decoded(others, r, None)
    ensures DecodeEntries(Current, s) == Decoded([VisitKey(k)] + value + others, r, None)
  {
    EntriesUnfold(Current, s, t, s1, k, s2);
  }

  /** A named value of a type other than End: the id byte, the name, the payload. */
  lemma NamedSplit(k: string, t: Tag)
    requires TypeOf(t) != End && TagWriter.Buildable(t)
    ensures NamedBytes(Some(k), t) == Encode(Id(TypeOf(t)), 1) + (Flatten(StringWrites(k)) + Payload(t))
  {
    HeadTypeOf(t);
    FlattenCons(Encode(Id(TypeOf(t)), 1), StringWrites(k));
    Associate<uint8>(Encode(Id(TypeOf(t)), 1), Flatten(StringWrites(k)), Payload(t), []);
  }

  lemma {:induction false} DecodeList(et: Type, elems: seq<Tag>, rest: seq<uint8>)
    requires WellFormed(ListTag(et, elems))
    ensures DecodeValue(Current, List, Payload(ListTag(et, elems)) + rest) == Decoded(Walk(ListTag(et, elems)), rest, None)
    decreases elems, 2
  {
    ListHeadBack(et, |elems|, ElemsBytes(elems) + rest);
    Associate<uint8>(ListHead(et, |elems|), ElemsBytes(elems), rest, []);
    ElemsWellFormed(et, elems);
    DecodeElemsOf(et, elems, rest);
    ListStep(ListHead(et, |elems|) + (ElemsBytes(elems) + rest), et, |elems|, ElemsBytes(elems) + rest, WalkElems(elems) + [VisitEnd], rest);
    Associate<Event>(ListHeader(et, |elems|), WalkElems(elems), [VisitEnd], []);
  }

  /** A list value: its header, then its elements. */
  lemma ListStep(s: seq<uint8>, et: Type, n: nat, body: seq<uint8>, events: seq<Event>, rest: seq<uint8>)
    requires n <= MaxInt32
    requires ReadListHeader(Current, s) == Success(Read((et, n as Int32), body))
    requires DecodeElems(Current, et, n, body) == Decoded(events, rest, None)
    ensures DecodeValue(Current, List, s) == Decoded(ListHeader(et, n) + events, rest, None)
  {
  }

  lemma DecodeSmartList(w: Type, vs: seq<Int64>, rest: seq<uint8>)
    requires WellFormed(SmartListTag(w, vs))
    ensures DecodeValue(Current, List, Payload(SmartListTag(w, vs)) + rest) == Decoded(Walk(SmartListTag(w, vs)), rest, None)
  {
    ListHeadBack(w, |vs|, SmartBytes(w, vs) + rest);
    Associate<uint8>(ListHead(w, |vs|), SmartBytes(w, vs), rest, []);
    DecodeSmartOf(w, vs, rest);
    ListStep(ListHead(w, |vs|) + (SmartBytes(w, vs) + rest), w, |vs|, SmartBytes(w, vs) + rest, WalkSmart(w, vs) + [VisitEnd], rest);
    Associate<Event>(ListHeader(w, |vs|), WalkSmart(w, vs), [VisitEnd], []);
  }

  /** A list's entry type id and length read back as its header. */
  lemma ListHeadBack(et: Type, n: nat, rest: seq<uint8>)
    requires et != End && n <= MaxInt32
    ensures ReadListHeader(Current, ListHead(et, n) + rest) == Success(Read((et, n as Int32), rest))
  {
    Associate<uint8>(Encode(Id(et), 1), Encode(LengthOf(n), 4), rest, []);
    TypeBack(et, Encode(LengthOf(n), 4) + rest);
    SignedBack(n, 4, rest);
  }

  /** A list's elements, without prefixes, decode to one `visitValue()` and the element's calls each. */
  lemma {:induction false} DecodeElemsOf(et: Type, elems: seq<Tag>, rest: seq<uint8>)
    requires forall i :: 0 <= i < |elems| ==> TypeOf(elems[i]) == et && WellFormed(elems[i])
    ensures DecodeElems(Current, et, |elems|, ElemsBytes(elems) + rest) == Decoded(WalkElems(elems) + [VisitEnd], rest, None)
    decreases elems, 0
  {
    if elems == [] {
      assert [] + rest == rest;
    } else {
      var more := ElemsBytes(elems[1..]) + rest;
      Associate<uint8>(Payload(elems[0]), ElemsBytes(elems[1..]), rest, []);
      DecodePayload(elems[0], more);
      DecodeElemsOf(et, elems[1..], rest);
      ElemsStep(et, |elems|, Payload(elems[0]), more, Walk(elems[0]), WalkElems(elems[1..]) + [VisitEnd], rest);
      Associate<Event>([VisitValue] + Walk(elems[0]), WalkElems(elems[1..]), [VisitEnd], []);
    }
  }

  /** One element decoded, then the others: `visitValue()`, the element's calls, the others' calls. */
  lemma ElemsStep(t: Type, left: int, one: seq<uint8>, more: seq<uint8>, first: seq<Event>, others: seq<Event>, rest: seq<uint8>)
    requires left > 0
    requires DecodeValue(Current, t, one + more) == Decoded(first, more, None)
    requires DecodeElems(Current, t, left - 1, more) == Decoded(others, rest, None)
    ensures DecodeElems(Current, t, left, one + more) == Decoded([VisitValue] + first + others, rest, None)
  {
    ElemsUnfold(Current, t, left, one + more);
    assert [VisitValue] + (first + others) == [VisitValue] + first + others;
  }

  /** A smart list's values, each at the list's width, decode to one call pair each. */
  lemma {:induction false} DecodeSmartOf(w: Type, vs: seq<Int64>, rest: seq<uint8>)
    requires SmartIntEntry.IsWidth(w)
    ensures DecodeElems(Current, w, |vs|, SmartBytes(w, vs) + rest) == Decoded(WalkSmart(w, vs) + [VisitEnd], rest, None)
  {
    if vs == [] {
      assert [] + rest == rest;
    } else {
      DecodeSmartOf(w, vs[1..], rest);
      SmartConsOf(w, vs, rest);
    }
  }

  /** The first value of a smart list reads back in front of the values after it. */
  lemma SmartConsOf(w: Type, vs: seq<Int64>, rest: seq<uint8>)
    requires SmartIntEntry.IsWidth(w) && vs != []
    requires DecodeElems(Current, w, |vs[1..]|, SmartBytes(w, vs[1..]) + rest) == Decoded(WalkSmart(w, vs[1..]) + [VisitEnd], rest, None)
    ensures DecodeElems(Current, w, |vs|, SmartBytes(w, vs) + rest) == Decoded(WalkSmart(w, vs) + [VisitEnd], rest, None)
  {
    var e := SmartIntEntry.Accept(w, vs[0]);
    var one := Flatten(PayloadWrites(e));
    assert |vs[1..]| == |vs| - 1;
    SmartElem(w, vs[0], SmartBytes(w, vs[1..]) + rest);
    SmartCons(w, vs);
    ElemCons(w, |vs|, one, SmartBytes(w, vs[1..]), rest, e, WalkSmart(w, vs[1..]));
  }

  /** One element with a single call, in front of elements that read back. */
  lemma ElemCons(t: Type, n: int, one: seq<uint8>, others: seq<uint8>, rest: seq<uint8>, e: Event, walked: seq<Event>)
    requires n > 0
    requires DecodeValue(Current, t, one + (others + rest)) == Decoded([e], others + rest, None)
    requires DecodeElems(Current, t, n - 1, others + rest) == Decoded(walked + [VisitEnd], rest, None)
    ensures DecodeElems(Current, t, n, (one + others) + rest) == Decoded(([VisitValue, e] + walked) + [VisitEnd], rest, None)
  {
    Associate<uint8>(one, others, rest, []);
    ElemsStep(t, n, one, others + rest, [e], walked + [VisitEnd], rest);
    assert [VisitValue] + [e] == [VisitValue, e];
    Associate<Event>([VisitValue, e], walked, [VisitEnd], []);
  }

  /** The bytes and the calls of a non-empty smart list's values, first value apart. */
  lemma SmartCons(w: Type, vs: seq<Int64>)
    requires vs != []
    ensures SmartBytes(w, vs) == Flatten(PayloadWrites(SmartIntEntry.Accept(w, vs[0]))) + SmartBytes(w, vs[1..])
    ensures WalkSmart(w, vs) == [VisitValue, SmartIntEntry.Accept(w, vs[0])] + WalkSmart(w, vs[1..])
  {
  }

  /** A smart list's value decodes, at the list's width, to the call that value makes. */
  lemma SmartElem(w: Type, v: Int64, more: seq<uint8>)
    requires SmartIntEntry.IsWidth(w)
    ensures DecodeValue(Current, w, Flatten(PayloadWrites(SmartIntEntry.Accept(w, v))) + more)
         == Decoded([SmartIntEntry.Accept(w, v)], more, None)
  {
    var e := SmartIntEntry.Accept(w, v);
    assert CallType(e) == w;
    DecodeLeaf(e, more);
  }

  /** The root's prefix reads back as its type and name, leaving its payload. */
  lemma HeaderBack(name: string, t: Tag, rest: seq<uint8>)
    requires TagWriter.Buildable(t) && (TypeOf(t) != End ==> ShortString(name))
    ensures ReadHeader(Current, NamedBytes(Some(name), t) + rest)
         == Success(Header(TypeOf(t), if TypeOf(t) == End then "" else name, Payload(t) + rest))
  {
    HeadTypeOf(t);
    if TypeOf(t) == End {
      FlattenSingle(Encode(Id(End), 1));
      Associate<uint8>(Encode(Id(End), 1), Payload(t), rest, []);
      TypeBack(End, Payload(t) + rest);
    } else {
      NamedSplit(name, t);
      Associate<uint8>(Encode(Id(TypeOf(t)), 1), Flatten(StringWrites(name)) + Payload(t), rest, []);
      Associate<uint8>(Flatten(StringWrites(name)), Payload(t), rest, []);
      TypeBack(TypeOf(t), Flatten(StringWrites(name)) + (Payload(t) + rest));
      StringBack(name, Payload(t) + rest);
    }
  }

  /**
   * `new NbtWriter(out, name)` given a tree's walk writes exactly the bytes of the named tree;
   * with a `null` name they are the payload alone, with no type byte and no name.
   */
  lemma WriteRoot(name: Option<string>, t: Tag)
    ensures EncodeRun(Emitted([ValueWriter(name)], []), Walk(t)) == Some(Emitted([], NamedBytes(name, t)))
    ensures name.None? ==> NamedBytes(name, t) == Payload(t)
  {
    EncodeWalk([], name, t, []);
    RunFromEmpty(ValueWriter(name), Walk(t), NamedBytes(name, t));
    if name.None? {
      assert Flatten(PrefixWrites(name, HeadType(t))) == [];
    }
  }

  /** A run of a single writer on an empty stream, with the empty prefixes dropped. */
  lemma RunFromEmpty(top: WriterFrame, trace: seq<Event>, bytes: seq<uint8>)
    requires EncodeRun(Emitted([] + [top], []), trace) == Some(Emitted([], [] + bytes))
    ensures EncodeRun(Emitted([top], []), trace) == Some(Emitted([], bytes))
  {
    assert [] + [top] == [top];
    assert [] + bytes == bytes;
  }

  /** Reading the bytes of a named tree gives back its type, its name and the calls of its walk. */
  lemma ReadRoot(name: string, t: Tag)
    requires WellFormed(t) && (TypeOf(t) != End ==> ShortString(name))
    ensures var h := ReadHeader(Current, NamedBytes(Some(name), t));
      && h == Success(Header(TypeOf(t), if TypeOf(t) == End then "" else name, Payload(t)))
      && DecodeBody(Current, h.value) == Decoded(Walk(t), [], None)
  {
    HeaderBack(name, t, []);
    assert NamedBytes(Some(name), t) + [] == NamedBytes(Some(name), t);
    assert Payload(t) + [] == Payload(t);
    DecodePayload(t, []);
  }

  /** The writer cannot tell a tree from its canonical form: both have the same prefix and payload. */
  lemma {:induction false} PayloadCanonical(t: Tag)
    ensures HeadType(CanonicalNaN(t)) == HeadType(t)
    ensures Payload(CanonicalNaN(t)) == Payload(t)
    decreases t, 1
  {
    match t
    case CompoundTag(es) => CompoundCanonical(es);
    case ListTag(et, elems) => ListCanonical(et, elems);
    case FloatTag(f) => CanonicalBitsStable(f, 0);
    case DoubleTag(d) => CanonicalBitsStable(0, d);
    case _ =>
  }

  lemma {:induction false} CompoundCanonical(es: seq<Entry>)
    ensures Payload(CanonicalNaN(CompoundTag(es))) == Payload(CompoundTag(es))
    decreases es, 1
  {
    EntriesCanonical(es, CanonicalNaN(CompoundTag(es)).entries);
  }

  lemma {:induction false} ListCanonical(et: Type, elems: seq<Tag>)
    ensures Payload(CanonicalNaN(ListTag(et, elems))) == Payload(ListTag(et, elems))
    decreases elems, 1
  {
    ElemsCanonical(elems, CanonicalNaN(ListTag(et, elems)).elems);
  }

  lemma {:induction false} EntriesCanonical(es: seq<Entry>, cs: seq<Entry>)
    requires |cs| == |es|
    requires forall i :: 0 <= i < |es| ==> cs[i] == Entry(es[i].name, CanonicalNaN(es[i].tag))
    ensures EntriesBytes(cs) == EntriesBytes(es)
    decreases es, 0
  {
    if es != [] {
      PayloadCanonical(es[0].tag);
      EntriesCanonical(es[1..], cs[1..]);
    }
  }

  lemma {:induction false} ElemsCanonical(elems: seq<Tag>, cs: seq<Tag>)
    requires |cs| == |elems|
    requires forall i :: 0 <= i < |elems| ==> cs[i] == CanonicalNaN(elems[i])
    ensures ElemsBytes(cs) == ElemsBytes(elems)
    decreases elems, 0
  {
    if elems != [] {
      PayloadCanonical(elems[0]);
      ElemsCanonical(elems[1..], cs[1..]);
    }
  }

  /** A tree within the limits has a canonical form the writer and reader carry unchanged. */
  lemma {:induction false} CanonicalWellFormed(t: Tag)
    requires Writable(t)
    ensures WellFormed(CanonicalNaN(t))
    decreases t, 1
  {
    match t
    case CompoundTag(es) => CompoundWellFormed(es);
    case ListTag(et, elems) => ListWellFormed(et, elems);
    case FloatTag(f) => CanonicalBitsStable(f, 0);
    case DoubleTag(d) => CanonicalBitsStable(0, d);
    case _ =>
  }

  lemma {:induction false} CompoundWellFormed(es: seq<Entry>)
    requires Writable(CompoundTag(es))
    ensures WellFormed(CanonicalNaN(CompoundTag(es)))
    decreases es, 0
  {
    var c := CanonicalNaN(CompoundTag(es)).entries;
    forall i | 0 <= i < |es|
      ensures TagWriter.Buildable(c[i].tag) && Readable(c[i].tag, true)
    {
      CanonicalWellFormed(es[i].tag);
    }
    assert forall i :: 0 <= i < |es| ==> c[i].name == es[i].name;
  }

  lemma {:induction false} ListWellFormed(et: Type, elems: seq<Tag>)
    requires Writable(ListTag(et, elems))
    ensures WellFormed(CanonicalNaN(ListTag(et, elems)))
    decreases elems, 0
  {
    var c := CanonicalNaN(ListTag(et, elems)).elems;
    forall i | 0 <= i < |elems|
      ensures TagWriter.Buildable(c[i]) && Readable(c[i], true)
    {
      CanonicalWellFormed(elems[i]);
    }
    assert forall i :: 0 <= i < |elems| ==> TypeOf(c[i]) == TypeOf(elems[i]);
  }

  /** A tree without a NaN the writer would replace is its own canonical form. */
  lemma {:induction false} CanonicalOfExact(t: Tag)
    requires Readable(t, true)
    ensures CanonicalNaN(t) == t
    decreases t
  {
    var c := CanonicalNaN(t);
    match t
    case CompoundTag(es) =>
      forall i | 0 <= i < |es|
        ensures c.entries[i] == es[i]
      {
        CanonicalOfExact(es[i].tag);
      }
      assert c.entries == es;
    case ListTag(et, elems) =>
      forall i | 0 <= i < |elems|
        ensures c.elems[i] == elems[i]
      {
        CanonicalOfExact(elems[i]);
      }
      assert c.elems == elems;
    case _ =>
  }

  /**
   * The whole trip: `new NbtWriter(out, name)` given a tree's walk writes the bytes of the named
   * tree; `new NbtReader(in)` reads back the root's type and name; `applyVisitor` makes the calls
   * of the tree's canonical walk and reaches the end of the input without an exception; and
   * `toTag()` returns the tree as it is rebuilt, with each NaN replaced by the canonical one that
   * `writeFloat`/`writeDouble` wrote. A tree without other NaNs comes back as it went in.
   */
  lemma WriteThenRead(name: string, t: Tag)
    requires Writable(t) && (TypeOf(t) != End ==> ShortString(name))
    ensures EncodeRun(Emitted([ValueWriter(Some(name))], []), Walk(t)) == Some(Emitted([], NamedBytes(Some(name), t)))
    ensures var h := ReadHeader(Current, NamedBytes(Some(name), t));
      && h == Success(Header(TypeOf(t), if TypeOf(t) == End then "" else name, Payload(t)))
      && NbtReader.ToTagOf(DecodeBody(Current, h.value)) == Success(Some(Normalize(CanonicalNaN(t))))
    ensures WellFormed(t) ==> Normalize(CanonicalNaN(t)) == Normalize(t)
  {
    var c := CanonicalNaN(t);
    WriteRoot(Some(name), t);
    PayloadCanonical(t);
    CanonicalWellFormed(t);
    assert NamedBytes(Some(name), c) == NamedBytes(Some(name), t);
    ReadRoot(name, c);
    TagWriter.BuildOfWalk(c);
    if WellFormed(t) {
      CanonicalOfExact(t);
    }
  }

  /** A compound whose first entry, under `k`, holds an End value, followed by `rest`. */
  function EndFirst(k: string, rest: seq<Entry>): Tag
  {
    CompoundTag([Entry(k, EndTag)] + rest)
  }

  /** No entry of `rest` is named `k`. */
  predicate NewKey(k: string, rest: seq<Entry>)
  {
    forall i :: 0 <= i < |rest| ==> rest[i].name != k
  }

  /**
   * A compound whose first entry holds an End value does not make the trip. The builder accepts
   * it when its names are valid and distinct, but the End value is written as its type byte
   * alone, a 0, which the reader takes for the end of the compound: it returns an empty
   * compound and leaves the bytes of every later entry unread.
   */
  lemma EndEntryEndsCompound(k: string, rest: seq<Entry>)
    ensures TagWriter.Buildable(CompoundTag(rest)) && NBTCompound.MatchesNameRegex(k) && NewKey(k, rest) ==> TagWriter.Buildable(EndFirst(k, rest))
    ensures !Writable(EndFirst(k, rest))
    ensures Payload(EndFirst(k, rest)) == [0] + EntriesBytes(rest) + [0]
    ensures DecodeValue(Current, Compound, Payload(EndFirst(k, rest))) == Decoded([VisitCompound, VisitEnd], EntriesBytes(rest) + [0], None)
    ensures NbtReader.ToTagOf(Decoded([VisitCompound, VisitEnd], EntriesBytes(rest) + [0], None)) == Success(Some(CompoundTag([])))
  {
    EndEntryBuildable(k, rest);
    var es := [Entry(k, EndTag)] + rest;
    assert es[0] == Entry(k, EndTag) && es[1..] == rest;
    EndEntryBytes(es);
    EndByteEndsCompound(EntriesBytes(rest) + [0]);
    assert [0] + EntriesBytes(rest) + [0] == [0] + (EntriesBytes(rest) + [0]);
    EmptyCompoundBuilt();
  }

  lemma EndEntryBuildable(k: string, rest: seq<Entry>)
    ensures TagWriter.Buildable(CompoundTag(rest)) && NBTCompound.MatchesNameRegex(k) && NewKey(k, rest) ==> TagWriter.Buildable(EndFirst(k, rest))
    ensures !Writable(EndFirst(k, rest))
  {
    var es := [Entry(k, EndTag)] + rest;
    assert es[0].tag == EndTag;
    assert forall i :: 1 <= i < |es| ==> es[i] == rest[i - 1];
  }

  lemma EndEntryBytes(es: seq<Entry>)
    requires es != [] && es[0].tag == EndTag
    ensures Payload(CompoundTag(es)) == [0] + EntriesBytes(es[1..]) + [0]
  {
    EntriesCons(es);
    EndNamedBytes(es[0].name);
  }

  /** An End value under a name is written as its type byte alone. */
  lemma EndNamedBytes(k: string)
    ensures NamedBytes(Some(k), EndTag) == [0]
  {
    assert Flatten(PrefixWrites(Some(k), End)) == [0];
  }

  /** `visitCompound()` then `visitEnd()` builds the empty compound. */
  lemma EmptyCompoundBuilt()
    ensures TagWriter.Build([VisitCompound, VisitEnd]) == Success(Some(CompoundTag([])))
  {
  }

  /** A compound's payload that starts with a 0 ends at that byte. */
  lemma EndByteEndsCompound(after: seq<uint8>)
    ensures DecodeValue(Current, Compound, [0] + after) == Decoded([VisitCompound, VisitEnd], after, None)
  {
    TypeBack(End, after);
    assert Encode(Id(End), 1) == [0];
    assert DecodeEntries(Current, [0] + after) == Decoded([VisitEnd], after, None);
  }
}
