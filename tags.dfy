/**
 * The tag tree (`NBTTag` and its subclasses) as a value. Every tag's type is fixed when it is
 * made, except a smart-list element's, which is its list's current width.
 */
module Tags {
  import opened Binary
  import opened NBTType
  import opened ImmutableArrays
  import opened Events
  import SmartIntEntry

  datatype Tag =
    | EndTag
    | ByteTag(b: Int8)
    | ShortTag(s: Int16)
    | IntTag(i: Int32)
    | LongTag(l: Int64)
    | FloatTag(f: Bits32)
    | DoubleTag(d: Bits64)
    | ByteArrayTag(bytes: ImmutableBytes)
    | IntArrayTag(ints: ImmutableInts)
    | LongArrayTag(longs: ImmutableLongs)
    | StringTag(str: string)
    // `NBTList`: a declared entry type and the elements in insertion order
    | ListTag(entryType: Type, elems: seq<Tag>)
    // `NBTSmartIntList`: its current width and the stored longs
    | SmartListTag(width: Type, values: seq<Int64>)
    // `SmartIntEntry`: the width of the list it belongs to and its long
    | SmartIntTag(parentWidth: Type, value: Int64)
    // `NBTCompound`: the entries in insertion order
    | CompoundTag(entries: seq<Entry>)

  datatype Entry = Entry(name: string, tag: Tag)

  /** `type()`. */
  function TypeOf(t: Tag): Type
  {
    match t
    case EndTag => End
    case ByteTag(_) => Byte
    case ShortTag(_) => Short
    case IntTag(_) => Int
    case LongTag(_) => Long
    case FloatTag(_) => Float
    case DoubleTag(_) => Double
    case ByteArrayTag(_) => ByteArray
    case IntArrayTag(_) => IntArray
    case LongArrayTag(_) => LongArray
    case StringTag(_) => String
    case ListTag(_, _) => List
    case SmartListTag(_, _) => List
    case SmartIntTag(w, _) => w
    case CompoundTag(_) => Compound
  }

  /** `EndEntry.END_ENTRY`, the one End tag. */
  const EndEntry: Tag := EndTag

  /** The tags whose `accept` makes a single visit call; containers are walked instead. */
  predicate IsLeaf(t: Tag)
  {
    !(t.ListTag? || t.SmartListTag? || t.CompoundTag?)
  }

  /** `accept` of a leaf tag: exactly one value-visitor call, of the tag's own kind. */
  function Accept(t: Tag): (e: Event)
    requires IsLeaf(t)
    ensures IsValueCall(e) && e != VisitCompound && e != VisitList
    ensures t.EndTag? <==> e == VisitEnd
    ensures t.ByteTag? ==> e == VisitByte(t.b)
    ensures t.ShortTag? ==> e == VisitShort(t.s)
    ensures t.IntTag? ==> e == VisitInt(t.i)
    ensures t.LongTag? ==> e == VisitLong(t.l)
    ensures t.FloatTag? ==> e == VisitFloat(t.f)
    ensures t.DoubleTag? ==> e == VisitDouble(t.d)
    ensures t.ByteArrayTag? ==> e == VisitByteArray(t.bytes)
    ensures t.IntArrayTag? ==> e == VisitIntArray(t.ints)
    ensures t.LongArrayTag? ==> e == VisitLongArray(t.longs)
    ensures t.StringTag? ==> e == VisitString(t.str)
    ensures t.SmartIntTag? ==> e == SmartIntEntry.Accept(t.parentWidth, t.value)
  {
    match t
    case EndTag => VisitEnd
    case ByteTag(b) => VisitByte(b)
    case ShortTag(s) => VisitShort(s)
    case IntTag(i) => VisitInt(i)
    case LongTag(l) => VisitLong(l)
    case FloatTag(f) => VisitFloat(f)
    case DoubleTag(d) => VisitDouble(d)
    case ByteArrayTag(a) => VisitByteArray(a)
    case IntArrayTag(a) => VisitIntArray(a)
    case LongArrayTag(a) => VisitLongArray(a)
    case StringTag(s) => VisitString(s)
    case SmartIntTag(w, l) => SmartIntEntry.Accept(w, l)
  }

  /**
   * The tags of a smart list's content: one entry per stored value, each taking the list's width.
   */
  function SmartContent(width: Type, values: seq<Int64>): (r: seq<Tag>)
    ensures |r| == |values|
    ensures forall i :: 0 <= i < |r| ==> r[i] == SmartIntTag(width, values[i])
  {
    if values == [] then [] else [SmartIntTag(width, values[0])] + SmartContent(width, values[1..])
  }

  /** The plain scalar tag that carries the same visit as a smart entry. */
  function ScalarOfSmart(width: Type, l: Int64): (r: Tag)
    ensures IsLeaf(r) && Accept(r) == SmartIntEntry.Accept(width, l)
  {
    match width
    case Byte => ByteTag(Wrap(l, 1))
    case Short => ShortTag(Wrap(l, 2))
    case Int => IntTag(Wrap(l, 4))
    case _ => LongTag(l)
  }

  /**
   * What a tree looks like once it has been visited and rebuilt: smart lists become plain lists
   * of their width, whose elements are the scalar tags their `accept` produces; everything else
   * is kept, recursively.
   */
  function Normalize(t: Tag): Tag
    decreases t, 1
  {
    match t
    case ListTag(et, elems) => ListTag(et, NormalizeAll(elems))
    case SmartListTag(w, vs) => ListTag(w, SmartScalars(w, vs))
    case SmartIntTag(w, l) => ScalarOfSmart(w, l)
    case CompoundTag(es) => CompoundTag(NormalizeEntries(es))
    case _ => t
  }

  /** The plain scalar tags of a smart list's values. */
  function SmartScalars(width: Type, values: seq<Int64>): (r: seq<Tag>)
    ensures |r| == |values|
  {
    if values == [] then [] else [ScalarOfSmart(width, values[0])] + SmartScalars(width, values[1..])
  }

  function NormalizeAll(ts: seq<Tag>): (r: seq<Tag>)
    ensures |r| == |ts|
    decreases ts, 0
  {
    if ts == [] then [] else [Normalize(ts[0])] + NormalizeAll(ts[1..])
  }

  function NormalizeEntries(es: seq<Entry>): (r: seq<Entry>)
    ensures |r| == |es|
    decreases es, 0
  {
    if es == [] then [] else [Entry(es[0].name, Normalize(es[0].tag))] + NormalizeEntries(es[1..])
  }

  /** A rebuilt smart list holds exactly its entries, each normalized. */
  lemma {:induction false} NormalizeSmartContent(width: Type, values: seq<Int64>)
    ensures NormalizeAll(SmartContent(width, values)) == SmartScalars(width, values)
  {
    if values != [] {
      var c := SmartContent(width, values);
      assert c[0] == SmartIntTag(width, values[0]);
      assert c[1..] == SmartContent(width, values[1..]);
      NormalizeSmartContent(width, values[1..]);
    }
  }

  /**
   * A tree as `writeFloat`/`writeDouble` put it on the stream: every float and double goes
   * through `floatToIntBits`/`doubleToLongBits`, so each NaN becomes the canonical NaN; names,
   * types, shapes and every other value are kept.
   */
  function CanonicalNaN(t: Tag): (r: Tag)
    ensures TypeOf(r) == TypeOf(t)
    ensures t.FloatTag? ==> r == FloatTag(FloatToIntBits(t.f))
    ensures t.DoubleTag? ==> r == DoubleTag(DoubleToLongBits(t.d))
    ensures !t.FloatTag? && !t.DoubleTag? && !t.CompoundTag? && !t.ListTag? ==> r == t
    ensures t.CompoundTag? ==> (
      && r.CompoundTag? && |r.entries| == |t.entries|
      && forall i :: 0 <= i < |t.entries| ==> r.entries[i] == Entry(t.entries[i].name, CanonicalNaN(t.entries[i].tag)))
    ensures t.ListTag? ==> (
      && r.ListTag? && r.entryType == t.entryType && |r.elems| == |t.elems|
      && forall i :: 0 <= i < |t.elems| ==> r.elems[i] == CanonicalNaN(t.elems[i]))
    decreases t
  {
    match t
    case FloatTag(f) => FloatTag(FloatToIntBits(f))
    case DoubleTag(d) => DoubleTag(DoubleToLongBits(d))
    case CompoundTag(es) =>
      CompoundTag(seq(|es|, i requires 0 <= i < |es| => Entry(es[i].name, CanonicalNaN(es[i].tag))))
    case ListTag(et, elems) =>
      ListTag(et, seq(|elems|, i requires 0 <= i < |elems| => CanonicalNaN(elems[i])))
    case _ => t
  }
}
