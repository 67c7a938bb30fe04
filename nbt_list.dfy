/**
 * `NBTList`: a list of tags of one declared entry type, never End. The element list is a field
 * the add methods append to; the functions at the top are the rules those methods follow, and the
 * tree builder applies the same rules.
 */
module NBTList {
  import opened Wrappers
  import opened Binary
  import opened NBTType
  import opened Tags

  datatype ListError =
    // IllegalArgumentException from the constructor or from `check`
    | IllegalType(t: Type)
    // IndexOutOfBoundsException from `get`
    | IndexOutOfBounds(index: int)
    // ClassCastException from a typed getter whose element is not of the requested class
    | ClassCast(index: int)

  /** `check(t)`: the type must be the declared entry type. */
  function Check(entryType: Type, t: Type): (r: Option<ListError>)
    ensures r.None? <==> t == entryType
    ensures r.Some? ==> r.value == IllegalType(t)
  {
    if t != entryType then Some(IllegalType(t)) else None
  }

  /** The invariant every list keeps: each element has the declared type. */
  predicate Homogeneous(entryType: Type, tags: seq<Tag>)
  {
    forall i :: 0 <= i < |tags| ==> TypeOf(tags[i]) == entryType
  }

  /** `add(tag)`: the checked append. */
  function Appended(entryType: Type, tags: seq<Tag>, tag: Tag): (r: Result<seq<Tag>, ListError>)
    ensures r.Success? <==> TypeOf(tag) == entryType
    ensures r.Failure? ==> r.error == IllegalType(TypeOf(tag))
    ensures r.Success? ==> |r.value| == |tags| + 1 && r.value[..|tags|] == tags && r.value[|tags|] == tag
  {
    match Check(entryType, TypeOf(tag))
    case Some(e) => Failure(e)
    case None => Success(tags + [tag])
  }

  /** A checked append keeps the list homogeneous. */
  lemma AppendedHomogeneous(entryType: Type, tags: seq<Tag>, tag: Tag)
    requires Homogeneous(entryType, tags)
    ensures Appended(entryType, tags, tag).Success? ==> Homogeneous(entryType, Appended(entryType, tags, tag).value)
  {
    if Appended(entryType, tags, tag).Success? {
      var r := Appended(entryType, tags, tag).value;
      forall i | 0 <= i < |r|
        ensures TypeOf(r[i]) == entryType
      {
        if i < |tags| {
          assert r[i] == r[..|tags|][i];
        }
      }
    }
  }

  /** Appending the elements of a homogeneous list one at a time never fails. */
  lemma AppendedAll(entryType: Type, tags: seq<Tag>, i: nat)
    requires Homogeneous(entryType, tags) && i < |tags|
    ensures Appended(entryType, tags[..i], tags[i]) == Success(tags[..i + 1])
  {
    assert tags[..i + 1] == tags[..i] + [tags[i]];
  }

  /** `get(index)`. */
  function Get(tags: seq<Tag>, index: int): (r: Result<Tag, ListError>)
    ensures r.Success? <==> 0 <= index < |tags|
    ensures r.Success? ==> r.value == tags[index]
    ensures r.Failure? ==> r.error == IndexOutOfBounds(index)
  {
    if 0 <= index < |tags| then Success(tags[index]) else Failure(IndexOutOfBounds(index))
  }

  /**
   * The Java class a typed getter casts to: a smart-list entry has the type but not the class of
   * a byte, short, int or long entry.
   */
  predicate IsInstance(t: Tag, want: Type)
  {
    match want
    case Byte => t.ByteTag?
    case Short => t.ShortTag?
    case Int => t.IntTag?
    case Long => t.LongTag?
    case Float => t.FloatTag?
    case Double => t.DoubleTag?
    case String => t.StringTag?
    case Compound => t.CompoundTag?
    case List => t.ListTag? || t.SmartListTag?
    case _ => false
  }

  /** A typed getter: `check(want)`, then `get(index)`, then the cast. */
  function GetTyped(entryType: Type, tags: seq<Tag>, want: Type, index: int): (r: Result<Tag, ListError>)
    ensures r.Success? <==> want == entryType && 0 <= index < |tags| && IsInstance(tags[index], want)
    ensures r.Success? ==> r.value == tags[index]
    ensures want != entryType ==> r == Failure(IllegalType(want))
    ensures want == entryType && !(0 <= index < |tags|) ==> r == Failure(IndexOutOfBounds(index))
    ensures want == entryType && 0 <= index < |tags| && !IsInstance(tags[index], want) ==> r == Failure(ClassCast(index))
  {
    match Check(entryType, want)
    case Some(e) => Failure(e)
    case None =>
      match Get(tags, index)
      case Failure(e) => Failure(e)
      case Success(t) => if IsInstance(t, want) then Success(t) else Failure(ClassCast(index))
  }

  class NbtList {
    const entryType: Type
    var tags: seq<Tag>

    predicate Valid()
      reads this
    {
      entryType != End && Homogeneous(entryType, tags)
    }

    constructor Empty(t: Type)
      requires t != End
      ensures entryType == t && tags == [] && Valid()
    {
      entryType := t;
      tags := [];
    }

    /** `new NBTList(type)`: refused for End. */
    static method Create(t: Type) returns (r: Result<NbtList, ListError>)
      ensures r.Success? <==> t != End
      ensures r.Failure? ==> r.error == IllegalType(End)
      ensures r.Success? ==> fresh(r.value) && r.value.entryType == t && r.value.tags == [] && r.value.Valid()
    {
      if t == End {
        return Failure(IllegalType(End));
      }
      var l := new NbtList.Empty(t);
      return Success(l);
    }

    /** The list as a tag value. */
    function Value(): Tag
      reads this
    {
      ListTag(entryType, tags)
    }

    function GetEntryType(): (t: Type)
      reads this
      ensures t == entryType && t == Value().entryType
    {
      entryType
    }

    function Size(): (n: nat)
      reads this
      ensures n == |tags| && n == |Value().elems|
    {
      |tags|
    }

    /** `getContent`: the elements in insertion order; the value cannot be changed through it. */
    function GetContent(): (r: seq<Tag>)
      reads this
      ensures |r| == Size() && forall i :: 0 <= i < |r| ==> Get(tags, i) == Success(r[i])
    {
      tags
    }

    function IsEmpty(): (b: bool)
      reads this
      ensures b <==> Size() == 0
    {
      |tags| == 0
    }

    /** `add(tag)`: appends when the tag's type is the entry type, and changes nothing otherwise. */
    method Add(tag: Tag) returns (err: Option<ListError>)
      requires Valid()
      modifies this
      ensures Valid()
      ensures err.None? <==> TypeOf(tag) == entryType
      ensures err.Some? ==> err.value == IllegalType(TypeOf(tag)) && tags == old(tags)
      ensures err.None? ==> tags == old(tags) + [tag]
    {
      var r := Appended(entryType, tags, tag);
      AppendedHomogeneous(entryType, tags, tag);
      match r
      case Failure(e) => err := Some(e);
      case Success(ts) =>
        tags := ts;
        err := None;
    }

    method AddByte(b: Int8) returns (err: Option<ListError>)
      requires Valid()
      modifies this
      ensures Valid()
      ensures err == Check(entryType, Byte)
      ensures err.None? ==> tags == old(tags) + [ByteTag(b)]
      ensures err.Some? ==> tags == old(tags)
    {
      err := Add(ByteTag(b));
    }

    method AddShort(s: Int16) returns (err: Option<ListError>)
      requires Valid()
      modifies this
      ensures Valid()
      ensures err == Check(entryType, Short)
      ensures err.None? ==> tags == old(tags) + [ShortTag(s)]
      ensures err.Some? ==> tags == old(tags)
    {
      err := Add(ShortTag(s));
    }

    method AddInt(i: Int32) returns (err: Option<ListError>)
      requires Valid()
      modifies this
      ensures Valid()
      ensures err == Check(entryType, Int)
      ensures err.None? ==> tags == old(tags) + [IntTag(i)]
      ensures err.Some? ==> tags == old(tags)
    {
      err := Add(IntTag(i));
    }

    method AddLong(l: Int64) returns (err: Option<ListError>)
      requires Valid()
      modifies this
      ensures Valid()
      ensures err == Check(entryType, Long)
      ensures err.None? ==> tags == old(tags) + [LongTag(l)]
      ensures err.Some? ==> tags == old(tags)
    {
      err := Add(LongTag(l));
    }

    method AddFloat(f: Bits32) returns (err: Option<ListError>)
      requires Valid()
      modifies this
      ensures Valid()
      ensures err == Check(entryType, Float)
      ensures err.None? ==> tags == old(tags) + [FloatTag(f)]
      ensures err.Some? ==> tags == old(tags)
    {
      err := Add(FloatTag(f));
    }

    method AddDouble(d: Bits64) returns (err: Option<ListError>)
      requires Valid()
      modifies this
      ensures Valid()
      ensures err == Check(entryType, Double)
      ensures err.None? ==> tags == old(tags) + [DoubleTag(d)]
      ensures err.Some? ==> tags == old(tags)
    {
      err := Add(DoubleTag(d));
    }

    /** `addCompound`: the argument's Java type makes it a compound. */
    method AddCompound(comp: Tag) returns (err: Option<ListError>)
      requires Valid() && comp.CompoundTag?
      modifies this
      ensures Valid()
      ensures err == Check(entryType, Compound)
      ensures err.None? ==> tags == old(tags) + [comp]
      ensures err.Some? ==> tags == old(tags)
    {
      err := Add(comp);
    }

    /** `addList`: the argument's Java type makes it a list (plain or smart). */
    method AddList(list: Tag) returns (err: Option<ListError>)
      requires Valid() && (list.ListTag? || list.SmartListTag?)
      modifies this
      ensures Valid()
      ensures err == Check(entryType, List)
      ensures err.None? ==> tags == old(tags) + [list]
      ensures err.Some? ==> tags == old(tags)
    {
      err := Add(list);
    }

    method AddString(s: string) returns (err: Option<ListError>)
      requires Valid()
      modifies this
      ensures Valid()
      ensures err == Check(entryType, String)
      ensures err.None? ==> tags == old(tags) + [StringTag(s)]
      ensures err.Some? ==> tags == old(tags)
    {
      err := Add(StringTag(s));
    }

    function GetAt(index: int): (r: Result<Tag, ListError>)
      reads this
      ensures r == Get(tags, index)
      ensures r.Success? ==> TypeOf(r.value) == entryType || !Valid()
    {
      Get(tags, index)
    }

    function GetString(index: int): (r: Result<string, ListError>)
      reads this
      ensures r.Success? <==> entryType == String && 0 <= index < |tags| && tags[index].StringTag?
      ensures r.Success? ==> tags[index] == StringTag(r.value)
      ensures r.Failure? ==> r.error == GetTyped(entryType, tags, String, index).error
    {
      match GetTyped(entryType, tags, String, index)
      case Failure(e) => Failure(e)
      case Success(t) => Success(t.str)
    }

    function GetByte(index: int): (r: Result<Int8, ListError>)
      reads this
      ensures r.Success? <==> entryType == Byte && 0 <= index < |tags| && tags[index].ByteTag?
      ensures r.Success? ==> tags[index] == ByteTag(r.value)
      ensures r.Failure? ==> r.error == GetTyped(entryType, tags, Byte, index).error
    {
      match GetTyped(entryType, tags, Byte, index)
      case Failure(e) => Failure(e)
      case Success(t) => Success(t.b)
    }

    function GetShort(index: int): (r: Result<Int16, ListError>)
      reads this
      ensures r.Success? <==> entryType == Short && 0 <= index < |tags| && tags[index].ShortTag?
      ensures r.Success? ==> tags[index] == ShortTag(r.value)
      ensures r.Failure? ==> r.error == GetTyped(entryType, tags, Short, index).error
    {
      match GetTyped(entryType, tags, Short, index)
      case Failure(e) => Failure(e)
      case Success(t) => Success(t.s)
    }

    function GetInt(index: int): (r: Result<Int32, ListError>)
      reads this
      ensures r.Success? <==> entryType == Int && 0 <= index < |tags| && tags[index].IntTag?
      ensures r.Success? ==> tags[index] == IntTag(r.value)
      ensures r.Failure? ==> r.error == GetTyped(entryType, tags, Int, index).error
    {
      match GetTyped(entryType, tags, Int, index)
      case Failure(e) => Failure(e)
      case Success(t) => Success(t.i)
    }

    function GetLong(index: int): (r: Result<Int64, ListError>)
      reads this
      ensures r.Success? <==> entryType == Long && 0 <= index < |tags| && tags[index].LongTag?
      ensures r.Success? ==> tags[index] == LongTag(r.value)
      ensures r.Failure? ==> r.error == GetTyped(entryType, tags, Long, index).error
    {
      match GetTyped(entryType, tags, Long, index)
      case Failure(e) => Failure(e)
      case Success(t) => Success(t.l)
    }

    function GetFloat(index: int): (r: Result<Bits32, ListError>)
      reads this
      ensures r.Success? <==> entryType == Float && 0 <= index < |tags| && tags[index].FloatTag?
      ensures r.Success? ==> tags[index] == FloatTag(r.value)
      ensures r.Failure? ==> r.error == GetTyped(entryType, tags, Float, index).error
    {
      match GetTyped(entryType, tags, Float, index)
      case Failure(e) => Failure(e)
      case Success(t) => Success(t.f)
    }

    function GetDouble(index: int): (r: Result<Bits64, ListError>)
      reads this
      ensures r.Success? <==> entryType == Double && 0 <= index < |tags| && tags[index].DoubleTag?
      ensures r.Success? ==> tags[index] == DoubleTag(r.value)
      ensures r.Failure? ==> r.error == GetTyped(entryType, tags, Double, index).error
    {
      match GetTyped(entryType, tags, Double, index)
      case Failure(e) => Failure(e)
      case Success(t) => Success(t.d)
    }

    function GetCompound(index: int): (r: Result<Tag, ListError>)
      reads this
      ensures r.Success? <==> entryType == Compound && 0 <= index < |tags| && tags[index].CompoundTag?
      ensures r.Success? ==> r.value == tags[index]
      ensures r.Failure? ==> r.error == GetTyped(entryType, tags, Compound, index).error
    {
      GetTyped(entryType, tags, Compound, index)
    }

    function GetList(index: int): (r: Result<Tag, ListError>)
      reads this
      ensures r.Success? <==> entryType == List && 0 <= index < |tags| && (tags[index].ListTag? || tags[index].SmartListTag?)
      ensures r.Success? ==> r.value == tags[index]
      ensures r.Failure? ==> r.error == GetTyped(entryType, tags, List, index).error
    {
      GetTyped(entryType, tags, List, index)
    }

    /**
     * `cpy`: a new list of the same entry type, to which a copy of every element is added in
     * order. Copies are equal values, and no add can fail because the list is homogeneous.
     */
    method Cpy() returns (l: NbtList)
      requires Valid()
      ensures fresh(l) && l.Valid()
      ensures l.entryType == entryType && l.tags == tags
    {
      l := new NbtList.Empty(entryType);
      var i := 0;
      while i < |tags|
        invariant 0 <= i <= |tags|
        invariant l.entryType == entryType && l.tags == tags[..i] && l.Valid()
      {
        assert TypeOf(tags[i]) == entryType;
        var err := l.Add(tags[i]);
        assert tags[..i + 1] == tags[..i] + [tags[i]];
        i := i + 1;
      }
      assert tags[..i] == tags;
    }
  }
}
