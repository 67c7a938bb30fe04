/**
 * `NBTCompound`: named tags in insertion order (a `LinkedHashMap`), with checked names and
 * strict insertion: a name must be valid and not yet in use. The functions at the top are the
 * rules the methods follow; the tree builder applies the same rules.
 */
module NBTCompound {
  import opened Wrappers
  import opened Binary
  import opened NBTType
  import opened ImmutableArrays
  import opened Tags

  datatype CompoundError =
    // IllegalArgumentException("Name is empty or blank")
    | EmptyOrBlank(name: string)
    // IllegalArgumentException("Name containes illegal characters")
    | IllegalCharacters(name: string)
    // IllegalStateException("Name is already in use")
    | NameInUse(name: string)
    // IllegalArgumentException("Entry does not exist or is not of the requested type")
    | NotExistOrIncorrectType(name: string)

  /** `Character.isWhitespace`. */
  predicate IsJavaWhitespace(c: char)
  {
    var n := c as int;
    (9 <= n <= 13) || (0x1C <= n <= 0x1F) || n == 0x20 || n == 0x1680
    || (0x2000 <= n <= 0x2006) || (0x2008 <= n <= 0x200A)
    || n == 0x2028 || n == 0x2029 || n == 0x205F || n == 0x3000
  }

  /** `String.isBlank` (which is also true of the empty string). */
  predicate IsBlank(s: string)
  {
    forall i :: 0 <= i < |s| ==> IsJavaWhitespace(s[i])
  }

  /** `\w` and `\d` in a Java regular expression without the Unicode flag. */
  predicate IsWordChar(c: char)
  {
    ('a' <= c <= 'z') || ('A' <= c <= 'Z') || ('0' <= c <= '9') || c == '_'
  }

  /** The whole name matches `^[\w\d][\w\d ]*$`. */
  predicate MatchesNameRegex(s: string)
  {
    |s| >= 1 && IsWordChar(s[0]) && forall i :: 1 <= i < |s| ==> IsWordChar(s[i]) || s[i] == ' '
  }

  /** `checkNameValid`: empty or blank names fail first, then names the pattern refuses. */
  function CheckNameValid(name: string): (r: Option<CompoundError>)
    ensures r.None? <==> MatchesNameRegex(name)
    ensures r == Some(EmptyOrBlank(name)) <==> IsBlank(name)
    ensures r.Some? ==> r == Some(EmptyOrBlank(name)) || r == Some(IllegalCharacters(name))
  {
    if |name| == 0 || IsBlank(name) then Some(EmptyOrBlank(name))
    else if !MatchesNameRegex(name) then Some(IllegalCharacters(name))
    else None
  }

  /** The key set of an entry sequence. */
  predicate HasName(entries: seq<Entry>, name: string)
  {
    exists i :: 0 <= i < |entries| && entries[i].name == name
  }

  /** The invariants of a compound: names are valid and pairwise distinct. */
  predicate ValidEntries(entries: seq<Entry>)
  {
    (forall i :: 0 <= i < |entries| ==> MatchesNameRegex(entries[i].name))
    && (forall i, j :: 0 <= i < j < |entries| ==> entries[i].name != entries[j].name)
  }

  /** `entries.get(name)`: the tag stored under the name, if any. */
  function Find(entries: seq<Entry>, name: string): (r: Option<Tag>)
    ensures r.Some? <==> HasName(entries, name)
    ensures r.Some? ==> exists i :: 0 <= i < |entries| && entries[i] == Entry(name, r.value)
  {
    if entries == [] then None
    else if entries[0].name == name then Some(entries[0].tag)
    else
      var r := Find(entries[1..], name);
      assert HasName(entries, name) ==> HasName(entries[1..], name) by {
        if HasName(entries, name) {
          var i :| 0 <= i < |entries| && entries[i].name == name;
          assert entries[1..][i - 1] == entries[i];
        }
      }
      assert r.Some? ==> exists i :: 0 <= i < |entries| && entries[i] == Entry(name, r.value) by {
        if r.Some? {
          var i :| 0 <= i < |entries[1..]| && entries[1..][i] == Entry(name, r.value);
          assert entries[i + 1] == Entry(name, r.value);
        }
      }
      r
  }

  /** With distinct names, the found tag is the one stored at the name's position. */
  lemma FindAt(entries: seq<Entry>, i: nat)
    requires ValidEntries(entries) && i < |entries|
    ensures Find(entries, entries[i].name) == Some(entries[i].tag)
  {
    var r := Find(entries, entries[i].name);
    var j :| 0 <= j < |entries| && entries[j] == Entry(entries[i].name, r.value);
    assert j == i;
  }

  /** `put(name, tag)`: `checkNameValid`, then `checkNameExists`, then an append at the end. */
  function PutEntry(entries: seq<Entry>, name: string, tag: Tag): (r: Result<seq<Entry>, CompoundError>)
    ensures r.Success? <==> MatchesNameRegex(name) && !HasName(entries, name)
    ensures !MatchesNameRegex(name) ==> r == Failure(CheckNameValid(name).value)
    ensures MatchesNameRegex(name) && HasName(entries, name) ==> r == Failure(NameInUse(name))
    ensures r.Success? ==> r.value == entries + [Entry(name, tag)]
  {
    match CheckNameValid(name)
    case Some(e) => Failure(e)
    case None => if HasName(entries, name) then Failure(NameInUse(name)) else Success(entries + [Entry(name, tag)])
  }

  /** A successful put keeps the invariants; afterwards the name finds the new tag. */
  lemma PutValid(entries: seq<Entry>, name: string, tag: Tag)
    requires ValidEntries(entries)
    ensures PutEntry(entries, name, tag).Success? ==> ValidEntries(PutEntry(entries, name, tag).value)
    ensures PutEntry(entries, name, tag).Success? ==> Find(PutEntry(entries, name, tag).value, name) == Some(tag)
  {
    if PutEntry(entries, name, tag).Success? {
      var r := PutEntry(entries, name, tag).value;
      forall i, j | 0 <= i < j < |r|
        ensures r[i].name != r[j].name
      {
        if j == |entries| {
          assert r[i] == entries[i];
        }
      }
      FindAt(r, |entries|);
    }
  }

  /** A put leaves what every other name finds unchanged. */
  lemma {:induction false} PutOthers(entries: seq<Entry>, name: string, tag: Tag, other: string)
    requires other != name
    ensures PutEntry(entries, name, tag).Success? ==> Find(PutEntry(entries, name, tag).value, other) == Find(entries, other)
  {
    if PutEntry(entries, name, tag).Success? {
      FindAppend(entries, Entry(name, tag), other);
    }
  }

  lemma {:induction false} FindAppend(entries: seq<Entry>, e: Entry, other: string)
    requires e.name != other
    ensures Find(entries + [e], other) == Find(entries, other)
  {
    if entries != [] {
      assert (entries + [e])[1..] == entries[1..] + [e];
      FindAppend(entries[1..], e, other);
    }
  }

  /** `entries.remove(name)`: every entry but the one with that name, in the same order. */
  function RemoveKey(entries: seq<Entry>, name: string): (r: seq<Entry>)
    ensures !HasName(r, name)
    ensures |r| <= |entries|
    ensures !HasName(entries, name) ==> r == entries
  {
    if entries == [] then []
    else
      var rest := RemoveKey(entries[1..], name);
      if entries[0].name == name then rest
      else
        var r := [entries[0]] + rest;
        assert !HasName(r, name) by {
          forall i | 0 <= i < |r|
            ensures r[i].name != name
          {
            if i > 0 {
              assert r[i] == rest[i - 1];
            }
          }
        }
        assert !HasName(entries, name) ==> !HasName(entries[1..], name) by {
          if HasName(entries[1..], name) {
            var i :| 0 <= i < |entries[1..]| && entries[1..][i].name == name;
            assert entries[i + 1].name == name;
          }
        }
        assert !HasName(entries, name) ==> r == entries by {
          if !HasName(entries, name) {
            assert entries == [entries[0]] + entries[1..];
          }
        }
        r
  }

  /** A removal leaves what every other name finds unchanged, and keeps the invariants. */
  lemma {:induction false} RemoveOthers(entries: seq<Entry>, name: string, other: string)
    requires other != name
    ensures Find(RemoveKey(entries, name), other) == Find(entries, other)
  {
    if entries != [] {
      RemoveOthers(entries[1..], name, other);
    }
  }

  lemma {:induction false} RemoveValid(entries: seq<Entry>, name: string)
    requires ValidEntries(entries)
    ensures ValidEntries(RemoveKey(entries, name))
    ensures forall e :: e in RemoveKey(entries, name) ==> e in entries
  {
    if entries != [] {
      var rest := RemoveKey(entries[1..], name);
      assert ValidEntries(entries[1..]) by {
        forall i, j | 0 <= i < j < |entries[1..]|
          ensures entries[1..][i].name != entries[1..][j].name
        {
          assert entries[1..][i] == entries[i + 1] && entries[1..][j] == entries[j + 1];
        }
      }
      RemoveValid(entries[1..], name);
      if entries[0].name != name {
        var r := [entries[0]] + rest;
        forall e | e in rest
          ensures e.name != entries[0].name
        {
          var k :| 0 <= k < |entries[1..]| && entries[1..][k] == e;
          assert entries[k + 1] == e;
        }
        forall i, j | 0 <= i < j < |r|
          ensures r[i].name != r[j].name
        {
          if i > 0 {
            assert r[i] == rest[i - 1] && r[j] == rest[j - 1];
          } else {
            assert r[j] in rest;
          }
        }
        forall i | 0 <= i < |r|
          ensures MatchesNameRegex(r[i].name)
        {
          if i > 0 {
            assert r[i] in rest;
          }
        }
      }
    }
  }

  class Compound {
    var entries: seq<Entry>

    predicate Valid()
      reads this
    {
      ValidEntries(entries)
    }

    /** `new NBTCompound()`. */
    constructor ()
      ensures entries == [] && Valid()
    {
      entries := [];
    }

    /** The compound as a tag value. */
    function Value(): Tag
      reads this
    {
      CompoundTag(entries)
    }

    /** `hasKey`: plain membership, the name is not checked. */
    function HasKey(name: string): (b: bool)
      reads this
      ensures b <==> HasName(entries, name)
      ensures b <==> Find(entries, name).Some?
    {
      Find(entries, name).Some?
    }

    /** `remove`: deletes the name's entry if there is one; otherwise nothing changes. */
    method Remove(name: string)
      requires Valid()
      modifies this
      ensures Valid()
      ensures entries == RemoveKey(old(entries), name)
      ensures !HasKey(name)
      ensures forall other :: other != name ==> Find(entries, other) == Find(old(entries), other)
    {
      RemoveValid(entries, name);
      forall other | other != name
        ensures Find(RemoveKey(entries, name), other) == Find(entries, other)
      {
        RemoveOthers(entries, name, other);
      }
      entries := RemoveKey(entries, name);
    }

    /** `iterator`: the entries in insertion order, read-only. */
    function Iterator(): (r: seq<Entry>)
      reads this
      ensures Valid() ==> forall i :: 0 <= i < |r| ==> Find(entries, r[i].name) == Some(r[i].tag)
      ensures |r| == |entries|
    {
      if Valid() then
        assert forall i :: 0 <= i < |entries| ==> Find(entries, entries[i].name) == Some(entries[i].tag) by {
          forall i | 0 <= i < |entries|
            ensures Find(entries, entries[i].name) == Some(entries[i].tag)
          {
            FindAt(entries, i);
          }
        }
        entries
      else entries
    }

    /**
     * `put(name, tag)`: on an invalid or used name it fails and changes nothing; otherwise the
     * entry goes at the end of the insertion order and no other entry changes.
     */
    method Put(name: string, tag: Tag) returns (err: Option<CompoundError>)
      requires Valid()
      modifies this
      ensures Valid()
      ensures err.None? <==> PutEntry(old(entries), name, tag).Success?
      ensures err.Some? ==> err.value == PutEntry(old(entries), name, tag).error && entries == old(entries)
      ensures err.None? ==> entries == old(entries) + [Entry(name, tag)]
    {
      PutValid(entries, name, tag);
      match PutEntry(entries, name, tag)
      case Failure(e) => err := Some(e);
      case Success(es) =>
        entries := es;
        err := None;
    }

    /** `putCompound`: the argument's Java type makes it a compound. */
    method PutCompound(name: string, compound: Tag) returns (err: Option<CompoundError>)
      requires Valid() && compound.CompoundTag?
      modifies this
      ensures Valid()
      ensures err.None? <==> MatchesNameRegex(name) && !HasName(old(entries), name)
      ensures err.Some? ==> err.value == PutEntry(old(entries), name, compound).error && entries == old(entries)
      ensures err.None? ==> entries == old(entries) + [Entry(name, compound)]
    {
      err := Put(name, compound);
    }

    /** `putList`: the argument's Java type makes it a list (plain or smart). */
    method PutList(name: string, list: Tag) returns (err: Option<CompoundError>)
      requires Valid() && (list.ListTag? || list.SmartListTag?)
      modifies this
      ensures Valid()
      ensures err.None? <==> MatchesNameRegex(name) && !HasName(old(entries), name)
      ensures err.Some? ==> err.value == PutEntry(old(entries), name, list).error && entries == old(entries)
      ensures err.None? ==> entries == old(entries) + [Entry(name, list)]
    {
      err := Put(name, list);
    }

    method PutByte(name: string, b: Int8) returns (err: Option<CompoundError>)
      requires Valid()
      modifies this
      ensures Valid()
      ensures err.None? <==> MatchesNameRegex(name) && !HasName(old(entries), name)
      ensures err.Some? ==> err.value == PutEntry(old(entries), name, ByteTag(b)).error && entries == old(entries)
      ensures err.None? ==> entries == old(entries) + [Entry(name, ByteTag(b))]
    {
      err := Put(name, ByteTag(b));
    }

    method PutShort(name: string, s: Int16) returns (err: Option<CompoundError>)
      requires Valid()
      modifies this
      ensures Valid()
      ensures err.None? <==> MatchesNameRegex(name) && !HasName(old(entries), name)
      ensures err.Some? ==> err.value == PutEntry(old(entries), name, ShortTag(s)).error && entries == old(entries)
      ensures err.None? ==> entries == old(entries) + [Entry(name, ShortTag(s))]
    {
      err := Put(name, ShortTag(s));
    }

    method PutInt(name: string, i: Int32) returns (err: Option<CompoundError>)
      requires Valid()
      modifies this
      ensures Valid()
      ensures err.None? <==> MatchesNameRegex(name) && !HasName(old(entries), name)
      ensures err.Some? ==> err.value == PutEntry(old(entries), name, IntTag(i)).error && entries == old(entries)
      ensures err.None? ==> entries == old(entries) + [Entry(name, IntTag(i))]
    {
      err := Put(name, IntTag(i));
    }

    method PutLong(name: string, l: Int64) returns (err: Option<CompoundError>)
      requires Valid()
      modifies this
      ensures Valid()
      ensures err.None? <==> MatchesNameRegex(name) && !HasName(old(entries), name)
      ensures err.Some? ==> err.value == PutEntry(old(entries), name, LongTag(l)).error && entries == old(entries)
      ensures err.None? ==> entries == old(entries) + [Entry(name, LongTag(l))]
    {
      err := Put(name, LongTag(l));
    }

    method PutFloat(name: string, f: Bits32) returns (err: Option<CompoundError>)
      requires Valid()
      modifies this
      ensures Valid()
      ensures err.None? <==> MatchesNameRegex(name) && !HasName(old(entries), name)
      ensures err.Some? ==> err.value == PutEntry(old(entries), name, FloatTag(f)).error && entries == old(entries)
      ensures err.None? ==> entries == old(entries) + [Entry(name, FloatTag(f))]
    {
      err := Put(name, FloatTag(f));
    }

    method PutDouble(name: string, d: Bits64) returns (err: Option<CompoundError>)
      requires Valid()
      modifies this
      ensures Valid()
      ensures err.None? <==> MatchesNameRegex(name) && !HasName(old(entries), name)
      ensures err.Some? ==> err.value == PutEntry(old(entries), name, DoubleTag(d)).error && entries == old(entries)
      ensures err.None? ==> entries == old(entries) + [Entry(name, DoubleTag(d))]
    {
      err := Put(name, DoubleTag(d));
    }

    method PutString(name: string, s: string) returns (err: Option<CompoundError>)
      requires Valid()
      modifies this
      ensures Valid()
      ensures err.None? <==> MatchesNameRegex(name) && !HasName(old(entries), name)
      ensures err.Some? ==> err.value == PutEntry(old(entries), name, StringTag(s)).error && entries == old(entries)
      ensures err.None? ==> entries == old(entries) + [Entry(name, StringTag(s))]
    {
      err := Put(name, StringTag(s));
    }

    method PutByteArray(name: string, a: ImmutableBytes) returns (err: Option<CompoundError>)
      requires Valid()
      modifies this
      ensures Valid()
      ensures err.None? <==> MatchesNameRegex(name) && !HasName(old(entries), name)
      ensures err.Some? ==> err.value == PutEntry(old(entries), name, ByteArrayTag(a)).error && entries == old(entries)
      ensures err.None? ==> entries == old(entries) + [Entry(name, ByteArrayTag(a))]
    {
      err := Put(name, ByteArrayTag(a));
    }

    method PutIntArray(name: string, a: ImmutableInts) returns (err: Option<CompoundError>)
      requires Valid()
      modifies this
      ensures Valid()
      ensures err.None? <==> MatchesNameRegex(name) && !HasName(old(entries), name)
      ensures err.Some? ==> err.value == PutEntry(old(entries), name, IntArrayTag(a)).error && entries == old(entries)
      ensures err.None? ==> entries == old(entries) + [Entry(name, IntArrayTag(a))]
    {
      err := Put(name, IntArrayTag(a));
    }

    method PutLongArray(name: string, a: ImmutableLongs) returns (err: Option<CompoundError>)
      requires Valid()
      modifies this
      ensures Valid()
      ensures err.None? <==> MatchesNameRegex(name) && !HasName(old(entries), name)
      ensures err.Some? ==> err.value == PutEntry(old(entries), name, LongArrayTag(a)).error && entries == old(entries)
      ensures err.None? ==> entries == old(entries) + [Entry(name, LongArrayTag(a))]
    {
      err := Put(name, LongArrayTag(a));
    }

    /**
     * The lookup every getter starts with: `checkNameValid`, then `entries.get(name)`.
     */
    function Lookup(name: string): (r: Result<Option<Tag>, CompoundError>)
      reads this
      ensures r.Success? <==> MatchesNameRegex(name)
      ensures r.Failure? ==> r.error == CheckNameValid(name).value
      ensures r.Success? ==> r.value == Find(entries, name)
    {
      match CheckNameValid(name)
      case Some(e) => Failure(e)
      case None => Success(Find(entries, name))
    }

    function GetNode(name: string): (r: Result<Tag, CompoundError>)
      reads this
      ensures r.Success? <==> MatchesNameRegex(name) && Find(entries, name).Some? && Find(entries, name).value.CompoundTag?
      ensures r.Success? ==> Find(entries, name) == Some(r.value)
      ensures MatchesNameRegex(name) && !r.Success? ==> r == Failure(NotExistOrIncorrectType(name))
    {
      match Lookup(name)
      case Failure(e) => Failure(e)
      case Success(Some(t)) => if t.CompoundTag? then Success(t) else Failure(NotExistOrIncorrectType(name))
      case Success(None) => Failure(NotExistOrIncorrectType(name))
    }

    /** `getNodeOrDefault`: the default only for an absent name; a wrong type still fails. */
    function GetNodeOrDefault(name: string, def: Tag): (r: Result<Tag, CompoundError>)
      reads this
      ensures r.Success? <==> MatchesNameRegex(name) && (Find(entries, name).None? || Find(entries, name).value.CompoundTag?)
      ensures r.Success? && Find(entries, name).Some? ==> Find(entries, name) == Some(r.value)
      ensures MatchesNameRegex(name) && Find(entries, name).None? ==> r == Success(def)
      ensures MatchesNameRegex(name) && !r.Success? ==> r == Failure(NotExistOrIncorrectType(name))
    {
      match Lookup(name)
      case Failure(e) => Failure(e)
      case Success(Some(t)) => if t.CompoundTag? then Success(t) else Failure(NotExistOrIncorrectType(name))
      case Success(None) => Success(def)
    }

    function GetString(name: string): (r: Result<string, CompoundError>)
      reads this
      ensures r.Success? <==> MatchesNameRegex(name) && Find(entries, name).Some? && Find(entries, name).value.StringTag?
      ensures r.Success? ==> Find(entries, name) == Some(StringTag(r.value))
      ensures MatchesNameRegex(name) && !r.Success? ==> r == Failure(NotExistOrIncorrectType(name))
    {
      match Lookup(name)
      case Failure(e) => Failure(e)
      case Success(Some(StringTag(s))) => Success(s)
      case Success(_) => Failure(NotExistOrIncorrectType(name))
    }

    function GetStringOrDefault(name: string, def: string): (r: Result<string, CompoundError>)
      reads this
      ensures r.Success? <==> MatchesNameRegex(name) && (Find(entries, name).None? || Find(entries, name).value.StringTag?)
      ensures r.Success? && Find(entries, name).Some? ==> Find(entries, name) == Some(StringTag(r.value))
      ensures MatchesNameRegex(name) && Find(entries, name).None? ==> r == Success(def)
      ensures MatchesNameRegex(name) && !r.Success? ==> r == Failure(NotExistOrIncorrectType(name))
    {
      match Lookup(name)
      case Failure(e) => Failure(e)
      case Success(Some(StringTag(s))) => Success(s)
      case Success(None) => Success(def)
      case Success(_) => Failure(NotExistOrIncorrectType(name))
    }

    function GetByte(name: string): (r: Result<Int8, CompoundError>)
      reads this
      ensures r.Success? <==> MatchesNameRegex(name) && Find(entries, name).Some? && Find(entries, name).value.ByteTag?
      ensures r.Success? ==> Find(entries, name) == Some(ByteTag(r.value))
      ensures MatchesNameRegex(name) && !r.Success? ==> r == Failure(NotExistOrIncorrectType(name))
    {
      match Lookup(name)
      case Failure(e) => Failure(e)
      case Success(Some(ByteTag(b))) => Success(b)
      case Success(_) => Failure(NotExistOrIncorrectType(name))
    }

    function GetByteOrDefault(name: string, def: Int8): (r: Result<Int8, CompoundError>)
      reads this
      ensures r.Success? <==> MatchesNameRegex(name) && (Find(entries, name).None? || Find(entries, name).value.ByteTag?)
      ensures r.Success? && Find(entries, name).Some? ==> Find(entries, name) == Some(ByteTag(r.value))
      ensures MatchesNameRegex(name) && Find(entries, name).None? ==> r == Success(def)
      ensures MatchesNameRegex(name) && !r.Success? ==> r == Failure(NotExistOrIncorrectType(name))
    {
      match Lookup(name)
      case Failure(e) => Failure(e)
      case Success(Some(ByteTag(b))) => Success(b)
      case Success(None) => Success(def)
      case Success(_) => Failure(NotExistOrIncorrectType(name))
    }

    function GetInt(name: string): (r: Result<Int32, CompoundError>)
      reads this
      ensures r.Success? <==> MatchesNameRegex(name) && Find(entries, name).Some? && Find(entries, name).value.IntTag?
      ensures r.Success? ==> Find(entries, name) == Some(IntTag(r.value))
      ensures MatchesNameRegex(name) && !r.Success? ==> r == Failure(NotExistOrIncorrectType(name))
    {
      match Lookup(name)
      case Failure(e) => Failure(e)
      case Success(Some(IntTag(i))) => Success(i)
      case Success(_) => Failure(NotExistOrIncorrectType(name))
    }

    function GetIntOrDefault(name: string, def: Int32): (r: Result<Int32, CompoundError>)
      reads this
      ensures r.Success? <==> MatchesNameRegex(name) && (Find(entries, name).None? || Find(entries, name).value.IntTag?)
      ensures r.Success? && Find(entries, name).Some? ==> Find(entries, name) == Some(IntTag(r.value))
      ensures MatchesNameRegex(name) && Find(entries, name).None? ==> r == Success(def)
      ensures MatchesNameRegex(name) && !r.Success? ==> r == Failure(NotExistOrIncorrectType(name))
    {
      match Lookup(name)
      case Failure(e) => Failure(e)
      case Success(Some(IntTag(i))) => Success(i)
      case Success(None) => Success(def)
      case Success(_) => Failure(NotExistOrIncorrectType(name))
    }

    function GetLong(name: string): (r: Result<Int64, CompoundError>)
      reads this
      ensures r.Success? <==> MatchesNameRegex(name) && Find(entries, name).Some? && Find(entries, name).value.LongTag?
      ensures r.Success? ==> Find(entries, name) == Some(LongTag(r.value))
      ensures MatchesNameRegex(name) && !r.Success? ==> r == Failure(NotExistOrIncorrectType(name))
    {
      match Lookup(name)
      case Failure(e) => Failure(e)
      case Success(Some(LongTag(l))) => Success(l)
      case Success(_) => Failure(NotExistOrIncorrectType(name))
    }

    function GetLongOrDefault(name: string, def: Int64): (r: Result<Int64, CompoundError>)
      reads this
      ensures r.Success? <==> MatchesNameRegex(name) && (Find(entries, name).None? || Find(entries, name).value.LongTag?)
      ensures r.Success? && Find(entries, name).Some? ==> Find(entries, name) == Some(LongTag(r.value))
      ensures MatchesNameRegex(name) && Find(entries, name).None? ==> r == Success(def)
      ensures MatchesNameRegex(name) && !r.Success? ==> r == Failure(NotExistOrIncorrectType(name))
    {
      match Lookup(name)
      case Failure(e) => Failure(e)
      case Success(Some(LongTag(l))) => Success(l)
      case Success(None) => Success(def)
      case Success(_) => Failure(NotExistOrIncorrectType(name))
    }

    function GetByteArray(name: string): (r: Result<ImmutableBytes, CompoundError>)
      reads this
      ensures r.Success? <==> MatchesNameRegex(name) && Find(entries, name).Some? && Find(entries, name).value.ByteArrayTag?
      ensures r.Success? ==> Find(entries, name) == Some(ByteArrayTag(r.value))
      ensures MatchesNameRegex(name) && !r.Success? ==> r == Failure(NotExistOrIncorrectType(name))
    {
      match Lookup(name)
      case Failure(e) => Failure(e)
      case Success(Some(ByteArrayTag(a))) => Success(a)
      case Success(_) => Failure(NotExistOrIncorrectType(name))
    }

    function GetIntArray(name: string): (r: Result<ImmutableInts, CompoundError>)
      reads this
      ensures r.Success? <==> MatchesNameRegex(name) && Find(entries, name).Some? && Find(entries, name).value.IntArrayTag?
      ensures r.Success? ==> Find(entries, name) == Some(IntArrayTag(r.value))
      ensures MatchesNameRegex(name) && !r.Success? ==> r == Failure(NotExistOrIncorrectType(name))
    {
      match Lookup(name)
      case Failure(e) => Failure(e)
      case Success(Some(IntArrayTag(a))) => Success(a)
      case Success(_) => Failure(NotExistOrIncorrectType(name))
    }

    function GetLongArray(name: string): (r: Result<ImmutableLongs, CompoundError>)
      reads this
      ensures r.Success? <==> MatchesNameRegex(name) && Find(entries, name).Some? && Find(entries, name).value.LongArrayTag?
      ensures r.Success? ==> Find(entries, name) == Some(LongArrayTag(r.value))
      ensures MatchesNameRegex(name) && !r.Success? ==> r == Failure(NotExistOrIncorrectType(name))
    {
      match Lookup(name)
      case Failure(e) => Failure(e)
      case Success(Some(LongArrayTag(a))) => Success(a)
      case Success(_) => Failure(NotExistOrIncorrectType(name))
    }
  }

  /** A name the pattern accepts is never blank, so the two checks cannot both refuse it. */
  lemma ValidNameNotBlank(name: string)
    requires MatchesNameRegex(name)
    ensures !IsBlank(name) && |name| > 0
  {
    assert !IsJavaWhitespace(name[0]);
  }
}
