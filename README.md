# Java-NBT codec core, modelled in Dafny

This project models the core of Java-NBT, a library for Minecraft's Named Binary Tag (NBT)
format. A tag tree is a value of type `Tag`: bytes, shorts, ints, longs, floats, doubles,
strings, three kinds of numeric array, lists of one element type, and compounds of named
entries. Every part of the library talks to every other part through the same visitor
protocol. The model represents one visitor conversation as a flat trace of `Event`s
(`visitInt(5)`, `visitCompound()`, `visitValue("k")`, `visitEnd()`, …), and nesting as a stack of
roles (`Events.Protocol`).

The modelled parts:

- **The tree**: the tree itself (`Tags`), the 13 tag types (`NBTType`), and the immutable
  numeric arrays (`ImmutableArrays`, `ArrayUtil`).
- **The mutable containers** `NBTCompound`, `NBTList` and `NBTSmartIntList`: classes whose
  fields are updated in place.
- **`TagReader`**: turns a tree into a visitor trace through the explicit context stack of
  `ContextStackEvaluator`.
- **`TagWriter`**: builds a tree back from a trace.
- **`NbtReader`**: decodes the big-endian binary format into a trace. It is a class that moves
  a cursor over the input.
- **The two writers** `NbtWriter` (binary) and `StringNbtWriter` (text). Both share the
  error-collecting helper `AbstractWriterHelper` (`WriterHelper`).
- **The pass-through visitor decorators** (`Decorators`).

The repository holds two snapshots of the code: the current package `de.pcfreak9000.nbt` and
an older package `nbt`. Where they differ, the model takes a `Snapshot` or a frame kind
(`Current` or `Legacy`). The main differences:

- The legacy type table stops at id 10.
- The legacy reader refuses the array tags.
- The legacy text writer's compound writer differs.

The headline result is `RoundTrip.WriteThenRead`: for a tree within the format's limits and a
root name, the binary writer emits `NamedBytes(name, t)`, and reading those bytes back yields
the header and, through the tree builder, the normalized tree with each float or double NaN
replaced by the canonical NaN (`writeFloat`/`writeDouble` go through
`floatToIntBits`/`doubleToLongBits`). A tree without other NaNs comes back exactly normalized.
Normalizing turns a smart int list into the plain list of scalars it reads back as.

Where the source and its textual description disagree, the model follows the source:

- A list header of type End is accepted when its length is 0 or negative
  (`NbtReader.java:175`).
- `NBTSmartIntList` widens its entry type to the wider of the old width and the narrowest width
  holding the new value.
- `TagWriter` fails when a list's announced length differs from the number of elements
  (`TagWriter.java:167-169`).
- The two snapshots disagree on a few declarations: array visitors take `byte[]` in one place
  and `ImmutableBytes` in another, `cpy` is used where it is not declared, and `entrytype` is
  assigned while final. These are modelled by their evident intent. The array visitors carry
  the immutable arrays, copies are deep, and the smart list's entry type changes.

## Model

| member | source | states |
|---|---|---|
| Binary.LowBits | src/main/java/de/pcfreak9000/nbt/NbtWriter.java:111-150 | the low `n` bytes of a Java integer as an unsigned value: identity on non-negative in-range values, plus `256^n` on negative ones |
| Binary.FromBigEndianOfBigEndian | src/main/java/de/pcfreak9000/nbt/NbtReader.java:99-110 | reading back `n` big-endian bytes of an unsigned value gives the value |
| Binary.BigEndianOfFromBigEndian | src/main/java/de/pcfreak9000/nbt/NbtReader.java:99-110 | every byte sequence is the big-endian encoding of the number it denotes |
| Binary.DecodeUnsignedOfEncode | src/main/java/de/pcfreak9000/nbt/NbtWriter.java:111-150 | the bytes `DataOutputStream` writes for a value decode, unsigned, to its low bits |
| Binary.DecodeSignedOfEncode | src/main/java/de/pcfreak9000/nbt/NbtReader.java:99-110 | `readByte`/`readShort`/`readInt`/`readLong` return any value the matching write was given |
| Binary.DecodeSignedRange | src/main/java/de/pcfreak9000/nbt/NbtReader.java:99-110 | a signed read of `k` bytes lies in the two's-complement range of `k` bytes |
| Binary.FloatToIntBits | src/main/java/de/pcfreak9000/nbt/NbtWriter.java:141-144 | the bits `writeFloat` writes: unchanged unless a NaN, every NaN the canonical `0x7fc00000`, which is still a NaN |
| Binary.DoubleToLongBits | src/main/java/de/pcfreak9000/nbt/NbtWriter.java:147-150 | the bits `writeDouble` writes: unchanged unless a NaN, every NaN the canonical `0x7ff8000000000000`, which is still a NaN |
| Binary.CanonicalBitsStable | src/main/java/de/pcfreak9000/nbt/NbtWriter.java:141-150 | writing bits that were already written leaves them as they are |
| Binary.Wrap | src/main/java/de/pcfreak9000/nbt/SmartIntEntry.java:21-36 | a Java narrowing cast: in range, congruent to the input modulo `256^n`, identity on values already in range |
| Binary.DecodeSignedIsWrap | src/main/java/de/pcfreak9000/nbt/SmartIntEntry.java:21-36 | writing any integer at width `n` and reading it back is the narrowing cast to `n` bytes |
| Binary.EncodeAllAppend | src/main/java/de/pcfreak9000/nbt/NbtWriter.java:176-190 | encoding an array is encoding its parts one after the other |
| Binary.DecodeAllOfEncodeAll | src/main/java/de/pcfreak9000/nbt/NbtReader.java:130-150 | element-wise decoding of an encoded array gives the array, whatever follows it |
| Binary.DecodeAllSplit | src/main/java/de/pcfreak9000/nbt/NbtReader.java:137-145 | decoding `a + b` elements is decoding `a`, then `b` from where the first part ends (the chunked read) |
| NBTType.GetById | src/main/java/de/pcfreak9000/nbt/NBTType.java:15-20 | succeeds exactly for ids 0..12 with the type of that id; otherwise `NoSuchElementException(id)` |
| NBTType.IdsConsecutive | src/main/java/de/pcfreak9000/nbt/NBTType.java:6-13 | type ids are the positions in the declaration order, so no two types share an id |
| NBTType.GetByIdOfId | src/main/java/de/pcfreak9000/nbt/NBTType.java:15-20 | looking up a type's id gives the type back |
| NBTType.FindFirst | src/main/java/nbt/NBTType.java:14-17 | the linear search over `values()` finds a type with the id, or none exists |
| NBTType.LegacyGetByIdSpec | src/main/java/nbt/NBTType.java:14-17 | the legacy lookup succeeds exactly for ids 0..10, agrees with the current one there, and fails with the id otherwise |
| NBTType.LegacyGetByIdOfId | src/main/java/nbt/NBTType.java:14-17 | each legacy type is found by its id |
| Utf8.EncodeChar | src/main/java/de/pcfreak9000/nbt/NbtWriter.java:84-88 | each character takes 1 to 4 bytes, a single byte exactly when it is ASCII |
| Utf8.DecodeCharOfEncodeChar | src/main/java/de/pcfreak9000/nbt/NbtReader.java:75-80 | decoding an encoded character consumes its bytes and returns the character |
| Utf8.EncodeAppend | src/main/java/de/pcfreak9000/nbt/NbtWriter.java:84-88 | the encoding of a concatenation is the concatenation of encodings |
| Utf8.DecodeOfEncode | src/main/java/de/pcfreak9000/nbt/NbtReader.java:75-80 | `new String(s.getBytes(UTF_8), UTF_8)` is `s` |
| Utf8.EncodeInjective | src/main/java/de/pcfreak9000/nbt/NbtWriter.java:84-88 | two strings with the same encoding are equal |
| Utf8.EncodeAscii | src/main/java/de/pcfreak9000/nbt/NbtWriter.java:84-88 | an ASCII string's encoding has one byte per character, equal to its code |
| Decimal.Digits | src/main/java/de/pcfreak9000/nbt/StringNbtWriter.java:75-77 | decimal digits of a natural number: non-empty, digits only, no leading zero |
| Decimal.DigitsValueOfDigits | src/main/java/de/pcfreak9000/nbt/StringNbtWriter.java:75-77 | the digits denote the number |
| Decimal.ParseOfRender | src/main/java/de/pcfreak9000/nbt/StringNbtWriter.java:75-77 | parsing `Integer.toString`/`Long.toString` output gives the number back |
| Decimal.RenderCharacters | src/main/java/de/pcfreak9000/nbt/StringNbtWriter.java:75-77 | the text of an integer is digits with at most a leading minus sign |
| ArrayUtil.RenderAll | src/main/java/de/pcfreak9000/nbt/util/ArrayUtil.java:6-12 | one decimal text per element, in order |
| ArrayUtil.Join | src/main/java/de/pcfreak9000/nbt/util/ArrayUtil.java:6-12 | the `StringJoiner` loop yields prefix, the elements' texts separated by the delimiter, suffix |
| ArrayUtil.BytesToString | src/main/java/de/pcfreak9000/nbt/util/ArrayUtil.java:6-12 | `toString(byte[], prefix, delimiter, suffix)` over the array's contents |
| ArrayUtil.IntsToString | src/main/java/de/pcfreak9000/nbt/util/ArrayUtil.java:14-20 | `toString(int[], prefix, delimiter, suffix)` over the array's contents |
| ArrayUtil.LongsToString | src/main/java/de/pcfreak9000/nbt/util/ArrayUtil.java:22-28 | `toString(long[], prefix, delimiter, suffix)` over the array's contents |
| ArrayUtil.BytesToBracketed | src/main/java/de/pcfreak9000/nbt/util/ArrayUtil.java:30-32 | the one-argument overload is the three-argument one with `[`, `,`, `]` |
| ArrayUtil.IntsToBracketed | src/main/java/de/pcfreak9000/nbt/util/ArrayUtil.java:34-36 | the one-argument overload is the three-argument one with `[`, `,`, `]` |
| ArrayUtil.LongsToBracketed | src/main/java/de/pcfreak9000/nbt/util/ArrayUtil.java:38-40 | the one-argument overload is the three-argument one with `[`, `,`, `]` |
| ArrayUtil.JoinedEmpty | src/main/java/de/pcfreak9000/nbt/util/ArrayUtil.java:6-12 | an empty array renders as prefix followed by suffix |
| ArrayUtil.SplitJoin | src/main/java/de/pcfreak9000/nbt/util/ArrayUtil.java:6-12 | splitting a join at a delimiter that no part contains recovers the parts |
| ArrayUtil.ParseAllRenderAll | src/main/java/de/pcfreak9000/nbt/util/ArrayUtil.java:6-12 | the element texts parse back to the elements |
| ArrayUtil.ParseBracketedOfJoined | src/main/java/de/pcfreak9000/nbt/util/ArrayUtil.java:30-40 | the bracketed text of any array parses back to the array (the text is lossless) |
| ImmutableArrays.CopyOfRange | src/main/java/de/pcfreak9000/nbt/util/ImmutableInts.java:31-33 | `Arrays.copyOfRange(a, offset, offset + length)`: fails for a negative length or an offset outside `0..size`; otherwise has `length` elements, zero-padded past the end |
| ImmutableArrays.At | src/main/java/de/pcfreak9000/nbt/util/ImmutableInts.java:13-15 | indexing succeeds exactly inside the bounds and returns that element |
| ImmutableArrays.ImmutableBytes.Get | src/main/java/de/pcfreak9000/nbt/util/ImmutableBytes.java:17-19 | `get(i)` is element `i` or `ArrayIndexOutOfBoundsException` |
| ImmutableArrays.ImmutableBytes.ArrayCopyOfRange | src/main/java/de/pcfreak9000/nbt/util/ImmutableBytes.java:31-33 | a copy of `length` elements from `offset`, zero-padded past the end, with the `copyOfRange` failure cases and errors |
| ImmutableArrays.ImmutableBytes.ArrayCopy | src/main/java/de/pcfreak9000/nbt/util/ImmutableBytes.java:13-15 | a fresh array holding exactly the contents |
| ImmutableArrays.ImmutableInts.Get | src/main/java/de/pcfreak9000/nbt/util/ImmutableInts.java:13-15 | `get(i)` is element `i` or `ArrayIndexOutOfBoundsException` |
| ImmutableArrays.ImmutableInts.ArrayCopyOfRange | src/main/java/de/pcfreak9000/nbt/util/ImmutableInts.java:31-33 | a copy of `length` elements from `offset`, zero-padded past the end, with the `copyOfRange` failure cases and errors |
| ImmutableArrays.ImmutableInts.ArrayCopy | src/main/java/de/pcfreak9000/nbt/util/ImmutableInts.java:17-19 | a fresh array holding exactly the contents |
| ImmutableArrays.ImmutableLongs.Get | src/main/java/de/pcfreak9000/nbt/util/ImmutableLongs.java:13-15 | `get(i)` is element `i` or `ArrayIndexOutOfBoundsException` |
| ImmutableArrays.ImmutableLongs.ArrayCopyOfRange | src/main/java/de/pcfreak9000/nbt/util/ImmutableLongs.java:31-33 | a copy of `length` elements from `offset`, zero-padded past the end, with the `copyOfRange` failure cases and errors |
| ImmutableArrays.ImmutableLongs.ArrayCopy | src/main/java/de/pcfreak9000/nbt/util/ImmutableLongs.java:17-19 | a fresh array holding exactly the contents |
| ImmutableArrays.ToString | src/main/java/de/pcfreak9000/nbt/util/AbstractImmutableArray.java:13-19 | the joined decimal texts of the boxed elements |
| ImmutableArrays.ToDefaultString | src/main/java/de/pcfreak9000/nbt/util/AbstractImmutableArray.java:8-11 | `[a,b,c]`, which parses back to the elements |
| ImmutableArrays.ArrayIterator.constructor | src/main/java/de/pcfreak9000/nbt/util/AbstractImmutableArray.java:21-26 | a new iterator starts at index 0 over the array |
| ImmutableArrays.ArrayIterator.Next | src/main/java/de/pcfreak9000/nbt/util/AbstractImmutableArray.java:32-35 | returns the element at the index (or the out-of-bounds failure) and advances by one |
| ImmutableArrays.ForEach | src/main/java/de/pcfreak9000/nbt/util/AbstractImmutableArray.java:21-37 | iterating while `hasNext()` visits every element once, in order |
| Events.Protocol | src/main/java/de/pcfreak9000/nbt/visitor/NBTValueVisitor.java:7-35 | which visitor receives each call: a value visitor takes one value call and is used up, a container call opens a list or compound visitor, `visitEnd` closes the innermost one |
| Events.RunAppend | src/main/java/de/pcfreak9000/nbt/visitor/NBTListVisitor.java:5-15 | a trace in two parts is run one part after the other |
| Events.RunFramed | src/main/java/de/pcfreak9000/nbt/visitor/NBTCompoundVisitor.java:3-9 | a conversation that finishes its own visitors runs unchanged on top of any enclosing ones |
| Events.RunNothing | src/main/java/de/pcfreak9000/nbt/visitor/NBTValueVisitor.java:7-35 | with no visitor left, only the empty trace is accepted |
| Events.RunSequence | src/main/java/de/pcfreak9000/nbt/visitor/NBTListVisitor.java:5-15 | consecutive runs compose |
| Events.RunEnclosed | src/main/java/de/pcfreak9000/nbt/visitor/NBTCompoundVisitor.java:3-9 | opening a container, visiting its body and ending it uses up one value visitor |
| SmartIntEntry.FitsWider | src/main/java/de/pcfreak9000/nbt/NBTSmartIntList.java:25-42 | a value that fits a width fits every wider width |
| SmartIntEntry.Narrowest | src/main/java/de/pcfreak9000/nbt/NBTSmartIntList.java:25-42 | the narrowest of Byte/Short/Int/Long that holds a long; no narrower width holds it |
| SmartIntEntry.MaxWidth | src/main/java/de/pcfreak9000/nbt/NBTSmartIntList.java:25-42 | the wider of two widths, one of the two |
| SmartIntEntry.Accept | src/main/java/de/pcfreak9000/nbt/SmartIntEntry.java:21-36 | the call follows the parent's entry type (Long for anything that is not Byte/Short/Int) and carries the value unchanged when it fits that width |
| SmartIntEntry.AccomodateFor | src/main/java/de/pcfreak9000/nbt/NBTSmartIntList.java:25-42 | widens to the wider of the current width and the narrowest width holding the value; non-width types are left alone |
| Tags.Accept | src/main/java/de/pcfreak9000/nbt/NBTTag.java:35-249 | each leaf tag makes exactly the one visitor call of its type with its value; only the End tag calls `visitEnd` |
| Tags.SmartContent | src/main/java/de/pcfreak9000/nbt/NBTSmartIntList.java:54-62 | the content of a smart list is one `SmartIntEntry` per stored long, typed by the list |
| Tags.ScalarOfSmart | src/main/java/de/pcfreak9000/nbt/SmartIntEntry.java:21-36 | a smart entry is replaced by the plain scalar tag that makes the same visitor call |
| Tags.CanonicalNaN | src/main/java/de/pcfreak9000/nbt/NbtWriter.java:141-150 | a tree as the writer puts it on the stream: same types, names and shape, each float and double through `floatToIntBits`/`doubleToLongBits` |
| Tags.NormalizeSmartContent | src/main/java/de/pcfreak9000/nbt/SmartIntEntry.java:21-36 | normalizing a smart list's content gives the plain scalars of its values |
| NBTSmartIntList.WidthFor | src/main/java/de/pcfreak9000/nbt/NBTSmartIntList.java:25-42 | the width reached by adding the values in order is always an integer width |
| NBTSmartIntList.WidthForFits | src/main/java/de/pcfreak9000/nbt/NBTSmartIntList.java:25-42 | every value added so far fits the list's width |
| NBTSmartIntList.WidthForNarrowest | src/main/java/de/pcfreak9000/nbt/NBTSmartIntList.java:25-42 | the list's width is no wider than any width that holds all its values |
| NBTSmartIntList.SmartIntList.constructor | src/main/java/de/pcfreak9000/nbt/NBTSmartIntList.java:7-9 | a new smart list is empty with entry type Byte |
| NBTSmartIntList.SmartIntList.Size | src/main/java/de/pcfreak9000/nbt/NBTList.java:37-39 | the number of stored values, which is the length of the content |
| NBTSmartIntList.SmartIntList.GetContent | src/main/java/de/pcfreak9000/nbt/NBTList.java:41-43 | one smart entry per value, each of the list's entry type |
| NBTSmartIntList.SmartIntList.AddSmartInt | src/main/java/de/pcfreak9000/nbt/NBTSmartIntList.java:59-62 | appends the value and widens the entry type as `accomodateFor` says, keeping every value in range |
| NBTSmartIntList.SmartIntList.GetSmartInt | src/main/java/de/pcfreak9000/nbt/NBTSmartIntList.java:16-18 | the stored long at an index, or `IndexOutOfBounds` |
| NBTSmartIntList.SmartIntList.GetNumberAutocast | src/main/java/de/pcfreak9000/nbt/NBTSmartIntList.java:21-23 | the same long as `getSmartInt` |
| NBTSmartIntList.SmartIntList.Check | src/main/java/de/pcfreak9000/nbt/NBTSmartIntList.java:12-14 | every typed insertion into a smart list is refused |
| NBTSmartIntList.SmartIntList.Add | src/main/java/de/pcfreak9000/nbt/NBTList.java:97-101 | `add(tag)` on a smart list always fails the check |
| NBTSmartIntList.SmartIntList.GetTyped | src/main/java/de/pcfreak9000/nbt/NBTList.java:107-150 | typed getters fail on a smart list: its entries are not of the scalar classes |
| NBTSmartIntList.SmartIntList.Cpy | src/main/java/de/pcfreak9000/nbt/NBTSmartIntList.java:45-52 | a fresh list with the same values and width |
| NBTSmartIntList.AcceptLossless | src/main/java/de/pcfreak9000/nbt/SmartIntEntry.java:21-36 | visiting any stored entry reports exactly the stored value (the narrowing cast never loses bits) |
| NBTList.Check | src/main/java/de/pcfreak9000/nbt/NBTList.java:152-156 | passes exactly for the list's entry type, otherwise `IllegalType(t)` |
| NBTList.Appended | src/main/java/de/pcfreak9000/nbt/NBTList.java:97-101 | appending succeeds exactly for a tag of the entry type and adds it at the end, nothing else changing |
| NBTList.AppendedHomogeneous | src/main/java/de/pcfreak9000/nbt/NBTList.java:97-101 | appending keeps every element of the entry type |
| NBTList.AppendedAll | src/main/java/de/pcfreak9000/nbt/NBTList.java:97-101 | a homogeneous list is what appending its elements one by one builds |
| NBTList.Get | src/main/java/de/pcfreak9000/nbt/NBTList.java:103-105 | the element at an index, or `IndexOutOfBounds` |
| NBTList.GetTyped | src/main/java/de/pcfreak9000/nbt/NBTList.java:107-150 | a typed getter checks the requested type first, then the index, then the element's class |
| NBTList.NbtList.Empty | src/main/java/de/pcfreak9000/nbt/NBTList.java:14-22 | a new list of a non-End type is empty |
| NBTList.NbtList.Create | src/main/java/de/pcfreak9000/nbt/NBTList.java:14-22 | `new NBTList(End)` throws `IllegalArgumentException`; any other type gives a fresh empty list |
| NBTList.NbtList.GetEntryType | src/main/java/de/pcfreak9000/nbt/NBTList.java:33-35 | the entry type fixed at construction |
| NBTList.NbtList.Size | src/main/java/de/pcfreak9000/nbt/NBTList.java:37-39 | the number of elements |
| NBTList.NbtList.GetContent | src/main/java/de/pcfreak9000/nbt/NBTList.java:41-43 | the elements, each one what `get` returns at its index |
| NBTList.NbtList.IsEmpty | src/main/java/de/pcfreak9000/nbt/NBTList.java:45-47 | true exactly when the size is 0 |
| NBTList.NbtList.Add | src/main/java/de/pcfreak9000/nbt/NBTList.java:97-101 | appends a tag of the entry type; any other tag is refused with `IllegalType` and the list is unchanged |
| NBTList.NbtList.AddByte | src/main/java/de/pcfreak9000/nbt/NBTList.java:49-52 | appends a byte tag exactly when the list holds bytes |
| NBTList.NbtList.AddShort | src/main/java/de/pcfreak9000/nbt/NBTList.java:54-57 | appends a short tag exactly when the list holds shorts |
| NBTList.NbtList.AddInt | src/main/java/de/pcfreak9000/nbt/NBTList.java:59-62 | appends an int tag exactly when the list holds ints |
| NBTList.NbtList.AddLong | src/main/java/de/pcfreak9000/nbt/NBTList.java:64-67 | appends a long tag exactly when the list holds longs |
| NBTList.NbtList.AddFloat | src/main/java/de/pcfreak9000/nbt/NBTList.java:69-72 | appends a float tag exactly when the list holds floats |
| NBTList.NbtList.AddDouble | src/main/java/de/pcfreak9000/nbt/NBTList.java:74-77 | appends a double tag exactly when the list holds doubles |
| NBTList.NbtList.AddCompound | src/main/java/de/pcfreak9000/nbt/NBTList.java:79-83 | appends a compound exactly when the list holds compounds |
| NBTList.NbtList.AddList | src/main/java/de/pcfreak9000/nbt/NBTList.java:85-89 | appends a list exactly when the list holds lists |
| NBTList.NbtList.AddString | src/main/java/de/pcfreak9000/nbt/NBTList.java:91-95 | appends a string tag exactly when the list holds strings |
| NBTList.NbtList.GetAt | src/main/java/de/pcfreak9000/nbt/NBTList.java:103-105 | the element at an index, always of the entry type |
| NBTList.NbtList.GetString | src/main/java/de/pcfreak9000/nbt/NBTList.java:107-110 | succeeds exactly on a string list at a valid index, returning that element's string |
| NBTList.NbtList.GetByte | src/main/java/de/pcfreak9000/nbt/NBTList.java:112-115 | succeeds exactly on a byte list at a valid index holding a byte tag |
| NBTList.NbtList.GetShort | src/main/java/de/pcfreak9000/nbt/NBTList.java:117-120 | succeeds exactly on a short list at a valid index holding a short tag |
| NBTList.NbtList.GetInt | src/main/java/de/pcfreak9000/nbt/NBTList.java:122-125 | succeeds exactly on an int list at a valid index holding an int tag |
| NBTList.NbtList.GetLong | src/main/java/de/pcfreak9000/nbt/NBTList.java:127-130 | succeeds exactly on a long list at a valid index holding a long tag |
| NBTList.NbtList.GetFloat | src/main/java/de/pcfreak9000/nbt/NBTList.java:132-135 | succeeds exactly on a float list at a valid index |
| NBTList.NbtList.GetDouble | src/main/java/de/pcfreak9000/nbt/NBTList.java:137-140 | succeeds exactly on a double list at a valid index |
| NBTList.NbtList.GetCompound | src/main/java/de/pcfreak9000/nbt/NBTList.java:142-145 | succeeds exactly on a compound list at a valid index |
| NBTList.NbtList.GetList | src/main/java/de/pcfreak9000/nbt/NBTList.java:147-150 | succeeds exactly on a list of lists at a valid index |
| NBTList.NbtList.Cpy | src/main/java/de/pcfreak9000/nbt/NBTList.java:25-31 | a fresh list with the same entry type and elements |
| NBTCompound.CheckNameValid | src/main/java/de/pcfreak9000/nbt/NBTCompound.java:263-271 | a name passes exactly when it matches `^[\w\d][\w\d ]*$`; blank names fail as empty or blank, other bad names as illegal characters |
| NBTCompound.Find | src/main/java/de/pcfreak9000/nbt/NBTCompound.java:113-120 | the map lookup finds a tag exactly when an entry has the name, and that entry holds it |
| NBTCompound.FindAt | src/main/java/de/pcfreak9000/nbt/NBTCompound.java:257-259 | in a compound with distinct names every entry is found by its own name |
| NBTCompound.PutEntry | src/main/java/de/pcfreak9000/nbt/NBTCompound.java:42-47 | `put` succeeds exactly for a valid, unused name and appends the entry (insertion order); otherwise the name error or `NameInUse` |
| NBTCompound.PutValid | src/main/java/de/pcfreak9000/nbt/NBTCompound.java:42-47 | a successful put keeps names valid and distinct and makes the new tag findable |
| NBTCompound.PutOthers | src/main/java/de/pcfreak9000/nbt/NBTCompound.java:42-47 | a put leaves every other name's lookup unchanged |
| NBTCompound.FindAppend | src/main/java/de/pcfreak9000/nbt/NBTCompound.java:42-47 | appending an entry does not change lookups of other names |
| NBTCompound.RemoveKey | src/main/java/de/pcfreak9000/nbt/NBTCompound.java:30-32 | after `remove` the name is absent; removing an absent name changes nothing |
| NBTCompound.RemoveOthers | src/main/java/de/pcfreak9000/nbt/NBTCompound.java:30-32 | removing a name leaves every other name's lookup unchanged |
| NBTCompound.RemoveValid | src/main/java/de/pcfreak9000/nbt/NBTCompound.java:30-32 | removal keeps names valid and distinct and invents no entry |
| NBTCompound.ValidNameNotBlank | src/main/java/de/pcfreak9000/nbt/NBTCompound.java:263-271 | a name matching the pattern is neither empty nor blank, so the two checks never disagree |
| NBTCompound.Compound.constructor | src/main/java/de/pcfreak9000/nbt/NBTCompound.java:20-24 | a new compound has no entries |
| NBTCompound.Compound.HasKey | src/main/java/de/pcfreak9000/nbt/NBTCompound.java:26-28 | true exactly when an entry has the name |
| NBTCompound.Compound.Remove | src/main/java/de/pcfreak9000/nbt/NBTCompound.java:30-32 | the name is gone and nothing else changes |
| NBTCompound.Compound.Iterator | src/main/java/de/pcfreak9000/nbt/NBTCompound.java:257-259 | iterates every entry once, each the one its name finds |
| NBTCompound.Compound.Put | src/main/java/de/pcfreak9000/nbt/NBTCompound.java:42-47 | appends the entry exactly when `PutEntry` allows it; otherwise reports its error and leaves the compound unchanged |
| NBTCompound.Compound.PutCompound | src/main/java/de/pcfreak9000/nbt/NBTCompound.java:34-36 | puts a compound under a valid, unused name; otherwise leaves the compound unchanged and reports `PutEntry`'s error: the name error (`IllegalArgumentException`) for an empty, blank or illegal name, `NameInUse` (`IllegalStateException`) for a used one |
| NBTCompound.Compound.PutList | src/main/java/de/pcfreak9000/nbt/NBTCompound.java:38-40 | puts a list under a valid, unused name; otherwise leaves the compound unchanged and reports `PutEntry`'s error: the name error (`IllegalArgumentException`) for an empty, blank or illegal name, `NameInUse` (`IllegalStateException`) for a used one |
| NBTCompound.Compound.PutByte | src/main/java/de/pcfreak9000/nbt/NBTCompound.java:49-53 | puts a byte tag under a valid, unused name; otherwise leaves the compound unchanged and reports `PutEntry`'s error: the name error (`IllegalArgumentException`) for an empty, blank or illegal name, `NameInUse` (`IllegalStateException`) for a used one |
| NBTCompound.Compound.PutShort | src/main/java/de/pcfreak9000/nbt/NBTCompound.java:55-59 | puts a short tag under a valid, unused name; otherwise leaves the compound unchanged and reports `PutEntry`'s error: the name error (`IllegalArgumentException`) for an empty, blank or illegal name, `NameInUse` (`IllegalStateException`) for a used one |
| NBTCompound.Compound.PutInt | src/main/java/de/pcfreak9000/nbt/NBTCompound.java:61-65 | puts an int tag under a valid, unused name; otherwise leaves the compound unchanged and reports `PutEntry`'s error: the name error (`IllegalArgumentException`) for an empty, blank or illegal name, `NameInUse` (`IllegalStateException`) for a used one |
| NBTCompound.Compound.PutLong | src/main/java/de/pcfreak9000/nbt/NBTCompound.java:67-71 | puts a long tag under a valid, unused name; otherwise leaves the compound unchanged and reports `PutEntry`'s error: the name error (`IllegalArgumentException`) for an empty, blank or illegal name, `NameInUse` (`IllegalStateException`) for a used one |
| NBTCompound.Compound.PutFloat | src/main/java/de/pcfreak9000/nbt/NBTCompound.java:73-77 | puts a float tag under a valid, unused name; otherwise leaves the compound unchanged and reports `PutEntry`'s error: the name error (`IllegalArgumentException`) for an empty, blank or illegal name, `NameInUse` (`IllegalStateException`) for a used one |
| NBTCompound.Compound.PutDouble | src/main/java/de/pcfreak9000/nbt/NBTCompound.java:79-83 | puts a double tag under a valid, unused name; otherwise leaves the compound unchanged and reports `PutEntry`'s error: the name error (`IllegalArgumentException`) for an empty, blank or illegal name, `NameInUse` (`IllegalStateException`) for a used one |
| NBTCompound.Compound.PutString | src/main/java/de/pcfreak9000/nbt/NBTCompound.java:85-90 | puts a string tag under a valid, unused name; otherwise leaves the compound unchanged and reports `PutEntry`'s error: the name error (`IllegalArgumentException`) for an empty, blank or illegal name, `NameInUse` (`IllegalStateException`) for a used one |
| NBTCompound.Compound.PutByteArray | src/main/java/de/pcfreak9000/nbt/NBTCompound.java:92-97 | puts a byte array under a valid, unused name; otherwise leaves the compound unchanged and reports `PutEntry`'s error: the name error (`IllegalArgumentException`) for an empty, blank or illegal name, `NameInUse` (`IllegalStateException`) for a used one |
| NBTCompound.Compound.PutIntArray | src/main/java/de/pcfreak9000/nbt/NBTCompound.java:99-104 | puts an int array under a valid, unused name; otherwise leaves the compound unchanged and reports `PutEntry`'s error: the name error (`IllegalArgumentException`) for an empty, blank or illegal name, `NameInUse` (`IllegalStateException`) for a used one |
| NBTCompound.Compound.PutLongArray | src/main/java/de/pcfreak9000/nbt/NBTCompound.java:106-111 | puts a long array under a valid, unused name; otherwise leaves the compound unchanged and reports `PutEntry`'s error: the name error (`IllegalArgumentException`) for an empty, blank or illegal name, `NameInUse` (`IllegalStateException`) for a used one |
| NBTCompound.Compound.Lookup | src/main/java/de/pcfreak9000/nbt/NBTCompound.java:113-120 | every getter first checks the name, then looks it up |
| NBTCompound.Compound.GetNode | src/main/java/de/pcfreak9000/nbt/NBTCompound.java:113-120 | the compound under the name; a missing or non-compound entry is `NotExistOrIncorrectType` |
| NBTCompound.Compound.GetNodeOrDefault | src/main/java/de/pcfreak9000/nbt/NBTCompound.java:122-132 | the compound under the name, the default when the name is absent, an error for an entry of another type |
| NBTCompound.Compound.GetString | src/main/java/de/pcfreak9000/nbt/NBTCompound.java:134-142 | the string under the name, or `NotExistOrIncorrectType` |
| NBTCompound.Compound.GetStringOrDefault | src/main/java/de/pcfreak9000/nbt/NBTCompound.java:144-155 | the string under the name, the default when absent, an error for another type |
| NBTCompound.Compound.GetByte | src/main/java/de/pcfreak9000/nbt/NBTCompound.java:157-165 | the byte under the name, or `NotExistOrIncorrectType` |
| NBTCompound.Compound.GetByteOrDefault | src/main/java/de/pcfreak9000/nbt/NBTCompound.java:167-178 | the byte under the name, the default when absent, an error for another type |
| NBTCompound.Compound.GetInt | src/main/java/de/pcfreak9000/nbt/NBTCompound.java:180-188 | the int under the name, or `NotExistOrIncorrectType` |
| NBTCompound.Compound.GetIntOrDefault | src/main/java/de/pcfreak9000/nbt/NBTCompound.java:190-201 | the int under the name, the default when absent, an error for another type |
| NBTCompound.Compound.GetLong | src/main/java/de/pcfreak9000/nbt/NBTCompound.java:203-211 | the long under the name, or `NotExistOrIncorrectType` |
| NBTCompound.Compound.GetLongOrDefault | src/main/java/de/pcfreak9000/nbt/NBTCompound.java:213-225 | the long under the name, the default when absent, an error for another type |
| NBTCompound.Compound.GetByteArray | src/main/java/de/pcfreak9000/nbt/NBTCompound.java:227-235 | the byte array under the name, or `NotExistOrIncorrectType` |
| NBTCompound.Compound.GetIntArray | src/main/java/de/pcfreak9000/nbt/NBTCompound.java:237-245 | the int array under the name, or `NotExistOrIncorrectType` |
| NBTCompound.Compound.GetLongArray | src/main/java/de/pcfreak9000/nbt/NBTCompound.java:247-255 | the long array under the name, or `NotExistOrIncorrectType` |
| ContextStackEvaluator.Advance | src/main/java/nbt/util/ContextStackEvaluator.java:27-43 | a Flat context is replaced by its successor or popped; a Recursive one stays below its successor or is popped when it has none; nothing below the top changes |
| ContextStackEvaluator.PendingPush | src/main/java/nbt/util/ContextStackEvaluator.java:21-45 | the calls still owed by a stack are the top's, then those of the rest |
| ContextStackEvaluator.StepPending | src/main/java/nbt/util/ContextStackEvaluator.java:24-44 | one evaluation step makes its calls and leaves exactly the remaining owed calls on the stack |
| ContextStackEvaluator.Evaluate | src/main/java/nbt/util/ContextStackEvaluator.java:21-45 | the explicit-stack loop makes exactly the calls of the recursive traversal from the start context |
| TagReader.LengthOf | src/main/java/de/pcfreak9000/nbt/TagReader.java:125 | `size()` of a list is its element count whenever that fits an int |
| TagReader.Walk | src/main/java/de/pcfreak9000/nbt/TagReader.java:102-130 | the visitor calls a tree makes (compound: entries then End; list: type, length, elements, End; leaves: `accept`), never empty |
| TagReader.WalkSmartContent | src/main/java/de/pcfreak9000/nbt/TagReader.java:121-126 | walking a smart list's content makes the smart entries' narrowed calls |
| TagReader.WalkNormalize | src/main/java/de/pcfreak9000/nbt/TagReader.java:102-130 | a tree and its normalized form make the same calls |
| TagReader.WalkComplete | src/main/java/de/pcfreak9000/nbt/TagReader.java:34-40 | every tree's walk is a complete conversation with one value visitor |
| TagReader.HeaderRun | src/main/java/de/pcfreak9000/nbt/TagReader.java:121-126 | the list header calls turn the value visitor into a list visitor |
| TagReader.WalkEntriesRun | src/main/java/de/pcfreak9000/nbt/TagReader.java:51-59 | the entries' calls leave the compound visitor in place |
| TagReader.WalkElemsRun | src/main/java/de/pcfreak9000/nbt/TagReader.java:77-84 | the elements' calls leave the list visitor in place |
| TagReader.WalkSmartRun | src/main/java/de/pcfreak9000/nbt/TagReader.java:77-84 | a smart list's element calls leave the list visitor in place |
| TagReader.EvaluateContext | src/main/java/de/pcfreak9000/nbt/TagReader.java:51-130 | each context's `evaluate` makes its first calls and hands over the successor that owes the rest |
| TagReader.ApplyVisitor | src/main/java/de/pcfreak9000/nbt/TagReader.java:34-40 | `applyVisitor` delivers exactly the walk of the tree |
| Decoding.ReadBytes | src/main/java/de/pcfreak9000/nbt/NbtReader.java:78 | `readFully(k)` takes the next `k` bytes or fails with EOF |
| Decoding.ReadSigned | src/main/java/de/pcfreak9000/nbt/NbtReader.java:99-110 | a signed big-endian read: in range, consumes `n` bytes, EOF when short |
| Decoding.ReadUnsigned | src/main/java/de/pcfreak9000/nbt/NbtReader.java:111-116 | an unsigned read (float/double bits, string length): below `256^n`, consumes `n` bytes |
| Decoding.Lookup | src/main/java/nbt/NBTType.java:14-17 | the snapshot's type table: ids 0..12 now, 0..10 in the legacy package |
| Decoding.ReadType | src/main/java/de/pcfreak9000/nbt/NbtReader.java:66-73 | reads one signed byte; fails with `Unknown type` exactly when the table has no type with that id |
| Decoding.ReadString | src/main/java/de/pcfreak9000/nbt/NbtReader.java:75-80 | a string is a 2-byte length then that many bytes |
| Decoding.ReadArrayLength | src/main/java/de/pcfreak9000/nbt/NbtReader.java:121-128 | an array length is accepted exactly when it is in `0..0x7FFFFFF7` |
| Decoding.ReadValues | src/main/java/de/pcfreak9000/nbt/NbtReader.java:130-150 | reads `count` elements of `n` bytes, failing exactly when the input is too short |
| Decoding.ReadLeaf | src/main/java/de/pcfreak9000/nbt/NbtReader.java:96-171 | one value call per leaf type: End reads nothing, and the legacy reader refuses the array types |
| Decoding.ReadListHeader | src/main/java/de/pcfreak9000/nbt/NbtReader.java:172-181 | element type and length; an End list with positive length is refused |
| Decoding.DecodeValue | src/main/java/de/pcfreak9000/nbt/NbtReader.java:92-186 | the recursive decoder: the calls delivered, the unread input (never longer than the input) and any error |
| Decoding.DecodeEntries | src/main/java/de/pcfreak9000/nbt/NbtReader.java:229-236 | a compound's entries up to the End type byte |
| Decoding.DecodeElems | src/main/java/de/pcfreak9000/nbt/NbtReader.java:206-212 | `left` elements, then `visitEnd` (a zero or negative count gives only `visitEnd`) |
| Decoding.ReadHeader | src/main/java/de/pcfreak9000/nbt/NbtReader.java:30-34 | the root type, then a name unless the type is End |
| Decoding.ListStepSplits | src/main/java/de/pcfreak9000/nbt/NbtReader.java:206-212 | a list context with elements left makes `visitValue` and owes one element and one fewer |
| Decoding.CompoundEntrySplits | src/main/java/de/pcfreak9000/nbt/NbtReader.java:229-236 | a compound context reading an entry makes `visitValue(name)` and owes the entry's value |
| Decoding.CompoundEndSplits | src/main/java/de/pcfreak9000/nbt/NbtReader.java:229-233 | an End type byte ends the compound |
| Decoding.OccurrencesAppend | src/main/java/de/pcfreak9000/nbt/NbtReader.java:206-212 | counting a call in a concatenation adds the counts |
| Decoding.LeafElemsCalls | src/main/java/de/pcfreak9000/nbt/NbtReader.java:206-212 | a decoded list of leaves makes exactly `max(len, 0)` `visitValue` calls and `2·max(len, 0) + 1` calls in all, ending with `visitEnd` (the `getAndDecrement` countdown) |
| NbtReader.ToTagOf | src/main/java/de/pcfreak9000/nbt/NbtReader.java:60-64 | `toTag` succeeds exactly when decoding and building both succeed, and returns the built tree |
| NbtReader.ToCompoundOf | src/main/java/de/pcfreak9000/nbt/NbtReader.java:52-58 | `toCompoundTag` returns the tree when it is a compound, else `Unexpected type` |
| NbtReader.Reader.Init | src/main/java/de/pcfreak9000/nbt/NbtReader.java:30-34 | the cursor starts at the beginning of the input |
| NbtReader.Reader.Open | src/main/java/de/pcfreak9000/nbt/NbtReader.java:30-34 | the constructor reads the header: it fails exactly as `ReadHeader`, else records the root type and name and leaves the cursor at the body |
| NbtReader.Reader.GetName | src/main/java/de/pcfreak9000/nbt/NbtReader.java:45-50 | the root name, or `NoSuchElementException` for an End root |
| NbtReader.Reader.NextType | src/main/java/de/pcfreak9000/nbt/NbtReader.java:66-73 | advances the cursor as `ReadType` does |
| NbtReader.Reader.NextString | src/main/java/de/pcfreak9000/nbt/NbtReader.java:75-80 | advances the cursor as `ReadString` does |
| NbtReader.Reader.NextChunked | src/main/java/de/pcfreak9000/nbt/NbtReader.java:133-145 | the buffered chunk loop fills the array with exactly the element-wise decoding |
| NbtReader.Reader.NextChunk | src/main/java/de/pcfreak9000/nbt/NbtReader.java:139-143 | one `readFully` of a chunk and its copy into the array: it fails exactly when the stream is too short for the elements filled so far and this chunk, else the filled prefix is the element-wise decoding extended by the chunk |
| NbtReader.Reader.NextLeaf | src/main/java/de/pcfreak9000/nbt/NbtReader.java:96-171 | reads one leaf value as `ReadLeaf` does |
| NbtReader.Reader.Evaluate | src/main/java/de/pcfreak9000/nbt/NbtReader.java:92-236 | each context's `evaluate` against the stream makes its calls and leaves the successor that owes the rest, or fails as the decoder does |
| NbtReader.Reader.ApplyVisitor | src/main/java/de/pcfreak9000/nbt/NbtReader.java:36-38 | the calls, the error and the stream position are exactly those of the recursive decoder |
| NbtReader.Reader.ToTag | src/main/java/de/pcfreak9000/nbt/NbtReader.java:60-64 | the tree built from the decoded calls |
| NbtReader.Reader.ToCompoundTag | src/main/java/de/pcfreak9000/nbt/NbtReader.java:52-58 | that tree when it is a compound |
| TagWriter.BuildRunProtocol | src/main/java/de/pcfreak9000/nbt/TagWriter.java:49-68 | a trace the builder accepts follows the visitor protocol, and the builder's frames are the visitors' roles |
| TagWriter.BuildStepProtocol | src/main/java/de/pcfreak9000/nbt/TagWriter.java:117-171 | one builder step follows the protocol; a call with no receiving visitor is refused |
| TagWriter.AcceptOfLeafOf | src/main/java/de/pcfreak9000/nbt/TagWriter.java:34-108 | the tag a value call sets makes that same call when visited |
| TagWriter.LeafOfAccept | src/main/java/de/pcfreak9000/nbt/TagWriter.java:34-108 | visiting a leaf and building from the call gives the leaf (normalized) |
| TagWriter.BuildWalk | src/main/java/de/pcfreak9000/nbt/TagWriter.java:117-171 | building from a tree's walk sets the normalized tree into the slot |
| TagWriter.BuildOfWalk | src/main/java/de/pcfreak9000/nbt/TagWriter.java:26-28 | a fresh `TagWriter` fed the walk of a buildable tree returns the normalized tree |
| TagWriter.RepeatedOrInvalidKeyRefused | src/main/java/de/pcfreak9000/nbt/TagWriter.java:117-125 | an entry with an invalid or repeated name makes the build fail with the compound's name error |
| TagWriter.WrongElementRefused | src/main/java/de/pcfreak9000/nbt/TagWriter.java:155-163 | an element of the wrong type makes the build fail with the list's `IllegalType` |
| TagWriter.SizeMismatchRefused | src/main/java/de/pcfreak9000/nbt/TagWriter.java:165-171 | `List size changed` when the element count differs from the announced length |
| TagWriter.SecondTypeRefused | src/main/java/de/pcfreak9000/nbt/TagWriter.java:142-148 | a second `visitType` fails with `Found a second type` |
| TagWriter.Writer.constructor | src/main/java/de/pcfreak9000/nbt/TagWriter.java:18-28 | a new writer has one value frame and no tree |
| TagWriter.Writer.Visit | src/main/java/de/pcfreak9000/nbt/TagWriter.java:34-171 | each call updates the frames and the tree as the builder step says, or reports its error and changes nothing |
| TagWriter.BuildAll | src/main/java/de/pcfreak9000/nbt/TagWriter.java:26-28 | feeding a whole trace to a new writer gives the builder's result |
| Decorators.Roles | src/main/java/nbt/visitor/AbstractNBTListVisitor.java:5-43 | one protocol role per decorator frame |
| Decorators.PassStep | src/main/java/de/pcfreak9000/nbt/visitor/AbstractNBTValueVisitor.java:16-108 | a decorator accepts exactly the calls the protocol allows, forwards the call when it has a parent and drops it otherwise, and children inherit the forwarding |
| Decorators.PassRunForwards | src/main/java/nbt/visitor/AbstractNBTCompoundVisitor.java:12-25 | a chain of decorators with a parent forwards the whole conversation unchanged; without one it forwards nothing |
| Decorators.PassThroughValue | src/main/java/de/pcfreak9000/nbt/visitor/AbstractNBTValueVisitor.java:11-13 | a value decorator passes a complete conversation to its parent, or swallows it when the parent is null |
| WriterHelper.PerformSpec | src/main/java/nbt/util/AbstractWriterHelper.java:21-29 | an action succeeds exactly when its output fits and then appends all of it; a failed one leaves a prefix and the failure at that offset |
| WriterHelper.PerformAppend | src/main/java/nbt/util/AbstractWriterHelper.java:21-29 | an action's writes run in order, stopping at the first failure |
| WriterHelper.RunTwice | src/main/java/nbt/util/AbstractWriterHelper.java:21-29 | two `run` calls are one `run` of both actions: the second is skipped after a failure |
| WriterHelper.RunFromFresh | src/main/java/nbt/util/AbstractWriterHelper.java:21-29 | on a fresh stream, fitting output is written whole; otherwise a strict prefix and one recorded failure |
| WriterHelper.RunKeepsFirstFailure | src/main/java/nbt/util/AbstractWriterHelper.java:21-29 | through `run`, at most one exception is recorded and a recorded one stays first |
| WriterHelper.Sink.constructor | src/main/java/nbt/util/AbstractWriterHelper.java:16-19 | an empty stream and an empty exception list |
| WriterHelper.Sink.Run | src/main/java/nbt/util/AbstractWriterHelper.java:21-29 | the write loop leaves the stream and exception list that `run(action)` specifies |
| WriterHelper.Sink.RecordFirst | src/main/java/de/pcfreak9000/nbt/StringNbtWriter.java:80-84 | records the exception only when none is recorded, leaving the output alone |
| WriterHelper.Sink.Close | src/main/java/de/pcfreak9000/nbt/NbtWriter.java:52-73 | adds a failing close to the list, then throws the first exception with the rest suppressed |
| WriterHelper.CloseAfterRuns | src/main/java/de/pcfreak9000/nbt/NbtWriter.java:52-73 | after `run` alone, `close` throws the first write failure (a close failure suppressed), else the close failure, else nothing |
| NbtWriter.EncodeRunAppend | src/main/java/de/pcfreak9000/nbt/NbtWriter.java:75-269 | a trace in two parts is encoded one part after the other |
| NbtWriter.EncodeRunProtocol | src/main/java/de/pcfreak9000/nbt/NbtWriter.java:75-269 | the writer accepts exactly the protocol's traces, its frames are the visitors' roles, and output only grows |
| NbtWriter.EncodeStepProtocol | src/main/java/de/pcfreak9000/nbt/NbtWriter.java:99-266 | one writer step is defined exactly when the protocol has a receiver for the call |
| NbtWriter.HeadTypeOf | src/main/java/de/pcfreak9000/nbt/NbtWriter.java:90-97 | the type byte written for a tree is its type |
| NbtWriter.EncodeWalk | src/main/java/de/pcfreak9000/nbt/NbtWriter.java:75-269 | writing a tree's walk under a name appends exactly its named bytes and pops the value writer |
| NbtWriter.EncodeCompound | src/main/java/de/pcfreak9000/nbt/NbtWriter.java:100-103 | a compound is its prefix, its named entries and a 0 byte |
| NbtWriter.CompoundClose | src/main/java/de/pcfreak9000/nbt/NbtWriter.java:265-267 | a compound's `visitEnd` writes the End id 0 |
| NbtWriter.EncodeList | src/main/java/de/pcfreak9000/nbt/NbtWriter.java:153-156 | a list is its prefix, type byte, 4-byte length and unnamed elements |
| NbtWriter.ListEnd | src/main/java/de/pcfreak9000/nbt/NbtWriter.java:247-250 | a list's `visitEnd` writes nothing |
| NbtWriter.EncodeSmartList | src/main/java/de/pcfreak9000/nbt/NbtWriter.java:153-156 | a smart list is written as a list of its entries' narrowed values |
| NbtWriter.EncodeLeaf | src/main/java/de/pcfreak9000/nbt/NbtWriter.java:105-150 | a leaf writes the prefix (type, then name unless End) and its payload, floats and doubles as `floatToIntBits`/`doubleToLongBits` |
| NbtWriter.EncodeHeader | src/main/java/de/pcfreak9000/nbt/NbtWriter.java:222-238 | the list header calls write the prefix, the type byte and the length |
| NbtWriter.ListCall | src/main/java/de/pcfreak9000/nbt/NbtWriter.java:222-238 | `visitType` writes the id byte, `visitLength` the 4-byte length |
| NbtWriter.EncodeEntries | src/main/java/de/pcfreak9000/nbt/NbtWriter.java:260-262 | each entry is written with its key as name |
| NbtWriter.EncodeElems | src/main/java/de/pcfreak9000/nbt/NbtWriter.java:241-244 | each element is written without a prefix |
| NbtWriter.EncodeSmart | src/main/java/de/pcfreak9000/nbt/NbtWriter.java:241-244 | the smart entries are written as their narrowed values |
| NbtWriter.Writer.Named | src/main/java/de/pcfreak9000/nbt/NbtWriter.java:29-44 | a writer with the given root name, or with no name (`null`), which writes no prefix, and an empty stream |
| NbtWriter.Writer.constructor | src/main/java/de/pcfreak9000/nbt/NbtWriter.java:31-33 | the root name defaults to the empty string |
| NbtWriter.Writer.Visit | src/main/java/de/pcfreak9000/nbt/NbtWriter.java:99-266 | a call with a receiver updates the frames and runs its writes through `run`; any other call changes nothing |
| NbtWriter.Writer.Close | src/main/java/de/pcfreak9000/nbt/NbtWriter.java:52-73 | the shared close behaviour of the sink |
| NbtWriter.WriteTrace | src/main/java/de/pcfreak9000/nbt/NbtWriter.java:29-73 | writing a trace then closing, for a named or a `null` root name: a fitting encoding is written whole, otherwise a strict prefix and the write failure are thrown at close |
| NbtWriter.WriteArray | src/main/java/de/pcfreak9000/nbt/NbtWriter.java:159-207 | an array call writes the prefix, the length and the chunked elements |
| NbtWriter.Chunked | src/main/java/de/pcfreak9000/nbt/NbtWriter.java:166-171 | the buffer loop makes exactly the chunk writes |
| NbtWriter.ChunkWritesSpec | src/main/java/de/pcfreak9000/nbt/NbtWriter.java:166-171 | the chunks together are the elements' encoding, each non-empty and within the buffer |
| NbtWriter.ChunksFitBuffer | src/main/java/de/pcfreak9000/nbt/NbtWriter.java:24 | a full chunk of `8192 / n` elements fills the 8192-byte buffer exactly |
| StringEntry.FirstQuote | src/main/java/de/pcfreak9000/nbt/NBTTag.java:211-235 | the first quote character in the string, or none when it has none |
| StringEntry.ChosenQuote | src/main/java/de/pcfreak9000/nbt/NBTTag.java:211-235 | double quotes unless the first quote in the string is a double quote |
| StringEntry.Escape | src/main/java/de/pcfreak9000/nbt/NBTTag.java:211-235 | the escaped text is wrapped in the chosen quote |
| StringEntry.EscapeBodyLength | src/main/java/de/pcfreak9000/nbt/NBTTag.java:211-235 | one backslash is added per backslash and per chosen quote |
| StringEntry.UnescapeOfEscapeBody | src/main/java/de/pcfreak9000/nbt/NBTTag.java:211-235 | removing the escapes gives the string back |
| StringEntry.EscapeRoundTrip | src/main/java/de/pcfreak9000/nbt/NBTTag.java:211-235 | `escape` is lossless: the text between the quotes unescapes to the string |
| StringEntry.EscapeString | src/main/java/de/pcfreak9000/nbt/NBTTag.java:211-235 | the single-pass loop computes the escaped text |
| StringNbtWriter.TextStepProtocol | src/main/java/de/pcfreak9000/nbt/StringNbtWriter.java:63-195 | a text writer step is defined exactly when the protocol has a receiver (and, in the legacy package, the call is not an array) |
| StringNbtWriter.TextWalk | src/main/java/de/pcfreak9000/nbt/StringNbtWriter.java:63-195 | writing a tree's walk appends exactly its SNBT text |
| StringNbtWriter.LegacyRunAgrees | src/main/java/nbt/StringNbtWriter.java:153-179 | the legacy compound writer's `notFirst` flag and the current `first` flag produce the same text on any trace without arrays |
| StringNbtWriter.LegacyFreshAgrees | src/main/java/nbt/StringNbtWriter.java:18-180 | from a fresh writer, both packages accept the same array-free traces and write the same text and exceptions |
| StringNbtWriter.IntegerTextBack | src/main/java/de/pcfreak9000/nbt/StringNbtWriter.java:75-104 | an integer's text with its `b`/`s`/`l` suffix reads back as the same call |
| StringNbtWriter.KeyTextBack | src/main/java/de/pcfreak9000/nbt/StringNbtWriter.java:171-189 | keys matching the simple-key pattern are written bare, others quoted and escaped, and unescape back |
| StringNbtWriter.ArrayTextBack | src/main/java/de/pcfreak9000/nbt/StringNbtWriter.java:122-134 | `[B;`, `[I;`, `[L;` followed by the elements, which parse back |
| StringNbtWriter.TextWriter.constructor | src/main/java/de/pcfreak9000/nbt/StringNbtWriter.java:24-32 | one value writer over an empty stream |
| StringNbtWriter.TextWriter.Visit | src/main/java/de/pcfreak9000/nbt/StringNbtWriter.java:63-195 | each call updates the writer as the text step says, or changes nothing when no visitor receives it |
| StringNbtWriter.TextWriter.VisitOnValue | src/main/java/de/pcfreak9000/nbt/StringNbtWriter.java:63-136 | the value writer's calls, including `visitEnd` recording an error when none is recorded |
| StringNbtWriter.TextWriter.VisitOnList | src/main/java/de/pcfreak9000/nbt/StringNbtWriter.java:138-167 | the list writer: `[` or `,` before an element, `]` at the end |
| StringNbtWriter.TextWriter.VisitOnCompound | src/main/java/de/pcfreak9000/nbt/StringNbtWriter.java:169-195 | the compound writer: `{` or `,`, the key and `:` before a value, `}` at the end |
| StringNbtWriter.TextWriter.VisitOnLegacyCompound | src/main/java/nbt/StringNbtWriter.java:153-179 | the legacy compound writer with its `notFirst` flag |
| StringNbtWriter.TextWriter.ValueString | src/main/java/de/pcfreak9000/nbt/StringNbtWriter.java:70-134 | the text of a value call |
| StringNbtWriter.TextWriter.Close | src/main/java/de/pcfreak9000/nbt/StringNbtWriter.java:40-61 | the shared close behaviour of the sink |
| StringNbtWriter.KeyString | src/main/java/de/pcfreak9000/nbt/StringNbtWriter.java:180-189 | the key text: bare when simple, else escaped |
| StringNbtWriter.WriteTrace | src/main/java/de/pcfreak9000/nbt/StringNbtWriter.java:24-61 | writing a trace then closing gives the text-run output and throws as `close` specifies |
| StringNbtWriter.WriteTree | src/main/java/de/pcfreak9000/nbt/StringNbtWriter.java:24-61 | writing an End-free tree that fits gives exactly its SNBT text and no write exception |
| RoundTrip.StringBack | src/main/java/de/pcfreak9000/nbt/NbtReader.java:75-80 | a string written by `writeString` reads back unchanged |
| RoundTrip.ArrayBack | src/main/java/de/pcfreak9000/nbt/NbtReader.java:120-171 | an array written in chunks reads back: the length, then the elements |
| RoundTrip.LeafBack | src/main/java/de/pcfreak9000/nbt/NbtReader.java:96-171 | every readable leaf call written by the writer, floats and doubles with canonical NaN bits, reads back as the same call |
| RoundTrip.HeaderBack | src/main/java/de/pcfreak9000/nbt/NbtReader.java:30-34 | the root prefix reads back as the root type and name |
| RoundTrip.DecodePayload | src/main/java/de/pcfreak9000/nbt/NbtReader.java:92-236 | decoding the payload of a well-formed tree (within the limits, no NaN but the canonical ones) delivers its walk and stops right after it |
| RoundTrip.WriteRoot | src/main/java/de/pcfreak9000/nbt/NbtWriter.java:29-44 | the writer emits exactly the root's named bytes; with a `null` name, the payload alone, without type byte or name |
| RoundTrip.EndEntryEndsCompound | src/main/java/de/pcfreak9000/nbt/NbtReader.java:229-236 | a compound whose first entry holds an End value is accepted by the builder, written with a bare 0 for that entry, and read back as an empty compound with the later entries' bytes left unread |
| RoundTrip.ReadRoot | src/main/java/de/pcfreak9000/nbt/NbtReader.java:30-38 | the reader finds the header and decodes the walk from those bytes |
| RoundTrip.PayloadCanonical | src/main/java/de/pcfreak9000/nbt/NbtWriter.java:141-150 | a tree and its canonical-NaN form have the same prefix type and payload bytes: the writer cannot tell them apart |
| RoundTrip.CanonicalWellFormed | src/main/java/de/pcfreak9000/nbt/NbtWriter.java:141-150 | the canonical-NaN form of a tree within the limits is one the writer and reader carry unchanged |
| RoundTrip.CanonicalOfExact | src/main/java/de/pcfreak9000/nbt/NbtWriter.java:141-150 | a tree whose NaNs are already canonical is its own canonical form |
| RoundTrip.WriteThenRead | src/main/java/de/pcfreak9000/nbt/NbtReader.java:60-64 | writing any tree within the limits and reading it with `toTag` gives the normalized tree with canonical NaNs, and exactly the normalized tree when its NaNs are already canonical |

## Left out

- Stream plumbing: `flush`, GZIP compression, the file helpers of `TagReader` and the test
  visitors are not modelled. Output is a sequence with a capacity. Input is a byte sequence.
- Floating point: float and double values are 32- and 64-bit payloads; only the NaN test and
  the NaN canonicalisation of `writeFloat`/`writeDouble` look inside them. The text writer's
  `Float.toString`/`Double.toString` come in as a `FloatFormat` parameter, so the text of
  floating-point values is not derived.
- Utf8.Decode: malformed input becomes U+FFFD one byte at a time. The JDK replaces maximal
  ill-formed subsequences, so the two can differ on malformed input. Well-formed input, the
  only kind the writer produces, is decoded exactly.
- NBTCompound.MatchesNameRegex: the name regex and `isBlank` are written as character
  predicates over ASCII word characters and the JDK whitespace set. The regex engine is not
  modelled.
- Aliasing of nested containers: a compound or list holds value snapshots of its children, so
  mutating a child after inserting it is not reflected in the parent.
- WriterHelper.Sink.Run: a single write either fits whole or fails without writing. A stream
  that writes part of a buffer before failing is not modelled.
- NbtWriter.Chunked: the chunk buffer's reuse (`rewind`) is not modelled; each chunk is a fresh
  sequence.
- TagReader.ApplyVisitor: `NBTTag.accept`'s delegation from the base class into `TagReader` is
  folded into the walk.
- RoundTrip.WriteThenRead: covers the current snapshot and trees within the limits only. Names must
  be valid and distinct, lists homogeneous and not of End, strings at most 65535 UTF-8 bytes,
  and arrays at most `0x7FFFFFF7` long. Compounds must hold no End value: one is written as a
  bare 0, which the reader takes for the end of the compound, so the entries after it are lost
  (`RoundTrip.EndEntryEndsCompound`).
- StringNbtWriter.WriteTree: requires that the whole text fits the stream's capacity and that
  the tree holds no End tag. The failure paths are stated by `StringNbtWriter.WriteTrace`.
- Decoding.LeafElemsCalls: counts calls only for lists of non-container element types.
- NBTList.NbtList.Empty: requires a non-End type. The End case, which throws, is
  `NBTList.NbtList.Create`.
- NbtReader.Reader.NextChunked: the buffer array is an explicit sequence. The Java
  `IntBuffer`/`LongBuffer` views are not modelled.
- ImmutableArrays: the Java `ImmutableBytes`, `ImmutableInts` and `ImmutableLongs` constructors
  keep the caller's array without copying it, so a later write to that array shows through the
  "immutable" view. The model's arrays are values and cannot show this aliasing.
- Utf8.Encode: a Java `String` can hold a lone surrogate, which `getBytes(UTF_8)` writes as `?`.
  Dafny strings hold Unicode scalar values only, so strings with lone surrogates are not
  modelled.
- Console output: the legacy reader's `System.out.println("comp end")` when a compound ends
  (`nbt/NbtReader.java:175`) is not modelled.
- Concurrency: the `AtomicInteger` countdown in the reader's list context is a plain integer,
  since the reader is single-threaded.
