/**
 * The read-only array views handed to visitors (`ImmutableBytes`, `ImmutableInts`,
 * `ImmutableLongs`) and what they share through `AbstractImmutableArray`: a joined
 * `toString` and an index iterator. Each view holds its elements as a value, so no
 * operation can write to them; copies are fresh arrays.
 */
module ImmutableArrays {
  import opened Wrappers
  import opened Binary
  import ArrayUtil

  datatype ArrayError =
    | IndexOutOfBounds(index: int)        // ArrayIndexOutOfBoundsException
    | IllegalArgument(from: int, to: int) // Arrays.copyOfRange with from > to

  function Min(a: int, b: int): int
  {
    if a < b then a else b
  }

  /**
   * `Arrays.copyOfRange(elems, offset, offset + length)`: the elements from `offset` on,
   * padded with zeros when the range runs past the end.
   */
  function CopyOfRange(elems: seq<int>, offset: int, length: int): (r: Result<seq<int>, ArrayError>)
    ensures r.Success? <==> length >= 0 && 0 <= offset <= |elems|
    ensures r.Success? ==> |r.value| == length
    ensures r.Success? ==> forall k :: 0 <= k < length ==>
      r.value[k] == if offset + k < |elems| then elems[offset + k] else 0
  {
    if length < 0 then Failure(IllegalArgument(offset, offset + length))
    else if offset < 0 || offset > |elems| then Failure(IndexOutOfBounds(offset))
    else
      var kept := elems[offset..Min(offset + length, |elems|)];
      Success(kept + seq(length - |kept|, _ => 0))
  }

  /** Element `index`, or the exception for an index outside the array. */
  function At(elems: seq<int>, index: int): (r: Result<int, ArrayError>)
    ensures r.Success? <==> 0 <= index < |elems|
    ensures r.Success? ==> r.value == elems[index]
  {
    if 0 <= index < |elems| then Success(elems[index]) else Failure(IndexOutOfBounds(index))
  }

  datatype ImmutableBytes = ImmutableBytes(bytes: seq<Int8>)
  {
    function Size(): nat { |bytes| }

    function Get(index: int): (r: Result<Int8, ArrayError>)
      ensures r.Success? <==> 0 <= index < Size()
      ensures r.Success? ==> r.value == bytes[index]
    {
      match At(bytes, index)
      case Success(b) => Success(b)
      case Failure(e) => Failure(e)
    }

    function ArrayCopyOfRange(offset: int, length: int): (r: Result<seq<Int8>, ArrayError>)
      ensures r.Success? <==> length >= 0 && 0 <= offset <= Size()
      ensures r.Success? ==> |r.value| == length
      ensures r.Success? ==> forall k :: 0 <= k < length && offset + k < Size() ==> r.value[k] == bytes[offset + k]
      ensures r.Success? ==> forall k :: 0 <= k < length && offset + k >= Size() ==> r.value[k] == 0
      ensures r.Failure? ==> r.error == CopyOfRange(bytes, offset, length).error
    {
      match CopyOfRange(bytes, offset, length)
      case Success(c) =>
        assert forall k :: 0 <= k < |c| ==> -0x80 <= c[k] < 0x80;
        Success(c)
      case Failure(e) => Failure(e)
    }

    /** `Arrays.copyOf(bytes, size())`: a new array; writing to it cannot reach `bytes`. */
    method ArrayCopy() returns (a: array<Int8>)
      ensures fresh(a) && a[..] == bytes
    {
      a := new Int8[|bytes|](i requires 0 <= i < |bytes| => bytes[i]);
    }
  }

  datatype ImmutableInts = ImmutableInts(ints: seq<Int32>)
  {
    function Size(): nat { |ints| }

    function Get(index: int): (r: Result<Int32, ArrayError>)
      ensures r.Success? <==> 0 <= index < Size()
      ensures r.Success? ==> r.value == ints[index]
    {
      match At(ints, index)
      case Success(b) => Success(b)
      case Failure(e) => Failure(e)
    }

    function ArrayCopyOfRange(offset: int, length: int): (r: Result<seq<Int32>, ArrayError>)
      ensures r.Success? <==> length >= 0 && 0 <= offset <= Size()
      ensures r.Success? ==> |r.value| == length
      ensures r.Success? ==> forall k :: 0 <= k < length && offset + k < Size() ==> r.value[k] == ints[offset + k]
      ensures r.Success? ==> forall k :: 0 <= k < length && offset + k >= Size() ==> r.value[k] == 0
      ensures r.Failure? ==> r.error == CopyOfRange(ints, offset, length).error
    {
      match CopyOfRange(ints, offset, length)
      case Success(c) =>
        assert forall k :: 0 <= k < |c| ==> -0x8000_0000 <= c[k] < 0x8000_0000;
        Success(c)
      case Failure(e) => Failure(e)
    }

    method ArrayCopy() returns (a: array<Int32>)
      ensures fresh(a) && a[..] == ints
    {
      a := new Int32[|ints|](i requires 0 <= i < |ints| => ints[i]);
    }
  }

  datatype ImmutableLongs = ImmutableLongs(longs: seq<Int64>)
  {
    function Size(): nat { |longs| }

    function Get(index: int): (r: Result<Int64, ArrayError>)
      ensures r.Success? <==> 0 <= index < Size()
      ensures r.Success? ==> r.value == longs[index]
    {
      match At(longs, index)
      case Success(b) => Success(b)
      case Failure(e) => Failure(e)
    }

    function ArrayCopyOfRange(offset: int, length: int): (r: Result<seq<Int64>, ArrayError>)
      ensures r.Success? <==> length >= 0 && 0 <= offset <= Size()
      ensures r.Success? ==> |r.value| == length
      ensures r.Success? ==> forall k :: 0 <= k < length && offset + k < Size() ==> r.value[k] == longs[offset + k]
      ensures r.Success? ==> forall k :: 0 <= k < length && offset + k >= Size() ==> r.value[k] == 0
      ensures r.Failure? ==> r.error == CopyOfRange(longs, offset, length).error
    {
      match CopyOfRange(longs, offset, length)
      case Success(c) =>
        assert forall k :: 0 <= k < |c| ==> -0x8000_0000_0000_0000 <= c[k] < 0x8000_0000_0000_0000;
        Success(c)
      case Failure(e) => Failure(e)
    }

    method ArrayCopy() returns (a: array<Int64>)
      ensures fresh(a) && a[..] == longs
    {
      a := new Int64[|longs|](i requires 0 <= i < |longs| => longs[i]);
    }
  }

  // AbstractImmutableArray, over the boxed elements getBoxed(0) .. getBoxed(size() - 1).

  /** `toString(prefix, delimiter, suffix)`. */
  method ToString(boxed: seq<int>, prefix: string, delimiter: string, suffix: string) returns (r: string)
    ensures r == ArrayUtil.Joined(prefix, delimiter, suffix, ArrayUtil.RenderAll(boxed))
  {
    r := ArrayUtil.Join(boxed, prefix, delimiter, suffix);
  }

  /** `toString()`, which reads back as the elements. */
  method ToDefaultString(boxed: seq<int>) returns (r: string)
    ensures ArrayUtil.ParseBracketed(r) == Some(boxed)
    ensures r == ArrayUtil.Joined("[", ",", "]", ArrayUtil.RenderAll(boxed))
  {
    r := ToString(boxed, "[", ",", "]");
    ArrayUtil.ParseBracketedOfJoined(boxed);
  }

  /** The anonymous iterator of `iterator()`: an index into the boxed elements. */
  class ArrayIterator {
    const elems: seq<int>
    var index: nat

    constructor (elems: seq<int>)
      ensures this.elems == elems && index == 0
    {
      this.elems := elems;
      index := 0;
    }

    /** `hasNext()`: false exactly once `index` has reached `size()`. */
    predicate HasNext()
      reads this
    {
      index < |elems|
    }

    /** `next()`: `getBoxed(index++)`; the index advances even when the read throws. */
    method Next() returns (r: Result<int, ArrayError>)
      modifies this
      ensures index == old(index) + 1
      ensures r == At(elems, old(index))
    {
      r := At(elems, index);
      index := index + 1;
    }
  }

  /** A for-each loop over the view: it sees exactly the elements, in index order. */
  method ForEach(boxed: seq<int>) returns (seen: seq<int>)
    ensures seen == boxed
  {
    var it := new ArrayIterator(boxed);
    seen := [];
    while it.HasNext()
      invariant it.elems == boxed && it.index <= |boxed|
      invariant seen == boxed[..it.index]
      decreases |boxed| - it.index
    {
      var x := it.Next();
      seen := seen + [x.value];
    }
  }
}
