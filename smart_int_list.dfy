/**
 * `NBTSmartIntList`: a list of longs whose entry type starts at Byte and is widened by every add
 * to the narrowest integer type that still holds every element. Its elements are smart entries,
 * which read the list's width when they are visited.
 */
module NBTSmartIntList {
  import opened Wrappers
  import opened Binary
  import opened NBTType
  import opened Tags
  import opened SmartIntEntry
  import NBTList

  /** The width a smart list has after the values were added to a new list, in order. */
  function WidthFor(values: seq<Int64>): (w: Type)
    ensures IsWidth(w)
  {
    if values == [] then Byte else AccomodateFor(WidthFor(values[..|values| - 1]), values[|values| - 1])
  }

  /** Every stored value fits the list's width. */
  lemma {:induction false} WidthForFits(values: seq<Int64>)
    ensures forall i :: 0 <= i < |values| ==> Fits(values[i], WidthFor(values))
  {
    if values != [] {
      var init := values[..|values| - 1];
      WidthForFits(init);
      var w := WidthFor(values);
      forall i | 0 <= i < |values|
        ensures Fits(values[i], w)
      {
        if i < |init| {
          assert values[i] == init[i];
          FitsWider(values[i], WidthFor(init), w);
        }
      }
    }
  }

  /** The width is the narrowest that holds every stored value, and Byte for an empty list. */
  lemma {:induction false} WidthForNarrowest(values: seq<Int64>, u: Type)
    requires IsWidth(u)
    requires forall i :: 0 <= i < |values| ==> Fits(values[i], u)
    ensures Rank(WidthFor(values)) <= Rank(u)
  {
    if values != [] {
      var init := values[..|values| - 1];
      forall i | 0 <= i < |init|
        ensures Fits(init[i], u)
      {
        assert init[i] == values[i];
      }
      WidthForNarrowest(init, u);
      assert Fits(values[|values| - 1], u);
    }
  }

  class SmartIntList {
    var width: Type
    var values: seq<Int64>

    /** The width is the one the adds produced. */
    predicate Valid()
      reads this
    {
      width == WidthFor(values)
    }

    /** `new NBTSmartIntList()`: empty, of width Byte. */
    constructor ()
      ensures width == Byte && values == [] && Valid()
    {
      width := Byte;
      values := [];
    }

    /** The list as a tag value. */
    function Value(): Tag
      reads this
    {
      SmartListTag(width, values)
    }

    function Size(): (n: nat)
      reads this
      ensures n == |values| && n == |GetContent()|
    {
      |values|
    }

    /** `getContent`: one smart entry per value, each taking the list's current width. */
    function GetContent(): (r: seq<Tag>)
      reads this
      ensures |r| == |values|
      ensures forall i :: 0 <= i < |r| ==> r[i] == SmartIntTag(width, values[i]) && TypeOf(r[i]) == width
    {
      SmartContent(width, values)
    }

    /**
     * `addSmartInt`: widen the entry type if needed, then append. No long is refused and the
     * width never narrows.
     */
    method AddSmartInt(l: Int64)
      requires Valid()
      modifies this
      ensures Valid()
      ensures values == old(values) + [l]
      ensures width == MaxWidth(old(width), Narrowest(l))
    {
      assert (values + [l])[..|values|] == values;
      width := AccomodateFor(width, l);
      values := values + [l];
    }

    /** `getSmartInt(index)`: the long added at that position. */
    function GetSmartInt(index: int): (r: Result<Int64, NBTList.ListError>)
      reads this
      ensures r.Success? <==> 0 <= index < |values|
      ensures r.Success? ==> r.value == values[index]
      ensures r.Failure? ==> r.error == NBTList.IndexOutOfBounds(index)
    {
      match NBTList.Get(GetContent(), index)
      case Failure(e) => Failure(e)
      case Success(t) => Success(t.value)
    }

    /** `getNumberAutocast(index)`: the same as `getSmartInt`. */
    function GetNumberAutocast(index: int): (r: Result<Int64, NBTList.ListError>)
      reads this
      ensures r == GetSmartInt(index)
    {
      GetSmartInt(index)
    }

    /** The overriding `check`: always IllegalArgumentException. */
    function Check(t: Type): (r: Option<NBTList.ListError>)
      ensures r == Some(NBTList.IllegalType(t))
    {
      Some(NBTList.IllegalType(t))
    }

    /** The inherited `add(tag)` and the typed adds: refused by `check`, nothing is added. */
    method Add(tag: Tag) returns (err: Option<NBTList.ListError>)
      ensures err.Some? && err == Check(TypeOf(tag))
    {
      err := Check(TypeOf(tag));
    }

    /** The inherited typed getters: refused by `check` before any lookup. */
    function GetTyped(want: Type, index: int): (r: Result<Tag, NBTList.ListError>)
      ensures r == Failure(NBTList.IllegalType(want))
    {
      match Check(want)
      case Some(e) => Failure(e)
      case None => Failure(NBTList.IllegalType(want))
    }

    /**
     * `cpy`: a new smart list to which every value is re-added in order; it has the same values
     * and, because the width depends only on the values, the same width.
     */
    method Cpy() returns (l: SmartIntList)
      requires Valid()
      ensures fresh(l) && l.Valid()
      ensures l.values == values && l.width == width
    {
      l := new SmartIntList();
      var i := 0;
      while i < |values|
        invariant 0 <= i <= |values|
        invariant l.values == values[..i] && l.Valid()
        modifies l
      {
        l.AddSmartInt(values[i]);
        assert values[..i + 1] == values[..i] + [values[i]];
        i := i + 1;
      }
      assert values[..i] == values;
    }
  }

  /** Every entry of a valid smart list is visited without loss of its value. */
  lemma AcceptLossless(list: SmartIntList, i: nat)
    requires list.Valid() && i < |list.values|
    ensures EventValue(Tags.Accept(list.GetContent()[i])) == Some(list.values[i] as int)
  {
    WidthForFits(list.values);
  }
}
