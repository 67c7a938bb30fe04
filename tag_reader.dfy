/**
 * `TagReader.applyVisitor`: walks a tag tree and makes the visitor calls that describe it, on the
 * explicit-stack evaluator. The recursive `Walk` is the traversal it is proved equal to.
 */
module TagReader {
  import opened Wrappers
  import opened Binary
  import opened NBTType
  import opened Events
  import opened Tags
  import opened ContextStackEvaluator
  import opened WriterHelper

  /** `getContent().size()` as the `int` the list visitor receives. */
  function LengthOf(n: nat): (r: Int32)
    ensures n <= MaxInt32 ==> r == n
  {
    if n <= MaxInt32 then n else MaxInt32
  }

  /**
   * The visitor calls for a tree, depth first: a compound makes `visitCompound`, then one
   * `visitValue(key)` and the value's calls per entry in insertion order, then `visitEnd`; a list
   * makes `visitList`, `visitType`, `visitLength`, then one `visitValue()` and the element's calls
   * per element, then `visitEnd`; any other tag makes its single `accept` call.
   */
  function Walk(t: Tag): (r: seq<Event>)
    ensures |r| >= 1
    decreases t, 1
  {
    match t
    case CompoundTag(es) => [VisitCompound] + WalkEntries(es) + [VisitEnd]
    case ListTag(et, elems) => ListHeader(et, |elems|) + WalkElems(elems) + [VisitEnd]
    case SmartListTag(w, vs) => ListHeader(w, |vs|) + WalkSmart(w, vs) + [VisitEnd]
    case _ => [Accept(t)]
  }

  function ListHeader(entryType: Type, n: nat): seq<Event>
  {
    [VisitList, VisitType(entryType), VisitLength(LengthOf(n))]
  }

  function WalkEntries(es: seq<Entry>): seq<Event>
    decreases es, 0
  {
    if es == [] then [] else [VisitKey(es[0].name)] + Walk(es[0].tag) + WalkEntries(es[1..])
  }

  function WalkElems(elems: seq<Tag>): seq<Event>
    decreases elems, 0
  {
    if elems == [] then [] else [VisitValue] + Walk(elems[0]) + WalkElems(elems[1..])
  }

  /** The elements of a smart list, each visited with the list's width. */
  function WalkSmart(width: Type, values: seq<Int64>): seq<Event>
  {
    if values == [] then [] else [VisitValue, SmartIntEntry.Accept(width, values[0])] + WalkSmart(width, values[1..])
  }

  /** Walking a smart list's content is walking its values with its width. */
  lemma {:induction false} WalkSmartContent(width: Type, values: seq<Int64>)
    ensures WalkElems(SmartContent(width, values)) == WalkSmart(width, values)
  {
    if values != [] {
      var c, others := SmartContent(width, values), SmartContent(width, values[1..]);
      var a := SmartIntEntry.Accept(width, values[0]);
      assert c == [SmartIntTag(width, values[0])] + others;
      assert c[0] == SmartIntTag(width, values[0]) && c[1..] == others;
      assert Walk(c[0]) == [a];
      WalkSmartContent(width, values[1..]);
      assert WalkElems(c) == [VisitValue] + [a] + WalkSmart(width, values[1..]);
      assert [VisitValue] + [a] == [VisitValue, a];
    }
  }

  /** Rebuilding does not change the calls a tree makes. */
  lemma {:induction false} WalkNormalize(t: Tag)
    ensures Walk(Normalize(t)) == Walk(t)
    decreases t, 1
  {
    match t
    case CompoundTag(es) => WalkNormalizeEntries(es);
    case ListTag(et, elems) => WalkNormalizeElems(elems);
    case SmartListTag(w, vs) => WalkSmartScalars(w, vs);
    case _ =>
  }

  lemma {:induction false} WalkNormalizeEntries(es: seq<Entry>)
    ensures WalkEntries(NormalizeEntries(es)) == WalkEntries(es)
    decreases es, 0
  {
    if es != [] {
      WalkNormalize(es[0].tag);
      WalkNormalizeEntries(es[1..]);
    }
  }

  lemma {:induction false} WalkNormalizeElems(elems: seq<Tag>)
    ensures WalkElems(NormalizeAll(elems)) == WalkElems(elems)
    decreases elems, 0
  {
    if elems != [] {
      WalkNormalize(elems[0]);
      WalkNormalizeElems(elems[1..]);
    }
  }

  lemma {:induction false} WalkSmartScalars(width: Type, values: seq<Int64>)
    ensures WalkElems(SmartScalars(width, values)) == WalkSmart(width, values)
  {
    if values != [] {
      WalkSmartScalars(width, values[1..]);
    }
  }

  /** The calls of any tree drive one value visitor to completion. */
  lemma {:induction false} WalkComplete(t: Tag)
    ensures Complete(Walk(t))
    decreases t, 1
  {
    if t.CompoundTag? {
      WalkEntriesRun(t.entries);
      CompoundComplete(t.entries);
    } else if t.ListTag? {
      WalkElemsRun(t.elems);
      ListComplete(t.entryType, |t.elems|, WalkElems(t.elems));
      WalkList(t.entryType, t.elems);
    } else if t.SmartListTag? {
      WalkSmartRun(t.width, t.values);
      ListComplete(t.width, |t.values|, WalkSmart(t.width, t.values));
      WalkSmartList(t.width, t.values);
    } else {
      LeafComplete(t);
    }
  }

  /** A compound's calls complete a value visitor once its entries keep the compound visitor alive. */
  lemma CompoundComplete(es: seq<Entry>)
    requires Run([CompoundRole], WalkEntries(es)) == Some([CompoundRole])
    ensures Complete(Walk(CompoundTag(es)))
  {
    OpenCompoundRun();
    RunEnclosed([VisitCompound], WalkEntries(es), CompoundRole);
    WalkCompound(es);
  }

  /** `visitCompound()` turns a value visitor into a compound visitor. */
  lemma OpenCompoundRun()
    ensures Run([ValueRole], [VisitCompound]) == Some([CompoundRole])
  {
    assert [ValueRole][..0] + [CompoundRole] == [CompoundRole];
    assert Protocol([ValueRole], VisitCompound) == Some([CompoundRole]);
    assert [VisitCompound][1..] == [];
    assert Run([CompoundRole], []) == Some([CompoundRole]);
  }

  /** A list header, elements that keep the list visitor alive and `visitEnd` complete a value visitor. */
  lemma ListComplete(entryType: Type, n: nat, body: seq<Event>)
    requires Run([ListRole], body) == Some([ListRole])
    ensures Complete(ListHeader(entryType, n) + body + [VisitEnd])
  {
    HeaderRun(entryType, n);
    RunEnclosed(ListHeader(entryType, n), body, ListRole);
  }

  /** A value other than a container completes a value visitor with its one call. */
  lemma LeafComplete(t: Tag)
    requires !t.CompoundTag? && !t.ListTag? && !t.SmartListTag?
    ensures Complete(Walk(t))
  {
    WalkLeaf(t);
    assert [Accept(t)][1..] == [];
  }

  lemma HeaderRun(entryType: Type, n: nat)
    ensures Run([ValueRole], ListHeader(entryType, n)) == Some([ListRole])
  {
    var h := ListHeader(entryType, n);
    assert [ValueRole][..0] + [ListRole] == [ListRole];
    var t1 := [VisitType(entryType), VisitLength(LengthOf(n))];
    var t2 := [VisitLength(LengthOf(n))];
    assert h[1..] == t1 && t1[1..] == t2 && t2[1..] == [];
    assert Run([ListRole], t2) == Run([ListRole], []);
    assert Run([ListRole], t1) == Run([ListRole], t2);
    assert Run([ValueRole], h) == Run([ListRole], t1);
  }

  lemma {:induction false} WalkEntriesRun(es: seq<Entry>)
    ensures Run([CompoundRole], WalkEntries(es)) == Some([CompoundRole])
    decreases es, 0
  {
    if es != [] {
      var child := Walk(es[0].tag);
      WalkComplete(es[0].tag);
      RunFramed([CompoundRole], [ValueRole], child);
      RunAppend([CompoundRole], [VisitKey(es[0].name)], child);
      WalkEntriesRun(es[1..]);
      RunAppend([CompoundRole], [VisitKey(es[0].name)] + child, WalkEntries(es[1..]));
    }
  }

  lemma {:induction false} WalkElemsRun(elems: seq<Tag>)
    ensures Run([ListRole], WalkElems(elems)) == Some([ListRole])
    decreases elems, 0
  {
    if elems != [] {
      var child := Walk(elems[0]);
      WalkComplete(elems[0]);
      RunFramed([ListRole], [ValueRole], child);
      RunAppend([ListRole], [VisitValue], child);
      WalkElemsRun(elems[1..]);
      RunAppend([ListRole], [VisitValue] + child, WalkElems(elems[1..]));
    }
  }

  lemma {:induction false} WalkSmartRun(width: Type, values: seq<Int64>)
    ensures Run([ListRole], WalkSmart(width, values)) == Some([ListRole])
  {
    if values != [] {
      var head := [VisitValue, SmartIntEntry.Accept(width, values[0])];
      assert [ListRole] + [ValueRole] == [ListRole, ValueRole];
      assert [ListRole, ValueRole][..1] == [ListRole];
      assert head[1..][1..] == [];
      assert Run([ListRole, ValueRole], head[1..]) == Run([ListRole], []);
      assert Run([ListRole], head) == Run([ListRole, ValueRole], head[1..]);
      WalkSmartRun(width, values[1..]);
      RunAppend([ListRole], head, WalkSmart(width, values[1..]));
    }
  }

  /**
   * The contexts of the walk: a value still to be visited (Flat), and a compound's or a list's
   * iterator, as what it has not handed out yet (Recursive).
   */
  datatype Context =
    | ValueContext(tag: Tag)
    | CompoundContext(entries: seq<Entry>)
    | ListContext(elems: seq<Tag>)

  function KindOf(c: Context): ContextType
  {
    if c.ValueContext? then Flat else Recursive
  }

  /** The calls a context has still to make, its successors' included. */
  function Rest(c: Context): seq<Event>
  {
    match c
    case ValueContext(t) => Walk(t)
    case CompoundContext(es) => WalkEntries(es) + [VisitEnd]
    case ListContext(elems) => WalkElems(elems) + [VisitEnd]
  }

  /** The calls of a compound and of the two lists, written out. */
  lemma WalkCompound(es: seq<Entry>)
    ensures Walk(CompoundTag(es)) == [VisitCompound] + WalkEntries(es) + [VisitEnd]
  {
  }

  lemma WalkList(et: Type, elems: seq<Tag>)
    ensures Walk(ListTag(et, elems)) == ListHeader(et, |elems|) + WalkElems(elems) + [VisitEnd]
  {
  }

  lemma WalkSmartList(w: Type, vs: seq<Int64>)
    ensures Walk(SmartListTag(w, vs)) == ListHeader(w, |vs|) + WalkSmart(w, vs) + [VisitEnd]
  {
  }

  /** A value other than a container is walked by its one call. */
  lemma WalkLeaf(t: Tag)
    requires !t.CompoundTag? && !t.ListTag? && !t.SmartListTag?
    ensures Walk(t) == [Accept(t)]
  {
  }

  /** `evaluate()` of each context. */
  function EvaluateContext(c: Context): (r: Step<Context, Event>)
    ensures Splits(KindOf(c), Rest, c, r)
  {
    match c
    case ValueContext(t) =>
      if t.CompoundTag? then
        Associate<Event>([VisitCompound], WalkEntries(t.entries), [VisitEnd], []);
        Step(c, Some(CompoundContext(t.entries)), [VisitCompound])
      else if t.ListTag? then
        Associate<Event>(ListHeader(t.entryType, |t.elems|), WalkElems(t.elems), [VisitEnd], []);
        Step(c, Some(ListContext(t.elems)), ListHeader(t.entryType, |t.elems|))
      else if t.SmartListTag? then
        WalkSmartContent(t.width, t.values);
        Associate<Event>(ListHeader(t.width, |t.values|), WalkSmart(t.width, t.values), [VisitEnd], []);
        Step(c, Some(ListContext(SmartContent(t.width, t.values))), ListHeader(t.width, |t.values|))
      else
        WalkLeaf(t);
        Step(c, None, [Accept(t)])
    case CompoundContext(es) =>
      if es == [] then Step(c, None, [VisitEnd])
      else
        Associate<Event>([VisitKey(es[0].name)] + Walk(es[0].tag), WalkEntries(es[1..]), [VisitEnd], []);
        Step(CompoundContext(es[1..]), Some(ValueContext(es[0].tag)), [VisitKey(es[0].name)])
    case ListContext(elems) =>
      if elems == [] then Step(c, None, [VisitEnd])
      else
        Associate<Event>([VisitValue] + Walk(elems[0]), WalkElems(elems[1..]), [VisitEnd], []);
        Step(ListContext(elems[1..]), Some(ValueContext(elems[0])), [VisitValue])
  }

  /**
   * `applyVisitor(visitor, start)`: the evaluator loop over the walk's contexts; it makes
   * exactly the calls of the recursive traversal, in the same order.
   */
  method ApplyVisitor(start: Tag) returns (trace: seq<Event>)
    ensures trace == Walk(start)
  {
    assert forall c :: Splits(KindOf(c), Rest, c, EvaluateContext(c));
    trace := ContextStackEvaluator.Evaluate(ValueContext(start), KindOf, EvaluateContext, Rest);
  }
}
