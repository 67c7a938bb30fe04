/**
 * `TagWriter`: the visitor that builds a tag tree from the calls it receives. In Java every
 * value is received by its own `TagWriter` whose `set` is a closure into its parent: the root
 * writer keeps the tag, a compound child `put`s it under its key, a list child `add`s it. A
 * compound builder owns a fresh `NBTCompound`; a list builder owns an `NBTList` it makes on
 * `visitType` and the length it was told on `visitLength`.
 *
 * Here the living builders are a stack of frames, innermost last; `Slot` says which of the
 * three `set`s a value's builder has. `BuildStep` is what one call does, and `Writer` is the
 * visitor object that is proved to do it. Both snapshots' builders behave alike; the legacy
 * visitor has no array calls.
 */
module TagWriter {
  import opened Wrappers
  import opened Binary
  import opened NBTType
  import opened Events
  import opened Tags
  import opened NBTList
  import opened NBTCompound
  import opened TagReader
  import SmartIntEntry

  /** Where a finished value goes: the root's `entry`, a compound under a key, the end of a list. */
  datatype Slot = RootSlot | KeySlot(key: string) | ElemSlot

  /** The list a list builder has made on `visitType`. */
  datatype ListBody = ListBody(entryType: Type, elems: seq<Tag>)

  datatype Frame =
    // a value visitor (`TagWriter`) still waiting for its call
    | ValueFrame(slot: Slot)
    // a `CompoundWriter` and the entries put into its compound so far
    | CompoundFrame(slot: Slot, entries: seq<Entry>)
    // a `ListWriter`: its list (null until `visitType`) and its `length` field
    | ListFrame(slot: Slot, list: Option<ListBody>, length: Int32)

  /** The living builders, innermost last, and the root writer's `entry` (null until set). */
  datatype BuildState = BuildState(frames: seq<Frame>, root: Option<Tag>)

  /** The exceptions a builder throws. */
  datatype BuildError =
    // `NBTCompound.put` refused the key: invalid, or already in use
    | NameRejected(compoundError: CompoundError)
    // `new NBTList(End)`, or `NBTList.add` of a tag of another type
    | ListRejected(listError: ListError)
    // IllegalStateException("Found a second type")
    | SecondType
    // IllegalStateException("List size changed")
    | SizeChanged(length: Int32, size: nat)
    // NullPointerException: a list builder used before its `visitType`
    | NullList
    // a call the innermost builder does not have (the visitor types rule it out)
    | NoReceiver

  /** A fresh `new TagWriter()`. */
  const Start: BuildState := BuildState([ValueFrame(RootSlot)], None)

  function RoleOf(f: Frame): Role
  {
    match f
    case ValueFrame(_) => ValueRole
    case CompoundFrame(_, _) => CompoundRole
    case ListFrame(_, _, _) => ListRole
  }

  /** The visitor interface each living builder implements. */
  function Roles(frames: seq<Frame>): (r: seq<Role>)
    ensures |r| == |frames|
  {
    if frames == [] then [] else Roles(frames[..|frames| - 1]) + [RoleOf(frames[|frames| - 1])]
  }

  lemma RolesSnoc(frames: seq<Frame>, f: Frame)
    ensures Roles(frames + [f]) == Roles(frames) + [RoleOf(f)]
  {
    assert (frames + [f])[..|frames|] == frames;
  }

  /** The tag a value visitor makes for a single call. */
  function LeafOf(e: Event): Tag
    requires IsValueCall(e) && e != VisitCompound && e != VisitList
  {
    match e
    case VisitEnd => EndEntry
    case VisitByte(b) => ByteTag(b)
    case VisitShort(s) => ShortTag(s)
    case VisitInt(i) => IntTag(i)
    case VisitLong(l) => LongTag(l)
    case VisitFloat(f) => FloatTag(f)
    case VisitDouble(d) => DoubleTag(d)
    case VisitString(s) => StringTag(s)
    case VisitByteArray(a) => ByteArrayTag(a)
    case VisitIntArray(a) => IntArrayTag(a)
    case VisitLongArray(a) => LongArrayTag(a)
  }

  /** The tag made for a call is a leaf whose `accept` makes that same call. */
  lemma AcceptOfLeafOf(e: Event)
    requires IsValueCall(e) && e != VisitCompound && e != VisitList
    ensures IsLeaf(LeafOf(e)) && Accept(LeafOf(e)) == e
  {
  }

  /** Conversely, rebuilding a leaf from its `accept` call gives it back, normalized. */
  lemma LeafOfAccept(t: Tag)
    requires IsLeaf(t)
    ensures LeafOf(Accept(t)) == Normalize(t)
  {
    if t.SmartIntTag? {
      var r := ScalarOfSmart(t.parentWidth, t.value);
      assert Accept(r) == Accept(t);
    }
  }

  /**
   * `set(tag)` of a builder with the given slot, once it has been popped off `below`: the root
   * keeps the tag; a compound child puts it (name checks included); a list child adds it (type
   * check included), which throws if the list was never made.
   */
  function Set(below: seq<Frame>, slot: Slot, tag: Tag, root: Option<Tag>): (r: Result<BuildState, BuildError>)
  {
    match slot
    case RootSlot => Success(BuildState(below, Some(tag)))
    case KeySlot(key) =>
      if below == [] || !below[|below| - 1].CompoundFrame? then Failure(NoReceiver)
      else
        var parent := below[|below| - 1];
        (match PutEntry(parent.entries, key, tag)
         case Failure(e) => Failure(NameRejected(e))
         case Success(es) => Success(BuildState(below[..|below| - 1] + [parent.(entries := es)], root)))
    case ElemSlot =>
      if below == [] || !below[|below| - 1].ListFrame? then Failure(NoReceiver)
      else
        var parent := below[|below| - 1];
        match parent.list
        case None => Failure(NullList)
        case Some(body) =>
          match Appended(body.entryType, body.elems, tag)
          case Failure(e) => Failure(ListRejected(e))
          case Success(elems) =>
            Success(BuildState(below[..|below| - 1] + [parent.(list := Some(body.(elems := elems)))], root))
  }

  /** One call on the innermost builder. */
  function BuildStep(b: BuildState, e: Event): (r: Result<BuildState, BuildError>)
  {
    if b.frames == [] then Failure(NoReceiver)
    else
      var below := b.frames[..|b.frames| - 1];
      match b.frames[|b.frames| - 1]
      case ValueFrame(slot) =>
        if !IsValueCall(e) then Failure(NoReceiver)
        else if e == VisitCompound then Success(BuildState(below + [CompoundFrame(slot, [])], b.root))
        else if e == VisitList then Success(BuildState(below + [ListFrame(slot, None, 0)], b.root))
        else Set(below, slot, LeafOf(e), b.root)
      case CompoundFrame(slot, es) =>
        if e.VisitKey? then Success(BuildState(b.frames + [ValueFrame(KeySlot(e.key))], b.root))
        else if e == VisitEnd then Set(below, slot, CompoundTag(es), b.root)
        else Failure(NoReceiver)
      case ListFrame(slot, list, length) =>
        match e
        case VisitType(t) =>
          if list.Some? then Failure(SecondType)
          else if t == End then Failure(ListRejected(IllegalType(End)))
          else Success(BuildState(below + [ListFrame(slot, Some(ListBody(t, [])), length)], b.root))
        case VisitLength(n) => Success(BuildState(below + [ListFrame(slot, list, n)], b.root))
        case VisitValue => Success(BuildState(b.frames + [ValueFrame(ElemSlot)], b.root))
        case VisitEnd =>
          if list.None? then Failure(NullList)
          else if length != |list.value.elems| then Failure(SizeChanged(length, |list.value.elems|))
          else Set(below, slot, ListTag(list.value.entryType, list.value.elems), b.root)
        case _ => Failure(NoReceiver)
  }

  /** A sequence of calls, stopping at the first exception. */
  function BuildRun(b: BuildState, trace: seq<Event>): Result<BuildState, BuildError>
    decreases |trace|
  {
    if trace == [] then Success(b)
    else
      match BuildStep(b, trace[0])
      case Failure(e) => Failure(e)
      case Success(next) => BuildRun(next, trace[1..])
  }

  /** The rest of a run after a first part. */
  function Then(r: Result<BuildState, BuildError>, trace: seq<Event>): Result<BuildState, BuildError>
  {
    match r
    case Failure(e) => Failure(e)
    case Success(b) => BuildRun(b, trace)
  }

  /** `new TagWriter()`, the calls, then `get()`. */
  function Build(trace: seq<Event>): Result<Option<Tag>, BuildError>
  {
    match BuildRun(Start, trace)
    case Failure(e) => Failure(e)
    case Success(b) => Success(b.root)
  }

  lemma {:induction false} BuildRunAppend(b: BuildState, x: seq<Event>, y: seq<Event>)
    ensures BuildRun(b, x + y) == Then(BuildRun(b, x), y)
    decreases |x|
  {
    if x == [] {
      assert x + y == y;
    } else {
      assert (x + y)[0] == x[0] && (x + y)[1..] == x[1..] + y;
      match BuildStep(b, x[0])
      case Failure(e) =>
      case Success(next) => BuildRunAppend(next, x[1..], y);
    }
  }

  lemma BuildRunOne(b: BuildState, e: Event)
    ensures BuildRun(b, [e]) == BuildStep(b, e)
  {
    assert [e][1..] == [];
  }

  /** The frames under a pushed frame. */
  lemma Pushed(below: seq<Frame>, f: Frame)
    ensures (below + [f])[..|below + [f]| - 1] == below && (below + [f])[|below + [f]| - 1] == f
    ensures below + [f] != []
  {
  }

  /**
   * A step only succeeds on a call that the innermost builder's visitor interface has, and
   * leaves the builders that the protocol says are alive afterwards; a call the interface does
   * not have is refused.
   */
  lemma BuildStepProtocol(b: BuildState, e: Event)
    ensures BuildStep(b, e).Success? ==> Protocol(Roles(b.frames), e) == Some(Roles(BuildStep(b, e).value.frames))
    ensures Protocol(Roles(b.frames), e).None? ==> BuildStep(b, e) == Failure(NoReceiver)
  {
    if b.frames != [] {
      var below := b.frames[..|b.frames| - 1];
      var top := b.frames[|b.frames| - 1];
      assert b.frames == below + [top];
      RolesSnoc(below, top);
      match top
      case ValueFrame(slot) => ValueStepProtocol(below, slot, b.root, e);
      case CompoundFrame(slot, es) => CompoundStepProtocol(below, slot, es, b.root, e);
      case ListFrame(slot, list, n) => ListStepProtocol(below, slot, list, n, b.root, e);
    }
  }

  lemma ValueStepProtocol(below: seq<Frame>, slot: Slot, root: Option<Tag>, e: Event)
    ensures var r := BuildStep(BuildState(below + [ValueFrame(slot)], root), e);
      (r.Success? ==> Protocol(Roles(below) + [ValueRole], e) == Some(Roles(r.value.frames)))
      && (Protocol(Roles(below) + [ValueRole], e).None? ==> r == Failure(NoReceiver))
  {
    Pushed(below, ValueFrame(slot));
    var roles := Roles(below) + [ValueRole];
    assert roles[..|roles| - 1] == Roles(below) && roles[|roles| - 1] == ValueRole;
    if !IsValueCall(e) {
      assert Protocol(roles, e).None?;
    } else if e == VisitCompound || e == VisitList {
      ValueOpenProtocol(below, slot, root, e);
    } else {
      ValueLeafProtocol(below, slot, root, e);
    }
  }

  /** `visitCompound()` or `visitList()` on a value frame opens the container's frame. */
  lemma ValueOpenProtocol(below: seq<Frame>, slot: Slot, root: Option<Tag>, e: Event)
    requires e == VisitCompound || e == VisitList
    ensures var r := BuildStep(BuildState(below + [ValueFrame(slot)], root), e);
      r.Success? && Protocol(Roles(below) + [ValueRole], e) == Some(Roles(r.value.frames))
  {
    Pushed(below, ValueFrame(slot));
    var roles := Roles(below) + [ValueRole];
    var b := BuildState(below + [ValueFrame(slot)], root);
    assert roles[..|roles| - 1] == Roles(below) && roles[|roles| - 1] == ValueRole;
    if e == VisitCompound {
      assert Protocol(roles, e) == Some(Roles(below) + [CompoundRole]);
      assert BuildStep(b, e) == Success(BuildState(below + [CompoundFrame(slot, [])], root));
      RolesSnoc(below, CompoundFrame(slot, []));
    } else {
      assert Protocol(roles, e) == Some(Roles(below) + [ListRole]);
      assert BuildStep(b, e) == Success(BuildState(below + [ListFrame(slot, None, 0)], root));
      RolesSnoc(below, ListFrame(slot, None, 0));
    }
  }

  /** A scalar call on a value frame sets its slot and pops the frame. */
  lemma ValueLeafProtocol(below: seq<Frame>, slot: Slot, root: Option<Tag>, e: Event)
    requires IsValueCall(e) && e != VisitCompound && e != VisitList
    ensures var r := BuildStep(BuildState(below + [ValueFrame(slot)], root), e);
      r.Success? ==> Protocol(Roles(below) + [ValueRole], e) == Some(Roles(r.value.frames))
  {
    Pushed(below, ValueFrame(slot));
    var roles := Roles(below) + [ValueRole];
    var b := BuildState(below + [ValueFrame(slot)], root);
    assert roles[..|roles| - 1] == Roles(below) && roles[|roles| - 1] == ValueRole;
    assert Protocol(roles, e) == Some(Roles(below));
    assert BuildStep(b, e) == Set(below, slot, LeafOf(e), root);
    SetRoles(below, slot, LeafOf(e), root);
  }

  lemma CompoundStepProtocol(below: seq<Frame>, slot: Slot, es: seq<Entry>, root: Option<Tag>, e: Event)
    ensures var r := BuildStep(BuildState(below + [CompoundFrame(slot, es)], root), e);
      (r.Success? ==> Protocol(Roles(below) + [CompoundRole], e) == Some(Roles(r.value.frames)))
      && (Protocol(Roles(below) + [CompoundRole], e).None? ==> r == Failure(NoReceiver))
  {
    Pushed(below, CompoundFrame(slot, es));
    assert (Roles(below) + [CompoundRole])[..|Roles(below)|] == Roles(below);
    if e.VisitKey? {
      RolesSnoc(below, CompoundFrame(slot, es));
      RolesSnoc(below + [CompoundFrame(slot, es)], ValueFrame(KeySlot(e.key)));
    } else if e == VisitEnd {
      SetRoles(below, slot, CompoundTag(es), root);
    }
  }

  lemma ListStepProtocol(below: seq<Frame>, slot: Slot, list: Option<ListBody>, n: Int32, root: Option<Tag>, e: Event)
    ensures var r := BuildStep(BuildState(below + [ListFrame(slot, list, n)], root), e);
      (r.Success? ==> Protocol(Roles(below) + [ListRole], e) == Some(Roles(r.value.frames)))
      && (Protocol(Roles(below) + [ListRole], e).None? ==> r == Failure(NoReceiver))
  {
    if e.VisitType? || e.VisitLength? || e == VisitValue {
      ListOpenProtocol(below, slot, list, n, root, e);
    } else if e == VisitEnd {
      ListEndProtocol(below, slot, list, n, root);
    } else {
      ListOtherProtocol(below, slot, list, n, root, e);
    }
  }

  /** The calls a list builder takes while open keep it alive. */
  lemma ListOpenProtocol(below: seq<Frame>, slot: Slot, list: Option<ListBody>, n: Int32, root: Option<Tag>, e: Event)
    requires e.VisitType? || e.VisitLength? || e == VisitValue
    ensures var r := BuildStep(BuildState(below + [ListFrame(slot, list, n)], root), e);
      r.Success? ==> Protocol(Roles(below) + [ListRole], e) == Some(Roles(r.value.frames))
  {
    Pushed(below, ListFrame(slot, list, n));
    RolesSnoc(below, ListFrame(slot, list, n));
    var after := if e.VisitType? then ListFrame(slot, Some(ListBody(e.t, [])), n)
                 else if e.VisitLength? then ListFrame(slot, list, e.n)
                 else ListFrame(slot, list, n);
    RolesSnoc(below, after);
    if e == VisitValue {
      RolesSnoc(below + [ListFrame(slot, list, n)], ValueFrame(ElemSlot));
    }
  }

  lemma ListEndProtocol(below: seq<Frame>, slot: Slot, list: Option<ListBody>, n: Int32, root: Option<Tag>)
    ensures var r := BuildStep(BuildState(below + [ListFrame(slot, list, n)], root), VisitEnd);
      r.Success? ==> Protocol(Roles(below) + [ListRole], VisitEnd) == Some(Roles(r.value.frames))
  {
    Pushed(below, ListFrame(slot, list, n));
    var roles := Roles(below) + [ListRole];
    assert roles[..|roles| - 1] == Roles(below);
    assert Protocol(roles, VisitEnd) == Some(Roles(below));
    if list.Some? && n == |list.value.elems| {
      var tag := ListTag(list.value.entryType, list.value.elems);
      assert BuildStep(BuildState(below + [ListFrame(slot, list, n)], root), VisitEnd) == Set(below, slot, tag, root);
      SetRoles(below, slot, tag, root);
    }
  }

  /** A list builder has no other call. */
  lemma ListOtherProtocol(below: seq<Frame>, slot: Slot, list: Option<ListBody>, n: Int32, root: Option<Tag>, e: Event)
    requires !(e.VisitType? || e.VisitLength? || e == VisitValue || e == VisitEnd)
    ensures BuildStep(BuildState(below + [ListFrame(slot, list, n)], root), e) == Failure(NoReceiver)
    ensures Protocol(Roles(below) + [ListRole], e).None?
  {
    Pushed(below, ListFrame(slot, list, n));
  }

  lemma SetRoles(below: seq<Frame>, slot: Slot, tag: Tag, root: Option<Tag>)
    ensures Set(below, slot, tag, root).Success? ==> Roles(Set(below, slot, tag, root).value.frames) == Roles(below)
  {
    var r := Set(below, slot, tag, root);
    if r.Success? && !slot.RootSlot? {
      var init := below[..|below| - 1];
      var parent := below[|below| - 1];
      assert below == init + [parent];
      RolesSnoc(init, parent);
      RolesSnoc(init, r.value.frames[|r.value.frames| - 1]);
      assert r.value.frames == init + [r.value.frames[|r.value.frames| - 1]];
    }
  }

  /** A whole run follows the visitor protocol. */
  lemma {:induction false} BuildRunProtocol(b: BuildState, trace: seq<Event>)
    ensures BuildRun(b, trace).Success? ==> Run(Roles(b.frames), trace) == Some(Roles(BuildRun(b, trace).value.frames))
    decreases |trace|
  {
    if trace != [] {
      BuildStepProtocol(b, trace[0]);
      match BuildStep(b, trace[0])
      case Failure(_) =>
      case Success(next) => BuildRunProtocol(next, trace[1..]);
    }
  }

  /**
   * The trees the builder reproduces: compounds with valid, distinct names; lists of a declared
   * type other than End whose elements have that type and whose size fits an `int`; smart lists
   * and smart entries of an integer width; all of it recursively. These are the invariants the
   * containers keep.
   */
  predicate Buildable(t: Tag)
    decreases t
  {
    match t
    case CompoundTag(es) => ValidEntries(es) && forall i :: 0 <= i < |es| ==> Buildable(es[i].tag)
    case ListTag(et, elems) =>
      et != End && |elems| <= MaxInt32 && Homogeneous(et, elems)
      && forall i :: 0 <= i < |elems| ==> Buildable(elems[i])
    case SmartListTag(w, vs) => SmartIntEntry.IsWidth(w) && |vs| <= MaxInt32
    case SmartIntTag(w, _) => SmartIntEntry.IsWidth(w)
    case _ => true
  }

  /** Rebuilding keeps a tree's type. */
  lemma TypeOfNormalize(t: Tag)
    requires Buildable(t)
    ensures TypeOf(Normalize(t)) == TypeOf(t)
  {
  }

  /**
   * Building from the calls of a tree's walk, in any slot, sets that slot to the tree as it is
   * rebuilt: every invariant check passes, and nothing else changes.
   */
  lemma {:induction false} BuildWalk(t: Tag, below: seq<Frame>, slot: Slot, root: Option<Tag>)
    requires Buildable(t)
    ensures BuildRun(BuildState(below + [ValueFrame(slot)], root), Walk(t)) == Set(below, slot, Normalize(t), root)
    decreases t, 3
  {
    var st := BuildState(below + [ValueFrame(slot)], root);
    match t
    case CompoundTag(es) =>
      var st1 := BuildState(below + [CompoundFrame(slot, [])], root);
      OpenStep(below, slot, root, VisitCompound, CompoundFrame(slot, []));
      BuildEntries(es, below, slot, [], root);
      var es' := [] + NormalizeEntries(es);
      assert es' == NormalizeEntries(es);
      BuildRunChain(st, [VisitCompound], WalkEntries(es), st1);
      var st2 := BuildState(below + [CompoundFrame(slot, es')], root);
      CompoundEnd(es', below, slot, root);
      BuildRunChain(st, [VisitCompound] + WalkEntries(es), [VisitEnd], st2);
    case ListTag(et, elems) =>
      var len := LengthOf(|elems|);
      var st1 := BuildState(below + [ListFrame(slot, Some(ListBody(et, [])), len)], root);
      BuildHeader(et, len, below, slot, root);
      BuildElems(et, elems, below, slot, [], len, root);
      var elems' := [] + NormalizeAll(elems);
      assert elems' == NormalizeAll(elems);
      BuildRunChain(st, ListHeader(et, |elems|), WalkElems(elems), st1);
      var st2 := BuildState(below + [ListFrame(slot, Some(ListBody(et, elems')), len)], root);
      ListEnd(et, elems', below, slot, root);
      BuildRunChain(st, ListHeader(et, |elems|) + WalkElems(elems), [VisitEnd], st2);
    case SmartListTag(w, vs) =>
      var len := LengthOf(|vs|);
      var st1 := BuildState(below + [ListFrame(slot, Some(ListBody(w, [])), len)], root);
      BuildHeader(w, len, below, slot, root);
      BuildSmart(w, vs, below, slot, [], len, root);
      var elems' := [] + SmartScalars(w, vs);
      assert elems' == SmartScalars(w, vs);
      BuildRunChain(st, ListHeader(w, |vs|), WalkSmart(w, vs), st1);
      var st2 := BuildState(below + [ListFrame(slot, Some(ListBody(w, elems')), len)], root);
      ListEnd(w, elems', below, slot, root);
      BuildRunChain(st, ListHeader(w, |vs|) + WalkSmart(w, vs), [VisitEnd], st2);
    case _ =>
      BuildLeaf(t, below, slot, root);
  }

  /** Running a prefix that succeeds, then the rest from where it stopped. */
  lemma BuildRunChain(b: BuildState, x: seq<Event>, y: seq<Event>, mid: BuildState)
    requires BuildRun(b, x) == Success(mid)
    ensures BuildRun(b, x + y) == BuildRun(mid, y)
  {
    BuildRunAppend(b, x, y);
  }

  /** `visitCompound` / `visitList` replace a value builder by a container builder with its slot. */
  lemma OpenStep(below: seq<Frame>, slot: Slot, root: Option<Tag>, e: Event, f: Frame)
    requires e == VisitCompound || e == VisitList
    requires f == (if e == VisitCompound then CompoundFrame(slot, []) else ListFrame(slot, None, 0))
    ensures BuildRun(BuildState(below + [ValueFrame(slot)], root), [e]) == Success(BuildState(below + [f], root))
  {
    Pushed(below, ValueFrame(slot));
    BuildRunOne(BuildState(below + [ValueFrame(slot)], root), e);
  }

  /** A leaf's single call sets the slot to the leaf, rebuilt. */
  lemma BuildLeaf(t: Tag, below: seq<Frame>, slot: Slot, root: Option<Tag>)
    requires IsLeaf(t)
    ensures BuildRun(BuildState(below + [ValueFrame(slot)], root), Walk(t)) == Set(below, slot, Normalize(t), root)
  {
    Pushed(below, ValueFrame(slot));
    BuildRunOne(BuildState(below + [ValueFrame(slot)], root), Accept(t));
    LeafOfAccept(t);
  }

  /** The header calls of a list make an empty list of the declared type, told its length. */
  lemma BuildHeader(et: Type, len: Int32, below: seq<Frame>, slot: Slot, root: Option<Tag>)
    requires et != End
    ensures BuildRun(BuildState(below + [ValueFrame(slot)], root), [VisitList, VisitType(et), VisitLength(len)])
         == Success(BuildState(below + [ListFrame(slot, Some(ListBody(et, [])), len)], root))
  {
    var st := BuildState(below + [ValueFrame(slot)], root);
    var st1 := BuildState(below + [ListFrame(slot, None, 0)], root);
    var st2 := BuildState(below + [ListFrame(slot, Some(ListBody(et, [])), 0)], root);
    OpenStep(below, slot, root, VisitList, ListFrame(slot, None, 0));
    ListTypeStep(below, slot, et, root);
    ListLengthStep(below, slot, Some(ListBody(et, [])), 0, len, root);
    assert [VisitList, VisitType(et), VisitLength(len)] == [VisitList] + [VisitType(et)] + [VisitLength(len)];
    BuildRunChain(st, [VisitList], [VisitType(et)], st1);
    BuildRunChain(st, [VisitList] + [VisitType(et)], [VisitLength(len)], st2);
  }

  /** `visitType(t)` on a list builder that has no type yet gives it an empty list of `t`. */
  lemma ListTypeStep(below: seq<Frame>, slot: Slot, et: Type, root: Option<Tag>)
    requires et != End
    ensures BuildRun(BuildState(below + [ListFrame(slot, None, 0)], root), [VisitType(et)])
         == Success(BuildState(below + [ListFrame(slot, Some(ListBody(et, [])), 0)], root))
  {
    Pushed(below, ListFrame(slot, None, 0));
    BuildRunOne(BuildState(below + [ListFrame(slot, None, 0)], root), VisitType(et));
  }

  /** `visitLength(n)` on a list builder records the announced length. */
  lemma ListLengthStep(below: seq<Frame>, slot: Slot, list: Option<ListBody>, n: Int32, len: Int32, root: Option<Tag>)
    ensures BuildRun(BuildState(below + [ListFrame(slot, list, n)], root), [VisitLength(len)])
         == Success(BuildState(below + [ListFrame(slot, list, len)], root))
  {
    Pushed(below, ListFrame(slot, list, n));
    BuildRunOne(BuildState(below + [ListFrame(slot, list, n)], root), VisitLength(len));
  }

  /** A compound builder installs its compound on `visitEnd`. */
  lemma CompoundEnd(es: seq<Entry>, below: seq<Frame>, slot: Slot, root: Option<Tag>)
    ensures BuildRun(BuildState(below + [CompoundFrame(slot, es)], root), [VisitEnd])
         == Set(below, slot, CompoundTag(es), root)
  {
    Pushed(below, CompoundFrame(slot, es));
    BuildRunOne(BuildState(below + [CompoundFrame(slot, es)], root), VisitEnd);
  }

  /** A list builder whose length matches its elements installs the list on `visitEnd`. */
  lemma ListEnd(et: Type, elems: seq<Tag>, below: seq<Frame>, slot: Slot, root: Option<Tag>)
    requires |elems| <= MaxInt32
    ensures BuildRun(BuildState(below + [ListFrame(slot, Some(ListBody(et, elems)), LengthOf(|elems|))], root), [VisitEnd])
         == Set(below, slot, ListTag(et, elems), root)
  {
    Pushed(below, ListFrame(slot, Some(ListBody(et, elems)), LengthOf(|elems|)));
    BuildRunOne(BuildState(below + [ListFrame(slot, Some(ListBody(et, elems)), LengthOf(|elems|))], root), VisitEnd);
  }

  /** `visitValue(key)` / `visitValue()` push a value builder for the child. */
  lemma ChildStep(below: seq<Frame>, parent: Frame, e: Event, child: Slot, root: Option<Tag>)
    requires (parent.CompoundFrame? && e.VisitKey? && child == KeySlot(e.key))
          || (parent.ListFrame? && e == VisitValue && child == ElemSlot)
    ensures BuildRun(BuildState(below + [parent], root), [e]) == Success(BuildState(below + [parent] + [ValueFrame(child)], root))
  {
    Pushed(below, parent);
    BuildRunOne(BuildState(below + [parent], root), e);
  }

  /** A compound child's `set` is a successful put when the key is valid and new. */
  lemma PutStep(below: seq<Frame>, slot: Slot, acc: seq<Entry>, k: string, tag: Tag, root: Option<Tag>)
    requires MatchesNameRegex(k) && !HasName(acc, k)
    ensures Set(below + [CompoundFrame(slot, acc)], KeySlot(k), tag, root)
         == Success(BuildState(below + [CompoundFrame(slot, acc + [Entry(k, tag)])], root))
  {
    Pushed(below, CompoundFrame(slot, acc));
  }

  /** A list child's `set` is a successful add when the tag has the list's type. */
  lemma AddStep(below: seq<Frame>, slot: Slot, et: Type, acc: seq<Tag>, len: Int32, tag: Tag, root: Option<Tag>)
    requires TypeOf(tag) == et
    ensures Set(below + [ListFrame(slot, Some(ListBody(et, acc)), len)], ElemSlot, tag, root)
         == Success(BuildState(below + [ListFrame(slot, Some(ListBody(et, acc + [tag])), len)], root))
  {
    Pushed(below, ListFrame(slot, Some(ListBody(et, acc)), len));
  }

  lemma HasNameAppend(entries: seq<Entry>, e: Entry, name: string)
    ensures HasName(entries + [e], name) <==> HasName(entries, name) || e.name == name
  {
    if HasName(entries + [e], name) && e.name != name {
      var i :| 0 <= i < |entries + [e]| && (entries + [e])[i].name == name;
      assert entries[i].name == name;
    }
    if HasName(entries, name) {
      var i :| 0 <= i < |entries| && entries[i].name == name;
      assert (entries + [e])[i].name == name;
    }
    if e.name == name {
      assert (entries + [e])[|entries|].name == name;
    }
  }

  /** What `BuildEntries` needs of the entries after the first, once the first has been put. */
  lemma EntriesTail(es: seq<Entry>, acc: seq<Entry>, first: Entry)
    requires es != [] && first.name == es[0].name
    requires ValidEntries(es)
    requires forall i :: 0 <= i < |es| ==> Buildable(es[i].tag) && !HasName(acc, es[i].name)
    ensures ValidEntries(es[1..])
    ensures forall i :: 0 <= i < |es[1..]| ==> Buildable(es[1..][i].tag) && !HasName(acc + [first], es[1..][i].name)
  {
    var tail := es[1..];
    forall i, j | 0 <= i < j < |tail|
      ensures tail[i].name != tail[j].name
    {
      assert tail[i] == es[i + 1] && tail[j] == es[j + 1];
    }
    forall i | 0 <= i < |tail|
      ensures Buildable(tail[i].tag) && !HasName(acc + [first], tail[i].name)
    {
      assert tail[i] == es[i + 1];
      HasNameAppend(acc, first, tail[i].name);
    }
  }

  /** The entries of a compound, walked into a compound builder, are put one by one. */
  lemma {:induction false} BuildEntries(es: seq<Entry>, below: seq<Frame>, slot: Slot, acc: seq<Entry>, root: Option<Tag>)
    requires ValidEntries(es)
    requires forall i :: 0 <= i < |es| ==> Buildable(es[i].tag) && !HasName(acc, es[i].name)
    ensures BuildRun(BuildState(below + [CompoundFrame(slot, acc)], root), WalkEntries(es))
         == Success(BuildState(below + [CompoundFrame(slot, acc + NormalizeEntries(es))], root))
    decreases es, 2
  {
    if es == [] {
      assert acc + [] == acc;
    } else {
      var acc' := acc + [Entry(es[0].name, Normalize(es[0].tag))];
      EntriesStep(es, below, slot, acc, root);
      BuildEntries(es[1..], below, slot, acc', root);
      NormalizeEntriesCons(acc, es);
    }
  }

  lemma NormalizeEntriesCons(acc: seq<Entry>, es: seq<Entry>)
    requires es != []
    ensures acc + [Entry(es[0].name, Normalize(es[0].tag))] + NormalizeEntries(es[1..]) == acc + NormalizeEntries(es)
  {
  }

  /** The first entry put, the run goes on with the others. */
  lemma {:induction false} EntriesStep(es: seq<Entry>, below: seq<Frame>, slot: Slot, acc: seq<Entry>, root: Option<Tag>)
    requires es != [] && ValidEntries(es)
    requires forall i :: 0 <= i < |es| ==> Buildable(es[i].tag) && !HasName(acc, es[i].name)
    ensures var acc' := acc + [Entry(es[0].name, Normalize(es[0].tag))];
      && BuildRun(BuildState(below + [CompoundFrame(slot, acc)], root), WalkEntries(es))
         == BuildRun(BuildState(below + [CompoundFrame(slot, acc')], root), WalkEntries(es[1..]))
      && ValidEntries(es[1..])
      && forall i :: 0 <= i < |es[1..]| ==> Buildable(es[1..][i].tag) && !HasName(acc', es[1..][i].name)
    decreases es, 1
  {
    var k, t0 := es[0].name, es[0].tag;
    var first := Entry(k, Normalize(t0));
    var st := BuildState(below + [CompoundFrame(slot, acc)], root);
    BuildEntry(es[0], below, slot, acc, root);
    EntriesTail(es, acc, first);
    BuildRunChain(st, [VisitKey(k)] + Walk(t0), WalkEntries(es[1..]), BuildState(below + [CompoundFrame(slot, acc + [first])], root));
  }

  /** One entry: `visitValue(key)`, the value's calls, and the put. */
  lemma {:induction false} BuildEntry(e: Entry, below: seq<Frame>, slot: Slot, acc: seq<Entry>, root: Option<Tag>)
    requires MatchesNameRegex(e.name) && !HasName(acc, e.name) && Buildable(e.tag)
    ensures BuildRun(BuildState(below + [CompoundFrame(slot, acc)], root), [VisitKey(e.name)] + Walk(e.tag))
         == Success(BuildState(below + [CompoundFrame(slot, acc + [Entry(e.name, Normalize(e.tag))])], root))
    decreases e.tag, 4
  {
    var outer := below + [CompoundFrame(slot, acc)];
    var st := BuildState(outer, root);
    ChildStep(below, CompoundFrame(slot, acc), VisitKey(e.name), KeySlot(e.name), root);
    BuildWalk(e.tag, outer, KeySlot(e.name), root);
    PutStep(below, slot, acc, e.name, Normalize(e.tag), root);
    BuildRunChain(st, [VisitKey(e.name)], Walk(e.tag), BuildState(outer + [ValueFrame(KeySlot(e.name))], root));
  }

  /** The elements of a list, walked into a list builder, are added one by one. */
  lemma {:induction false} BuildElems(et: Type, elems: seq<Tag>, below: seq<Frame>, slot: Slot, acc: seq<Tag>,
                                      len: Int32, root: Option<Tag>)
    requires Homogeneous(et, elems)
    requires forall i :: 0 <= i < |elems| ==> Buildable(elems[i])
    ensures BuildRun(BuildState(below + [ListFrame(slot, Some(ListBody(et, acc)), len)], root), WalkElems(elems))
         == Success(BuildState(below + [ListFrame(slot, Some(ListBody(et, acc + NormalizeAll(elems))), len)], root))
    decreases elems, 2
  {
    if elems == [] {
      assert acc + [] == acc;
    } else {
      var t0 := elems[0];
      var acc' := acc + [Normalize(t0)];
      var st := BuildState(below + [ListFrame(slot, Some(ListBody(et, acc)), len)], root);
      var st1 := BuildState(below + [ListFrame(slot, Some(ListBody(et, acc')), len)], root);
      BuildElem(et, t0, below, slot, acc, len, root);
      var tail := elems[1..];
      assert Homogeneous(et, tail) && forall i :: 0 <= i < |tail| ==> Buildable(tail[i]) by {
        forall i | 0 <= i < |tail|
          ensures TypeOf(tail[i]) == et && Buildable(tail[i])
        {
          assert tail[i] == elems[i + 1];
        }
      }
      BuildElems(et, tail, below, slot, acc', len, root);
      BuildRunChain(st, [VisitValue] + Walk(t0), WalkElems(tail), st1);
      assert acc' + NormalizeAll(tail) == acc + NormalizeAll(elems);
    }
  }

  /** One element: `visitValue()`, the element's calls, and the add. */
  lemma {:induction false} BuildElem(et: Type, t: Tag, below: seq<Frame>, slot: Slot, acc: seq<Tag>,
                                     len: Int32, root: Option<Tag>)
    requires TypeOf(t) == et && Buildable(t)
    ensures BuildRun(BuildState(below + [ListFrame(slot, Some(ListBody(et, acc)), len)], root), [VisitValue] + Walk(t))
         == Success(BuildState(below + [ListFrame(slot, Some(ListBody(et, acc + [Normalize(t)])), len)], root))
    decreases t, 4
  {
    var frame := ListFrame(slot, Some(ListBody(et, acc)), len);
    var outer := below + [frame];
    var st := BuildState(outer, root);
    ChildStep(below, frame, VisitValue, ElemSlot, root);
    BuildWalk(t, outer, ElemSlot, root);
    TypeOfNormalize(t);
    AddStep(below, slot, et, acc, len, Normalize(t), root);
    BuildRunChain(st, [VisitValue], Walk(t), BuildState(outer + [ValueFrame(ElemSlot)], root));
  }

  /** The values of a smart list, walked into a list builder, are added as scalars of its width. */
  lemma {:induction false} BuildSmart(w: Type, vs: seq<Int64>, below: seq<Frame>, slot: Slot, acc: seq<Tag>,
                                      len: Int32, root: Option<Tag>)
    requires SmartIntEntry.IsWidth(w)
    ensures BuildRun(BuildState(below + [ListFrame(slot, Some(ListBody(w, acc)), len)], root), WalkSmart(w, vs))
         == Success(BuildState(below + [ListFrame(slot, Some(ListBody(w, acc + SmartScalars(w, vs))), len)], root))
  {
    if vs == [] {
      assert acc + [] == acc;
    } else {
      var acc' := acc + [ScalarOfSmart(w, vs[0])];
      SmartStep(w, vs, below, slot, acc, len, root);
      BuildSmart(w, vs[1..], below, slot, acc', len, root);
      assert SmartScalars(w, vs) == [ScalarOfSmart(w, vs[0])] + SmartScalars(w, vs[1..]);
      assert acc' + SmartScalars(w, vs[1..]) == acc + SmartScalars(w, vs);
    }
  }

  /** The first value added as a scalar, the run goes on with the others. */
  lemma SmartStep(w: Type, vs: seq<Int64>, below: seq<Frame>, slot: Slot, acc: seq<Tag>, len: Int32, root: Option<Tag>)
    requires SmartIntEntry.IsWidth(w) && vs != []
    ensures BuildRun(BuildState(below + [ListFrame(slot, Some(ListBody(w, acc)), len)], root), WalkSmart(w, vs))
         == BuildRun(BuildState(below + [ListFrame(slot, Some(ListBody(w, acc + [ScalarOfSmart(w, vs[0])])), len)], root),
                     WalkSmart(w, vs[1..]))
  {
    var st := BuildState(below + [ListFrame(slot, Some(ListBody(w, acc)), len)], root);
    var st1 := BuildState(below + [ListFrame(slot, Some(ListBody(w, acc + [ScalarOfSmart(w, vs[0])])), len)], root);
    SmartHead(w, vs[0], below, slot, acc, len, root);
    BuildRunChain(st, [VisitValue, SmartIntEntry.Accept(w, vs[0])], WalkSmart(w, vs[1..]), st1);
  }

  /** One value of a smart list: `visitValue()`, its single call, and the add of the scalar. */
  lemma SmartHead(w: Type, v: Int64, below: seq<Frame>, slot: Slot, acc: seq<Tag>, len: Int32, root: Option<Tag>)
    requires SmartIntEntry.IsWidth(w)
    ensures BuildRun(BuildState(below + [ListFrame(slot, Some(ListBody(w, acc)), len)], root),
                     [VisitValue, SmartIntEntry.Accept(w, v)])
         == Success(BuildState(below + [ListFrame(slot, Some(ListBody(w, acc + [ScalarOfSmart(w, v)])), len)], root))
  {
    var t0 := SmartIntTag(w, v);
    var frame := ListFrame(slot, Some(ListBody(w, acc)), len);
    var outer := below + [frame];
    var st := BuildState(outer, root);
    ChildStep(below, frame, VisitValue, ElemSlot, root);
    BuildLeaf(t0, outer, ElemSlot, root);
    AddStep(below, slot, w, acc, len, ScalarOfSmart(w, v), root);
    BuildRunChain(st, [VisitValue], Walk(t0), BuildState(outer + [ValueFrame(ElemSlot)], root));
  }

  /** The headline for the builder: `get()` after the walk of a buildable tree is that tree, rebuilt. */
  lemma BuildOfWalk(t: Tag)
    requires Buildable(t)
    ensures Build(Walk(t)) == Success(Some(Normalize(t)))
  {
    assert Start.frames == [] + [ValueFrame(RootSlot)];
    BuildWalk(t, [], RootSlot, None);
  }

  /** Rebuilding a compound's entries keeps their names, in order. */
  lemma {:induction false} NormalizeEntriesNames(es: seq<Entry>)
    ensures forall i :: 0 <= i < |es| ==> NormalizeEntries(es)[i].name == es[i].name
  {
    if es != [] {
      NormalizeEntriesNames(es[1..]);
      forall i | 1 <= i < |es|
        ensures NormalizeEntries(es)[i].name == es[i].name
      {
        assert NormalizeEntries(es)[i] == NormalizeEntries(es[1..])[i - 1];
      }
    }
  }

  lemma HasNameNormalize(es: seq<Entry>, k: string)
    ensures HasName(NormalizeEntries(es), k) <==> HasName(es, k)
  {
    NormalizeEntriesNames(es);
    if HasName(es, k) {
      var i :| 0 <= i < |es| && es[i].name == k;
      assert NormalizeEntries(es)[i].name == k;
    }
  }

  /** A root compound whose entries were all built is left open with those entries, rebuilt. */
  lemma CompoundPrefix(es: seq<Entry>)
    requires Buildable(CompoundTag(es))
    ensures BuildRun(Start, [VisitCompound] + WalkEntries(es))
         == Success(BuildState([CompoundFrame(RootSlot, NormalizeEntries(es))], None))
  {
    var acc := NormalizeEntries(es);
    var open := [CompoundFrame(RootSlot, [])];
    assert [] + [ValueFrame(RootSlot)] == [ValueFrame(RootSlot)] && [] + open == open;
    OpenStep([], RootSlot, None, VisitCompound, CompoundFrame(RootSlot, []));
    assert BuildRun(Start, [VisitCompound]) == Success(BuildState(open, None));
    BuildEntries(es, [], RootSlot, [], None);
    assert [] + acc == acc && [] + [CompoundFrame(RootSlot, acc)] == [CompoundFrame(RootSlot, acc)];
    assert BuildRun(BuildState(open, None), WalkEntries(es)) == Success(BuildState([CompoundFrame(RootSlot, acc)], None));
    BuildRunChain(Start, [VisitCompound], WalkEntries(es), BuildState(open, None));
  }

  /** A root list whose header and elements were all built is left open with those elements, rebuilt. */
  lemma ListPrefix(et: Type, elems: seq<Tag>, len: Int32)
    requires Buildable(ListTag(et, elems))
    ensures BuildRun(Start, [VisitList, VisitType(et), VisitLength(len)] + WalkElems(elems))
         == Success(BuildState([ListFrame(RootSlot, Some(ListBody(et, NormalizeAll(elems))), len)], None))
  {
    var acc := NormalizeAll(elems);
    var frame := ListFrame(RootSlot, Some(ListBody(et, acc)), len);
    assert Start == BuildState([] + [ValueFrame(RootSlot)], None);
    BuildHeader(et, len, [], RootSlot, None);
    ListBuildable(et, elems);
    BuildElems(et, elems, [], RootSlot, [], len, None);
    assert [] + acc == acc && [] + [frame] == [frame];
    BuildRunChain(Start, [VisitList, VisitType(et), VisitLength(len)], WalkElems(elems),
                  BuildState([] + [ListFrame(RootSlot, Some(ListBody(et, [])), len)], None));
  }

  /** The elements of a buildable list are of its type and buildable themselves. */
  lemma ListBuildable(et: Type, elems: seq<Tag>)
    requires Buildable(ListTag(et, elems))
    ensures Homogeneous(et, elems) && forall i :: 0 <= i < |elems| ==> Buildable(elems[i])
  {
  }

  /** A child under an open root container: its opening call, then its own calls, end in the container's `set`. */
  lemma ChildOfRoot(parent: Frame, e: Event, child: Slot, v: Tag)
    requires (parent.CompoundFrame? && e.VisitKey? && child == KeySlot(e.key))
          || (parent.ListFrame? && e == VisitValue && child == ElemSlot)
    requires Buildable(v)
    ensures BuildRun(BuildState([parent], None), [e] + Walk(v)) == Set([parent], child, Normalize(v), None)
  {
    ChildStep([], parent, e, child, None);
    assert [] + [parent] == [parent];
    BuildWalk(v, [parent], child, None);
    BuildRunChain(BuildState([parent], None), [e], Walk(v), BuildState([parent] + [ValueFrame(child)], None));
  }

  /**
   * `put` refuses a key that is invalid or already in use: a compound whose entries were built,
   * then one more entry under such a key, throws the exception `put` throws.
   */
  lemma RepeatedOrInvalidKeyRefused(es: seq<Entry>, k: string, v: Tag)
    requires Buildable(CompoundTag(es)) && Buildable(v)
    requires !MatchesNameRegex(k) || HasName(es, k)
    ensures Build([VisitCompound] + WalkEntries(es) + ([VisitKey(k)] + Walk(v)))
         == Failure(NameRejected(if !MatchesNameRegex(k) then CheckNameValid(k).value else NameInUse(k)))
  {
    var outer := [CompoundFrame(RootSlot, NormalizeEntries(es))];
    CompoundPrefix(es);
    ChildOfRoot(outer[0], VisitKey(k), KeySlot(k), v);
    HasNameNormalize(es, k);
    Pushed([], outer[0]);
    BuildRunChain(Start, [VisitCompound] + WalkEntries(es), [VisitKey(k)] + Walk(v), BuildState(outer, None));
  }

  /** `add` refuses an element of another type than the list's: the builder throws its exception. */
  lemma WrongElementRefused(et: Type, elems: seq<Tag>, len: Int32, v: Tag)
    requires Buildable(ListTag(et, elems)) && Buildable(v) && TypeOf(v) != et
    ensures Build([VisitList, VisitType(et), VisitLength(len)] + WalkElems(elems) + ([VisitValue] + Walk(v)))
         == Failure(ListRejected(IllegalType(TypeOf(v))))
  {
    var frame := ListFrame(RootSlot, Some(ListBody(et, NormalizeAll(elems))), len);
    ListPrefix(et, elems, len);
    ChildOfRoot(frame, VisitValue, ElemSlot, v);
    TypeOfNormalize(v);
    Pushed([], frame);
    BuildRunChain(Start, [VisitList, VisitType(et), VisitLength(len)] + WalkElems(elems), [VisitValue] + Walk(v),
                  BuildState([frame], None));
  }

  /** A list whose elements do not number its declared length is refused at its `visitEnd`. */
  lemma SizeMismatchRefused(et: Type, elems: seq<Tag>, len: Int32)
    requires Buildable(ListTag(et, elems)) && len != |elems|
    ensures Build([VisitList, VisitType(et), VisitLength(len)] + WalkElems(elems) + [VisitEnd])
         == Failure(SizeChanged(len, |elems|))
  {
    var frame := ListFrame(RootSlot, Some(ListBody(et, NormalizeAll(elems))), len);
    ListPrefix(et, elems, len);
    assert [] + [frame] == [frame];
    ListSizeStep([], RootSlot, ListBody(et, NormalizeAll(elems)), len, None);
    BuildRunChain(Start, [VisitList, VisitType(et), VisitLength(len)] + WalkElems(elems), [VisitEnd], BuildState([frame], None));
  }

  /** `visitEnd` on a list builder whose element count differs from the announced length throws. */
  lemma ListSizeStep(below: seq<Frame>, slot: Slot, body: ListBody, n: Int32, root: Option<Tag>)
    requires n != |body.elems|
    ensures BuildRun(BuildState(below + [ListFrame(slot, Some(body), n)], root), [VisitEnd])
         == Failure(SizeChanged(n, |body.elems|))
  {
    Pushed(below, ListFrame(slot, Some(body), n));
    BuildRunOne(BuildState(below + [ListFrame(slot, Some(body), n)], root), VisitEnd);
  }

  /** A list builder told its type twice throws, whatever came between. */
  lemma SecondTypeRefused(et: Type, len: Int32, t: Type)
    requires et != End
    ensures Build([VisitList, VisitType(et), VisitLength(len)] + [VisitType(t)]) == Failure(SecondType)
  {
    var frame := ListFrame(RootSlot, Some(ListBody(et, [])), len);
    assert Start == BuildState([] + [ValueFrame(RootSlot)], None);
    BuildHeader(et, len, [], RootSlot, None);
    assert [] + [frame] == [frame];
    ListSecondTypeStep([], RootSlot, ListBody(et, []), len, t, None);
    BuildRunChain(Start, [VisitList, VisitType(et), VisitLength(len)], [VisitType(t)], BuildState([frame], None));
  }

  /** `visitType(t)` on a list builder that already has its type throws. */
  lemma ListSecondTypeStep(below: seq<Frame>, slot: Slot, body: ListBody, n: Int32, t: Type, root: Option<Tag>)
    ensures BuildRun(BuildState(below + [ListFrame(slot, Some(body), n)], root), [VisitType(t)]) == Failure(SecondType)
  {
    Pushed(below, ListFrame(slot, Some(body), n));
    BuildRunOne(BuildState(below + [ListFrame(slot, Some(body), n)], root), VisitType(t));
  }

  /**
   * The builder as the visitor object a caller holds: the living builders and the root writer's
   * `entry`. `Visit` makes one call on the innermost builder.
   */
  class Writer {
    var frames: seq<Frame>
    var root: Option<Tag>

    function State(): BuildState
      reads this
    {
      BuildState(frames, root)
    }

    /** `new TagWriter()`. */
    constructor ()
      ensures State() == Start
    {
      frames := [ValueFrame(RootSlot)];
      root := None;
    }

    /** `get()`: the root writer's `entry`, null until it is set. */
    function Get(): Option<Tag>
      reads this
    {
      root
    }

    /** One call on the innermost builder; an exception leaves every builder as it was. */
    method Visit(e: Event) returns (err: Option<BuildError>)
      modifies this
      ensures BuildStep(old(State()), e).Success? ==> err.None? && State() == BuildStep(old(State()), e).value
      ensures BuildStep(old(State()), e).Failure? ==> err == Some(BuildStep(old(State()), e).error) && State() == old(State())
    {
      if frames == [] {
        return Some(NoReceiver);
      }
      var below := frames[..|frames| - 1];
      match frames[|frames| - 1]
      case ValueFrame(slot) =>
        if !IsValueCall(e) {
          err := Some(NoReceiver);
        } else if e == VisitCompound {
          frames := below + [CompoundFrame(slot, [])];
          err := None;
        } else if e == VisitList {
          frames := below + [ListFrame(slot, None, 0)];
          err := None;
        } else {
          err := Install(below, slot, LeafOf(e));
        }
      case CompoundFrame(slot, es) =>
        if e.VisitKey? {
          frames := frames + [ValueFrame(KeySlot(e.key))];
          err := None;
        } else if e == VisitEnd {
          err := Install(below, slot, CompoundTag(es));
        } else {
          err := Some(NoReceiver);
        }
      case ListFrame(slot, list, length) =>
        match e
        case VisitType(t) =>
          if list.Some? {
            err := Some(SecondType);
          } else if t == End {
            err := Some(ListRejected(IllegalType(End)));
          } else {
            frames := below + [ListFrame(slot, Some(ListBody(t, [])), length)];
            err := None;
          }
        case VisitLength(n) =>
          frames := below + [ListFrame(slot, list, n)];
          err := None;
        case VisitValue =>
          frames := frames + [ValueFrame(ElemSlot)];
          err := None;
        case VisitEnd =>
          if list.None? {
            err := Some(NullList);
          } else if length != |list.value.elems| {
            err := Some(SizeChanged(length, |list.value.elems|));
          } else {
            err := Install(below, slot, ListTag(list.value.entryType, list.value.elems));
          }
        case _ =>
          err := Some(NoReceiver);
    }

    /** `set(tag)` of the builder just finished, with its slot, once taken off `below`. */
    method Install(below: seq<Frame>, slot: Slot, tag: Tag) returns (err: Option<BuildError>)
      modifies this
      ensures Set(below, slot, tag, old(root)).Success? ==> err.None? && State() == Set(below, slot, tag, old(root)).value
      ensures Set(below, slot, tag, old(root)).Failure? ==> err == Some(Set(below, slot, tag, old(root)).error) && State() == old(State())
    {
      match slot
      case RootSlot =>
        frames := below;
        root := Some(tag);
        err := None;
      case KeySlot(key) =>
        if below == [] || !below[|below| - 1].CompoundFrame? {
          return Some(NoReceiver);
        }
        var parent := below[|below| - 1];
        var put := PutEntry(parent.entries, key, tag);
        if put.Failure? {
          return Some(NameRejected(put.error));
        }
        frames := below[..|below| - 1] + [parent.(entries := put.value)];
        err := None;
      case ElemSlot =>
        if below == [] || !below[|below| - 1].ListFrame? {
          return Some(NoReceiver);
        }
        var parent := below[|below| - 1];
        if parent.list.None? {
          return Some(NullList);
        }
        var body := parent.list.value;
        var added := Appended(body.entryType, body.elems, tag);
        if added.Failure? {
          return Some(ListRejected(added.error));
        }
        frames := below[..|below| - 1] + [parent.(list := Some(body.(elems := added.value)))];
        err := None;
    }
  }

  /** Feeding a trace call by call to a fresh writer does what `BuildRun` says, up to the first exception. */
  method BuildAll(trace: seq<Event>) returns (r: Result<Option<Tag>, BuildError>)
    ensures r == Build(trace)
  {
    var w := new Writer();
    var i := 0;
    while i < |trace|
      invariant 0 <= i <= |trace|
      invariant BuildRun(Start, trace) == BuildRun(w.State(), trace[i..])
    {
      var err := w.Visit(trace[i]);
      assert trace[i..] == [trace[i]] + trace[i + 1..];
      BuildRunAppend(w.State(), [trace[i]], trace[i + 1..]);
      if err.Some? {
        return Failure(err.value);
      }
      i := i + 1;
    }
    return Success(w.Get());
  }
}
