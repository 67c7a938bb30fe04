/**
 * `StringNbtWriter`: the visitor calls rendered as text. Integers are written in decimal with a
 * `b`, `s` or `l` suffix (none for `int`), strings through `escape`, arrays as `[B;1,2]`,
 * `[I;…]` and `[L;…]`. A list writes `[` before its first value and `,` before each later one,
 * and `]` at its end (`[]` when it had no value); a compound does the same with `{`, `}` and
 * `key:` in front of each value, where a key of the characters `A-Za-z0-9._+-` is written bare
 * and any other key through `escape`. End values have no text: their `visitEnd` records an
 * exception instead.
 *
 * As in the binary writer, all the visitors of one writer share one stream and one list of
 * caught exceptions (`WriterHelper`). Each list and compound writer keeps a flag that tells
 * whether the separator to write is the opening bracket; the flag is changed by the action
 * passed to `run`, after its writes, so it only changes when those writes all succeed.
 *
 * Both snapshots are modelled: the legacy writer has no array calls, and its compound writer
 * keeps the opposite flag (`notFirst`); `LegacyRunAgrees` shows that it writes the same text.
 */
module StringNbtWriter {
  import opened Wrappers
  import opened Binary
  import opened NBTType
  import opened ImmutableArrays
  import opened Events
  import opened Tags
  import opened TagReader
  import opened WriterHelper
  import SmartIntEntry
  import StringEntry
  import Decimal
  import ArrayUtil
  import Decoding

  /** Java's `float` and `double` to-string conversions (`f + ""`, `d + ""`), taken as given. */
  datatype FloatFormat = FloatFormat(float: Bits32 -> string, double: Bits64 -> string)

  /** The writer a call goes to. */
  datatype TextFrame =
    | ValueWriter
    // `first`: nothing has been written for this list yet
    | ListWriter(first: bool)
    | CompoundWriter(first: bool)
    // the legacy compound writer's `notFirst`, false until a key has been written
    | LegacyCompoundWriter(notFirst: bool)

  predicate IsArrayCall(e: Event)
  {
    e.VisitByteArray? || e.VisitIntArray? || e.VisitLongArray?
  }

  /** A character of the `SIMPLE_KEY` pattern `[A-Za-z0-9._+-]`. */
  predicate SimpleKeyChar(c: char)
  {
    ('A' <= c <= 'Z') || ('a' <= c <= 'z') || ('0' <= c <= '9') || c == '.' || c == '_' || c == '+' || c == '-'
  }

  /** A key the whole `SIMPLE_KEY` pattern matches: one or more simple characters. */
  predicate SimpleKey(k: string)
  {
    |k| >= 1 && forall i :: 0 <= i < |k| ==> SimpleKeyChar(k[i])
  }

  /** The key as a compound writes it in front of `:`. */
  function KeyText(k: string): string
  {
    if SimpleKey(k) then k else StringEntry.Escape(k)
  }

  /** What a value writer writes for a call that finishes it. */
  function ValueText(fmt: FloatFormat, e: Event): string
    requires IsValueCall(e) && e != VisitCompound && e != VisitList && e != VisitEnd
  {
    match e
    case VisitByte(b) => Decimal.Render(b) + "b"
    case VisitShort(s) => Decimal.Render(s) + "s"
    case VisitInt(i) => Decimal.Render(i)
    case VisitLong(l) => Decimal.Render(l) + "l"
    case VisitFloat(f) => fmt.float(f) + "f"
    case VisitDouble(d) => fmt.double(d) + "d"
    case VisitString(s) => StringEntry.Escape(s)
    case VisitByteArray(a) => ArrayUtil.Joined("[B;", ",", "]", ArrayUtil.RenderAll(a.bytes))
    case VisitIntArray(a) => ArrayUtil.Joined("[I;", ",", "]", ArrayUtil.RenderAll(a.ints))
    case VisitLongArray(a) => ArrayUtil.Joined("[L;", ",", "]", ArrayUtil.RenderAll(a.longs))
    case _ => ""
  }

  /** What a call does to the shared stream: writes through `run`, the recorded End error, or nothing. */
  datatype Action = Write(writes: seq<string>) | RecordEnd | Nothing

  /** The text writer's value `visitEnd`: an exception unless one is recorded already, no output. */
  function RecordFirst(st: Stream<char>, e: IoError): Stream<char>
  {
    Stream(st.out, if st.caught == [] then [e] else st.caught)
  }

  function Apply(capacity: nat, st: Stream<char>, a: Action): Stream<char>
  {
    match a
    case Write(writes) => RunOf(capacity, st, writes)
    case RecordEnd => RecordFirst(st, EndTagInText)
    case Nothing => st
  }

  /** The action of a call on the innermost writer (nothing for a call it does not have). */
  function StepAction(fmt: FloatFormat, frames: seq<TextFrame>, e: Event): Action
  {
    if frames == [] then Nothing
    else
      match frames[|frames| - 1]
      case ValueWriter =>
        if !IsValueCall(e) || e == VisitCompound || e == VisitList then Nothing
        else if e == VisitEnd then RecordEnd
        else Write([ValueText(fmt, e)])
      case ListWriter(first) =>
        if e == VisitValue then Write([if first then "[" else ","])
        else if e == VisitEnd then Write([if first then "[]" else "]"])
        else Nothing
      case CompoundWriter(first) =>
        if e.VisitKey? then Write([if first then "{" else ",", KeyText(e.key), ":"])
        else if e == VisitEnd then Write([if first then "{}" else "}"])
        else Nothing
      case LegacyCompoundWriter(notFirst) =>
        if e.VisitKey? then Write([if notFirst then "," else "{", KeyText(e.key), ":"])
        else if e == VisitEnd then Write([if notFirst then "}" else "{}"])
        else Nothing
  }

  /**
   * The writers alive after a call on the innermost writer, given whether its action was
   * `done` (`run` performed it to the end); `None` when that writer has no such call. The flag
   * of a list or compound writer is changed by the action itself, so only when it is done.
   */
  function StepFrames(snap: Decoding.Snapshot, frames: seq<TextFrame>, e: Event, done: bool): Option<seq<TextFrame>>
  {
    if frames == [] then None
    else
      var below := frames[..|frames| - 1];
      match frames[|frames| - 1]
      case ValueWriter =>
        if !IsValueCall(e) || (snap == Decoding.Legacy && IsArrayCall(e)) then None
        else if e == VisitCompound then
          Some(below + [if snap == Decoding.Legacy then LegacyCompoundWriter(false) else CompoundWriter(true)])
        else if e == VisitList then Some(below + [ListWriter(true)])
        else Some(below)
      case ListWriter(first) =>
        if e.VisitType? || e.VisitLength? then Some(frames)
        else if e == VisitValue then Some(below + [ListWriter(first && !done), ValueWriter])
        else if e == VisitEnd then Some(below)
        else None
      case CompoundWriter(first) =>
        if e.VisitKey? then Some(below + [CompoundWriter(first && !done), ValueWriter])
        else if e == VisitEnd then Some(below)
        else None
      case LegacyCompoundWriter(notFirst) =>
        if e.VisitKey? then Some(below + [LegacyCompoundWriter(notFirst || done), ValueWriter])
        else if e == VisitEnd then Some(below)
        else None
  }

  /** The writers alive and the shared stream. */
  datatype TextState = TextState(frames: seq<TextFrame>, st: Stream<char>)

  /**
   * One call on the innermost writer, on a stream of the given capacity: its action, then the
   * writers alive afterwards; the action is done when no exception is recorded after it.
   */
  function TextStep(snap: Decoding.Snapshot, fmt: FloatFormat, capacity: nat, s: TextState, e: Event): Option<TextState>
  {
    var after := Apply(capacity, s.st, StepAction(fmt, s.frames, e));
    match StepFrames(snap, s.frames, e, after.caught == [])
    case None => None
    case Some(frames) => Some(TextState(frames, after))
  }

  /** A trace, call after call; `None` at a call without receiver. */
  function TextRun(snap: Decoding.Snapshot, fmt: FloatFormat, capacity: nat, s: TextState, trace: seq<Event>): Option<TextState>
    decreases |trace|
  {
    if trace == [] then Some(s)
    else
      match TextStep(snap, fmt, capacity, s, trace[0])
      case None => None
      case Some(next) => TextRun(snap, fmt, capacity, next, trace[1..])
  }

  // The writers and the visitor protocol.

  function RoleOf(f: TextFrame): Role
  {
    match f
    case ValueWriter => ValueRole
    case ListWriter(_) => ListRole
    case CompoundWriter(_) => CompoundRole
    case LegacyCompoundWriter(_) => CompoundRole
  }

  function Roles(frames: seq<TextFrame>): (r: seq<Role>)
    ensures |r| == |frames|
  {
    if frames == [] then [] else Roles(frames[..|frames| - 1]) + [RoleOf(frames[|frames| - 1])]
  }

  lemma RolesSnoc(frames: seq<TextFrame>, f: TextFrame)
    ensures Roles(frames + [f]) == Roles(frames) + [RoleOf(f)]
  {
    assert (frames + [f])[..|frames + [f]| - 1] == frames;
  }

  /**
   * A writer has exactly the calls its visitor interface has (the legacy value writer has no
   * array calls), and the writers alive afterwards are the visitors the protocol has alive.
   */
  lemma TextStepProtocol(snap: Decoding.Snapshot, fmt: FloatFormat, capacity: nat, s: TextState, e: Event)
    ensures TextStep(snap, fmt, capacity, s, e).Some?
        <==> Protocol(Roles(s.frames), e).Some? && !(snap == Decoding.Legacy && IsArrayCall(e))
    ensures TextStep(snap, fmt, capacity, s, e).Some?
        ==> Protocol(Roles(s.frames), e) == Some(Roles(TextStep(snap, fmt, capacity, s, e).value.frames))
  {
    var after := Apply(capacity, s.st, StepAction(fmt, s.frames, e));
    StepFramesProtocol(snap, s.frames, e, after.caught == []);
  }

  lemma StepFramesProtocol(snap: Decoding.Snapshot, frames: seq<TextFrame>, e: Event, done: bool)
    ensures StepFrames(snap, frames, e, done).Some?
        <==> Protocol(Roles(frames), e).Some? && !(snap == Decoding.Legacy && IsArrayCall(e))
    ensures StepFrames(snap, frames, e, done).Some?
        ==> Protocol(Roles(frames), e) == Some(Roles(StepFrames(snap, frames, e, done).value))
  {
    if frames != [] {
      var below := frames[..|frames| - 1];
      var top := frames[|frames| - 1];
      assert frames == below + [top];
      RolesSnoc(below, top);
      assert Roles(frames)[..|frames| - 1] == Roles(below);
      match top
      case ValueWriter => ValueTopProtocol(snap, below, e, done);
      case ListWriter(first) => ListTopProtocol(snap, below, first, e, done);
      case CompoundWriter(first) => CompoundTopProtocol(snap, below, first, e, done);
      case LegacyCompoundWriter(notFirst) => LegacyTopProtocol(snap, below, notFirst, e, done);
    }
  }

  predicate FramesFollowProtocol(snap: Decoding.Snapshot, frames: seq<TextFrame>, e: Event, done: bool)
  {
    && (StepFrames(snap, frames, e, done).Some?
        <==> Protocol(Roles(frames), e).Some? && !(snap == Decoding.Legacy && IsArrayCall(e)))
    && (StepFrames(snap, frames, e, done).Some?
        ==> Protocol(Roles(frames), e) == Some(Roles(StepFrames(snap, frames, e, done).value)))
  }

  lemma ValueTopProtocol(snap: Decoding.Snapshot, below: seq<TextFrame>, e: Event, done: bool)
    ensures FramesFollowProtocol(snap, below + [ValueWriter], e, done)
  {
    var frames := below + [ValueWriter];
    RolesSnoc(below, ValueWriter);
    assert frames[..|frames| - 1] == below;
    assert Roles(frames)[..|frames| - 1] == Roles(below);
    RolesSnoc(below, CompoundWriter(true));
    RolesSnoc(below, LegacyCompoundWriter(false));
    RolesSnoc(below, ListWriter(true));
  }

  lemma ListTopProtocol(snap: Decoding.Snapshot, below: seq<TextFrame>, first: bool, e: Event, done: bool)
    ensures FramesFollowProtocol(snap, below + [ListWriter(first)], e, done)
  {
    var frames := below + [ListWriter(first)];
    RolesSnoc(below, ListWriter(first));
    assert frames[..|frames| - 1] == below;
    var roles := Roles(frames);
    assert roles == Roles(below) + [ListRole];
    assert roles[..|roles| - 1] == Roles(below);
    if e.VisitType? || e.VisitLength? {
      assert StepFrames(snap, frames, e, done) == Some(frames);
      assert Protocol(roles, e) == Some(roles);
    } else if e == VisitValue {
      var child := below + [ListWriter(first && !done), ValueWriter];
      assert StepFrames(snap, frames, e, done) == Some(child);
      ChildRoles(below, ListWriter(first && !done));
      assert Protocol(roles, e) == Some(roles + [ValueRole]);
    } else if e == VisitEnd {
      assert StepFrames(snap, frames, e, done) == Some(below);
    } else {
      assert StepFrames(snap, frames, e, done).None?;
      assert Protocol(roles, e).None?;
    }
  }

  lemma CompoundTopProtocol(snap: Decoding.Snapshot, below: seq<TextFrame>, first: bool, e: Event, done: bool)
    ensures FramesFollowProtocol(snap, below + [CompoundWriter(first)], e, done)
  {
    var frames := below + [CompoundWriter(first)];
    RolesSnoc(below, CompoundWriter(first));
    assert frames[..|frames| - 1] == below;
    ChildRoles(below, CompoundWriter(first && !done));
  }

  lemma LegacyTopProtocol(snap: Decoding.Snapshot, below: seq<TextFrame>, notFirst: bool, e: Event, done: bool)
    ensures FramesFollowProtocol(snap, below + [LegacyCompoundWriter(notFirst)], e, done)
  {
    var frames := below + [LegacyCompoundWriter(notFirst)];
    RolesSnoc(below, LegacyCompoundWriter(notFirst));
    assert frames[..|frames| - 1] == below;
    ChildRoles(below, LegacyCompoundWriter(notFirst || done));
  }

  /** The roles of a container writer with a value writer on top. */
  lemma ChildRoles(below: seq<TextFrame>, container: TextFrame)
    ensures Roles(below + [container, ValueWriter]) == Roles(below) + [RoleOf(container)] + [ValueRole]
  {
    RolesSnoc(below, container);
    RolesSnoc(below + [container], ValueWriter);
    assert below + [container] + [ValueWriter] == below + [container, ValueWriter];
  }

  // Composing runs.

  function ThenText(snap: Decoding.Snapshot, fmt: FloatFormat, capacity: nat, r: Option<TextState>, trace: seq<Event>): Option<TextState>
  {
    match r
    case None => None
    case Some(s) => TextRun(snap, fmt, capacity, s, trace)
  }

  lemma {:induction false} TextRunAppend(snap: Decoding.Snapshot, fmt: FloatFormat, capacity: nat, s: TextState, a: seq<Event>, b: seq<Event>)
    ensures TextRun(snap, fmt, capacity, s, a + b) == ThenText(snap, fmt, capacity, TextRun(snap, fmt, capacity, s, a), b)
    decreases |a|
  {
    if a == [] {
      assert a + b == b;
    } else {
      assert (a + b)[0] == a[0] && (a + b)[1..] == a[1..] + b;
      match TextStep(snap, fmt, capacity, s, a[0])
      case None =>
      case Some(next) => TextRunAppend(snap, fmt, capacity, next, a[1..], b);
    }
  }

  lemma TextRunChain(snap: Decoding.Snapshot, fmt: FloatFormat, capacity: nat, s: TextState, a: seq<Event>, b: seq<Event>, mid: TextState)
    requires TextRun(snap, fmt, capacity, s, a) == Some(mid)
    ensures TextRun(snap, fmt, capacity, s, a + b) == TextRun(snap, fmt, capacity, mid, b)
  {
    TextRunAppend(snap, fmt, capacity, s, a, b);
  }

  /** Three runs in a row, each from where the previous one stopped. */
  lemma TextRunChain3(snap: Decoding.Snapshot, fmt: FloatFormat, capacity: nat, s0: TextState, a: seq<Event>, b: seq<Event>, c: seq<Event>,
                      s1: TextState, s2: TextState, s3: TextState)
    requires TextRun(snap, fmt, capacity, s0, a) == Some(s1)
    requires TextRun(snap, fmt, capacity, s1, b) == Some(s2)
    requires TextRun(snap, fmt, capacity, s2, c) == Some(s3)
    ensures TextRun(snap, fmt, capacity, s0, a + b + c) == Some(s3)
  {
    TextRunAppend(snap, fmt, capacity, s0, a, b);
    TextRunAppend(snap, fmt, capacity, s0, a + b, c);
  }

  lemma TextRunOne(snap: Decoding.Snapshot, fmt: FloatFormat, capacity: nat, s: TextState, e: Event)
    ensures TextRun(snap, fmt, capacity, s, [e]) == TextStep(snap, fmt, capacity, s, e)
  {
    assert [e][1..] == [];
  }

  // The text of a tree.

  /** A tree without End values anywhere: the trees the text format can represent. */
  predicate NoEnd(t: Tag)
    decreases t
  {
    match t
    case CompoundTag(es) => forall i :: 0 <= i < |es| ==> NoEnd(es[i].tag)
    case ListTag(_, elems) => forall i :: 0 <= i < |elems| ==> NoEnd(elems[i])
    case _ => !t.EndTag?
  }

  /**
   * The text of a tree, as the text format defines it: a compound is its `key:value` parts
   * between `{` and `}`, separated by `,`; a list is its elements' texts between `[` and `]`,
   * separated by `,`; any other tag is the text of its single call, and End has none.
   */
  function Text(fmt: FloatFormat, t: Tag): string
    decreases t, 1
  {
    match t
    case CompoundTag(es) => ArrayUtil.Joined("{", ",", "}", EntryTexts(fmt, es))
    case ListTag(_, elems) => ArrayUtil.Joined("[", ",", "]", ElemTexts(fmt, elems))
    case SmartListTag(w, vs) => ArrayUtil.Joined("[", ",", "]", SmartTexts(fmt, w, vs))
    case EndTag => ""
    case _ => ValueText(fmt, Accept(t))
  }

  function EntryTexts(fmt: FloatFormat, es: seq<Entry>): (r: seq<string>)
    ensures |r| == |es|
    decreases es, 0
  {
    if es == [] then [] else [KeyText(es[0].name) + ":" + Text(fmt, es[0].tag)] + EntryTexts(fmt, es[1..])
  }

  function ElemTexts(fmt: FloatFormat, elems: seq<Tag>): (r: seq<string>)
    ensures |r| == |elems|
    decreases elems, 0
  {
    if elems == [] then [] else [Text(fmt, elems[0])] + ElemTexts(fmt, elems[1..])
  }

  function SmartTexts(fmt: FloatFormat, w: Type, vs: seq<Int64>): (r: seq<string>)
    ensures |r| == |vs|
  {
    if vs == [] then [] else [ValueText(fmt, SmartIntEntry.Accept(w, vs[0]))] + SmartTexts(fmt, w, vs[1..])
  }

  /**
   * What a list or compound writer has written for some parts, given whether it was still at
   * its first part: the opening bracket or a comma, then the parts separated by commas.
   */
  function Continued(open: string, first: bool, parts: seq<string>): string
  {
    if parts == [] then "" else (if first then open else ",") + ArrayUtil.JoinParts(parts, ",")
  }

  lemma ContinuedCons(open: string, first: bool, p: string, ps: seq<string>)
    ensures Continued(open, first, [p] + ps) == (if first then open else ",") + p + Continued(open, false, ps)
  {
    ArrayUtil.JoinPartsCons(p, ps, ",");
  }

  /** The parts written from the start, then the closing call's text, are the joined parts. */
  lemma ContinuedClosed(open: string, close: string, parts: seq<string>)
    ensures Continued(open, true, parts) + (if parts == [] then open + close else close)
         == ArrayUtil.Joined(open, ",", close, parts)
  {
  }

  /** A run of writes on a stream with room for all of them appends them all. */
  lemma RunFits(capacity: nat, out: string, writes: seq<string>)
    requires |out| + |Flatten(writes)| <= capacity
    ensures RunOf(capacity, Stream(out, []), writes) == Stream(out + Flatten(writes), [])
  {
    PerformSpec(capacity, out, writes);
  }

  lemma FlattenThree(a: string, b: string, c: string)
    ensures Flatten([a, b, c]) == a + b + c
  {
    assert [a, b, c][1..] == [b, c];
    assert [b, c][1..] == [c];
    FlattenSingle(c);
  }

  // Writing a tree: with room for its text, the walk of a tree writes exactly its `Text`.

  /** Writers alive over a stream with no exception recorded. */
  function Clean(frames: seq<TextFrame>, out: string): TextState
  {
    TextState(frames, Stream(out, []))
  }

  /** A call whose writes fit appends them and moves to the writers of a done action. */
  lemma StepWrites(fmt: FloatFormat, capacity: nat, frames: seq<TextFrame>, e: Event, writes: seq<string>, after: seq<TextFrame>, out: string)
    requires StepAction(fmt, frames, e) == Write(writes)
    requires StepFrames(Decoding.Current, frames, e, true) == Some(after)
    requires |out| + |Flatten(writes)| <= capacity
    ensures TextRun(Decoding.Current, fmt, capacity, Clean(frames, out), [e]) == Some(Clean(after, out + Flatten(writes)))
  {
    TextRunOne(Decoding.Current, fmt, capacity, Clean(frames, out), e);
    RunFits(capacity, out, writes);
  }

  /** A call without output only moves to the next writers. */
  lemma StepSilent(fmt: FloatFormat, capacity: nat, frames: seq<TextFrame>, e: Event, after: seq<TextFrame>, out: string)
    requires StepAction(fmt, frames, e) == Nothing
    requires StepFrames(Decoding.Current, frames, e, true) == Some(after)
    ensures TextRun(Decoding.Current, fmt, capacity, Clean(frames, out), [e]) == Some(Clean(after, out))
  {
    TextRunOne(Decoding.Current, fmt, capacity, Clean(frames, out), e);
  }

  /** A value call on a value writer writes the value's text and finishes the writer. */
  lemma TextLeaf(fmt: FloatFormat, capacity: nat, below: seq<TextFrame>, out: string, e: Event)
    requires IsValueCall(e) && e != VisitCompound && e != VisitList && e != VisitEnd
    requires |out| + |ValueText(fmt, e)| <= capacity
    ensures TextRun(Decoding.Current, fmt, capacity, Clean(below + [ValueWriter], out), [e])
         == Some(Clean(below, out + ValueText(fmt, e)))
  {
    var frames := below + [ValueWriter];
    assert frames[..|frames| - 1] == below;
    FlattenSingle(ValueText(fmt, e));
    StepWrites(fmt, capacity, frames, e, [ValueText(fmt, e)], below, out);
  }

  /**
   * With room for the text of a tree without End values, the walk of the tree on a value
   * writer appends exactly that text and finishes the writer, recording no exception.
   */
  lemma {:induction false} TextWalk(fmt: FloatFormat, capacity: nat, below: seq<TextFrame>, out: string, t: Tag)
    requires NoEnd(t) && |out| + |Text(fmt, t)| <= capacity
    ensures TextRun(Decoding.Current, fmt, capacity, Clean(below + [ValueWriter], out), Walk(t))
         == Some(Clean(below, out + Text(fmt, t)))
    decreases t, 1
  {
    match t
    case CompoundTag(es) => TextCompound(fmt, capacity, below, out, es);
    case ListTag(et, elems) => TextList(fmt, capacity, below, out, et, elems);
    case SmartListTag(w, vs) => TextSmartList(fmt, capacity, below, out, w, vs);
    case EndTag => assert false;
    case _ => TextLeaf(fmt, capacity, below, out, Accept(t));
  }

  lemma {:induction false} TextCompound(fmt: FloatFormat, capacity: nat, below: seq<TextFrame>, out: string, es: seq<Entry>)
    requires NoEnd(CompoundTag(es)) && |out| + |Text(fmt, CompoundTag(es))| <= capacity
    ensures TextRun(Decoding.Current, fmt, capacity, Clean(below + [ValueWriter], out), Walk(CompoundTag(es)))
         == Some(Clean(below, out + Text(fmt, CompoundTag(es))))
    decreases es, 2
  {
    var parts := EntryTexts(fmt, es);
    var body := Continued("{", true, parts);
    var close := if parts == [] then "{}" else "}";
    ContinuedClosed("{", "}", parts);
    assert body + close == Text(fmt, CompoundTag(es));
    CompoundOpenText(fmt, capacity, below, out);
    TextEntries(fmt, capacity, below, true, out, es);
    CompoundCloseText(fmt, capacity, below, es == [], out + body);
    TextRunChain3(Decoding.Current, fmt, capacity, Clean(below + [ValueWriter], out), [VisitCompound], WalkEntries(es), [VisitEnd],
                  Clean(below + [CompoundWriter(true)], out), Clean(below + [CompoundWriter(true && es == [])], out + body),
                  Clean(below, out + body + close));
    Associate<char>(out, body, close, []);
  }

  lemma CompoundOpenText(fmt: FloatFormat, capacity: nat, below: seq<TextFrame>, out: string)
    ensures TextRun(Decoding.Current, fmt, capacity, Clean(below + [ValueWriter], out), [VisitCompound])
         == Some(Clean(below + [CompoundWriter(true)], out))
  {
    var frames := below + [ValueWriter];
    assert frames[..|frames| - 1] == below;
    StepSilent(fmt, capacity, frames, VisitCompound, below + [CompoundWriter(true)], out);
  }

  lemma CompoundCloseText(fmt: FloatFormat, capacity: nat, below: seq<TextFrame>, first: bool, out: string)
    requires |out| + (if first then 2 else 1) <= capacity
    ensures TextRun(Decoding.Current, fmt, capacity, Clean(below + [CompoundWriter(first)], out), [VisitEnd])
         == Some(Clean(below, out + (if first then "{}" else "}")))
  {
    var frames := below + [CompoundWriter(first)];
    assert frames[..|frames| - 1] == below;
    FlattenSingle(if first then "{}" else "}");
    StepWrites(fmt, capacity, frames, VisitEnd, [if first then "{}" else "}"], below, out);
  }

  /** A key call writes the separator, the key and `:`, and opens a value writer. */
  lemma KeyStepText(fmt: FloatFormat, capacity: nat, below: seq<TextFrame>, first: bool, out: string, k: string)
    requires |out| + |(if first then "{" else ",") + KeyText(k) + ":"| <= capacity
    ensures TextRun(Decoding.Current, fmt, capacity, Clean(below + [CompoundWriter(first)], out), [VisitKey(k)])
         == Some(Clean(below + [CompoundWriter(false)] + [ValueWriter], out + ((if first then "{" else ",") + KeyText(k) + ":")))
  {
    var frames := below + [CompoundWriter(first)];
    assert frames[..|frames| - 1] == below;
    assert below + [CompoundWriter(false)] + [ValueWriter] == below + [CompoundWriter(false), ValueWriter];
    var writes := [if first then "{" else ",", KeyText(k), ":"];
    FlattenThree(writes[0], writes[1], writes[2]);
    StepWrites(fmt, capacity, frames, VisitKey(k), writes, below + [CompoundWriter(false), ValueWriter], out);
  }

  /** The entries of a compound, from a compound writer whose flag is `first`. */
  lemma {:induction false} TextEntries(fmt: FloatFormat, capacity: nat, below: seq<TextFrame>, first: bool, out: string, es: seq<Entry>)
    requires forall i :: 0 <= i < |es| ==> NoEnd(es[i].tag)
    requires |out| + |Continued("{", first, EntryTexts(fmt, es))| <= capacity
    ensures TextRun(Decoding.Current, fmt, capacity, Clean(below + [CompoundWriter(first)], out), WalkEntries(es))
         == Some(Clean(below + [CompoundWriter(first && es == [])], out + Continued("{", first, EntryTexts(fmt, es))))
    decreases es, 0
  {
    if es == [] {
      assert out + "" == out;
    } else {
      var e := es[0];
      var key := (if first then "{" else ",") + KeyText(e.name) + ":";
      var value := Text(fmt, e.tag);
      var rest := Continued("{", false, EntryTexts(fmt, es[1..]));
      ContinuedCons("{", first, KeyText(e.name) + ":" + value, EntryTexts(fmt, es[1..]));
      assert EntryTexts(fmt, es) == [KeyText(e.name) + ":" + value] + EntryTexts(fmt, es[1..]);
      Associate<char>(if first then "{" else ",", KeyText(e.name), ":", value);
      assert Continued("{", first, EntryTexts(fmt, es)) == key + value + rest;
      var inner := below + [CompoundWriter(false)];
      KeyStepText(fmt, capacity, below, first, out, e.name);
      TextWalk(fmt, capacity, inner, out + key, e.tag);
      assert forall i :: 0 <= i < |es[1..]| ==> es[1..][i] == es[i + 1];
      TextEntries(fmt, capacity, below, false, out + key + value, es[1..]);
      TextRunChain3(Decoding.Current, fmt, capacity, Clean(below + [CompoundWriter(first)], out),
                    [VisitKey(e.name)], Walk(e.tag), WalkEntries(es[1..]),
                    Clean(inner + [ValueWriter], out + key), Clean(inner, out + key + value), Clean(inner, out + key + value + rest));
      assert out + Continued("{", first, EntryTexts(fmt, es)) == out + key + value + rest by {
        Associate<char>(out, key, value, rest);
      }
      assert WalkEntries(es) == [VisitKey(e.name)] + Walk(e.tag) + WalkEntries(es[1..]);
    }
  }

  lemma {:induction false} TextList(fmt: FloatFormat, capacity: nat, below: seq<TextFrame>, out: string, et: Type, elems: seq<Tag>)
    requires NoEnd(ListTag(et, elems)) && |out| + |Text(fmt, ListTag(et, elems))| <= capacity
    ensures TextRun(Decoding.Current, fmt, capacity, Clean(below + [ValueWriter], out), Walk(ListTag(et, elems)))
         == Some(Clean(below, out + Text(fmt, ListTag(et, elems))))
    decreases elems, 2
  {
    var parts := ElemTexts(fmt, elems);
    var body := Continued("[", true, parts);
    var close := if parts == [] then "[]" else "]";
    ContinuedClosed("[", "]", parts);
    assert body + close == Text(fmt, ListTag(et, elems));
    var header := ListHeader(et, |elems|);
    ListOpenText(fmt, capacity, below, out, header);
    TextElems(fmt, capacity, below, true, out, elems);
    ListCloseText(fmt, capacity, below, elems == [], out + body);
    TextRunChain3(Decoding.Current, fmt, capacity, Clean(below + [ValueWriter], out), header, WalkElems(elems), [VisitEnd],
                  Clean(below + [ListWriter(true)], out), Clean(below + [ListWriter(true && elems == [])], out + body),
                  Clean(below, out + body + close));
    Associate<char>(out, body, close, []);
  }

  lemma {:induction false} TextSmartList(fmt: FloatFormat, capacity: nat, below: seq<TextFrame>, out: string, w: Type, vs: seq<Int64>)
    requires |out| + |Text(fmt, SmartListTag(w, vs))| <= capacity
    ensures TextRun(Decoding.Current, fmt, capacity, Clean(below + [ValueWriter], out), Walk(SmartListTag(w, vs)))
         == Some(Clean(below, out + Text(fmt, SmartListTag(w, vs))))
  {
    var parts := SmartTexts(fmt, w, vs);
    var body := Continued("[", true, parts);
    var close := if parts == [] then "[]" else "]";
    ContinuedClosed("[", "]", parts);
    assert body + close == Text(fmt, SmartListTag(w, vs));
    var header := ListHeader(w, |vs|);
    ListOpenText(fmt, capacity, below, out, header);
    TextSmart(fmt, capacity, below, true, out, w, vs);
    ListCloseText(fmt, capacity, below, vs == [], out + body);
    TextRunChain3(Decoding.Current, fmt, capacity, Clean(below + [ValueWriter], out), header, WalkSmart(w, vs), [VisitEnd],
                  Clean(below + [ListWriter(true)], out), Clean(below + [ListWriter(true && vs == [])], out + body),
                  Clean(below, out + body + close));
    Associate<char>(out, body, close, []);
  }

  /** `visitList`, `visitType` and `visitLength` write nothing and leave a fresh list writer. */
  lemma ListOpenText(fmt: FloatFormat, capacity: nat, below: seq<TextFrame>, out: string, header: seq<Event>)
    requires |header| == 3 && header[0] == VisitList && header[1].VisitType? && header[2].VisitLength?
    ensures TextRun(Decoding.Current, fmt, capacity, Clean(below + [ValueWriter], out), header)
         == Some(Clean(below + [ListWriter(true)], out))
  {
    var frames := below + [ValueWriter];
    var inner := below + [ListWriter(true)];
    assert frames[..|frames| - 1] == below;
    assert inner[..|inner| - 1] == below;
    StepSilent(fmt, capacity, frames, VisitList, inner, out);
    StepSilent(fmt, capacity, inner, header[1], inner, out);
    StepSilent(fmt, capacity, inner, header[2], inner, out);
    assert header == [header[0]] + [header[1]] + [header[2]];
    TextRunChain(Decoding.Current, fmt, capacity, Clean(frames, out), [header[0]], [header[1]], Clean(inner, out));
    TextRunChain(Decoding.Current, fmt, capacity, Clean(frames, out), [header[0]] + [header[1]], [header[2]], Clean(inner, out));
  }

  lemma ListCloseText(fmt: FloatFormat, capacity: nat, below: seq<TextFrame>, first: bool, out: string)
    requires |out| + (if first then 2 else 1) <= capacity
    ensures TextRun(Decoding.Current, fmt, capacity, Clean(below + [ListWriter(first)], out), [VisitEnd])
         == Some(Clean(below, out + (if first then "[]" else "]")))
  {
    var frames := below + [ListWriter(first)];
    assert frames[..|frames| - 1] == below;
    FlattenSingle(if first then "[]" else "]");
    StepWrites(fmt, capacity, frames, VisitEnd, [if first then "[]" else "]"], below, out);
  }

  /** `visitValue()` on a list writer writes the separator and opens a value writer. */
  lemma ValueStepText(fmt: FloatFormat, capacity: nat, below: seq<TextFrame>, first: bool, out: string)
    requires |out| + 1 <= capacity
    ensures TextRun(Decoding.Current, fmt, capacity, Clean(below + [ListWriter(first)], out), [VisitValue])
         == Some(Clean(below + [ListWriter(false)] + [ValueWriter], out + (if first then "[" else ",")))
  {
    var frames := below + [ListWriter(first)];
    assert frames[..|frames| - 1] == below;
    assert below + [ListWriter(false)] + [ValueWriter] == below + [ListWriter(false), ValueWriter];
    FlattenSingle(if first then "[" else ",");
    StepWrites(fmt, capacity, frames, VisitValue, [if first then "[" else ","], below + [ListWriter(false), ValueWriter], out);
  }

  /** The elements of a list, from a list writer whose flag is `first`. */
  lemma {:induction false} TextElems(fmt: FloatFormat, capacity: nat, below: seq<TextFrame>, first: bool, out: string, elems: seq<Tag>)
    requires forall i :: 0 <= i < |elems| ==> NoEnd(elems[i])
    requires |out| + |Continued("[", first, ElemTexts(fmt, elems))| <= capacity
    ensures TextRun(Decoding.Current, fmt, capacity, Clean(below + [ListWriter(first)], out), WalkElems(elems))
         == Some(Clean(below + [ListWriter(first && elems == [])], out + Continued("[", first, ElemTexts(fmt, elems))))
    decreases elems, 0
  {
    if elems == [] {
      assert out + "" == out;
    } else {
      var sep := if first then "[" else ",";
      var value := Text(fmt, elems[0]);
      var rest := Continued("[", false, ElemTexts(fmt, elems[1..]));
      ContinuedCons("[", first, value, ElemTexts(fmt, elems[1..]));
      assert Continued("[", first, ElemTexts(fmt, elems)) == sep + value + rest;
      var inner := below + [ListWriter(false)];
      ValueStepText(fmt, capacity, below, first, out);
      TextWalk(fmt, capacity, inner, out + sep, elems[0]);
      assert forall i :: 0 <= i < |elems[1..]| ==> elems[1..][i] == elems[i + 1];
      TextElems(fmt, capacity, below, false, out + sep + value, elems[1..]);
      TextRunChain3(Decoding.Current, fmt, capacity, Clean(below + [ListWriter(first)], out),
                    [VisitValue], Walk(elems[0]), WalkElems(elems[1..]),
                    Clean(inner + [ValueWriter], out + sep), Clean(inner, out + sep + value), Clean(inner, out + sep + value + rest));
      assert out + Continued("[", first, ElemTexts(fmt, elems)) == out + sep + value + rest by {
        Associate<char>(out, sep, value, rest);
      }
      assert WalkElems(elems) == [VisitValue] + Walk(elems[0]) + WalkElems(elems[1..]);
    }
  }

  /** The values of a smart list, each written with the list's width. */
  lemma {:induction false} TextSmart(fmt: FloatFormat, capacity: nat, below: seq<TextFrame>, first: bool, out: string, w: Type, vs: seq<Int64>)
    requires |out| + |Continued("[", first, SmartTexts(fmt, w, vs))| <= capacity
    ensures TextRun(Decoding.Current, fmt, capacity, Clean(below + [ListWriter(first)], out), WalkSmart(w, vs))
         == Some(Clean(below + [ListWriter(first && vs == [])], out + Continued("[", first, SmartTexts(fmt, w, vs))))
    decreases |vs|
  {
    if vs == [] {
      assert out + "" == out;
    } else {
      var sep := if first then "[" else ",";
      var e := SmartIntEntry.Accept(w, vs[0]);
      var value := ValueText(fmt, e);
      var rest := Continued("[", false, SmartTexts(fmt, w, vs[1..]));
      ContinuedCons("[", first, value, SmartTexts(fmt, w, vs[1..]));
      assert Continued("[", first, SmartTexts(fmt, w, vs)) == sep + value + rest;
      var inner := below + [ListWriter(false)];
      ValueStepText(fmt, capacity, below, first, out);
      TextLeaf(fmt, capacity, inner, out + sep, e);
      TextSmart(fmt, capacity, below, false, out + sep + value, w, vs[1..]);
      TextRunChain3(Decoding.Current, fmt, capacity, Clean(below + [ListWriter(first)], out),
                    [VisitValue], [e], WalkSmart(w, vs[1..]),
                    Clean(inner + [ValueWriter], out + sep), Clean(inner, out + sep + value), Clean(inner, out + sep + value + rest));
      assert [VisitValue] + [e] == [VisitValue, e];
      assert WalkSmart(w, vs) == [VisitValue] + [e] + WalkSmart(w, vs[1..]);
      assert out + Continued("[", first, SmartTexts(fmt, w, vs)) == out + sep + value + rest by {
        Associate<char>(out, sep, value, rest);
      }
    }
  }

  // The legacy writer.

  /** The current writer's frame for a legacy one: `notFirst` is the negation of `first`. */
  function MirrorFrame(f: TextFrame): TextFrame
  {
    match f
    case LegacyCompoundWriter(notFirst) => CompoundWriter(!notFirst)
    case _ => f
  }

  function Mirror(frames: seq<TextFrame>): (r: seq<TextFrame>)
    ensures |r| == |frames|
    ensures forall i :: 0 <= i < |frames| ==> r[i] == MirrorFrame(frames[i])
  {
    if frames == [] then [] else Mirror(frames[..|frames| - 1]) + [MirrorFrame(frames[|frames| - 1])]
  }

  function MirrorState(r: Option<TextState>): Option<TextState>
  {
    match r
    case None => None
    case Some(s) => Some(TextState(Mirror(s.frames), s.st))
  }

  lemma MirrorSnoc(frames: seq<TextFrame>, f: TextFrame)
    ensures Mirror(frames + [f]) == Mirror(frames) + [MirrorFrame(f)]
  {
    assert (frames + [f])[..|frames|] == frames;
  }

  /** The two compound writers make the same writes, with the flags mirrored. */
  lemma MirrorAction(fmt: FloatFormat, frames: seq<TextFrame>, e: Event)
    ensures StepAction(fmt, Mirror(frames), e) == StepAction(fmt, frames, e)
  {
  }

  function MirrorOption(r: Option<seq<TextFrame>>): Option<seq<TextFrame>>
  {
    match r
    case None => None
    case Some(f) => Some(Mirror(f))
  }

  lemma MirrorFrames(frames: seq<TextFrame>, e: Event, done: bool)
    requires !IsArrayCall(e)
    ensures StepFrames(Decoding.Current, Mirror(frames), e, done) == MirrorOption(StepFrames(Decoding.Legacy, frames, e, done))
  {
    if frames != [] {
      var below := frames[..|frames| - 1];
      var top := frames[|frames| - 1];
      assert frames == below + [top];
      match top
      case ValueWriter => MirrorValueTop(below, e, done);
      case ListWriter(first) => MirrorListTop(below, first, e, done);
      case CompoundWriter(first) => MirrorCompoundTop(below, first, e, done);
      case LegacyCompoundWriter(notFirst) => MirrorLegacyTop(below, notFirst, e, done);
    }
  }

  lemma MirrorValueTop(below: seq<TextFrame>, e: Event, done: bool)
    requires !IsArrayCall(e)
    ensures StepFrames(Decoding.Current, Mirror(below + [ValueWriter]), e, done)
         == MirrorOption(StepFrames(Decoding.Legacy, below + [ValueWriter], e, done))
  {
    var frames := below + [ValueWriter];
    assert frames[..|frames| - 1] == below && frames[|frames| - 1] == ValueWriter;
    MirrorSnoc(below, ValueWriter);
    var m := Mirror(frames);
    assert m == Mirror(below) + [ValueWriter];
    assert m[..|m| - 1] == Mirror(below) && m[|m| - 1] == ValueWriter;
    var legacy := StepFrames(Decoding.Legacy, frames, e, done);
    if !IsValueCall(e) {
      assert legacy.None? && StepFrames(Decoding.Current, m, e, done).None?;
    } else if e == VisitCompound {
      assert legacy == Some(below + [LegacyCompoundWriter(false)]);
      assert StepFrames(Decoding.Current, m, e, done) == Some(Mirror(below) + [CompoundWriter(true)]);
      MirrorSnoc(below, LegacyCompoundWriter(false));
    } else if e == VisitList {
      assert legacy == Some(below + [ListWriter(true)]);
      assert StepFrames(Decoding.Current, m, e, done) == Some(Mirror(below) + [ListWriter(true)]);
      MirrorSnoc(below, ListWriter(true));
    } else {
      assert legacy == Some(below);
      assert StepFrames(Decoding.Current, m, e, done) == Some(Mirror(below));
    }
  }

  /** The list writer: the same in both snapshots. */
  lemma MirrorListTop(below: seq<TextFrame>, first: bool, e: Event, done: bool)
    ensures StepFrames(Decoding.Current, Mirror(below + [ListWriter(first)]), e, done)
         == MirrorOption(StepFrames(Decoding.Legacy, below + [ListWriter(first)], e, done))
  {
    var frames := below + [ListWriter(first)];
    assert frames[..|frames| - 1] == below && frames[|frames| - 1] == ListWriter(first);
    MirrorSnoc(below, ListWriter(first));
    var m := Mirror(frames);
    assert m == Mirror(below) + [ListWriter(first)];
    assert m[..|m| - 1] == Mirror(below) && m[|m| - 1] == ListWriter(first);
    var legacy := StepFrames(Decoding.Legacy, frames, e, done);
    if e.VisitType? || e.VisitLength? {
      assert legacy == Some(frames);
      assert StepFrames(Decoding.Current, m, e, done) == Some(m);
    } else if e == VisitValue {
      assert legacy == Some(below + [ListWriter(first && !done), ValueWriter]);
      assert StepFrames(Decoding.Current, m, e, done) == Some(Mirror(below) + [ListWriter(first && !done), ValueWriter]);
      MirrorPair(below, ListWriter(first && !done));
    } else if e == VisitEnd {
      assert legacy == Some(below);
      assert StepFrames(Decoding.Current, m, e, done) == Some(Mirror(below));
    } else {
      assert legacy.None? && StepFrames(Decoding.Current, m, e, done).None?;
    }
  }

  lemma MirrorCompoundTop(below: seq<TextFrame>, first: bool, e: Event, done: bool)
    ensures StepFrames(Decoding.Current, Mirror(below + [CompoundWriter(first)]), e, done)
         == MirrorOption(StepFrames(Decoding.Legacy, below + [CompoundWriter(first)], e, done))
  {
    var frames := below + [CompoundWriter(first)];
    assert frames[..|frames| - 1] == below;
    MirrorSnoc(below, CompoundWriter(first));
    assert Mirror(frames)[..|frames| - 1] == Mirror(below);
    MirrorPair(below, CompoundWriter(first && !done));
  }

  /** The legacy compound writer: its `notFirst` is the current writer's `!first`. */
  lemma MirrorLegacyTop(below: seq<TextFrame>, notFirst: bool, e: Event, done: bool)
    ensures StepFrames(Decoding.Current, Mirror(below + [LegacyCompoundWriter(notFirst)]), e, done)
         == MirrorOption(StepFrames(Decoding.Legacy, below + [LegacyCompoundWriter(notFirst)], e, done))
  {
    var frames := below + [LegacyCompoundWriter(notFirst)];
    assert frames[..|frames| - 1] == below;
    MirrorSnoc(below, LegacyCompoundWriter(notFirst));
    assert Mirror(frames)[..|frames| - 1] == Mirror(below);
    MirrorPair(below, LegacyCompoundWriter(notFirst || done));
    assert MirrorFrame(LegacyCompoundWriter(notFirst || done)) == CompoundWriter(!notFirst && !done);
  }

  /** A container with a value writer on top, mirrored. */
  lemma MirrorPair(below: seq<TextFrame>, container: TextFrame)
    ensures Mirror(below + [container, ValueWriter]) == Mirror(below) + [MirrorFrame(container), ValueWriter]
  {
    MirrorSnoc(below + [container], ValueWriter);
    MirrorSnoc(below, container);
    assert below + [container] + [ValueWriter] == below + [container, ValueWriter];
  }

  /** One call: the current writer on the mirrored frames does what the legacy writer does. */
  lemma MirrorStep(fmt: FloatFormat, capacity: nat, s: TextState, e: Event)
    requires !IsArrayCall(e)
    ensures TextStep(Decoding.Current, fmt, capacity, TextState(Mirror(s.frames), s.st), e)
         == MirrorState(TextStep(Decoding.Legacy, fmt, capacity, s, e))
  {
    MirrorAction(fmt, s.frames, e);
    var after := Apply(capacity, s.st, StepAction(fmt, s.frames, e));
    MirrorFrames(s.frames, e, after.caught == []);
  }

  /**
   * On a trace without array calls (the calls the legacy visitor interface has), the legacy
   * writer writes the same text and records the same exceptions as the current writer, and
   * its writers are the current ones with each compound writer's `notFirst` for `!first`.
   */
  lemma {:induction false} LegacyRunAgrees(fmt: FloatFormat, capacity: nat, s: TextState, trace: seq<Event>)
    requires forall i :: 0 <= i < |trace| ==> !IsArrayCall(trace[i])
    ensures TextRun(Decoding.Current, fmt, capacity, TextState(Mirror(s.frames), s.st), trace)
         == MirrorState(TextRun(Decoding.Legacy, fmt, capacity, s, trace))
    decreases |trace|
  {
    if trace != [] {
      MirrorStep(fmt, capacity, s, trace[0]);
      match TextStep(Decoding.Legacy, fmt, capacity, s, trace[0])
      case None =>
      case Some(next) =>
        assert forall i :: 0 <= i < |trace[1..]| ==> trace[1..][i] == trace[i + 1];
        LegacyRunAgrees(fmt, capacity, next, trace[1..]);
    }
  }

  /** From a fresh writer, both snapshots write the same text for a trace without array calls. */
  lemma LegacyFreshAgrees(fmt: FloatFormat, capacity: nat, trace: seq<Event>)
    requires forall i :: 0 <= i < |trace| ==> !IsArrayCall(trace[i])
    ensures var legacy := TextRun(Decoding.Legacy, fmt, capacity, Clean([ValueWriter], []), trace);
            var current := TextRun(Decoding.Current, fmt, capacity, Clean([ValueWriter], []), trace);
            && (legacy.Some? <==> current.Some?)
            && (legacy.Some? ==> legacy.value.st == current.value.st && |legacy.value.frames| == |current.value.frames|)
  {
    assert Mirror([ValueWriter]) == [ValueWriter];
    LegacyRunAgrees(fmt, capacity, Clean([ValueWriter], []), trace);
  }

  // Reading value texts back.

  /** An integer call read back from its text: the suffix names the type, no suffix is `int`. */
  function ReadInteger(t: string): Option<Event>
  {
    if t == [] then None
    else
      var last := t[|t| - 1];
      var number := if last == 'b' || last == 's' || last == 'l' then Decimal.Parse(t[..|t| - 1]) else Decimal.Parse(t);
      match number
      case None => None
      case Some(v) =>
        if last == 'b' then (if -0x80 <= v < 0x80 then Some(VisitByte(v)) else None)
        else if last == 's' then (if -0x8000 <= v < 0x8000 then Some(VisitShort(v)) else None)
        else if last == 'l' then (if -0x8000_0000_0000_0000 <= v < 0x8000_0000_0000_0000 then Some(VisitLong(v)) else None)
        else if -0x8000_0000 <= v < 0x8000_0000 then Some(VisitInt(v))
        else None
  }

  /** The text of an integer call reads back as the same call: the suffixes keep the types apart. */
  lemma IntegerTextBack(fmt: FloatFormat, e: Event)
    requires e.VisitByte? || e.VisitShort? || e.VisitInt? || e.VisitLong?
    ensures ReadInteger(ValueText(fmt, e)) == Some(e)
  {
    var t := ValueText(fmt, e);
    match e
    case VisitByte(b) =>
      assert t[..|t| - 1] == Decimal.Render(b);
      Decimal.ParseOfRender(b);
    case VisitShort(v) =>
      assert t[..|t| - 1] == Decimal.Render(v);
      Decimal.ParseOfRender(v);
    case VisitLong(l) =>
      assert t[..|t| - 1] == Decimal.Render(l);
      Decimal.ParseOfRender(l);
    case VisitInt(i) =>
      Decimal.RenderCharacters(i);
      Decimal.ParseOfRender(i);
  }

  /**
   * A key is written bare exactly when it is simple; any other key is written quoted, and what
   * is between its quotes unescapes to the key.
   */
  lemma KeyTextBack(k: string)
    ensures KeyText(k) == k <==> SimpleKey(k)
    ensures !SimpleKey(k) ==>
      (|KeyText(k)| >= 2 && StringEntry.IsQuote(KeyText(k)[0]) && StringEntry.Unescape(KeyText(k)[1..|KeyText(k)| - 1]) == k)
  {
    if !SimpleKey(k) {
      StringEntry.EscapeRoundTrip(k);
    }
  }

  /** The numbers an array call carries. */
  function ArrayValues(e: Event): seq<int>
    requires IsArrayCall(e)
  {
    match e
    case VisitByteArray(a) => a.bytes
    case VisitIntArray(a) => a.ints
    case VisitLongArray(a) => a.longs
  }

  /**
   * An array's text is `[`, its type letter and `;`, then its numbers separated by `,` and a
   * closing `]`: with the header dropped, the bracketed numbers read back as the array's.
   */
  lemma ArrayTextBack(fmt: FloatFormat, e: Event)
    requires IsArrayCall(e)
    ensures var t := ValueText(fmt, e);
      && |t| >= 4 && t[0] == '[' && t[2] == ';'
      && t[1] == (if e.VisitByteArray? then 'B' else if e.VisitIntArray? then 'I' else 'L')
      && ArrayUtil.ParseBracketed("[" + t[3..]) == Some(ArrayValues(e))
  {
    var header := if e.VisitByteArray? then "[B;" else if e.VisitIntArray? then "[I;" else "[L;";
    var t := ValueText(fmt, e);
    assert t == ArrayUtil.Joined(header, ",", "]", ArrayUtil.RenderAll(ArrayValues(e)));
    HeaderedBack(header, ArrayValues(e), t);
  }

  lemma HeaderedBack(header: string, xs: seq<int>, t: string)
    requires |header| == 3
    requires t == ArrayUtil.Joined(header, ",", "]", ArrayUtil.RenderAll(xs))
    ensures |t| >= 4 && t[0] == header[0] && t[1] == header[1] && t[2] == header[2]
    ensures ArrayUtil.ParseBracketed("[" + t[3..]) == Some(xs)
  {
    var body := ArrayUtil.JoinParts(ArrayUtil.RenderAll(xs), ",");
    assert t == header + body + "]";
    assert t[..3] == header;
    assert t[3..] == body + "]";
    assert "[" + t[3..] == ArrayUtil.Joined("[", ",", "]", ArrayUtil.RenderAll(xs));
    ArrayUtil.ParseBracketedOfJoined(xs);
  }

  // The writer objects.

  /**
   * `StringNbtWriter`: the writers alive, innermost last, over the shared stream and exception
   * list. `snap` selects the current or the legacy class; `format` is Java's float rendering.
   */
  class TextWriter {
    const snap: Decoding.Snapshot
    const format: FloatFormat
    var frames: seq<TextFrame>
    const sink: Sink<char>

    function State(): TextState
      reads this, sink
    {
      TextState(frames, sink.State())
    }

    /** `new StringNbtWriter(out)`: a value writer for the root over an empty stream. */
    constructor (snap: Decoding.Snapshot, format: FloatFormat, capacity: nat, closeFails: bool)
      ensures this.snap == snap && this.format == format
      ensures fresh(sink) && sink.capacity == capacity && sink.closeFails == closeFails
      ensures State() == Clean([ValueWriter], [])
    {
      this.snap := snap;
      this.format := format;
      frames := [ValueWriter];
      sink := new Sink(capacity, closeFails);
    }

    /**
     * One call on the innermost writer, as `TextStep` says: its action goes through `run` (or,
     * for a value `visitEnd`, records the End error), and a list or compound writer's flag
     * changes only when that action was performed. A call it does not have changes nothing.
     */
    method Visit(e: Event) returns (ok: bool)
      modifies this, sink
      ensures ok <==> TextStep(snap, format, sink.capacity, old(State()), e).Some?
      ensures !ok ==> State() == old(State())
      ensures ok ==> State() == TextStep(snap, format, sink.capacity, old(State()), e).value
    {
      if frames == [] {
        return false;
      }
      var below := frames[..|frames| - 1];
      assert frames == below + [frames[|frames| - 1]];
      match frames[|frames| - 1]
      case ValueWriter => ok := VisitOnValue(below, e);
      case ListWriter(first) => ok := VisitOnList(below, first, e);
      case CompoundWriter(first) => ok := VisitOnCompound(below, first, e);
      case LegacyCompoundWriter(notFirst) => ok := VisitOnLegacyCompound(below, notFirst, e);
    }

    /** `ValueWriter`: a value call finishes it; `visitCompound` and `visitList` replace it. */
    method VisitOnValue(below: seq<TextFrame>, e: Event) returns (ok: bool)
      requires frames == below + [ValueWriter]
      modifies this, sink
      ensures ok <==> TextStep(snap, format, sink.capacity, old(State()), e).Some?
      ensures !ok ==> State() == old(State())
      ensures ok ==> State() == TextStep(snap, format, sink.capacity, old(State()), e).value
    {
      assert frames[..|frames| - 1] == below;
      if !IsValueCall(e) || (snap == Decoding.Legacy && IsArrayCall(e)) {
        return false;
      }
      ok := true;
      if e == VisitCompound {
        frames := below + [if snap == Decoding.Legacy then LegacyCompoundWriter(false) else CompoundWriter(true)];
      } else if e == VisitList {
        frames := below + [ListWriter(true)];
      } else if e == VisitEnd {
        sink.RecordFirst(EndTagInText);
        frames := below;
      } else {
        var text := ValueString(e);
        sink.Run([text]);
        frames := below;
      }
    }

    /** `ListWriter`: `[` or `,` before each value, `]` or `[]` at the end. */
    method VisitOnList(below: seq<TextFrame>, first: bool, e: Event) returns (ok: bool)
      requires frames == below + [ListWriter(first)]
      modifies this, sink
      ensures ok <==> TextStep(snap, format, sink.capacity, old(State()), e).Some?
      ensures !ok ==> State() == old(State())
      ensures ok ==> State() == TextStep(snap, format, sink.capacity, old(State()), e).value
    {
      assert frames[..|frames| - 1] == below;
      if e.VisitType? || e.VisitLength? {
        ok := true;
      } else if e == VisitValue {
        sink.Run([if first then "[" else ","]);
        frames := below + [ListWriter(if sink.caught == [] then false else first), ValueWriter];
        ok := true;
      } else if e == VisitEnd {
        sink.Run([if first then "[]" else "]"]);
        frames := below;
        ok := true;
      } else {
        ok := false;
      }
    }

    /** `CompoundWriter`: `{` or `,`, the key and `:` before each value, `}` or `{}` at the end. */
    method VisitOnCompound(below: seq<TextFrame>, first: bool, e: Event) returns (ok: bool)
      requires frames == below + [CompoundWriter(first)]
      modifies this, sink
      ensures ok <==> TextStep(snap, format, sink.capacity, old(State()), e).Some?
      ensures !ok ==> State() == old(State())
      ensures ok ==> State() == TextStep(snap, format, sink.capacity, old(State()), e).value
    {
      assert frames[..|frames| - 1] == below;
      if e.VisitKey? {
        var key := KeyString(e.key);
        sink.Run([if first then "{" else ",", key, ":"]);
        frames := below + [CompoundWriter(if sink.caught == [] then false else first), ValueWriter];
        ok := true;
      } else if e == VisitEnd {
        sink.Run([if first then "{}" else "}"]);
        frames := below;
        ok := true;
      } else {
        ok := false;
      }
    }

    /** The legacy `CompoundWriter`, whose flag `notFirst` is set by the first key. */
    method VisitOnLegacyCompound(below: seq<TextFrame>, notFirst: bool, e: Event) returns (ok: bool)
      requires frames == below + [LegacyCompoundWriter(notFirst)]
      modifies this, sink
      ensures ok <==> TextStep(snap, format, sink.capacity, old(State()), e).Some?
      ensures !ok ==> State() == old(State())
      ensures ok ==> State() == TextStep(snap, format, sink.capacity, old(State()), e).value
    {
      assert frames[..|frames| - 1] == below;
      if e.VisitKey? {
        var key := KeyString(e.key);
        sink.Run([if notFirst then "," else "{", key, ":"]);
        frames := below + [LegacyCompoundWriter(if sink.caught == [] then true else notFirst), ValueWriter];
        ok := true;
      } else if e == VisitEnd {
        sink.Run([if notFirst then "}" else "{}"]);
        frames := below;
        ok := true;
      } else {
        ok := false;
      }
    }

    /** What the value writer writes for a call, built the way the Java code builds it. */
    method ValueString(e: Event) returns (text: string)
      requires IsValueCall(e) && e != VisitCompound && e != VisitList && e != VisitEnd
      ensures text == ValueText(format, e)
    {
      match e
      case VisitByte(b) => text := Decimal.Render(b) + "b";
      case VisitShort(v) => text := Decimal.Render(v) + "s";
      case VisitInt(i) => text := Decimal.Render(i);
      case VisitLong(l) => text := Decimal.Render(l) + "l";
      case VisitFloat(f) => text := format.float(f) + "f";
      case VisitDouble(d) => text := format.double(d) + "d";
      case VisitString(str) => text := StringEntry.EscapeString(str);
      case VisitByteArray(a) => text := ArrayUtil.Join(a.bytes, "[B;", ",", "]");
      case VisitIntArray(a) => text := ArrayUtil.Join(a.ints, "[I;", ",", "]");
      case VisitLongArray(a) => text := ArrayUtil.Join(a.longs, "[L;", ",", "]");
    }

    /** `close()`: closes the stream and throws the first exception caught, if any. */
    method Close() returns (thrown: Option<Thrown>)
      modifies sink
      ensures sink.out == old(sink.out)
      ensures sink.caught == old(sink.caught) + (if sink.closeFails then [CloseFailed] else [])
      ensures thrown == ThrowOf(sink.caught)
    {
      thrown := sink.Close();
    }
  }

  /** `SIMPLE_KEY.matcher(key).matches() ? key : StringEntry.escape(key)`. */
  method KeyString(k: string) returns (text: string)
    ensures text == KeyText(k)
  {
    var simple := |k| >= 1;
    var i := 0;
    while i < |k| && simple
      invariant 0 <= i <= |k|
      invariant simple <==> |k| >= 1 && forall j :: 0 <= j < i ==> SimpleKeyChar(k[j])
    {
      simple := SimpleKeyChar(k[i]);
      i := i + 1;
    }
    if simple {
      text := k;
    } else {
      text := StringEntry.EscapeString(k);
    }
  }

  /**
   * `new StringNbtWriter(out)`, the calls of a trace in order, then `close()`. `ok` tells whether
   * every call had its receiver; then the writers and the stream end as `TextRun` says, and
   * `close()` throws the first exception recorded (a write failure or the End error), with
   * the others suppressed.
   */
  method WriteTrace(snap: Decoding.Snapshot, fmt: FloatFormat, capacity: nat, closeFails: bool, trace: seq<Event>)
    returns (ok: bool, out: string, thrown: Option<Thrown>)
    ensures ok <==> TextRun(snap, fmt, capacity, Clean([ValueWriter], []), trace).Some?
    ensures ok ==> var st := TextRun(snap, fmt, capacity, Clean([ValueWriter], []), trace).value.st;
      out == st.out && thrown == ThrowOf(st.caught + (if closeFails then [CloseFailed] else []))
  {
    var start := Clean([ValueWriter], []);
    var w := new TextWriter(snap, fmt, capacity, closeFails);
    var i := 0;
    while i < |trace|
      invariant 0 <= i <= |trace|
      invariant w.snap == snap && w.format == fmt
      invariant w.sink.capacity == capacity && w.sink.closeFails == closeFails
      invariant TextRun(snap, fmt, capacity, start, trace[..i]) == Some(w.State())
    {
      ghost var mid := w.State();
      var accepted := w.Visit(trace[i]);
      if !accepted {
        TraceNoReceiver(snap, fmt, capacity, start, trace, i, mid);
        return false, w.sink.out, None;
      }
      TraceOneMore(snap, fmt, capacity, start, trace, i, mid);
      i := i + 1;
    }
    assert trace[..i] == trace;
    out := w.sink.out;
    thrown := w.Close();
    ok := true;
  }

  /**
   * Writing a tree without End values, on a stream with room for its text: the stream ends up
   * holding exactly `Text`, and `close()` throws only a failure of the stream's own close.
   */
  method WriteTree(fmt: FloatFormat, capacity: nat, closeFails: bool, t: Tag) returns (out: string, thrown: Option<Thrown>)
    requires NoEnd(t) && |Text(fmt, t)| <= capacity
    ensures out == Text(fmt, t)
    ensures thrown == if closeFails then Some(Thrown(CloseFailed, [])) else None
  {
    TextWalk(fmt, capacity, [], [], t);
    assert [] + [ValueWriter] == [ValueWriter];
    assert [] + Text(fmt, t) == Text(fmt, t);
    var ok;
    ok, out, thrown := WriteTrace(Decoding.Current, fmt, capacity, closeFails, Walk(t));
    CloseAfterRuns(Stream(Text(fmt, t), []), closeFails);
  }

  /** A call without a receiver fails the whole trace. */
  lemma TraceNoReceiver(snap: Decoding.Snapshot, fmt: FloatFormat, capacity: nat, start: TextState, trace: seq<Event>, i: nat, mid: TextState)
    requires i < |trace| && TextRun(snap, fmt, capacity, start, trace[..i]) == Some(mid)
    requires TextStep(snap, fmt, capacity, mid, trace[i]).None?
    ensures TextRun(snap, fmt, capacity, start, trace).None?
  {
    TextRunChain(snap, fmt, capacity, start, trace[..i], trace[i..], mid);
    assert trace[..i] + trace[i..] == trace;
    assert trace[i..][0] == trace[i];
  }

  /** A call with a receiver extends the run by its step. */
  lemma TraceOneMore(snap: Decoding.Snapshot, fmt: FloatFormat, capacity: nat, start: TextState, trace: seq<Event>, i: nat, mid: TextState)
    requires i < |trace| && TextRun(snap, fmt, capacity, start, trace[..i]) == Some(mid)
    requires TextStep(snap, fmt, capacity, mid, trace[i]).Some?
    ensures TextRun(snap, fmt, capacity, start, trace[..i + 1]) == TextStep(snap, fmt, capacity, mid, trace[i])
  {
    TextRunChain(snap, fmt, capacity, start, trace[..i], [trace[i]], mid);
    TextRunOne(snap, fmt, capacity, mid, trace[i]);
    assert trace[..i] + [trace[i]] == trace[..i + 1];
  }
}
