/**
 * The pass-through visitors (`AbstractNBTValueVisitor`, `AbstractNBTListVisitor`,
 * `AbstractNBTCompoundVisitor`). Each wraps a parent that may be null. With a parent, every call
 * is forwarded to it unchanged and the child visitors are the parent's own; without one, nothing
 * is forwarded and the child visitors are new pass-through visitors without a parent.
 */
module Decorators {
  import opened Wrappers
  import opened Events

  /** One live pass-through visitor: its interface, and whether it has a parent. */
  datatype PassFrame = PassFrame(role: Role, forwarding: bool)

  function Roles(frames: seq<PassFrame>): (r: seq<Role>)
    ensures |r| == |frames|
    ensures forall i :: 0 <= i < |frames| ==> r[i] == frames[i].role
  {
    if frames == [] then [] else Roles(frames[..|frames| - 1]) + [frames[|frames| - 1].role]
  }

  /**
   * One call on the innermost visitor: what reaches the parent, and the visitors alive
   * afterwards. `visitCompound`, `visitList` and `visitValue` hand out the parent's visitor,
   * which forwards to the parent as well, or a new pass-through visitor without a parent.
   */
  function PassStep(frames: seq<PassFrame>, e: Event): (r: Option<(seq<PassFrame>, seq<Event>)>)
    ensures r.Some? <==> Protocol(Roles(frames), e).Some?
    ensures r.Some? ==> Roles(r.value.0) == Protocol(Roles(frames), e).value
    ensures r.Some? && frames[|frames| - 1].forwarding ==> r.value.1 == [e]
    ensures r.Some? && !frames[|frames| - 1].forwarding ==> r.value.1 == []
    ensures r.Some? ==> forall i :: 0 <= i < |r.value.0| ==>
      r.value.0[i] == if i < |frames| - 1 then frames[i] else PassFrame(r.value.0[i].role, frames[|frames| - 1].forwarding)
  {
    if frames == [] then None
    else
      var below := frames[..|frames| - 1];
      var top := frames[|frames| - 1];
      var out := if top.forwarding then [e] else [];
      assert Roles(frames)[..|frames| - 1] == Roles(below);
      match top.role
      case ValueRole =>
        if !IsValueCall(e) then None
        else if e == VisitCompound then Some((below + [PassFrame(CompoundRole, top.forwarding)], out))
        else if e == VisitList then Some((below + [PassFrame(ListRole, top.forwarding)], out))
        else Some((below, out))
      case ListRole =>
        if e.VisitType? || e.VisitLength? then Some((frames, out))
        else if e == VisitValue then Some((frames + [PassFrame(ValueRole, top.forwarding)], out))
        else if e == VisitEnd then Some((below, out))
        else None
      case CompoundRole =>
        if e.VisitKey? then Some((frames + [PassFrame(ValueRole, top.forwarding)], out))
        else if e == VisitEnd then Some((below, out))
        else None
  }

  /** Everything a trace of calls forwards to the parents, or `None` on a misused visitor. */
  function PassRun(frames: seq<PassFrame>, trace: seq<Event>): Option<seq<Event>>
    decreases |trace|
  {
    if trace == [] then Some([])
    else match PassStep(frames, trace[0])
      case None => None
      case Some((next, out)) =>
        match PassRun(next, trace[1..])
        case None => None
        case Some(rest) => Some(out + rest)
  }

  predicate AllForwarding(frames: seq<PassFrame>, f: bool)
  {
    forall i :: 0 <= i < |frames| ==> frames[i].forwarding == f
  }

  /**
   * A pass-through stack whose visitors all have a parent forwards a well-formed trace
   * unchanged; one whose visitors have none forwards nothing.
   */
  lemma {:induction false} PassRunForwards(frames: seq<PassFrame>, f: bool, trace: seq<Event>)
    requires AllForwarding(frames, f)
    requires Run(Roles(frames), trace).Some?
    ensures PassRun(frames, trace) == Some(if f then trace else [])
    decreases |trace|
  {
    if trace != [] {
      var step := PassStep(frames, trace[0]);
      assert step.Some?;
      var next := step.value.0;
      assert Roles(next) == Protocol(Roles(frames), trace[0]).value;
      assert Run(Roles(next), trace[1..]).Some?;
      assert AllForwarding(next, f) by {
        forall i | 0 <= i < |next|
          ensures next[i].forwarding == f
        {
          assert next[i] == if i < |frames| - 1 then frames[i] else PassFrame(next[i].role, frames[|frames| - 1].forwarding);
        }
      }
      PassRunForwards(next, f, trace[1..]);
      assert frames != [] && frames[|frames| - 1].forwarding == f;
      assert step.value.1 == if f then [trace[0]] else [];
      assert PassRun(frames, trace) == Some(step.value.1 + PassRun(next, trace[1..]).value);
      if f {
        assert [trace[0]] + trace[1..] == trace;
      } else {
        assert step.value.1 + PassRun(next, trace[1..]).value == [];
      }
    }
  }

  /** The decorators over one root value visitor, with or without a parent. */
  lemma PassThroughValue(hasParent: bool, trace: seq<Event>)
    requires Complete(trace)
    ensures PassRun([PassFrame(ValueRole, hasParent)], trace) == Some(if hasParent then trace else [])
  {
    assert Roles([PassFrame(ValueRole, hasParent)]) == [ValueRole];
    PassRunForwards([PassFrame(ValueRole, hasParent)], hasParent, trace);
  }
}
