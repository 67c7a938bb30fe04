/**
 * The element of a smart integer list (`SmartIntEntry`): it stores a `long` and takes its type
 * from the list it belongs to, so that the whole list is written with one width, the narrowest
 * that holds every element.
 */
module SmartIntEntry {
  import opened Wrappers
  import opened Binary
  import opened NBTType
  import opened Events

  /** The four integer types a smart list can have. */
  predicate IsWidth(t: Type)
  {
    t == Byte || t == Short || t == Int || t == Long
  }

  /** Their byte widths. */
  function Bytes(t: Type): Width
    requires IsWidth(t)
  {
    match t
    case Byte => 1
    case Short => 2
    case Int => 4
    case Long => 8
  }

  /** Their order from narrow to wide. */
  function Rank(t: Type): nat
    requires IsWidth(t)
  {
    match t
    case Byte => 0
    case Short => 1
    case Int => 2
    case Long => 3
  }

  /** `l` lies between the type's `MIN_VALUE` and `MAX_VALUE`. */
  predicate Fits(l: int, t: Type)
    requires IsWidth(t)
  {
    InSigned(l, Bytes(t))
  }

  /** A value that fits a type fits every wider one. */
  lemma FitsWider(l: int, t: Type, u: Type)
    requires IsWidth(t) && IsWidth(u) && Rank(t) <= Rank(u) && Fits(l, t)
    ensures Fits(l, u)
  {
  }

  /** The narrowest of Byte, Short, Int and Long that holds `l`. */
  function Narrowest(l: Int64): (t: Type)
    ensures IsWidth(t) && Fits(l, t)
    ensures forall u :: IsWidth(u) && Fits(l, u) ==> Rank(t) <= Rank(u)
  {
    if Fits(l, Byte) then Byte
    else if Fits(l, Short) then Short
    else if Fits(l, Int) then Int
    else Long
  }

  /** The wider of two integer types. */
  function MaxWidth(t: Type, u: Type): (r: Type)
    requires IsWidth(t) && IsWidth(u)
    ensures IsWidth(r) && Rank(r) >= Rank(t) && Rank(r) >= Rank(u)
    ensures r == t || r == u
  {
    if Rank(t) >= Rank(u) then t else u
  }

  /** The integer a scalar visit carries. */
  function EventValue(e: Event): Option<int>
  {
    match e
    case VisitByte(b) => Some(b)
    case VisitShort(s) => Some(s)
    case VisitInt(i) => Some(i)
    case VisitLong(l) => Some(l)
    case _ => None
  }

  /**
   * `accept`: one visit whose kind is the parent's current width (`visitLong` for anything that
   * is not Byte, Short or Int), with the value narrowed the way a Java cast narrows it.
   */
  function Accept(parentWidth: Type, l: Int64): (e: Event)
    ensures e.VisitByte? <==> parentWidth == Byte
    ensures e.VisitShort? <==> parentWidth == Short
    ensures e.VisitInt? <==> parentWidth == Int
    ensures e.VisitLong? <==> !(parentWidth == Byte || parentWidth == Short || parentWidth == Int)
    ensures EventValue(e).Some?
    ensures IsWidth(parentWidth) && Fits(l, parentWidth) ==> EventValue(e) == Some(l)
  {
    match parentWidth
    case Byte => VisitByte(Wrap(l, 1))
    case Short => VisitShort(Wrap(l, 2))
    case Int => VisitInt(Wrap(l, 4))
    case _ => VisitLong(l)
  }

  /**
   * `NBTSmartIntList.accomodateFor`: the `switch` on the current width, whose cases fall
   * through, widens step by step while `l` does not fit.
   */
  function AccomodateFor(width: Type, l: Int64): (r: Type)
    ensures IsWidth(width) ==> r == MaxWidth(width, Narrowest(l))
    ensures !IsWidth(width) ==> r == width
  {
    var fromByte := width == Byte;
    var fromShort := fromByte || width == Short;
    var fromInt := fromShort || width == Int;
    var w1 := if fromByte && !Fits(l, Byte) then Short else width;
    var w2 := if fromShort && !Fits(l, Short) then Int else w1;
    if fromInt && !Fits(l, Int) then Long else w2
  }
}
