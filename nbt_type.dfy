/**
 * The tag type enumeration and its id lookup, for both snapshots: the current one
 * (ids 0 to 12) and the legacy one (ids 0 to 10, a stream search over the constants).
 */
module NBTType {
  import opened Wrappers

  datatype Type =
    | End | Byte | Short | Int | Long | Float | Double
    | ByteArray | String | List | Compound | IntArray | LongArray

  /** The constant's `id` field, as given in the enum declaration. */
  function Id(t: Type): nat
  {
    match t
    case End => 0
    case Byte => 1
    case Short => 2
    case Int => 3
    case Long => 4
    case Float => 5
    case Double => 6
    case ByteArray => 7
    case String => 8
    case List => 9
    case Compound => 10
    case IntArray => 11
    case LongArray => 12
  }

  /** `values()`: the constants in declaration order. */
  const Values: seq<Type> :=
    [End, Byte, Short, Int, Long, Float, Double, ByteArray, String, List, Compound, IntArray, LongArray]

  /** The exception `getById` throws for an id no constant has. */
  datatype LookupError = NoSuchElement(id: int)

  /** The current snapshot's `getById`: a bounds check, then an index into `values()`. */
  function GetById(id: int): (r: Result<Type, LookupError>)
    ensures r.Success? <==> 0 <= id <= 12
    ensures r.Success? ==> Id(r.value) == id
    ensures r.Failure? ==> r.error == NoSuchElement(id)
  {
    if id < 0 || id >= |Values| then Failure(NoSuchElement(id)) else Success(Values[id])
  }

  /** Ids are distinct, and each constant sits at the index of its own id. */
  lemma IdsConsecutive(t: Type, u: Type)
    ensures Id(t) < |Values| && Values[Id(t)] == t
    ensures Id(t) == Id(u) ==> t == u
  {
  }

  /** Looking up a constant's own id gives the constant back. */
  lemma GetByIdOfId(t: Type)
    ensures GetById(Id(t)) == Success(t)
  {
    IdsConsecutive(t, t);
  }

  /** The legacy snapshot declares only the first eleven constants (End to Compound). */
  predicate InLegacy(t: Type)
  {
    Id(t) <= 10
  }

  const LegacyValues: seq<Type> := Values[..11]

  /** A stream `filter(t -> t.id == id).findFirst()` over a sequence of constants. */
  function FindFirst(values: seq<Type>, id: int): (r: Option<Type>)
    ensures r.Some? ==> r.value in values && Id(r.value) == id
    ensures r.None? ==> forall t :: t in values ==> Id(t) != id
  {
    if values == [] then None
    else if Id(values[0]) == id then Some(values[0])
    else FindFirst(values[1..], id)
  }

  /** The legacy `getById`: `Optional.get` on the search result throws when nothing matched. */
  function LegacyGetById(id: int): Result<Type, LookupError>
  {
    match FindFirst(LegacyValues, id)
    case Some(t) => Success(t)
    case None => Failure(NoSuchElement(id))
  }

  /**
   * The legacy lookup succeeds exactly for ids 0 to 10, there agrees with the current one,
   * and fails (also for 11 and 12) with NoSuchElement otherwise.
   */
  lemma LegacyGetByIdSpec(id: int)
    ensures LegacyGetById(id).Success? <==> 0 <= id <= 10
    ensures 0 <= id <= 10 ==> LegacyGetById(id) == GetById(id)
    ensures LegacyGetById(id).Success? ==> InLegacy(LegacyGetById(id).value)
    ensures LegacyGetById(id).Failure? ==> LegacyGetById(id).error == NoSuchElement(id)
  {
    if 0 <= id <= 10 {
      assert LegacyValues[id] in LegacyValues && Id(LegacyValues[id]) == id;
    }
  }

  /** The legacy search returns the only constant with the id, because ids are unique. */
  lemma LegacyGetByIdOfId(t: Type)
    requires InLegacy(t)
    ensures LegacyGetById(Id(t)) == Success(t)
  {
    IdsConsecutive(t, t);
    assert LegacyValues[Id(t)] == t;
    var r := FindFirst(LegacyValues, Id(t));
    assert r.Some?;
    IdsConsecutive(r.value, t);
  }
}
