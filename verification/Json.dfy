/** The JSON values that requests, packets, events and receipts are made of. */
module Json {

  datatype Json =
    | Null
    | Bool(b: bool)
    | Int(i: int)
    | Str(s: string)
    | List(items: seq<Json>)
    | Obj(fields: Object)

  type Object = map<string, Json>

  /** `o.get(key)`: a missing key reads as null. */
  function Get(o: Object, key: string): Json {
    if key in o then o[key] else Null
  }

  /** Python truth value. */
  predicate Truthy(j: Json) {
    match j
    case Null => false
    case Bool(b) => b
    case Int(i) => i != 0
    case Str(s) => s != ""
    case List(items) => items != []
    case Obj(fields) => fields != map[]
  }

  /** The falsy values, one of each kind. */
  lemma {:induction false} FalsyValues(j: Json)
    ensures Truthy(j) <==> j !in {Null, Bool(false), Int(0), Str(""), List([]), Obj(map[])}
  {
    assert j.Obj? && j.fields == map[] ==> j == Obj(map[]);
  }

  predicate NonEmptyString(j: Json) {
    j.Str? && j.s != ""
  }

  predicate StringList(j: Json) {
    j.List? && forall i :: 0 <= i < |j.items| ==> NonEmptyString(j.items[i])
  }

  /** The strings of a list that passed `StringList`. */
  function Strings(items: seq<Json>): (r: seq<string>)
    requires forall i :: 0 <= i < |items| ==> items[i].Str?
    ensures |r| == |items|
  {
    seq(|items|, i requires 0 <= i < |items| => items[i].s)
  }

  function StrList(xs: seq<string>): Json {
    List(seq(|xs|, i requires 0 <= i < |xs| => Str(xs[i])))
  }

  /** Such a list is one of non-empty strings, and they are read in its order. */
  lemma {:induction false} StringListMeans(j: Json)
    ensures StringList(j) <==> exists xs :: j == StrList(xs) && forall i :: 0 <= i < |xs| ==> xs[i] != ""
    ensures StringList(j) ==> StrList(Strings(j.items)) == j
  {
    if StringList(j) {
      assert StrList(Strings(j.items)).items == j.items;
    }
  }

  /** `isinstance(value, int)`: Python counts booleans as the integers 0 and 1. */
  predicate IsInteger(j: Json) {
    j.Int? || j.Bool?
  }

  function IntegerValue(j: Json): int
    requires IsInteger(j)
  {
    if j.Int? then j.i else if j.b then 1 else 0
  }

  /** The hash tells two values apart. Statements that a hash pins content ask this of the values they
      compare and of no others, so a hash of fixed length can meet them. */
  predicate TellsApart<T(==)>(hash: T -> string, x: T, y: T) {
    hash(x) == hash(y) ==> x == y
  }
}
