/**
 * The `JsonValue` type of src/components/JSONViewer.tsx:8-14 and the facts
 * `renderValue` computes about one node: whether it can be expanded and how
 * many items it holds.
 *
 * Numbers carry an `int` payload: the viewer never computes with them.
 * An object is its entries in `Object.entries` order, as a sequence of
 * members; JavaScript objects never repeat a key, which `WellFormed` states.
 */
module JsonValues {

  datatype Json =
    | JNull
    | JBool(b: bool)
    | JNumber(n: int)
    | JString(s: string)
    | JArray(items: seq<Json>)
    | JObject(members: seq<Member>)

  datatype Member = Member(key: string, value: Json)

  /** JavaScript's `typeof` on a JSON value: arrays and `null` are "object". */
  function TypeOf(v: Json): string {
    match v
    case JBool(_) => "boolean"
    case JNumber(_) => "number"
    case JString(_) => "string"
    case _ => "object"
  }

  /** `typeof value === "object" && value !== null`. */
  predicate IsExpandable(v: Json) {
    TypeOf(v) == "object" && v != JNull
  }

  /** `Object.keys` of an object value: its keys in entry order. */
  function Keys(members: seq<Member>): (ks: seq<string>)
    ensures |ks| == |members|
    ensures forall i :: 0 <= i < |members| ==> ks[i] == members[i].key
  {
    if members == [] then [] else [members[0].key] + Keys(members[1..])
  }

  /** Array length, number of object keys, and 0 for every primitive. */
  function ItemCount(v: Json): nat {
    if IsExpandable(v) then
      if v.JArray? then |v.items| else |Keys(v.members)|
    else 0
  }

  /** Exactly arrays and objects are expandable, and only they count items. */
  lemma ExpandableIsContainer(v: Json)
    ensures IsExpandable(v) <==> v.JArray? || v.JObject?
    ensures v.JArray? ==> ItemCount(v) == |v.items|
    ensures v.JObject? ==> ItemCount(v) == |v.members|
    ensures !IsExpandable(v) ==> ItemCount(v) == 0
  {
  }

  /** No element occurs twice. */
  predicate Distinct<T(==)>(s: seq<T>) {
    forall i, j :: 0 <= i < j < |s| ==> s[i] != s[j]
  }

  /** An object's keys are pairwise distinct. */
  predicate UniqueKeys(members: seq<Member>) {
    Distinct(Keys(members))
  }

  /** Every object in the value, at any depth, has pairwise distinct keys. */
  predicate WellFormed(v: Json) {
    match v
    case JArray(items) => forall i :: 0 <= i < |items| ==> WellFormed(items[i])
    case JObject(ms) =>
      UniqueKeys(ms) && forall i :: 0 <= i < |ms| ==> WellFormed(ms[i].value)
    case _ => true
  }

  /** Number of nodes of the value, itself included. */
  function Size(v: Json): (n: nat)
    ensures n >= 1
  {
    match v
    case JArray(items) => 1 + SizeItems(items)
    case JObject(ms) => 1 + SizeMembers(ms)
    case _ => 1
  }

  function SizeItems(items: seq<Json>): (n: nat)
    ensures n >= |items|
  {
    if items == [] then 0 else Size(items[0]) + SizeItems(items[1..])
  }

  function SizeMembers(ms: seq<Member>): (n: nat)
    ensures n >= |ms|
  {
    if ms == [] then 0 else Size(ms[0].value) + SizeMembers(ms[1..])
  }
}
