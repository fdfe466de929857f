/**
 * The structured location of every node of a JSON value: the sequence of
 * array indices and object keys that leads from the value to the node, in
 * the pre-order in which the viewer visits nodes (indices in order, entries
 * in order, each node before its children).
 */
module NodeLocations {
  import opened JsonValues
  import opened Paths

  /** Puts the step `s` in front of each location of `ls`. */
  function Under(s: Seg, ls: seq<seq<Seg>>): (r: seq<seq<Seg>>)
    ensures |r| == |ls|
    ensures forall i :: 0 <= i < |ls| ==> r[i] == [s] + ls[i]
  {
    seq(|ls|, i requires 0 <= i < |ls| => [s] + ls[i])
  }

  /** Locations of all nodes of `v`, relative to `v`, in pre-order. */
  function Locations(v: Json): (ls: seq<seq<Seg>>)
    ensures |ls| >= 1 && ls[0] == []
  {
    match v
    case JArray(items) => [[]] + ItemLocations(items, 0)
    case JObject(ms) => [[]] + MemberLocations(ms)
    case _ => [[]]
  }

  /** Locations below the elements of an array, the first at index `start`. */
  function ItemLocations(items: seq<Json>, start: nat): seq<seq<Seg>> {
    if items == [] then []
    else Under(Index(start), Locations(items[0])) + ItemLocations(items[1..], start + 1)
  }

  /** Locations below the members of an object, in entry order. */
  function MemberLocations(ms: seq<Member>): seq<seq<Seg>> {
    if ms == [] then []
    else Under(Key(ms[0].key), Locations(ms[0].value)) + MemberLocations(ms[1..])
  }

  /** Every object key at every depth is free of '.', '[' and ']'. */
  predicate PlainKeys(v: Json) {
    match v
    case JArray(items) => forall i :: 0 <= i < |items| ==> PlainKeys(items[i])
    case JObject(ms) =>
      forall i :: 0 <= i < |ms| ==> PlainKey(ms[i].key) && PlainKeys(ms[i].value)
    case _ => true
  }

  // ---------------------------------------------------------------------
  // There is one location per node
  // ---------------------------------------------------------------------

  lemma {:induction false} LocationsCount(v: Json)
    ensures |Locations(v)| == Size(v)
    decreases v, 1
  {
    match v
    case JArray(items) => ItemLocationsCount(items, 0);
    case JObject(ms) => MemberLocationsCount(ms);
    case _ =>
  }

  lemma {:induction false} ItemLocationsCount(items: seq<Json>, start: nat)
    ensures |ItemLocations(items, start)| == SizeItems(items)
    decreases items, 0
  {
    if items != [] {
      LocationsCount(items[0]);
      ItemLocationsCount(items[1..], start + 1);
    }
  }

  lemma {:induction false} MemberLocationsCount(ms: seq<Member>)
    ensures |MemberLocations(ms)| == SizeMembers(ms)
    decreases ms, 0
  {
    if ms != [] {
      LocationsCount(ms[0].value);
      MemberLocationsCount(ms[1..]);
    }
  }

  // ---------------------------------------------------------------------
  // Distinct nodes have distinct locations
  // ---------------------------------------------------------------------

  lemma DistinctUnder(s: Seg, ls: seq<seq<Seg>>)
    requires Distinct(ls)
    ensures Distinct(Under(s, ls))
  {
    var r := Under(s, ls);
    forall i, j | 0 <= i < j < |r| ensures r[i] != r[j] {
      assert r[i][1..] == ls[i];
      assert r[j][1..] == ls[j];
    }
  }

  lemma DistinctAppend<T>(a: seq<T>, b: seq<T>)
    requires Distinct(a) && Distinct(b)
    requires forall i, j :: 0 <= i < |a| && 0 <= j < |b| ==> a[i] != b[j]
    ensures Distinct(a + b)
  {
  }

  lemma {:induction false} LocationsDistinct(v: Json)
    requires WellFormed(v)
    ensures Distinct(Locations(v))
    decreases v, 1
  {
    match v
    case JArray(items) =>
      ItemLocationsDistinct(items, 0);
      var below := ItemLocations(items, 0);
      forall j | 0 <= j < |below| ensures below[j] != [] {
        assert below[j] in below;
      }
      DistinctAppend([[]], ItemLocations(items, 0));
    case JObject(ms) =>
      MemberLocationsDistinct(ms);
      var below := MemberLocations(ms);
      forall j | 0 <= j < |below| ensures below[j] != [] {
        assert below[j] in below;
      }
      DistinctAppend([[]], MemberLocations(ms));
    case _ =>
  }

  lemma {:induction false} ItemLocationsDistinct(items: seq<Json>, start: nat)
    requires forall i :: 0 <= i < |items| ==> WellFormed(items[i])
    ensures Distinct(ItemLocations(items, start))
    ensures forall l: seq<Seg> :: l in ItemLocations(items, start) ==> l != [] && l[0].Index? && start <= l[0].i < start + |items|
    decreases items, 0
  {
    if items != [] {
      var head := Under(Index(start), Locations(items[0]));
      var tail := ItemLocations(items[1..], start + 1);
      LocationsDistinct(items[0]);
      DistinctUnder(Index(start), Locations(items[0]));
      ItemLocationsDistinct(items[1..], start + 1);
      forall i, j | 0 <= i < |head| && 0 <= j < |tail| ensures head[i] != tail[j] {
        assert tail[j] in tail;
      }
      DistinctAppend(head, tail);
    }
  }

  lemma {:induction false} MemberLocationsDistinct(ms: seq<Member>)
    requires UniqueKeys(ms)
    requires forall i :: 0 <= i < |ms| ==> WellFormed(ms[i].value)
    ensures Distinct(MemberLocations(ms))
    ensures forall l: seq<Seg> :: l in MemberLocations(ms) ==> l != [] && l[0].Key? && l[0].k in Keys(ms)
    decreases ms, 0
  {
    if ms != [] {
      var head := Under(Key(ms[0].key), Locations(ms[0].value));
      var tail := MemberLocations(ms[1..]);
      LocationsDistinct(ms[0].value);
      DistinctUnder(Key(ms[0].key), Locations(ms[0].value));
      MemberLocationsDistinct(ms[1..]);
      assert ms[0].key !in Keys(ms[1..]);
      forall i, j | 0 <= i < |head| && 0 <= j < |tail| ensures head[i] != tail[j] {
        assert tail[j] in tail;
      }
      DistinctAppend(head, tail);
      forall l: seq<Seg> | l in MemberLocations(ms) ensures l != [] && l[0].Key? && l[0].k in Keys(ms) {
        if l in tail {
          var k := l[0].k;
          assert k in Keys(ms[1..]);
          var n :| 0 <= n < |ms| - 1 && Keys(ms[1..])[n] == k;
          assert Keys(ms)[n + 1] == k;
        }
      }
    }
  }

  // ---------------------------------------------------------------------
  // Plain keys give plain locations
  // ---------------------------------------------------------------------

  lemma PlainUnder(s: Seg, ls: seq<seq<Seg>>)
    requires s.Key? ==> PlainKey(s.k)
    requires forall l :: l in ls ==> PlainSegs(l)
    ensures forall l :: l in Under(s, ls) ==> PlainSegs(l)
  {
    forall i | 0 <= i < |ls| ensures PlainSegs(Under(s, ls)[i]) {
      assert ls[i] in ls;
    }
  }

  lemma {:induction false} LocationsPlain(v: Json)
    requires PlainKeys(v)
    ensures forall l :: l in Locations(v) ==> PlainSegs(l)
    decreases v, 1
  {
    match v
    case JArray(items) => ItemLocationsPlain(items, 0);
    case JObject(ms) => MemberLocationsPlain(ms);
    case _ =>
  }

  lemma {:induction false} ItemLocationsPlain(items: seq<Json>, start: nat)
    requires forall i :: 0 <= i < |items| ==> PlainKeys(items[i])
    ensures forall l: seq<Seg> :: l in ItemLocations(items, start) ==> PlainSegs(l)
    decreases items, 0
  {
    if items != [] {
      LocationsPlain(items[0]);
      PlainUnder(Index(start), Locations(items[0]));
      ItemLocationsPlain(items[1..], start + 1);
    }
  }

  lemma {:induction false} MemberLocationsPlain(ms: seq<Member>)
    requires forall i :: 0 <= i < |ms| ==> PlainKey(ms[i].key) && PlainKeys(ms[i].value)
    ensures forall l :: l in MemberLocations(ms) ==> PlainSegs(l)
    decreases ms, 0
  {
    if ms != [] {
      LocationsPlain(ms[0].value);
      PlainUnder(Key(ms[0].key), Locations(ms[0].value));
      MemberLocationsPlain(ms[1..]);
    }
  }
}
