/**
 * What the rows drawn by `renderValue` are guaranteed to satisfy: the rules
 * each row follows, laziness under collapsed nodes, the order and addresses
 * of children, and, when everything is expanded, one row per node with
 * pairwise distinct paths.
 */
module RenderProperties {
  import opened Wrappers
  import opened JsonValues
  import opened Paths
  import opened ExpandState
  import opened NodeLocations
  import opened TreeRender
  import opened SeqLemmas
  import Utils

  // ---------------------------------------------------------------------
  // Every row follows the drawing rules
  // ---------------------------------------------------------------------

  /**
   * The rules of one row: containers and only they get a chevron and count
   * items; the chevron state is the row's own entry; the badge follows the
   * count; only leaves get the copy control, which hands over the row's own
   * path, and the check mark shows exactly on the leaf whose path was copied;
   * keyed rows, and only they, show their key capitalized, leaves with a
   * "T" box in front.
   */
  predicate RowConsistent(r: Row, m: ExpandMap, copied: Option<string>) {
    && (r.expandable <==> r.kind == ArrayKind || r.kind == ObjectKind)
    && (!r.expandable ==> r.itemCount == 0)
    && r.isExpanded == IsExpanded(m, r.path)
    && r.badge == Badge(r.itemCount)
    && (r.copyTarget.Some? <==> !r.expandable)
    && (r.copyTarget.Some? ==> r.copyTarget.value == r.path)
    && (r.copied <==> !r.expandable && copied == Some(r.path))
    && (r.caption.Some? <==> r.key.Some?)
    && (r.key.Some? ==> r.caption.value == Utils.CapitalizeFirstLetter(r.key.value))
    && (r.typeMarker <==> r.key.Some? && !r.expandable)
  }

  /** The count badge is absent for 0 items and singular only for 1 item. */
  lemma BadgeWording(n: nat)
    ensures Badge(n) == None <==> n == 0
    ensures n == 1 ==> Badge(n) == Some("[1 item]")
    ensures n > 1 ==> Badge(n) == Some("[" + NatToString(n) + " items]")
  {
    if n == 1 {
      assert NatToString(1) == ['1'];
      assert "[" + ['1'] + " item]" == "[1 item]";
    }
  }

  lemma {:induction false} AllRowsConsistent(v: Json, m: ExpandMap, copied: Option<string>, path: string, key: Option<string>)
    ensures forall i :: 0 <= i < |Render(v, m, copied, path, key)| ==>
      RowConsistent(Render(v, m, copied, path, key)[i], m, copied)
    decreases v, 1
  {
    var rows := Render(v, m, copied, path, key);
    assert RowConsistent(rows[0], m, copied);
    if IsExpandable(v) && IsExpanded(m, path) {
      match v
      case JArray(items) =>
        ItemRowsConsistent(items, m, copied, path, 0);
        assert rows == [rows[0]] + RenderItems(items, m, copied, path, 0);
      case JObject(ms) =>
        MemberRowsConsistent(ms, m, copied, path);
        assert rows == [rows[0]] + RenderMembers(ms, m, copied, path);
    }
  }

  lemma {:induction false} ItemRowsConsistent(items: seq<Json>, m: ExpandMap, copied: Option<string>, path: string, start: nat)
    ensures forall i :: 0 <= i < |RenderItems(items, m, copied, path, start)| ==>
      RowConsistent(RenderItems(items, m, copied, path, start)[i], m, copied)
    decreases items, 0
  {
    if items != [] {
      AllRowsConsistent(items[0], m, copied, IndexPath(path, start), Some(NatToString(start)));
      ItemRowsConsistent(items[1..], m, copied, path, start + 1);
    }
  }

  lemma {:induction false} MemberRowsConsistent(ms: seq<Member>, m: ExpandMap, copied: Option<string>, path: string)
    ensures forall i :: 0 <= i < |RenderMembers(ms, m, copied, path)| ==>
      RowConsistent(RenderMembers(ms, m, copied, path)[i], m, copied)
    decreases ms, 0
  {
    if ms != [] {
      AllRowsConsistent(ms[0].value, m, copied, MemberPath(path, ms[0].key), Some(ms[0].key));
      MemberRowsConsistent(ms[1..], m, copied, path);
    }
  }

  // ---------------------------------------------------------------------
  // Collapsed nodes hide their whole subtree
  // ---------------------------------------------------------------------

  /**
   * A leaf, or a container whose path is collapsed or missing from the
   * record, draws one row, whatever lies below it; two containers of the
   * same kind and size that differ only below draw the same rows.
   */
  lemma CollapsedHidesSubtree(v: Json, w: Json, m: ExpandMap, copied: Option<string>, path: string, key: Option<string>)
    requires !IsExpandable(v) || !IsExpanded(m, path)
    requires KindOf(w) == KindOf(v) && ItemCount(w) == ItemCount(v)
    ensures Render(v, m, copied, path, key) == [HeadRow(v, m, copied, path, key)]
    ensures Render(v, m, copied, path, key) == Render(w, m, copied, path, key)
  {
  }

  // ---------------------------------------------------------------------
  // Children: addresses, keys and order
  // ---------------------------------------------------------------------

  function Flatten<T>(ss: seq<seq<T>>): seq<T> {
    if ss == [] then [] else ss[0] + Flatten(ss[1..])
  }

  /** Joining one-element sequences lists their elements. */
  lemma {:induction false} FlattenSingletons<T>(ss: seq<seq<T>>)
    requires forall i :: 0 <= i < |ss| ==> |ss[i]| == 1
    ensures |Flatten(ss)| == |ss|
    ensures forall i :: 0 <= i < |ss| ==> Flatten(ss)[i] == ss[i][0]
  {
    if ss != [] {
      FlattenSingletons(ss[1..]);
      forall i | 1 <= i < |ss| ensures Flatten(ss)[i] == ss[i][0] {
        assert ss[1..][i - 1] == ss[i];
      }
    }
  }

  /** The rows of each array element, drawn at its own path and key. */
  function ItemRenders(items: seq<Json>, m: ExpandMap, copied: Option<string>, path: string, start: nat): seq<seq<Row>> {
    seq(|items|, i requires 0 <= i < |items| =>
      Render(items[i], m, copied, IndexPath(path, start + i), Some(NatToString(start + i))))
  }

  /** The rows of each object member, drawn at its own path and key. */
  function MemberRenders(ms: seq<Member>, m: ExpandMap, copied: Option<string>, path: string): seq<seq<Row>> {
    seq(|ms|, i requires 0 <= i < |ms| =>
      Render(ms[i].value, m, copied, MemberPath(path, ms[i].key), Some(ms[i].key)))
  }

  lemma {:induction false} RenderItemsInOrder(items: seq<Json>, m: ExpandMap, copied: Option<string>, path: string, start: nat)
    ensures RenderItems(items, m, copied, path, start) == Flatten(ItemRenders(items, m, copied, path, start))
  {
    if items != [] {
      var s := ItemRenders(items, m, copied, path, start);
      var t := ItemRenders(items[1..], m, copied, path, start + 1);
      assert s[1..] == t by {
        TailRenders(items, m, copied, path, start);
      }
      RenderItemsInOrder(items[1..], m, copied, path, start + 1);
      assert Flatten(s) == s[0] + Flatten(s[1..]);
    }
  }

  /** Dropping the first element's render renumbers the rest from `start + 1`. */
  lemma TailRenders(items: seq<Json>, m: ExpandMap, copied: Option<string>, path: string, start: nat)
    requires items != []
    ensures ItemRenders(items, m, copied, path, start)[1..] == ItemRenders(items[1..], m, copied, path, start + 1)
  {
    var s := ItemRenders(items, m, copied, path, start);
    var t := ItemRenders(items[1..], m, copied, path, start + 1);
    forall i | 0 <= i < |t| ensures s[i + 1] == t[i] {
      ShiftedRender(items, m, copied, path, start, i);
    }
    assert s[1..] == t;
  }

  /** Element i + 1 counted from `start` is element i counted from `start + 1`. */
  lemma ShiftedRender(items: seq<Json>, m: ExpandMap, copied: Option<string>, path: string, start: nat, i: nat)
    requires i + 1 < |items|
    ensures ItemRenders(items, m, copied, path, start)[i + 1] == ItemRenders(items[1..], m, copied, path, start + 1)[i]
  {
    var n := start + (i + 1);
    assert (start + 1) + i == n;
    assert items[1..][i] == items[i + 1];
    var r := Render(items[i + 1], m, copied, IndexPath(path, n), Some(NatToString(n)));
    assert ItemRenders(items, m, copied, path, start)[i + 1] == r;
    assert ItemRenders(items[1..], m, copied, path, start + 1)[i] == r;
  }

  lemma {:induction false} RenderMembersInOrder(ms: seq<Member>, m: ExpandMap, copied: Option<string>, path: string)
    ensures RenderMembers(ms, m, copied, path) == Flatten(MemberRenders(ms, m, copied, path))
  {
    if ms != [] {
      var s := MemberRenders(ms, m, copied, path);
      var t := MemberRenders(ms[1..], m, copied, path);
      assert s[1..] == t by {
        forall i | 0 <= i < |t| ensures s[i + 1] == t[i] {
          ShiftedMemberRender(ms, m, copied, path, i);
        }
      }
      RenderMembersInOrder(ms[1..], m, copied, path);
      assert Flatten(s) == s[0] + Flatten(s[1..]);
    }
  }

  /** Entry i + 1 of an object is entry i of the object without its first entry. */
  lemma ShiftedMemberRender(ms: seq<Member>, m: ExpandMap, copied: Option<string>, path: string, i: nat)
    requires i + 1 < |ms|
    ensures MemberRenders(ms, m, copied, path)[i + 1] == MemberRenders(ms[1..], m, copied, path)[i]
  {
    var e := ms[i + 1];
    assert ms[1..][i] == e;
    var r := Render(e.value, m, copied, MemberPath(path, e.key), Some(e.key));
    assert MemberRenders(ms, m, copied, path)[i + 1] == r;
    assert MemberRenders(ms[1..], m, copied, path)[i] == r;
  }

  /**
   * An expanded array draws its own row and then, element after element in
   * index order, the rows of element i at path `path[i]` with key "i".
   */
  lemma ExpandedArrayRows(items: seq<Json>, m: ExpandMap, copied: Option<string>, path: string, key: Option<string>)
    requires IsExpanded(m, path)
    ensures Render(JArray(items), m, copied, path, key)
      == [HeadRow(JArray(items), m, copied, path, key)] + Flatten(ItemRenders(items, m, copied, path, 0))
  {
    RenderItemsInOrder(items, m, copied, path, 0);
  }

  /**
   * An expanded object draws its own row and then, entry after entry in
   * entry order, the rows of member k at path `path.k` with key k.
   */
  lemma ExpandedObjectRows(ms: seq<Member>, m: ExpandMap, copied: Option<string>, path: string, key: Option<string>)
    requires IsExpanded(m, path)
    ensures Render(JObject(ms), m, copied, path, key)
      == [HeadRow(JObject(ms), m, copied, path, key)] + Flatten(MemberRenders(ms, m, copied, path))
  {
    RenderMembersInOrder(ms, m, copied, path);
  }

  // ---------------------------------------------------------------------
  // One level open: the first render of a fresh viewer
  // ---------------------------------------------------------------------

  lemma CollapsedItems(items: seq<Json>, m: ExpandMap, copied: Option<string>, path: string, start: nat)
    requires forall i :: start <= i < start + |items| ==> !IsExpanded(m, IndexPath(path, i))
    ensures |RenderItems(items, m, copied, path, start)| == |items|
    ensures forall i :: 0 <= i < |items| ==>
      RenderItems(items, m, copied, path, start)[i]
        == HeadRow(items[i], m, copied, IndexPath(path, start + i), Some(NatToString(start + i)))
  {
    var renders := ItemRenders(items, m, copied, path, start);
    CollapsedItemRenders(items, m, copied, path, start);
    RenderItemsInOrder(items, m, copied, path, start);
    FlattenSingletons(renders);
  }

  /** Each collapsed element's render is its head row alone. */
  lemma CollapsedItemRenders(items: seq<Json>, m: ExpandMap, copied: Option<string>, path: string, start: nat)
    requires forall i :: start <= i < start + |items| ==> !IsExpanded(m, IndexPath(path, i))
    ensures forall i :: 0 <= i < |items| ==>
      ItemRenders(items, m, copied, path, start)[i]
        == [HeadRow(items[i], m, copied, IndexPath(path, start + i), Some(NatToString(start + i)))]
  {
    var renders := ItemRenders(items, m, copied, path, start);
    forall i | 0 <= i < |items|
      ensures renders[i] == [HeadRow(items[i], m, copied, IndexPath(path, start + i), Some(NatToString(start + i)))]
    {
      assert !IsExpanded(m, IndexPath(path, start + i));
    }
  }

  lemma {:induction false} CollapsedMembers(ms: seq<Member>, m: ExpandMap, copied: Option<string>, path: string)
    requires forall i :: 0 <= i < |ms| ==> !IsExpanded(m, MemberPath(path, ms[i].key))
    ensures |RenderMembers(ms, m, copied, path)| == |ms|
    ensures forall i :: 0 <= i < |ms| ==>
      RenderMembers(ms, m, copied, path)[i]
        == HeadRow(ms[i].value, m, copied, MemberPath(path, ms[i].key), Some(ms[i].key))
  {
    if ms != [] {
      CollapsedMembers(ms[1..], m, copied, path);
      var rest := RenderMembers(ms[1..], m, copied, path);
      forall i | 1 <= i < |ms|
        ensures rest[i - 1] == HeadRow(ms[i].value, m, copied, MemberPath(path, ms[i].key), Some(ms[i].key))
      {
        assert ms[1..][i - 1] == ms[i];
      }
    }
  }

  /** In the initial record no element path `$[i]` is expanded. */
  lemma InitialItemsCollapsed(count: nat)
    ensures forall i :: 0 <= i < count ==> !IsExpanded(Initial(), IndexPath(Root, i))
  {
    forall i | 0 <= i < count ensures !IsExpanded(Initial(), IndexPath(Root, i)) {
      IndexPathExtends(Root, i);
      InitialExpandsOnlyRoot(IndexPath(Root, i));
    }
  }

  /** In the initial record no member path `$.k` is expanded. */
  lemma InitialMembersCollapsed(ms: seq<Member>)
    ensures forall i :: 0 <= i < |ms| ==> !IsExpanded(Initial(), MemberPath(Root, ms[i].key))
  {
    forall i | 0 <= i < |ms| ensures !IsExpanded(Initial(), MemberPath(Root, ms[i].key)) {
      MemberPathExtends(Root, ms[i].key);
      InitialExpandsOnlyRoot(MemberPath(Root, ms[i].key));
    }
  }

  /**
   * An expanded array whose elements are all collapsed shows its own row
   * and then one row per element, at path `path[i]` with key "i".
   */
  lemma OneLevelArrayRows(items: seq<Json>, m: ExpandMap, copied: Option<string>, path: string, key: Option<string>)
    requires IsExpanded(m, path)
    requires forall i :: 0 <= i < |items| ==> !IsExpanded(m, IndexPath(path, i))
    ensures |Render(JArray(items), m, copied, path, key)| == 1 + |items|
    ensures forall i :: 0 <= i < |items| ==>
      Render(JArray(items), m, copied, path, key)[i + 1]
        == HeadRow(items[i], m, copied, IndexPath(path, i), Some(NatToString(i)))
  {
    CollapsedItems(items, m, copied, path, 0);
    var rows := Render(JArray(items), m, copied, path, key);
    var rest := RenderItems(items, m, copied, path, 0);
    assert IsExpandable(JArray(items));
    assert rows == [rows[0]] + rest;
    forall i | 0 <= i < |items|
      ensures rows[i + 1] == HeadRow(items[i], m, copied, IndexPath(path, i), Some(NatToString(i)))
    {
      assert 0 + i == i;
      assert rows[i + 1] == rest[i];
    }
  }

  /**
   * An expanded object whose members are all collapsed shows its own row
   * and then one row per entry, at path `path.k` with key k.
   */
  lemma OneLevelObjectRows(ms: seq<Member>, m: ExpandMap, copied: Option<string>, path: string, key: Option<string>)
    requires IsExpanded(m, path)
    requires forall i :: 0 <= i < |ms| ==> !IsExpanded(m, MemberPath(path, ms[i].key))
    ensures |Render(JObject(ms), m, copied, path, key)| == 1 + |ms|
    ensures forall i :: 0 <= i < |ms| ==>
      Render(JObject(ms), m, copied, path, key)[i + 1]
        == HeadRow(ms[i].value, m, copied, MemberPath(path, ms[i].key), Some(ms[i].key))
  {
    CollapsedMembers(ms, m, copied, path);
    var rows := Render(JObject(ms), m, copied, path, key);
    var rest := RenderMembers(ms, m, copied, path);
    assert IsExpandable(JObject(ms));
    assert rows == [rows[0]] + rest;
    forall i | 0 <= i < |ms|
      ensures rows[i + 1] == HeadRow(ms[i].value, m, copied, MemberPath(path, ms[i].key), Some(ms[i].key))
    {
      assert rows[i + 1] == rest[i];
    }
  }

  /**
   * With the initial record only the root is open: the root row (path "$",
   * no key) is followed by one collapsed row per element or entry, at its
   * child path and with its index or key.
   */
  lemma InitialView(v: Json, copied: Option<string>)
    ensures |RenderRoot(v, Initial(), copied)| == 1 + ItemCount(v)
    ensures RenderRoot(v, Initial(), copied)[0].isExpanded
    ensures forall i :: 1 <= i < |RenderRoot(v, Initial(), copied)| ==>
      !RenderRoot(v, Initial(), copied)[i].isExpanded
    ensures v.JArray? ==> forall i :: 0 <= i < |v.items| ==>
      RenderRoot(v, Initial(), copied)[i + 1].path == IndexPath(Root, i) &&
      RenderRoot(v, Initial(), copied)[i + 1].key == Some(NatToString(i))
    ensures v.JObject? ==> forall i :: 0 <= i < |v.members| ==>
      RenderRoot(v, Initial(), copied)[i + 1].path == MemberPath(Root, v.members[i].key) &&
      RenderRoot(v, Initial(), copied)[i + 1].key == Some(v.members[i].key)
  {
    var rows := RenderRoot(v, Initial(), copied);
    match v
    case JArray(items) =>
      InitialItemsCollapsed(|items|);
      OneLevelArrayRows(items, Initial(), copied, Root, None);
      forall i | 1 <= i < |rows| ensures !rows[i].isExpanded {
        assert rows[(i - 1) + 1].path == IndexPath(Root, i - 1);
      }
    case JObject(ms) =>
      InitialMembersCollapsed(ms);
      OneLevelObjectRows(ms, Initial(), copied, Root, None);
      forall i | 1 <= i < |rows| ensures !rows[i].isExpanded {
        assert rows[(i - 1) + 1].path == MemberPath(Root, ms[i - 1].key);
      }
    case _ =>
  }

  // ---------------------------------------------------------------------
  // Everything open: one row per node, at pairwise distinct paths
  // ---------------------------------------------------------------------

  /** Every container at or below `path` is expanded in `m`. */
  predicate AllExpanded(v: Json, m: ExpandMap, path: string) {
    match v
    case JArray(items) =>
      IsExpanded(m, path) && forall i :: 0 <= i < |items| ==> AllExpanded(items[i], m, IndexPath(path, i))
    case JObject(ms) =>
      IsExpanded(m, path) && forall i :: 0 <= i < |ms| ==> AllExpanded(ms[i].value, m, MemberPath(path, ms[i].key))
    case _ => true
  }

  lemma {:induction false} FullyExpandedRowCount(v: Json, m: ExpandMap, copied: Option<string>, path: string, key: Option<string>)
    requires AllExpanded(v, m, path)
    ensures |Render(v, m, copied, path, key)| == Size(v)
    decreases v, 1
  {
    match v
    case JArray(items) =>
      ItemsRowCount(items, m, copied, path, 0);
    case JObject(ms) =>
      MembersRowCount(ms, m, copied, path);
    case _ =>
  }

  lemma {:induction false} ItemsRowCount(items: seq<Json>, m: ExpandMap, copied: Option<string>, path: string, start: nat)
    requires forall i :: 0 <= i < |items| ==> AllExpanded(items[i], m, IndexPath(path, start + i))
    ensures |RenderItems(items, m, copied, path, start)| == SizeItems(items)
    decreases items, 0
  {
    if items != [] {
      assert AllExpanded(items[0], m, IndexPath(path, start + 0));
      FullyExpandedRowCount(items[0], m, copied, IndexPath(path, start), Some(NatToString(start)));
      forall i | 0 <= i < |items| - 1 ensures AllExpanded(items[1..][i], m, IndexPath(path, start + 1 + i)) {
        assert start + 1 + i == start + (i + 1);
      }
      ItemsRowCount(items[1..], m, copied, path, start + 1);
    }
  }

  lemma {:induction false} MembersRowCount(ms: seq<Member>, m: ExpandMap, copied: Option<string>, path: string)
    requires forall i :: 0 <= i < |ms| ==> AllExpanded(ms[i].value, m, MemberPath(path, ms[i].key))
    ensures |RenderMembers(ms, m, copied, path)| == SizeMembers(ms)
    decreases ms, 0
  {
    if ms != [] {
      FullyExpandedRowCount(ms[0].value, m, copied, MemberPath(path, ms[0].key), Some(ms[0].key));
      assert forall i :: 0 <= i < |ms| - 1 ==> ms[1..][i] == ms[i + 1];
      MembersRowCount(ms[1..], m, copied, path);
    }
  }

  function RowPaths(rows: seq<Row>): (ps: seq<string>) {
    seq(|rows|, i requires 0 <= i < |rows| => rows[i].path)
  }

  /** The string paths of locations taken from `path`. */
  function Prefixed(path: string, ls: seq<seq<Seg>>): seq<string> {
    seq(|ls|, i requires 0 <= i < |ls| => path + SegsText(ls[i]))
  }

  lemma RowPathsAppend(a: seq<Row>, b: seq<Row>)
    ensures RowPaths(a + b) == RowPaths(a) + RowPaths(b)
  {
  }

  lemma PrefixedAppend(path: string, a: seq<seq<Seg>>, b: seq<seq<Seg>>)
    ensures Prefixed(path, a + b) == Prefixed(path, a) + Prefixed(path, b)
  {
  }

  lemma PrefixedUnder(path: string, s: Seg, ls: seq<seq<Seg>>)
    ensures Prefixed(path, Under(s, ls)) == Prefixed(path + SegText(s), ls)
  {
    var a, b := Prefixed(path, Under(s, ls)), Prefixed(path + SegText(s), ls);
    forall i | 0 <= i < |ls| ensures a[i] == b[i] {
      var l := ls[i];
      SegsTextAppend(s, l);
      ConcatAssoc(path, SegText(s), SegsText(l));
    }
  }

  lemma PrefixedRoot(path: string)
    ensures Prefixed(path, [[]]) == [path]
  {
    assert path + SegsText([]) == path;
  }

  /**
   * With every container open, the rows are exactly the nodes of the value
   * in pre-order: row i sits at `path` followed by the text of the i-th
   * location.
   */
  lemma {:induction false} FullyExpandedRowPaths(v: Json, m: ExpandMap, copied: Option<string>, path: string, key: Option<string>)
    requires AllExpanded(v, m, path)
    ensures RowPaths(Render(v, m, copied, path, key)) == Prefixed(path, Locations(v))
    decreases v, 1
  {
    var rows := Render(v, m, copied, path, key);
    var head := [rows[0]];
    PrefixedRoot(path);
    assert RowPaths(head) == [path];
    match v
    case JArray(items) =>
      var rest := RenderItems(items, m, copied, path, 0);
      assert rows == head + rest;
      ItemsRowPaths(items, m, copied, path, 0);
      RowPathsAppend(head, rest);
      PrefixedAppend(path, [[]], ItemLocations(items, 0));
    case JObject(ms) =>
      var rest := RenderMembers(ms, m, copied, path);
      assert rows == head + rest;
      MembersRowPaths(ms, m, copied, path);
      RowPathsAppend(head, rest);
      PrefixedAppend(path, [[]], MemberLocations(ms));
    case _ =>
  }

  lemma {:induction false} ItemsRowPaths(items: seq<Json>, m: ExpandMap, copied: Option<string>, path: string, start: nat)
    requires forall i :: 0 <= i < |items| ==> AllExpanded(items[i], m, IndexPath(path, start + i))
    ensures RowPaths(RenderItems(items, m, copied, path, start)) == Prefixed(path, ItemLocations(items, start))
    decreases items, 0
  {
    if items != [] {
      var child := IndexPath(path, start);
      assert AllExpanded(items[0], m, IndexPath(path, start + 0));
      FullyExpandedRowPaths(items[0], m, copied, child, Some(NatToString(start)));
      forall i | 0 <= i < |items| - 1 ensures AllExpanded(items[1..][i], m, IndexPath(path, start + 1 + i)) {
        assert start + 1 + i == start + (i + 1);
      }
      ItemsRowPaths(items[1..], m, copied, path, start + 1);
      RowPathsAppend(Render(items[0], m, copied, child, Some(NatToString(start))), RenderItems(items[1..], m, copied, path, start + 1));
      PrefixedAppend(path, Under(Index(start), Locations(items[0])), ItemLocations(items[1..], start + 1));
      ChildPathText(path, Index(start));
      PrefixedUnder(path, Index(start), Locations(items[0]));
    }
  }

  lemma {:induction false} MembersRowPaths(ms: seq<Member>, m: ExpandMap, copied: Option<string>, path: string)
    requires forall i :: 0 <= i < |ms| ==> AllExpanded(ms[i].value, m, MemberPath(path, ms[i].key))
    ensures RowPaths(RenderMembers(ms, m, copied, path)) == Prefixed(path, MemberLocations(ms))
    decreases ms, 0
  {
    if ms != [] {
      var child := MemberPath(path, ms[0].key);
      FullyExpandedRowPaths(ms[0].value, m, copied, child, Some(ms[0].key));
      assert forall i :: 0 <= i < |ms| - 1 ==> ms[1..][i] == ms[i + 1];
      MembersRowPaths(ms[1..], m, copied, path);
      RowPathsAppend(Render(ms[0].value, m, copied, child, Some(ms[0].key)), RenderMembers(ms[1..], m, copied, path));
      PrefixedAppend(path, Under(Key(ms[0].key), Locations(ms[0].value)), MemberLocations(ms[1..]));
      ChildPathText(path, Key(ms[0].key));
      PrefixedUnder(path, Key(ms[0].key), Locations(ms[0].value));
    }
  }

  /**
   * With every container open and no key holding '.', '[' or ']', no two
   * rows share a path, so each path names one node.
   */
  lemma FullyExpandedPathsDistinct(v: Json, m: ExpandMap, copied: Option<string>, path: string, key: Option<string>)
    requires AllExpanded(v, m, path) && WellFormed(v) && PlainKeys(v)
    ensures |Render(v, m, copied, path, key)| == Size(v)
    ensures forall i, j :: 0 <= i < j < |Render(v, m, copied, path, key)| ==>
      Render(v, m, copied, path, key)[i].path != Render(v, m, copied, path, key)[j].path
  {
    var rows := Render(v, m, copied, path, key);
    var ls := Locations(v);
    FullyExpandedRowCount(v, m, copied, path, key);
    FullyExpandedRowPaths(v, m, copied, path, key);
    LocationsDistinct(v);
    LocationsPlain(v);
    forall i, j | 0 <= i < j < |rows| ensures rows[i].path != rows[j].path {
      assert RowPaths(rows)[i] == rows[i].path && RowPaths(rows)[j] == rows[j].path;
      assert ls[i] in ls && ls[j] in ls;
      SegsTextInjective(ls[i], ls[j]);
      if rows[i].path == rows[j].path {
        PrefixInjective(path, SegsText(ls[i]), SegsText(ls[j]));
      }
    }
  }

  // ---------------------------------------------------------------------
  // The view depends on the record only through its readings
  // ---------------------------------------------------------------------

  /** Two records under which every path reads the same. */
  ghost predicate SameReadings(m1: ExpandMap, m2: ExpandMap) {
    forall q :: IsExpanded(m1, q) == IsExpanded(m2, q)
  }

  /** Records that read the same draw the same rows. */
  lemma {:induction false} RenderSameReadings(v: Json, m1: ExpandMap, m2: ExpandMap, copied: Option<string>, path: string, key: Option<string>)
    requires SameReadings(m1, m2)
    ensures Render(v, m1, copied, path, key) == Render(v, m2, copied, path, key)
    decreases v, 1
  {
    assert HeadRow(v, m1, copied, path, key) == HeadRow(v, m2, copied, path, key);
    match v
    case JArray(items) => ItemsSameReadings(items, m1, m2, copied, path, 0);
    case JObject(ms) => MembersSameReadings(ms, m1, m2, copied, path);
    case _ =>
  }

  lemma {:induction false} ItemsSameReadings(items: seq<Json>, m1: ExpandMap, m2: ExpandMap, copied: Option<string>, path: string, start: nat)
    requires SameReadings(m1, m2)
    ensures RenderItems(items, m1, copied, path, start) == RenderItems(items, m2, copied, path, start)
    decreases items, 0
  {
    if items != [] {
      RenderSameReadings(items[0], m1, m2, copied, IndexPath(path, start), Some(NatToString(start)));
      ItemsSameReadings(items[1..], m1, m2, copied, path, start + 1);
    }
  }

  lemma {:induction false} MembersSameReadings(ms: seq<Member>, m1: ExpandMap, m2: ExpandMap, copied: Option<string>, path: string)
    requires SameReadings(m1, m2)
    ensures RenderMembers(ms, m1, copied, path) == RenderMembers(ms, m2, copied, path)
    decreases ms, 0
  {
    if ms != [] {
      RenderSameReadings(ms[0].value, m1, m2, copied, MemberPath(path, ms[0].key), Some(ms[0].key));
      MembersSameReadings(ms[1..], m1, m2, copied, path);
    }
  }

  /**
   * Toggling a path twice leaves the view as it was, even where the record
   * itself now holds an explicit `false` it did not hold before.
   */
  lemma ToggleTwiceSameView(v: Json, m: ExpandMap, copied: Option<string>, p: string)
    ensures RenderRoot(v, Toggle(Toggle(m, p), p), copied) == RenderRoot(v, m, copied)
  {
    forall q ensures IsExpanded(Toggle(Toggle(m, p), p), q) == IsExpanded(m, q) {
      ToggleTwiceReadsTheSame(m, p, q);
    }
    RenderSameReadings(v, Toggle(Toggle(m, p), p), m, copied, Root, None);
  }
}
