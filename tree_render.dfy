/**
 * `renderValue` of src/components/JSONViewer.tsx:41-207, as a pure function
 * from a value, the expand record, the copied marker, a path and an optional
 * key to the rows it draws, in pre-order: the node's own row, then, when the
 * node is expandable and expanded, the rows of its children (array elements
 * in index order, object entries in entry order).
 */
module TreeRender {
  import opened Wrappers
  import opened JsonValues
  import opened Paths
  import opened ExpandState
  import opened NodeLocations
  import Utils

  /** How a row shows its value: the four primitive kinds, or a container. */
  datatype Kind =
    | NullKind
    | BoolKind(b: bool)
    | NumberKind(n: int)
    | StringKind(s: string)
    | ArrayKind
    | ObjectKind

  /** What one call of `renderValue` draws for its own node. */
  datatype Row = Row(
    path: string,
    key: Option<string>,
    caption: Option<string>,    // the key as displayed
    typeMarker: bool,           // the "T" box before a leaf's key
    kind: Kind,
    expandable: bool,           // chevron button instead of a spacer
    itemCount: nat,
    isExpanded: bool,           // chevron rotation
    badge: Option<string>,      // "[n item]" / "[n items]"
    copyTarget: Option<string>, // the path the copy control hands over
    copied: bool                // check mark instead of the copy icon
  )

  /** What kind of value a row shows. */
  function KindOf(v: Json): Kind {
    match v
    case JNull => NullKind
    case JBool(b) => BoolKind(b)
    case JNumber(n) => NumberKind(n)
    case JString(s) => StringKind(s)
    case JArray(_) => ArrayKind
    case JObject(_) => ObjectKind
  }

  /** The item-count badge, shown for a positive count only. */
  function Badge(n: nat): Option<string> {
    if n > 0 then Some("[" + NatToString(n) + (if n == 1 then " item]" else " items]")) else None
  }

  /** The row `renderValue(v, path, key)` draws for the node itself. */
  function HeadRow(v: Json, m: ExpandMap, copied: Option<string>, path: string, key: Option<string>): Row {
    var expandable := IsExpandable(v);
    Row(
      path := path,
      key := key,
      caption := if key.Some? then Some(Utils.CapitalizeFirstLetter(key.value)) else None,
      typeMarker := key.Some? && !expandable,
      kind := KindOf(v),
      expandable := expandable,
      itemCount := ItemCount(v),
      isExpanded := IsExpanded(m, path),
      badge := if expandable then Badge(ItemCount(v)) else None,
      copyTarget := if expandable then None else Some(path),
      copied := !expandable && copied == Some(path))
  }

  /**
   * All rows drawn for `v` at `path`. A node that is not expandable, or whose
   * path is not expanded, draws its own row and nothing else.
   */
  function Render(v: Json, m: ExpandMap, copied: Option<string>, path: string, key: Option<string>): (rows: seq<Row>)
    ensures |rows| >= 1 && rows[0] == HeadRow(v, m, copied, path, key)
    ensures |rows| == 1 <==> !(IsExpandable(v) && IsExpanded(m, path)) || ItemCount(v) == 0
    decreases v, 1
  {
    var head := HeadRow(v, m, copied, path, key);
    if IsExpandable(v) && IsExpanded(m, path) then
      match v
      case JArray(items) => [head] + RenderItems(items, m, copied, path, 0)
      case JObject(ms) => [head] + RenderMembers(ms, m, copied, path)
      case _ => [head]
    else
      [head]
  }

  /** `value.map((item, index) => renderValue(item, path[index], index))`. */
  function RenderItems(items: seq<Json>, m: ExpandMap, copied: Option<string>, path: string, start: nat): (rows: seq<Row>)
    ensures |rows| >= |items|
    decreases items, 0
  {
    if items == [] then []
    else
      Render(items[0], m, copied, IndexPath(path, start), Some(NatToString(start)))
      + RenderItems(items[1..], m, copied, path, start + 1)
  }

  /** `Object.entries(value).map(([k, child]) => renderValue(child, path.k, k))`. */
  function RenderMembers(ms: seq<Member>, m: ExpandMap, copied: Option<string>, path: string): (rows: seq<Row>)
    ensures |rows| >= |ms|
    decreases ms, 0
  {
    if ms == [] then []
    else
      Render(ms[0].value, m, copied, MemberPath(path, ms[0].key), Some(ms[0].key))
      + RenderMembers(ms[1..], m, copied, path)
  }

  /** The whole view: the root value at path "$" with no key. */
  function RenderRoot(v: Json, m: ExpandMap, copied: Option<string>): (rows: seq<Row>)
    ensures |rows| >= 1 && rows[0].path == Root && rows[0].key == None && rows[0].caption == None
    ensures rows[0].isExpanded == IsExpanded(m, Root)
  {
    Render(v, m, copied, Root, None)
  }
}
