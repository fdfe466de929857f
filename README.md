# JSON tree viewer: paths, expand state and row rendering

This project models the core of a collapsible JSON tree viewer. The
`JsonViewer` component walks a parsed JSON value recursively. It draws one
row per visited node. It gives every node a path string: `$` for the root,
`path[i]` for array element `i` and `path.k` for object member `k`. It
keeps a record from path to boolean that says which nodes are expanded.
Only an expandable node (an array or an object) whose path is expanded has
its children drawn. Leaf rows carry a copy control that hands over the
row's path. Key labels are shown through `capitalizeFirstLetter`.

Modules, one per concern:

- `Utils` (`utils.dfy`): `capitalizeFirstLetter` with an ASCII `toUpperCase`.
- `JsonValues` (`json_values.dfy`): the JSON value type, `typeof`,
  `isExpandable`, `itemCount`, node count, unique-key well-formedness.
- `Paths` (`paths.dfy`): the root path, child paths, the decimal text of an
  index, structured locations (sequences of index/key steps) and the proof
  that their text is unambiguous when no key contains `.`, `[` or `]`.
- `ExpandState` (`expand_state.dfy`): the initial record, the read with a
  missing entry as collapsed, and `toggleExpand`.
- `NodeLocations` (`locations.dfy`): the pre-order list of node locations of
  a value, its length and its distinctness.
- `TreeRender` (`tree_render.dfy`): `renderValue` as a pure function to a
  pre-order sequence of row descriptors.
- `RenderProperties` (`render_properties.dfy`): what every row satisfies,
  laziness, child order and addresses, the first view of a fresh component,
  and one row per node with distinct paths when everything is expanded.
- `Viewer` (`viewer.dfy`): the component as a class with the `expanded` and
  `copied` fields and the methods that update them.
- `Wrappers`, `SeqLemmas`: an option type and small facts about sequences.

Two behaviours of the code are easy to get wrong:

- Toggling a path twice does not always give back the same record. The
  code writes `!prev[path]`. A path with no entry goes from absent to
  `true` and then to an explicit `false`. Every path still reads the same
  as before (`ToggleTwiceReadsTheSame`), so the view is unchanged
  (`ToggleTwiceSameView`, since the rows depend on the record only through
  these readings). The record itself is restored exactly when the path
  already had an entry (`ToggleTwiceRestoresMap`).
- Paths are not unique in general: a key containing `.`, `[` or `]` can
  collide with a deeper path (`KeysWithSeparatorsCollide`). Distinctness is
  proved under the plain-key condition.

## Model

| member | source | states |
|---|---|---|
| `Utils.UpperAscii` | src/lib/utils.ts:9 | `toUpperCase` on one character, ASCII only: a lower-case letter moves down by 32, anything else is kept; the result is never a lower-case letter |
| `Utils.CapitalizeFirstLetter` | src/lib/utils.ts:8-10 | the result has the input's length, its first character is the upper case of the input's first, and every later character is unchanged |
| `Utils.CapitalizeEmpty` | src/lib/utils.ts:9 | the empty key maps to the empty string |
| `Utils.CapitalizeFirstNotLower` | src/lib/utils.ts:9 | a non-empty result never starts with a lower-case letter |
| `Utils.CapitalizeFixedPoints` | src/lib/utils.ts:9 | a key is returned unchanged exactly when it is empty or does not start with a lower-case letter |
| `Utils.CapitalizeIdempotent` | src/lib/utils.ts:9 | capitalizing twice equals capitalizing once |
| `JsonValues.TypeOf` | src/components/JSONViewer.tsx:44 | JavaScript's `typeof` on a JSON value, "object" for `null`, arrays and objects; its consequence for expandability is stated in `JsonValues.ExpandableIsContainer` |
| `JsonValues.IsExpandable` | src/components/JSONViewer.tsx:44 | `typeof value === "object" && value !== null`; `JsonValues.ExpandableIsContainer` proves it holds exactly for arrays and objects |
| `JsonValues.ItemCount` | src/components/JSONViewer.tsx:47-51 | the array length, the number of keys, or 0; the three cases are proved in `JsonValues.ExpandableIsContainer` |
| `JsonValues.Keys` | src/components/JSONViewer.tsx:50 | `Object.keys` lists one key per entry, in entry order |
| `JsonValues.ExpandableIsContainer` | src/components/JSONViewer.tsx:44-51 | `typeof value === "object" && value !== null` holds exactly for arrays and objects; the item count is the array length or the number of keys, and 0 for every primitive |
| `Paths.NatToString` | src/components/JSONViewer.tsx:183-184 | the text of an index is a non-empty string of decimal digits |
| `Paths.NatToStringNoLeadingZero` | src/components/JSONViewer.tsx:183-184 | the text of an index has no leading zero |
| `Paths.DecimalRoundTrip` | src/components/JSONViewer.tsx:183-184 | reading the digits of an index back gives the index |
| `Paths.NatToStringInjective` | src/components/JSONViewer.tsx:183-184 | distinct indices get distinct texts |
| `Paths.ChildPathText` | src/components/JSONViewer.tsx:183-193 | an array child's path is the parent's path followed by `[i]`, an object child's by `.k` |
| `Paths.IndexPath` | src/components/JSONViewer.tsx:183 | the path `${path}[${index}]` of an array element; its text is stated in `Paths.ChildPathText` and `Paths.IndexPathExtends` |
| `Paths.MemberPath` | src/components/JSONViewer.tsx:193 | the path `${path}.${childKey}` of an object member; its text is stated in `Paths.ChildPathText` and `Paths.MemberPathExtends` |
| `Paths.IndexPathExtends` | src/components/JSONViewer.tsx:183 | an element's path strictly extends its array's path |
| `Paths.MemberPathExtends` | src/components/JSONViewer.tsx:193 | a member's path strictly extends its object's path |
| `Paths.SegsTextInjective` | src/components/JSONViewer.tsx:178-198 | two sequences of index/key steps whose keys have no `.`, `[` or `]` produce the same text only if they are equal |
| `Paths.PathOfInjective` | src/components/JSONViewer.tsx:178-209 | for such steps, equal paths from the root `$` mean equal locations |
| `Paths.RootPathOnlyAtRoot` | src/components/JSONViewer.tsx:209 | `$` is the path of the root and of no other node |
| `Paths.KeysWithSeparatorsCollide` | src/components/JSONViewer.tsx:193 | without the plain-key condition two different locations share the path `$.a.b` |
| `ExpandState.IsExpanded` | src/components/JSONViewer.tsx:45 | `expanded[path]` read as a boolean, a missing entry reading as collapsed; its readings are stated by `ExpandState.InitialExpandsOnlyRoot` and the toggle lemmas |
| `ExpandState.Initial` | src/components/JSONViewer.tsx:20-22 | the initial record has the single entry `$` |
| `ExpandState.InitialExpandsOnlyRoot` | src/components/JSONViewer.tsx:20-22 | in the initial record a path reads expanded exactly when it is `$` |
| `ExpandState.Toggle` | src/components/JSONViewer.tsx:25-27 | the toggled path reads as the negation of its old reading (absent reads false), it gains an entry, and every other entry keeps its value |
| `ExpandState.ToggleLeavesOthers` | src/components/JSONViewer.tsx:25-27 | toggling one path does not change how any other path reads |
| `ExpandState.ToggleTwiceReadsTheSame` | src/components/JSONViewer.tsx:25-27 | toggling a path twice restores the reading of every path |
| `ExpandState.ToggleTwiceRestoresMap` | src/components/JSONViewer.tsx:25-27 | toggling twice restores the record exactly when the path had an entry, and otherwise leaves an explicit `false` |
| `ExpandState.ToggleCommutes` | src/components/JSONViewer.tsx:25-27 | toggles of two paths can be applied in either order |
| `NodeLocations.LocationsCount` | src/components/JSONViewer.tsx:178-198 | a value has one location per node |
| `NodeLocations.ItemLocationsCount` | src/components/JSONViewer.tsx:178-187 | the elements of an array contribute one location per node below them |
| `NodeLocations.MemberLocationsCount` | src/components/JSONViewer.tsx:188-198 | the members of an object contribute one location per node below them |
| `NodeLocations.LocationsDistinct` | src/components/JSONViewer.tsx:178-198 | in a value whose objects have unique keys, no two nodes share a location |
| `NodeLocations.ItemLocationsDistinct` | src/components/JSONViewer.tsx:178-187 | the locations below an array's elements are distinct and each starts with an index step in the range `start` to `start + |items|` (exclusive) |
| `NodeLocations.MemberLocationsDistinct` | src/components/JSONViewer.tsx:188-198 | the locations below an object's members are distinct and each starts with one of the object's keys |
| `NodeLocations.LocationsPlain` | src/components/JSONViewer.tsx:193 | if no key of the value holds a separator, no location does |
| `NodeLocations.ItemLocationsPlain` | src/components/JSONViewer.tsx:183 | the same, for the elements of an array |
| `NodeLocations.MemberLocationsPlain` | src/components/JSONViewer.tsx:193 | the same, for the members of an object |
| `TreeRender.KindOf` | src/components/JSONViewer.tsx:59-71 | which primitive (or container) a row shows; `RenderProperties.AllRowsConsistent` proves the container kinds are exactly the expandable rows |
| `TreeRender.Badge` | src/components/JSONViewer.tsx:124-130 | the item-count badge; its wording is proved in `RenderProperties.BadgeWording` |
| `TreeRender.HeadRow` | src/components/JSONViewer.tsx:74-167 | the row drawn for a node itself; its rules are proved for every drawn row in `RenderProperties.AllRowsConsistent` |
| `TreeRender.Render` | src/components/JSONViewer.tsx:41-207 | the first row is the node's own; there is exactly one row when the node is a leaf, is collapsed or has no items, and more otherwise |
| `TreeRender.RenderItems` | src/components/JSONViewer.tsx:178-187 | the elements of an array draw at least one row each |
| `TreeRender.RenderMembers` | src/components/JSONViewer.tsx:188-198 | the members of an object draw at least one row each |
| `TreeRender.RenderRoot` | src/components/JSONViewer.tsx:209 | the view starts with the root row at path `$`, with no key and no key label, expanded as the record says |
| `RenderProperties.BadgeWording` | src/components/JSONViewer.tsx:124-130 | no badge for 0 items, `[1 item]` for one, `[n items]` for more |
| `RenderProperties.AllRowsConsistent` | src/components/JSONViewer.tsx:44-167 | every row: chevron and item count only for arrays and objects; chevron state is the row's own entry; badge follows the count; copy control only on leaves, handing over the row's own path; check mark exactly on the leaf whose path equals `copied`; key label exactly on keyed rows, capitalized; `T` box exactly on keyed leaves |
| `RenderProperties.ItemRowsConsistent` | src/components/JSONViewer.tsx:178-187 | the same, for all rows drawn for an array's elements |
| `RenderProperties.MemberRowsConsistent` | src/components/JSONViewer.tsx:188-198 | the same, for all rows drawn for an object's members |
| `RenderProperties.CollapsedHidesSubtree` | src/components/JSONViewer.tsx:170 | a leaf, or a node whose path is collapsed or absent, draws only its own row, whatever lies below it |
| `RenderProperties.TailRenders` | src/components/JSONViewer.tsx:179-184 | dropping the first element renumbers the remaining elements' renders from the next index |
| `RenderProperties.RenderItemsInOrder` | src/components/JSONViewer.tsx:178-187 | the rows for an array's elements are element 0's rows, then element 1's, and so on, each drawn at `path[i]` with key `i` |
| `RenderProperties.RenderMembersInOrder` | src/components/JSONViewer.tsx:188-198 | the rows for an object's members are the first entry's rows, then the next entry's, each drawn at `path.k` with key `k` |
| `RenderProperties.ExpandedArrayRows` | src/components/JSONViewer.tsx:170-187 | an expanded array draws its own row and directly after it its elements' rows in index order |
| `RenderProperties.ExpandedObjectRows` | src/components/JSONViewer.tsx:170-198 | an expanded object draws its own row and directly after it its entries' rows in entry order |
| `RenderProperties.CollapsedItems` | src/components/JSONViewer.tsx:178-187 | elements whose paths are all collapsed draw exactly one row each, at `path[i]` with key `i` |
| `RenderProperties.CollapsedMembers` | src/components/JSONViewer.tsx:188-198 | members whose paths are all collapsed draw exactly one row each, at `path.k` with key `k` |
| `RenderProperties.OneLevelArrayRows` | src/components/JSONViewer.tsx:170-187 | an expanded array with collapsed elements draws 1 + length rows, row i+1 being element i's own row |
| `RenderProperties.OneLevelObjectRows` | src/components/JSONViewer.tsx:170-198 | an expanded object with collapsed members draws 1 + key-count rows, row i+1 being entry i's own row |
| `RenderProperties.InitialItemsCollapsed` | src/components/JSONViewer.tsx:20-22 | in the initial record no element path `$[i]` is expanded |
| `RenderProperties.InitialMembersCollapsed` | src/components/JSONViewer.tsx:20-22 | in the initial record no member path `$.k` is expanded |
| `RenderProperties.InitialView` | src/components/JSONViewer.tsx:209 | a fresh component shows the expanded root row and one collapsed row per item, at `$[i]` with key `i` or `$.k` with key `k` |
| `RenderProperties.FullyExpandedRowCount` | src/components/JSONViewer.tsx:170-198 | with every container expanded, the number of rows equals the number of nodes |
| `RenderProperties.ItemsRowCount` | src/components/JSONViewer.tsx:178-187 | the same, for the elements of an array |
| `RenderProperties.MembersRowCount` | src/components/JSONViewer.tsx:188-198 | the same, for the members of an object |
| `RenderProperties.FullyExpandedRowPaths` | src/components/JSONViewer.tsx:178-198 | with every container expanded, row i is at the node path of the i-th node in pre-order |
| `RenderProperties.ItemsRowPaths` | src/components/JSONViewer.tsx:178-187 | the same, for the elements of an array |
| `RenderProperties.MembersRowPaths` | src/components/JSONViewer.tsx:188-198 | the same, for the members of an object |
| `RenderProperties.FullyExpandedPathsDistinct` | src/components/JSONViewer.tsx:178-209 | with every container expanded, unique keys and no separator in any key, there is one row per node and no two rows share a path |
| `Viewer.JsonViewer.constructor` | src/components/JSONViewer.tsx:19-23 | a new component has only `$` expanded and nothing copied |
| `RenderProperties.RenderSameReadings` | src/components/JSONViewer.tsx:45 | the rows depend on the expand record only through what each path reads: records that read the same draw the same rows |
| `RenderProperties.ItemsSameReadings` | src/components/JSONViewer.tsx:178-187 | the same, for the rows of an array's elements |
| `RenderProperties.MembersSameReadings` | src/components/JSONViewer.tsx:188-198 | the same, for the rows of an object's members |
| `RenderProperties.ToggleTwiceSameView` | src/components/JSONViewer.tsx:25-27 | toggling a path twice leaves the whole view unchanged, even where the record now holds an explicit `false` |
| `Viewer.JsonViewer.SetData` | src/components/JSONPage.tsx:77-94 | while the viewer stays mounted, a new `data` prop keeps the expand record and the copied marker, and the view renders the new value under them |
| `Viewer.JsonViewer.ToggleExpand` | src/components/JSONViewer.tsx:25-27 | the record becomes the toggled record: the path's reading flips and every other path reads as before |
| `Viewer.JsonViewer.CopyToClipboard` | src/components/JSONViewer.tsx:29-31 | after a successful clipboard write the copied marker is the path; after a failed one it is unchanged |
| `Viewer.JsonViewer.ClearCopied` | src/components/JSONViewer.tsx:37 | the timer callback clears the copied marker |
| `Viewer.JsonViewer.View` | src/components/JSONViewer.tsx:209 | the view of the current state starts with the root row at `$`, with no key |

## Left out

- JSX, CSS classes, the animation, icons and buttons are presentation only. Rows carry the data that decides what is drawn.
- The "Create column" button on leaf rows has no handler of its own. It sits inside the div whose click runs `handleCopy` (src/components/JSONViewer.tsx:138-139, 159-165), so a click on it copies the path like a click on the copy icon. `Row.copyTarget` models that handler for the whole control.
- The clipboard write, the toast and the two-second timer are browser I/O. The write's outcome is a parameter of `Viewer.JsonViewer.CopyToClipboard`. The timer is the separate method `Viewer.JsonViewer.ClearCopied`.
- The `console.log` of each rendered path is a side effect only.
- Numbers carry an `int` payload. The viewer never computes with them, so floating point and JavaScript's number-to-text conversion are not modelled.
- The display text of a primitive is not modelled. A row carries the primitive itself in its kind.
- `Utils.UpperAscii`: `toUpperCase` is modelled on ASCII letters only. Full Unicode case mapping can change a string's length and is not covered. Strings are sequences of Unicode scalar values, not UTF-16 code units as in JavaScript, so a key holding a lone surrogate (which `JSON.parse` accepts) cannot be represented and lengths of non-BMP text count differently.
- `Object.entries` puts integer-like keys first. The model takes object entries in the order given.
- Objects with a repeated key cannot arise in JavaScript. The model allows them in the type and assumes unique keys (`WellFormed`) only where distinctness is proved.
- `cn` in src/lib/utils.ts wraps class-name libraries that are not part of this model.
- src/components/JSONPage.tsx, src/app/layout.tsx and src/app/page.tsx are input binding, `JSON.parse` error display and page plumbing. They are not part of this model, except for one effect on the viewer. The viewer is mounted only while the input parses without error to a truthy value (src/components/JSONPage.tsx:77-94). While it stays mounted, each new value reaches it as a new `data` prop (`Viewer.JsonViewer.SetData`). An invalid edit, or a value that parses to `0`, `false`, `""` or `null`, unmounts it, and the next value starts from `Viewer.JsonViewer.constructor`.
