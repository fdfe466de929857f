/**
 * The expand state of the viewer (src/components/JSONViewer.tsx:20-27, 45):
 * a record from path to boolean that starts with only the root expanded and
 * changes only by toggling one path.
 */
module ExpandState {
  import opened Paths

  type ExpandMap = map<string, bool>

  /** `{ $: true }`. */
  function Initial(): (m: ExpandMap)
    ensures m.Keys == {Root}
  {
    map[Root := true]
  }

  /** `expanded[path]` read as a condition: a missing entry is collapsed. */
  predicate IsExpanded(m: ExpandMap, path: string) {
    path in m && m[path]
  }

  /** `{ ...prev, [path]: !prev[path] }`. */
  function Toggle(m: ExpandMap, path: string): (m': ExpandMap)
    ensures m'.Keys == m.Keys + {path}
    ensures IsExpanded(m', path) == !IsExpanded(m, path)
    ensures forall q :: q in m && q != path ==> m'[q] == m[q]
  {
    m[path := !IsExpanded(m, path)]
  }

  /** In the initial state the root, and only the root, is expanded. */
  lemma InitialExpandsOnlyRoot(path: string)
    ensures IsExpanded(Initial(), path) <==> path == Root
  {
  }

  /** Toggling one path does not change how any other path reads. */
  lemma ToggleLeavesOthers(m: ExpandMap, path: string, other: string)
    requires other != path
    ensures IsExpanded(Toggle(m, path), other) == IsExpanded(m, other)
  {
  }

  /** Toggling the same path twice restores how every path reads. */
  lemma ToggleTwiceReadsTheSame(m: ExpandMap, path: string, q: string)
    ensures IsExpanded(Toggle(Toggle(m, path), path), q) == IsExpanded(m, q)
  {
    if q != path {
      ToggleLeavesOthers(m, path, q);
      ToggleLeavesOthers(Toggle(m, path), path, q);
    }
  }

  /**
   * Toggling twice restores the record itself exactly when the path already
   * had an entry; a path that had none is left with an explicit `false`.
   */
  lemma ToggleTwiceRestoresMap(m: ExpandMap, path: string)
    ensures Toggle(Toggle(m, path), path) == m <==> path in m
    ensures path !in m ==> Toggle(Toggle(m, path), path) == m[path := false]
  {
    var m2 := Toggle(Toggle(m, path), path);
    if path in m {
      assert m2.Keys == m.Keys;
      assert forall q :: q in m ==> m2[q] == m[q];
    } else {
      assert path in m2 && path !in m;
      assert m2.Keys == m[path := false].Keys;
    }
  }

  /** Toggles of two paths commute. */
  lemma ToggleCommutes(m: ExpandMap, p: string, q: string)
    ensures Toggle(Toggle(m, p), q) == Toggle(Toggle(m, q), p)
  {
    if p != q {
      var a, b := Toggle(Toggle(m, p), q), Toggle(Toggle(m, q), p);
      assert a.Keys == b.Keys;
      assert forall r :: r in a ==> a[r] == b[r];
    }
  }
}
