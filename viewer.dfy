/**
 * The component state of `JsonViewer` (src/components/JSONViewer.tsx:19-39,
 * 209): the value it shows, the expand record and the copied marker, with
 * the three updates the component makes to them, and the rows it draws.
 */
module Viewer {
  import opened Wrappers
  import opened JsonValues
  import opened Paths
  import opened ExpandState
  import opened TreeRender

  class JsonViewer {
    var data: Json
    var expanded: ExpandMap
    var copied: Option<string>

    /** A fresh component: only "$" expanded, nothing copied. */
    constructor (data: Json)
      ensures this.data == data
      ensures expanded == Initial() && copied == None
    {
      this.data := data;
      expanded := Initial();
      copied := None;
    }

    /** `toggleExpand(path)`: flips one entry, keeps every other one. */
    method ToggleExpand(path: string)
      modifies this`expanded
      ensures expanded == Toggle(old(expanded), path)
      ensures IsExpanded(expanded, path) == !old(IsExpanded(expanded, path))
      ensures forall q :: q != path ==> IsExpanded(expanded, q) == old(IsExpanded(expanded, q))
    {
      expanded := Toggle(expanded, path);
    }

    /**
     * What `copyToClipboard(path)` does to the component: when the clipboard
     * write succeeds it marks that path as copied; when it fails nothing
     * changes. The outcome of the write is a parameter.
     */
    method CopyToClipboard(path: string, writeSucceeded: bool)
      modifies this`copied
      ensures copied == if writeSucceeded then Some(path) else old(copied)
    {
      if writeSucceeded {
        copied := Some(path);
      }
    }

    /** The timer callback two seconds after a copy: the mark is cleared. */
    method ClearCopied()
      modifies this`copied
      ensures copied == None
    {
      copied := None;
    }

    /**
     * A new `data` prop from the parent: the same component stays mounted,
     * so the expand record and the copied marker carry over unchanged and
     * their paths are now read against the new value.
     */
    method SetData(newData: Json)
      modifies this`data
      ensures data == newData
      ensures expanded == old(expanded) && copied == old(copied)
      ensures View() == RenderRoot(newData, old(expanded), old(copied))
    {
      data := newData;
    }

    /** `renderValue(data, "$")` over the current state. */
    function View(): (rows: seq<Row>)
      reads this
      ensures |rows| >= 1 && rows[0].path == Root && rows[0].key == None
      ensures rows[0].isExpanded == IsExpanded(expanded, Root)
    {
      RenderRoot(data, expanded, copied)
    }
  }
}
