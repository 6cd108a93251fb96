/**
 * The shared document (Data), the shared error buffer (Error), and the
 * (document, node index) pairs that capture a cursor position.
 */
module ConfigData {

  import opened Wrappers
  import opened ConfigTypes

  /**
   * One configuration document: the label table, the flat node store
   * addressed by index, and the identifier of where the document came from.
   * Several cursors may hold the same Data object.
   */
  class Data {
    var labels: map<string, Label>
    var nodes: seq<Node>
    var source: string

    /** An empty document: no labels, no source, and one root node with no entries. */
    constructor ()
      ensures Valid()
      ensures labels == map[] && nodes == [Node("", map[])] && source == ""
    {
      labels := map[];
      nodes := [Node("", map[])];
      source := "";
    }

    /** The label table is dense and injective. */
    ghost predicate Valid()
      reads this
    {
      WellFormedLabels(labels)
    }

    /**
     * getLabel: pure lookup. When it finds a label, it is the one
     * getOrAddLabel would return, and getOrAddLabel would add nothing.
     */
    function GetLabel(name: string): (r: Option<Label>)
      reads this
      ensures r.Some? <==> name in labels
      ensures r.Some? ==> AddLabel(labels, name) == Interned(labels, r.value)
    {
      if name in labels then Some(labels[name]) else None
    }

    /** getOrAddLabel: intern `name`, adding it to the table when it is new. */
    method GetOrAddLabel(name: string) returns (lbl: Label)
      requires Valid()
      modifies this`labels
      ensures Valid()
      ensures Interned(labels, lbl) == AddLabel(old(labels), name)
    {
      AddLabelKeepsWellFormed(labels, name);
      if name in labels {
        lbl := labels[name];
      } else {
        lbl := |labels|;
        labels := labels[name := lbl];
      }
    }
  }

  /** The error buffer a ReaderWriter and the cursors derived from it share. */
  class Error {
    var message: string

    constructor ()
      ensures message == ""
    {
      message := "";
    }
  }

  /** A writable position: a shared document and the index of one of its nodes. */
  datatype DataPointer = DataPointer(cfg: Data, idx: NodeIdx)

  /** A read-only position: a shared document and the index of one of its nodes. */
  datatype DataConstPointer = DataConstPointer(cfg: Data, idx: NodeIdx)
}
