/**
 * The vocabulary shared by the document and its cursors: labels, scalar
 * variants, nodes, the REQUIRED/OPTIONAL marker, and the label table that
 * interns property names.
 */
module ConfigTypes {

  import opened Wrappers

  /** An interned property name; unique per distinct string within one document. */
  type Label = nat

  /** The position of a node in the document's flat node store. */
  type NodeIdx = nat

  /** The shape a child is expected to have when a cursor descends into it. */
  datatype NodeType = Map | Array

  datatype RequiredOrOptional = Required | Optional

  /**
   * A scalar value of one of the kinds a document holds. Which C++ types a
   * Variant converts to is not modelled: conversions are passed to the
   * cursors as a function `Variant -> Option<T>`.
   */
  datatype Variant =
    | StringValue(s: string)
    | IntValue(i: int)
    | RealValue(r: real)
    | BoolValue(b: bool)

  /** A node of the store: its diagnostic name and its (label -> value) entries. */
  datatype Node = Node(name: string, values: map<Label, Variant>)

  /** Node::setValue: overwrite (or add) the entry under the given label. */
  function Assign(node: Node, lbl: Label, v: Variant): (r: Node)
    ensures r.name == node.name
    ensures lbl in r.values && r.values[lbl] == v
    ensures r.values.Keys == node.values.Keys + {lbl}
    ensures forall l | l in node.values && l != lbl :: r.values[l] == node.values[l]
  {
    node.(values := node.values[lbl := v])
  }

  // ---- Label table --------------------------------------------------------------

  /**
   * The label table is dense and injective: the labels in use are exactly
   * 0 .. |labels|-1, one per interned name.
   */
  ghost predicate WellFormedLabels(labels: map<string, Label>)
  {
    && (forall n | n in labels :: labels[n] < |labels|)
    && (forall n, m | n in labels && m in labels && n != m :: labels[n] != labels[m])
  }

  /** The label table after interning a name, and the name's label. */
  datatype Interned = Interned(table: map<string, Label>, lbl: Label)

  /**
   * getOrAddLabel on the label table: look the name up, or give it the next
   * unused label.
   */
  function AddLabel(labels: map<string, Label>, name: string): (r: Interned)
    ensures name in r.table && r.table[name] == r.lbl
    ensures r.table.Keys == labels.Keys + {name}
    ensures forall n | n in labels :: r.table[n] == labels[n]
    ensures name in labels ==> r.table == labels
    ensures WellFormedLabels(labels) && name !in labels ==>
              forall n | n in labels :: labels[n] != r.lbl
  {
    if name in labels then Interned(labels, labels[name])
    else Interned(labels[name := |labels|], |labels|)
  }

  /** Interning keeps the table dense and injective. */
  lemma AddLabelKeepsWellFormed(labels: map<string, Label>, name: string)
    requires WellFormedLabels(labels)
    ensures WellFormedLabels(AddLabel(labels, name).table)
  {
    if name !in labels {
      var t := AddLabel(labels, name).table;
      assert t.Keys == labels.Keys + {name};
      assert |t.Keys| == |labels.Keys| + 1;
    }
  }

  /** getOrAddLabel is idempotent: interning the same name twice changes nothing more. */
  lemma AddLabelIdempotent(labels: map<string, Label>, name: string)
    ensures var once := AddLabel(labels, name);
            AddLabel(once.table, name) == once
  {
  }

  /**
   * Interning never re-labels a name: a name that had a label keeps it, and
   * two distinct names never end up sharing one.
   */
  lemma AddLabelSeparates(labels: map<string, Label>, name: string, other: string)
    requires WellFormedLabels(labels)
    requires other in labels && other != name
    ensures var i := AddLabel(labels, name);
            other in i.table && i.table[other] == labels[other] && i.table[other] != i.lbl
  {
  }

  // ---- Requests to the navigation primitives --------------------------------------

  /**
   * A call to one of the cursor primitives whose bodies are not part of this
   * model (read, end, next, hasChild). The source's array/group aliases are
   * nothing but such calls, so they are modelled as the request they issue.
   */
  datatype NavRequest =
    | ReadTyped(name: string, nodeType: NodeType, opt: RequiredOrOptional)
    | ReadAny(name: string, opt: RequiredOrOptional)
    | End
    | Next
    | HasChild(name: string, nodeType: NodeType)
}
