/**
 * The typed property lookup shared by Reader::value and ReaderWriter::value,
 * as a function of the label table and the current node: intern check, entry
 * lookup, typed extraction. Also the diagnostic ReaderWriter::value records
 * for each outcome.
 */
module PropertyLookup {

  import opened Wrappers
  import opened ConfigTypes

  /** How a lookup ended: at which of the three stages it stopped, or with the value. */
  datatype Outcome<T> =
    | UnknownLabel   // the name was never interned in this document
    | NotFound       // the current node has no entry under the label
    | InvalidType    // the entry does not convert to the requested type
    | Found(value: T)

  /**
   * Look `name` up in `node`; `getValue` is Variant::getValue<T>, the
   * (unmodelled) conversion to the requested type.
   */
  function Lookup<T>(labels: map<string, Label>, node: Node, name: string,
                     getValue: Variant -> Option<T>): (r: Outcome<T>)
    ensures r.UnknownLabel? <==> name !in labels
    ensures r.NotFound? <==> name in labels && labels[name] !in node.values
    ensures r.InvalidType? <==>
              name in labels && labels[name] in node.values
              && getValue(node.values[labels[name]]).None?
    ensures r.Found? <==>
              name in labels && labels[name] in node.values
              && getValue(node.values[labels[name]]).Some?
    ensures r.Found? ==> r.value == getValue(node.values[labels[name]]).value
  {
    if name !in labels then UnknownLabel
    else
      var lbl := labels[name];
      if lbl !in node.values then NotFound
      else
        match getValue(node.values[lbl])
        case None => InvalidType
        case Some(x) => Found(x)
  }

  /**
   * The text ReaderWriter::value hands to addError for an outcome, or "" when
   * it records nothing.
   */
  function ErrorText<T>(name: string, o: Outcome<T>, opt: RequiredOrOptional): (msg: string)
    ensures msg != "" <==> opt.Required? && (o.NotFound? || o.InvalidType?)
  {
    if opt.Optional? then ""
    else if o.NotFound? then "Expected property '" + name + "', not found."
    else if o.InvalidType? then "Property '" + name + "' has invalid type."
    else ""
  }

  /** `sub` occurs in `s` starting at position `i`. */
  predicate OccursAt(s: string, sub: string, i: int)
  {
    0 <= i <= |s| - |sub| && s[i..i + |sub|] == sub
  }

  /** `sub` occurs somewhere in `s`. */
  predicate Contains(s: string, sub: string)
  {
    exists i | 0 <= i <= |s| - |sub| :: OccursAt(s, sub, i)
  }

  /** What occurs in a suffix occurs in the whole. */
  lemma ContainsExtends(prefix: string, s: string, sub: string)
    requires Contains(s, sub)
    ensures Contains(prefix + s, sub)
  {
    var i :| 0 <= i <= |s| - |sub| && OccursAt(s, sub, i);
    assert (prefix + s)[|prefix| + i..|prefix| + i + |sub|] == s[i..i + |sub|];
    assert OccursAt(prefix + s, sub, |prefix| + i);
  }

  /** Every diagnostic recorded for a property names that property. */
  lemma ErrorTextNamesProperty<T>(name: string, o: Outcome<T>, opt: RequiredOrOptional)
    requires ErrorText(name, o, opt) != ""
    ensures Contains(ErrorText(name, o, opt), name)
  {
    var msg := ErrorText(name, o, opt);
    var prefix := if o.NotFound? then "Expected property '" else "Property '";
    assert OccursAt(msg, name, |prefix|);
  }

  /**
   * The two diagnostics are told apart by their opening words: a missing
   * entry and a wrong type never read alike.
   */
  lemma ErrorTextDistinguishesCauses<T>(name: string, opt: RequiredOrOptional)
    requires opt.Required?
    ensures ErrorText<T>(name, NotFound, opt) != ErrorText<T>(name, InvalidType, opt)
  {
    assert ErrorText<T>(name, NotFound, opt)[0] == 'E';
    assert ErrorText<T>(name, InvalidType, opt)[0] == 'P';
  }

  /**
   * The quirk of ReaderWriter::value: a name that was never interned fails
   * without a diagnostic, even for a REQUIRED property.
   */
  lemma UnknownNameIsSilent<T>(labels: map<string, Label>, node: Node, name: string,
                               getValue: Variant -> Option<T>, opt: RequiredOrOptional)
    requires name !in labels
    ensures Lookup(labels, node, name, getValue) == UnknownLabel
    ensures ErrorText(name, Lookup(labels, node, name, getValue), opt) == ""
  {
  }

  /**
   * Round trip of setValue and value: after interning `name` and assigning
   * `v` under its label, looking `name` up yields v's conversion, or an
   * invalid-type failure when v does not convert.
   */
  lemma LookupAfterAssign<T>(labels: map<string, Label>, node: Node, name: string, v: Variant,
                             getValue: Variant -> Option<T>)
    ensures var i := AddLabel(labels, name);
            Lookup(i.table, Assign(node, i.lbl, v), name, getValue)
              == if getValue(v).Some? then Found(getValue(v).value) else InvalidType
  {
  }

  /**
   * setValue touches one property only: every other name looks up exactly as
   * before, provided the label table is well formed.
   */
  lemma LookupAfterAssignOther<T>(labels: map<string, Label>, node: Node, name: string, v: Variant,
                                  other: string, getValue: Variant -> Option<T>)
    requires WellFormedLabels(labels)
    requires other != name
    ensures var i := AddLabel(labels, name);
            Lookup(i.table, Assign(node, i.lbl, v), other, getValue)
              == Lookup(labels, node, other, getValue)
  {
    var i := AddLabel(labels, name);
    if other in labels {
      AddLabelSeparates(labels, name, other);
    }
  }

  /** Renaming a node (setShortErrorContext) changes no lookup. */
  lemma LookupIgnoresNodeName<T>(labels: map<string, Label>, node: Node, newName: string,
                                 name: string, getValue: Variant -> Option<T>)
    ensures Lookup(labels, node.(name := newName), name, getValue) == Lookup(labels, node, name, getValue)
  {
  }
}
