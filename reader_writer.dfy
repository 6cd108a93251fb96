/**
 * The read/write cursor: a current node index into a shared document, a
 * shared error buffer, typed property reads that report REQUIRED failures,
 * and property writes into the current node.
 */
module ConfigReaderWriter {

  import opened Wrappers
  import opened ConfigTypes
  import opened PropertyLookup
  import opened ConfigData

  class ReaderWriter {
    /** The node the cursor stands on. */
    var idx: NodeIdx
    /** The root of the enclosing scope; only the navigation primitives use it. */
    var scope: NodeIdx
    var cfg: Data
    var error: Error
    /** The diagnostic context attached by setErrorContext, if any. */
    var errorContext: Option<string>

    ghost predicate Valid()
      reads this, cfg
    {
      cfg.Valid() && idx < |cfg.nodes|
    }

    /** A cursor on the root of a fresh, empty document, with a fresh, empty error buffer. */
    constructor Empty()
      ensures Valid() && fresh(cfg) && fresh(error)
      ensures idx == 0 && cfg.labels == map[] && cfg.nodes == [Node("", map[])] && cfg.source == ""
      ensures error.message == "" && errorContext == None
    {
      idx := 0;
      scope := 0;
      cfg := new Data();
      error := new Error();
      errorContext := None;
    }

    /** A cursor on the given position, with a fresh, empty error buffer. */
    constructor (ptr: DataPointer)
      requires ptr.cfg.Valid() && ptr.idx < |ptr.cfg.nodes|
      ensures Valid()
      ensures cfg == ptr.cfg && idx == ptr.idx
      ensures fresh(error) && error.message == "" && errorContext == None
    {
      idx := ptr.idx;
      scope := ptr.idx;
      cfg := ptr.cfg;
      error := new Error();
      errorContext := None;
    }

    // ---- Reading ----------------------------------------------------------------

    /**
     * value<T>: read property `name` of the current node into `value`,
     * converting with `getValue`. On failure the caller's `value` comes back
     * unchanged, and for a REQUIRED property a missing entry or a failed
     * conversion is recorded in the error buffer; a name that was never
     * interned fails without a record. Nothing but the error buffer changes.
     */
    method Value<T>(name: string, value: T, getValue: Variant -> Option<T>,
                    opt: RequiredOrOptional := Required)
      returns (ok: bool, result: T)
      requires Valid()
      modifies error
      ensures Valid() && unchanged(this, cfg)
      ensures ok <==> Lookup(cfg.labels, cfg.nodes[idx], name, getValue).Found?
      ensures result == if ok then Lookup(cfg.labels, cfg.nodes[idx], name, getValue).value else value
      ensures error.message
                == old(error.message) + ErrorText(name, Lookup(cfg.labels, cfg.nodes[idx], name, getValue), opt)
      ensures opt.Optional? ==> unchanged(error)
    {
      var lbl := cfg.GetLabel(name);
      if lbl.None? {
        return false, value;
      }
      var node := cfg.nodes[idx];
      if lbl.value !in node.values {
        if opt == Required {
          AddError("Expected property '" + name + "', not found.");
        }
        return false, value;
      }
      var converted := getValue(node.values[lbl.value]);
      if converted.None? {
        if opt == Required {
          AddError("Property '" + name + "' has invalid type.");
        }
        return false, value;
      }
      return true, converted.value;
    }

    /** readArray: descend into an array child, via read(name, ARRAY, opt). */
    function ReadArray(name: string, opt: RequiredOrOptional := Optional): (r: NavRequest)
      ensures r == ReadTyped(name, Array, opt)
    {
      ReadTyped(name, Array, opt)
    }

    /** readGroup: descend into a group child, via read(name, MAP, opt). */
    function ReadGroup(name: string, opt: RequiredOrOptional := Optional): (r: NavRequest)
      ensures r == ReadTyped(name, Map, opt)
    {
      ReadTyped(name, Map, opt)
    }

    /** endArray: leave the array, via end(). */
    function EndArray(): (r: NavRequest)
      ensures r == End
    {
      End
    }

    /** endGroup: leave the group, via end(). */
    function EndGroup(): (r: NavRequest)
      ensures r == End
    {
      End
    }

    /** nextArrayItem: step to the next array item, via next(). */
    function NextArrayItem(): (r: NavRequest)
      ensures r == Next
    {
      Next
    }

    /** hasArray: test for an array child, via hasChild(name, ARRAY). */
    function HasArray(name: string): (r: NavRequest)
      ensures r == HasChild(name, Array)
    {
      HasChild(name, Array)
    }

    /** hasGroup: test for a group child, via hasChild(name, MAP). */
    function HasGroup(name: string): (r: NavRequest)
      ensures r == HasChild(name, Map)
    {
      HasChild(name, Map)
    }

    /** source(): the document's origin, shared with every cursor on it. */
    function Source(): (s: string)
      reads this, cfg
      ensures s == cfg.source
    {
      cfg.source
    }

    // ---- Writing ----------------------------------------------------------------

    /**
     * setValue: intern `name` and overwrite its entry in the current node.
     * The label table only grows; no other node and no other entry changes.
     */
    method SetValue(name: string, v: Variant)
      requires Valid()
      modifies cfg
      ensures Valid() && unchanged(this)
      ensures var i := AddLabel(old(cfg.labels), name);
              && cfg.labels == i.table
              && cfg.nodes == old(cfg.nodes)[idx := Assign(old(cfg.nodes[idx]), i.lbl, v)]
      ensures cfg.source == old(cfg.source)
    {
      var lbl := cfg.GetOrAddLabel(name);
      cfg.nodes := cfg.nodes[idx := Assign(cfg.nodes[idx], lbl, v)];
    }

    /** setSource: replace the document's origin identifier. */
    method SetSource(s: string)
      requires Valid()
      modifies cfg`source
      ensures Valid() && Source() == s
      ensures cfg.labels == old(cfg.labels) && cfg.nodes == old(cfg.nodes)
    {
      cfg.source := s;
    }

    // ---- Additional -------------------------------------------------------------

    /** addError: append a diagnostic to the shared buffer. */
    method AddError(msg: string)
      modifies error
      ensures error.message == old(error.message) + msg
    {
      error.message := error.message + msg;
    }

    /** hasError(): some diagnostic has been recorded. */
    function HasError(): (r: bool)
      reads this, error
      ensures r <==> |error.message| > 0
    {
      error.message != ""
    }

    /** error(): the accumulated diagnostics, as they are. */
    function ErrorMessage(): (m: string)
      reads this, error
      ensures m == error.message
    {
      error.message
    }

    /** data(): the current position, sharing the document. */
    function DataPtr(): (p: DataPointer)
      reads this
      ensures p.cfg == cfg && p.idx == idx
    {
      DataPointer(cfg, idx)
    }

    /** setErrorContext: attach a context string for later diagnostics. */
    method SetErrorContext(context: string)
      modifies this`errorContext
      ensures errorContext == Some(context)
    {
      errorContext := Some(context);
    }

    /** setShortErrorContext: rename the current node; nothing else changes. */
    method SetShortErrorContext(context: string)
      requires Valid()
      modifies cfg`nodes
      ensures Valid()
      ensures cfg.nodes == old(cfg.nodes)[idx := old(cfg.nodes[idx]).(name := context)]
    {
      cfg.nodes := cfg.nodes[idx := cfg.nodes[idx].(name := context)];
    }
  }

  /**
   * Arrays and groups are told apart: the read and hasChild requests of the
   * array and group aliases differ in the node type, while both ends are the
   * same end().
   */
  lemma ArrayAndGroupDiffer(rw: ReaderWriter, name: string, opt: RequiredOrOptional)
    ensures rw.ReadArray(name, opt) != rw.ReadGroup(name, opt)
    ensures rw.HasArray(name) != rw.HasGroup(name)
    ensures rw.EndArray() == rw.EndGroup()
  {
  }
}
