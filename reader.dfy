/**
 * The read-only cursor: a current node index into a shared document and
 * typed property reads that report nothing.
 */
module ConfigReader {

  import opened Wrappers
  import opened ConfigTypes
  import opened PropertyLookup
  import opened ConfigData

  class Reader {
    /** The node the cursor stands on. */
    var idx: NodeIdx
    var cfg: Data

    ghost predicate Valid()
      reads this, cfg
    {
      cfg.Valid() && idx < |cfg.nodes|
    }

    /** A cursor on the given position. */
    constructor (ptr: DataConstPointer)
      requires ptr.cfg.Valid() && ptr.idx < |ptr.cfg.nodes|
      ensures Valid() && cfg == ptr.cfg && idx == ptr.idx
    {
      idx := ptr.idx;
      cfg := ptr.cfg;
    }

    /**
     * value<T>: read property `name` of the current node, converting with
     * `getValue`. It succeeds exactly when the name is interned, the current
     * node has an entry under it and the entry converts; otherwise the
     * caller's `value` comes back unchanged. `opt` has no effect, and neither
     * the cursor nor the document changes.
     */
    method Value<T>(name: string, value: T, getValue: Variant -> Option<T>,
                    opt: RequiredOrOptional := Required)
      returns (ok: bool, result: T)
      requires Valid()
      ensures ok <==> Lookup(cfg.labels, cfg.nodes[idx], name, getValue).Found?
      ensures result == if ok then Lookup(cfg.labels, cfg.nodes[idx], name, getValue).value else value
    {
      var lbl := cfg.GetLabel(name);
      if lbl.None? {
        return false, value;
      }
      var node := cfg.nodes[idx];
      if lbl.value !in node.values {
        return false, value;
      }
      var converted := getValue(node.values[lbl.value]);
      if converted.None? {
        return false, value;
      }
      return true, converted.value;
    }

    /** readArray: the same primitive as readGroup, read(name, opt). */
    function ReadArray(name: string, opt: RequiredOrOptional := Optional): (r: NavRequest)
      ensures r == ReadAny(name, opt)
    {
      ReadAny(name, opt)
    }

    /** readGroup: read(name, opt). */
    function ReadGroup(name: string, opt: RequiredOrOptional := Optional): (r: NavRequest)
      ensures r == ReadAny(name, opt)
    {
      ReadAny(name, opt)
    }

    /** endArray: leave the array, via end(). */
    function EndArray(): (r: NavRequest)
      ensures r == End
    {
      End
    }

    /** endGroup: leave the group, via end(). */
    function EndGroup(): (r: NavRequest)
      ensures r == End
    {
      End
    }

    /** nextArrayItem: step to the next array item, via next(). */
    function NextArrayItem(): (r: NavRequest)
      ensures r == Next
    {
      Next
    }

    /** data(): the current position, sharing the document read-only. */
    function DataPtr(): (p: DataConstPointer)
      reads this
      ensures p.cfg == cfg && p.idx == idx
    {
      DataConstPointer(cfg, idx)
    }
  }

  /**
   * The reader does not tell arrays from groups: both read aliases issue the
   * same request, and so do both ends.
   */
  lemma ArrayAndGroupCoincide(r: Reader, name: string, opt: RequiredOrOptional)
    ensures r.ReadArray(name, opt) == r.ReadGroup(name, opt)
    ensures r.EndArray() == r.EndGroup()
  {
  }
}
