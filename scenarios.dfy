/**
 * Client uses of the read/write cursor, proved from the cursor's contracts
 * alone: a property written is read back, and a REQUIRED miss or type
 * mismatch leaves a diagnostic that names the property.
 */
module CursorScenarios {

  import opened Wrappers
  import opened ConfigTypes
  import opened PropertyLookup
  import opened ConfigData
  import opened ConfigReaderWriter

  /**
   * setValue(name, v) followed by value(name): the read succeeds exactly when
   * v converts, yields the converted value, and otherwise reports an invalid
   * type that names the property.
   */
  method SetThenValue<T>(rw: ReaderWriter, name: string, v: Variant, value: T,
                         getValue: Variant -> Option<T>)
    returns (ok: bool, result: T)
    requires rw.Valid()
    modifies rw.cfg, rw.error
    ensures rw.Valid()
    ensures ok <==> getValue(v).Some?
    ensures ok ==> result == getValue(v).value
    ensures ok ==> rw.ErrorMessage() == old(rw.ErrorMessage())
    ensures !ok ==> rw.HasError() && Contains(rw.ErrorMessage(), name)
  {
    ghost var labels0, node0 := rw.cfg.labels, rw.cfg.nodes[rw.idx];
    rw.SetValue(name, v);
    LookupAfterAssign(labels0, node0, name, v, getValue);
    ghost var before := rw.error.message;
    ok, result := rw.Value(name, value, getValue, Required);
    if !ok {
      var o := Lookup(rw.cfg.labels, rw.cfg.nodes[rw.idx], name, getValue);
      ErrorTextNamesProperty(name, o, Required);
      ContainsExtends(before, ErrorText(name, o, Required), name);
    }
  }

  /**
   * A REQUIRED read of an interned name that the current node lacks fails,
   * and the buffer then holds a diagnostic naming it; an OPTIONAL read of it
   * fails silently.
   */
  method MissingProperty<T>(rw: ReaderWriter, name: string, value: T,
                            getValue: Variant -> Option<T>, opt: RequiredOrOptional)
    returns (ok: bool)
    requires rw.Valid()
    requires name in rw.cfg.labels && rw.cfg.labels[name] !in rw.cfg.nodes[rw.idx].values
    modifies rw.error
    ensures !ok
    ensures opt.Required? ==> rw.HasError() && Contains(rw.ErrorMessage(), name)
    ensures opt.Optional? ==> rw.ErrorMessage() == old(rw.ErrorMessage())
  {
    ghost var before := rw.error.message;
    var result;
    ok, result := rw.Value(name, value, getValue, opt);
    if opt.Required? {
      var o := Lookup(rw.cfg.labels, rw.cfg.nodes[rw.idx], name, getValue);
      ErrorTextNamesProperty(name, o, opt);
      ContainsExtends(before, ErrorText(name, o, opt), name);
    }
  }

  /**
   * On a fresh document, a REQUIRED read of a name nothing has used fails and
   * records nothing: the early return for an unknown name comes before any
   * diagnostic.
   */
  method RequiredReadOnFreshDocument<T>(name: string, value: T, getValue: Variant -> Option<T>)
    returns (ok: bool, hasError: bool)
    ensures !ok && !hasError
  {
    var rw := new ReaderWriter.Empty();
    var result;
    ok, result := rw.Value(name, value, getValue, Required);
    hasError := rw.HasError();
  }
}
