# tue_config cursors: typed property lookup and write path

This project models the core of `tue::config`'s two cursors over a
configuration document. The document (`Data`) holds a label table that
interns property names, a flat store of nodes addressed by index, and a
source identifier. A cursor stands on one node (`idx_`):

- `Reader` reads typed properties of its node and reports nothing.
- `ReaderWriter` reads them too, but records REQUIRED misses and type
  mismatches in a shared error buffer. It also writes properties, renames
  its node and sets the document's source.

A property read has three stages:

1. the name must be interned;
2. the current node must have an entry under its label;
3. the entry must convert to the requested type.

`PropertyLookup.Lookup` states the three stages once, and both cursors'
`Value` methods are proved against it. `ErrorText` gives the exact diagnostic
`ReaderWriter::value` records for each outcome. Contracts and lemmas prove
that:

- a write is read back;
- a write leaves every other property alone;
- every diagnostic names its property;
- an OPTIONAL read never records anything;
- a name that was never interned fails silently, even when REQUIRED.

Modules:

- `Wrappers`: the `Option` type.
- `ConfigTypes`: labels, variants, nodes and label interning (`AddLabel`).
- `PropertyLookup`: the lookup specification and its lemmas.
- `ConfigData`: the classes `Data` and `Error`, and the position pairs
  `DataPointer` and `DataConstPointer`.
- `ConfigReaderWriter`: the class `ReaderWriter`.
- `ConfigReader`: the class `Reader`.
- `CursorScenarios`: client methods proved from the cursor contracts alone.

`Variant::getValue<T>` is a parameter `getValue: Variant -> Option<T>`. Its
conversion rules are not part of this model, so every result holds for any
conversion. The document and the error buffer are heap objects. Several
cursors can hold the same one, as the source's shared pointers allow.

A REQUIRED read records a diagnostic only when the name has a label in the
document. The code returns early when the name has never been interned
(include/tue/config/reader_writer.h:41-43). So a REQUIRED read of a name that
no node has ever used fails and records nothing.
`PropertyLookup.UnknownNameIsSilent` states this rule, and
`CursorScenarios.RequiredReadOnFreshDocument` shows it on a fresh document.

## Model

| member | source | states |
|---|---|---|
| ConfigTypes.AddLabel | include/tue/config/reader_writer.h:100 | getOrAddLabel returns the name's label. A name already present keeps its label and the table is unchanged. A new name gets a label no other name has. No existing name changes label |
| ConfigTypes.AddLabelKeepsWellFormed | include/tue/config/reader_writer.h:100 | interning keeps the label table dense and injective: one distinct label per name |
| ConfigTypes.AddLabelIdempotent | include/tue/config/reader_writer.h:100 | interning the same name twice gives the same table and label as interning it once |
| ConfigTypes.AddLabelSeparates | include/tue/config/reader_writer.h:100 | interning a name never relabels another name and never gives the two the same label |
| ConfigTypes.Assign | include/tue/config/reader_writer.h:101 | the node's setValue puts v under the label, keeps the node's name, and leaves every other entry as it was |
| ConfigData.Data.GetLabel | include/tue/config/reader_writer.h:41-43 | getLabel finds a label exactly when the name is interned. What it finds is what getOrAddLabel would return, and getOrAddLabel would then add nothing |
| ConfigData.Data.GetOrAddLabel | include/tue/config/reader_writer.h:100 | updates the document's table to what AddLabel says and returns that label. The table stays well formed |
| ConfigData.Data.constructor | include/tue/config/reader_writer.h:30 | a new document is well formed, with no labels, an empty source and one root node that has no entries |
| ConfigData.Error.constructor | include/tue/config/reader_writer.h:18-21 | a new error buffer holds an empty message |
| PropertyLookup.Lookup | include/tue/config/reader.h:34-45 | the lookup fails at the intern stage exactly when the name has no label. It fails at the entry stage exactly when the node lacks that label, and at the conversion stage exactly when getValue fails. It succeeds with the converted value exactly when all three stages pass |
| PropertyLookup.ErrorText | include/tue/config/reader_writer.h:45-58 | a diagnostic is recorded exactly for a REQUIRED read that stops at the entry stage or the conversion stage. There is none for OPTIONAL reads, for unknown names or on success |
| PropertyLookup.ErrorTextNamesProperty | include/tue/config/reader_writer.h:49-56 | every recorded diagnostic contains the property's name |
| PropertyLookup.ErrorTextDistinguishesCauses | include/tue/config/reader_writer.h:49-56 | "not found" and "invalid type" diagnostics for the same name differ |
| PropertyLookup.UnknownNameIsSilent | include/tue/config/reader_writer.h:41-43 | a name that was never interned fails at the first stage with no diagnostic, even when REQUIRED |
| PropertyLookup.LookupAfterAssign | include/tue/config/reader_writer.h:96-102 | after setValue(name, v), reading name yields v's conversion, or an invalid-type failure when v does not convert. It never reports an unknown name or a missing entry |
| PropertyLookup.LookupAfterAssignOther | include/tue/config/reader_writer.h:96-102 | after setValue(name, v), every other name reads exactly as before |
| PropertyLookup.LookupIgnoresNodeName | include/tue/config/reader_writer.h:150-153 | renaming a node changes no property read |
| ConfigReaderWriter.ReaderWriter.Empty | include/tue/config/reader_writer.h:30 | the default cursor stands on the root of a fresh, empty document, with a fresh, empty error buffer and no error context |
| ConfigReaderWriter.ReaderWriter.constructor | include/tue/config/reader_writer.h:32 | a cursor made from a position stands on that node of that document, with a fresh, empty error buffer |
| ConfigReaderWriter.ReaderWriter.Value | include/tue/config/reader_writer.h:38-61 | returns true exactly when all three stages succeed, and then yields the converted value. On failure the caller's value is returned unchanged. The buffer gains exactly ErrorText for the outcome, and nothing under OPTIONAL. The cursor, the label table and the nodes are unchanged |
| ConfigReaderWriter.ReaderWriter.Source | include/tue/config/reader_writer.h:77 | source() is the shared document's source string |
| ConfigReaderWriter.ReaderWriter.SetValue | include/tue/config/reader_writer.h:96-102 | interns the name as AddLabel says and overwrites only that label's entry in the current node. Other nodes, the source and the cursor are unchanged, and the document stays well formed |
| ConfigReaderWriter.ReaderWriter.SetSource | include/tue/config/reader_writer.h:108 | afterwards source() returns s; labels and nodes are unchanged |
| ConfigReaderWriter.ReaderWriter.AddError | include/tue/config/reader_writer.h:115 | appends the message to the shared buffer; what was recorded before stays |
| ConfigReaderWriter.ReaderWriter.HasError | include/tue/config/reader_writer.h:117 | hasError holds exactly when the accumulated message is non-empty |
| ConfigReaderWriter.ReaderWriter.ErrorMessage | include/tue/config/reader_writer.h:119 | error() is the accumulated message, unchanged |
| ConfigReaderWriter.ReaderWriter.DataPtr | include/tue/config/reader_writer.h:146 | data() pairs the shared document with the current index and moves nothing |
| ConfigReaderWriter.ReaderWriter.SetErrorContext | include/tue/config/reader_writer.h:148 | the cursor's error context becomes the given string |
| ConfigReaderWriter.ReaderWriter.SetShortErrorContext | include/tue/config/reader_writer.h:150-153 | renames only the current node. Its entries, the other nodes and the document stay as they were |
| ConfigReaderWriter.ReaderWriter.ReadArray | include/tue/config/reader_writer.h:68 | readArray issues read(name, ARRAY, opt) |
| ConfigReaderWriter.ReaderWriter.ReadGroup | include/tue/config/reader_writer.h:69 | readGroup issues read(name, MAP, opt) |
| ConfigReaderWriter.ReaderWriter.EndArray | include/tue/config/reader_writer.h:70 | endArray issues end() |
| ConfigReaderWriter.ReaderWriter.EndGroup | include/tue/config/reader_writer.h:71 | endGroup issues end() |
| ConfigReaderWriter.ReaderWriter.NextArrayItem | include/tue/config/reader_writer.h:72 | nextArrayItem issues next() |
| ConfigReaderWriter.ReaderWriter.HasArray | include/tue/config/reader_writer.h:74 | hasArray issues hasChild(name, ARRAY) |
| ConfigReaderWriter.ReaderWriter.HasGroup | include/tue/config/reader_writer.h:75 | hasGroup issues hasChild(name, MAP) |
| ConfigReaderWriter.ArrayAndGroupDiffer | include/tue/config/reader_writer.h:68-75 | the read/write cursor tells arrays from groups. readArray and readGroup issue different requests, because they pass ARRAY and MAP to read. hasArray and hasGroup differ in the same way. endArray and endGroup are the same end() |
| ConfigReader.Reader.constructor | include/tue/config/reader.h:21 | a reader made from a position stands on that node of that document |
| ConfigReader.Reader.Value | include/tue/config/reader.h:31-46 | returns true exactly when all three stages succeed, and then yields the converted value. Otherwise the caller's value is returned unchanged. opt has no effect, and the cursor and the document are unchanged |
| ConfigReader.Reader.DataPtr | include/tue/config/reader.h:54 | data() pairs the shared document with the current index and moves nothing |
| ConfigReader.Reader.ReadArray | include/tue/config/reader.h:48 | readArray issues the untyped read(name, opt) |
| ConfigReader.Reader.ReadGroup | include/tue/config/reader.h:49 | readGroup issues the untyped read(name, opt) |
| ConfigReader.Reader.EndArray | include/tue/config/reader.h:50 | endArray issues end() |
| ConfigReader.Reader.EndGroup | include/tue/config/reader.h:51 | endGroup issues end() |
| ConfigReader.Reader.NextArrayItem | include/tue/config/reader.h:52 | nextArrayItem issues next() |
| ConfigReader.ArrayAndGroupCoincide | include/tue/config/reader.h:48-52 | the reader does not tell arrays from groups. readArray and readGroup issue the same request, and endArray and endGroup are the same end() |
| CursorScenarios.SetThenValue | include/tue/config/reader_writer.h:96-102 | setValue then a REQUIRED value read succeeds exactly when v converts, and yields the conversion. Otherwise the buffer holds a diagnostic naming the property |
| CursorScenarios.MissingProperty | include/tue/config/reader_writer.h:45-51 | reading an interned name that the current node lacks fails. REQUIRED leaves a diagnostic naming it; OPTIONAL leaves the buffer unchanged |
| CursorScenarios.RequiredReadOnFreshDocument | include/tue/config/reader_writer.h:41-43 | on a fresh document, a REQUIRED read of any name fails and hasError() stays false |

## Left out

- The navigation and structure primitives `read`, `end`, `next`, `hasChild`, `writeGroup`, `writeArray`, `addArrayItem`, `endArrayItem` and `limitScope` are declared in the headers, but their bodies are not part of this model. The model does not move `idx`, and it never uses `scope`.
- The array/group aliases are modelled as the request (`NavRequest`) they forward to those primitives, not as its effect.
- Node shapes (MAP, ARRAY, scalar) and parent/child/array links are not modelled. A node here is its diagnostic name and its label-to-value entries.
- ConfigReaderWriter.ReaderWriter.AddError appends the message as given. The real addError may add the error context and separators; its body is not part of this model.
- The error context set by setErrorContext is stored but never used, because the addError formatting that would read it is not modelled.
- ConfigData.Data.constructor: Data's constructor is not part of this model. The empty document with one unnamed root node at index 0 is this model's choice, and so is the cursor that ConfigReaderWriter.ReaderWriter.Empty (the default `ReaderWriter()`) places on that root.
- ConfigReaderWriter.ReaderWriter.constructor and ConfigReader.Reader.constructor: their bodies are not part of this model. The model sets `scope` to the starting index and gives the ReaderWriter a fresh, empty error buffer; the ReaderWriter contract states only the buffer, not `scope`.
- ConfigTypes.AddLabel gives a new name the label equal to the table's size. Data's label allocation is not part of this model, so the contracts promise only that the label is fresh and stable, not its number.
- `Variant::getValue<T>` is a parameter of the read methods, and `Variant var(value)` in setValue is the caller's Variant. The conversion rules, floating-point kinds included, are not part of this model.
- `loadFromSDFFile`, `loadFromXMLFile`, `loadFromYAMLFile` and `sync` are left out: they do file I/O, run the format parsers and poll modification times.
- `toYAMLString`, `print` and `operator<<` are left out: they delegate to an external formatter or stream.
- Reference counting and the lifetime of the shared pointers are left out. Sharing is modelled as several cursors holding the same heap object.
- Nodes are values stored in the document's sequence rather than separately allocated objects. Aliasing between node pointers is therefore not captured.
