# XML-to-record binding engine, modelled in Dafny

This project models the read-only binding engine of a small C++ library that
fills typed records from a parsed XML document. A record type is a
`composite`. Its constructor registers each member under an element name
with `insert`. Its `bind` walks the children of a DOM node in document order
and hands each child whose name is registered to that member's own `bind`.

There are three kinds of member:

- a leaf `node<T>`, which runs a converter over the child's text;
- a nested composite;
- a `nodelist<T>`, which appends one newly bound `T` per child.

The engine rests on three smaller pieces:

- a thin wrapper over DOM nodes, with a factory that picks a wrapper by node type;
- the converters: text passes through for strings, and int/short/long use the C `atoi` prefix parse;
- an error record that grows a chain of underlying errors.

Files and modules:

- `wrappers.dfy` (`Wrappers`): `Option`, standing for a pointer that may be null.
- `numerals.dfy` (`Numerals`): `Atoi` follows ISO C11 section 7.22.1.2 and section 7.22.1.4 with base 10. It skips white space, reads an optional sign, then as many digits as follow; with no digits the result is 0. `IntToDecimal` is the text an output stream writes for an `int`.
- `support.dfy` (`Support`): `error_code` (error_code.hpp). `ErrorValue` is the record as a value. The class `ErrorCode` is the object that `attach` and `attach_or_create` change in place. `Render` is what `operator<<` writes, and `Write` is its loop. The accessors `code()`, `text()` and `chain()` are the class's fields.
- `dom.dfy` (`Dom`): xmldom.hpp.
  - `DomNode` is the parsed tree: node type, name, own value and ordered children. It stands in for the parser library's node.
  - `Node` is the wrapper. `NewNode` is its constructor's loop, and `Create` is `node_factory::create`.
  - `Parser.Parse` takes what the parser did as a `ParseOutcome` parameter.
  - The wrapper's `name()`/`value()` accessors and its conversion to a string are the fields `name` and `value`.
- `converters.dfy` (`Converters`): xmlconverter.hpp. A `Converter` holds its kind, the bound wrapper (`node_`) and the typed value (`value_`).
- `binding.dfy` (`Binding`): xmlbinding.hpp.
  - `Field` is a schema element together with its bound state.
  - `BindField`, `BindChildren` and `Dispatch` specify `bind`. `BindAll` and `BindEntry` are the loop and the virtual call that implement it.
  - The class `Composite` is a top-level record object, with `Insert` and `Bind`.
- `domprint.dfy` (`DomPrint`): the demo driver's record types and a sample document. `Header` is a trimmed `vmaster_header` that keeps 4 of its 24 members: two strings, the int `entity_coper_id` and the diary. Lemmas read the members back the way the driver does, and `Execute` replays the driver's `execute()` on the sample document: it builds the message, binds it to the document element and checks the members the driver reads.

Modelling choices taken from the source:

- Re-binding a composite does not reset an entry that no child matches. The doc comment of `composite::bind` (xmlbinding.hpp:77-83) only sends found children to their entries, so other entries stay as they were (`Binding.UnmatchedEntryUnchanged`).
- `parse` leaves `err` untouched on failure. Its handlers (xmldom.hpp:225-236) hold only a comment about transferring error details.
- Registered names are distinct: `Composite.Insert` requires a new name. `insert` stores into a `std::map` (xmlbinding.hpp:94-95), and no record type in the driver registers a name twice.
- Integer converters store what `atoi` returns in their `value_type` (xmlconverter.hpp:34, 67, 75, 83). A `short` keeps that value modulo 2^16, in [-32768, 32767] (`Converters.Narrow`, `Converters.ShortConverterWraps`).

The `.ipp` files holding the bodies of `bind`, `insert`, the nodelist
accessors and the converters are not part of this model. Their behaviour is
taken from the declarations and the doc comments:

- a leaf is present exactly when its converter holds a bound node;
- a composite's `bind` answers whether the wrapper it was given is non-null;
- a `nodelist` registered under a name receives each matching child through its `bind(err, dnp)` (xmlbinding.hpp:103), and each call appends one newly bound `T` for that child, so the list grows by one element per matching child, in document order (`Binding.ListAfterBind`);
- a wrapper around a null DOM pointer has no children to dispatch;
- a child for which `node_factory::create` gives no wrapper is skipped by `composite::bind` (`Binding.Dispatch`). These are comments, CDATA sections, processing instructions and the other non-element, non-attribute, non-text node types. It has no wrapper and so no name to look up.

## Model

| member | source | states |
|---|---|---|
| `Binding.Composite.constructor` | xmlbinding.hpp:75 | A composite starts with no registered names. |
| `Binding.Composite.Insert` | xmlbinding.hpp:87-95 | Registers exactly one name→member entry; the name must not be registered yet, so each name denotes one member. |
| `Binding.Composite.Bind` | xmlbinding.hpp:77-83 | Answers whether the wrapper is non-null. The registered name set is unchanged. The new map is the specified dispatch of the wrapped node's children, or the old map when there is no DOM node. |
| `Binding.BindAll` | xmlbinding.hpp:77-83 | The loop over the children, looking each child's name up and binding the found entry to that child, computes exactly the specified dispatch `BindChildren`. |
| `Binding.BindEntry` | xmlbinding.hpp:13-17 | The virtual `bind` of a member computes `BindField`. A leaf binds its converter to the child's wrapper. A composite dispatches the child's own children. A nodelist appends a new `T` bound to the child. |
| `Binding.BindChildrenKeepsNames` | xmlbinding.hpp:87-89 | `bind` neither adds nor removes a registered name. |
| `Binding.BindChildrenDispatchesByName` | xmlbinding.hpp:77-83 | The entry under a name is bound, in document order, to exactly the children that carry that name and have a wrapper, and to no other child. |
| `Binding.UnmatchedEntryUnchanged` | xmlbinding.hpp:79-81 | An entry whose name no child carries is left exactly as it was. |
| `Binding.UnregisteredChildrenIgnored` | xmlbinding.hpp:79-81 | Children with unregistered names have no effect. Two nodes whose children agree on every registered name give the same bound map. |
| `Binding.BindEachLeaf` | xmlbinding.hpp:54 | A leaf bound to several nodes in turn ends up bound to the last one; binding no node leaves it unchanged. |
| `Binding.BindEachList` | xmlbinding.hpp:99-117 | A nodelist bound to several nodes in turn keeps its earlier elements and appends one bound `T` per node, in order. |
| `Binding.LeafAfterBind` | xmlbinding.hpp:43-46 | After `bind`, a leaf is present iff some child carried its name or it was present before. If a child matched, the leaf holds the last such child's wrapper and the conversion of that child's first text; otherwise it is unchanged. |
| `Binding.ListAfterBind` | xmlbinding.hpp:103-116 | After `bind`, a nodelist's size grows by the number of matching children. Earlier elements stay, and new element j is a fresh `T` bound to the j-th matching child. |
| `Binding.BindFieldKeepsShape` | xmlbinding.hpp:87-89 | Binding never changes a member's shape: its variant, registered names, converter kind and nodelist prototype. |
| `Binding.BindChildrenKeepsShape` | xmlbinding.hpp:87-95 | After `bind` every registered entry keeps its shape; only values, presence and nodelist contents change. |
| `Binding.IsPresent` | xmlbinding.hpp:43-46 | A leaf's boolean test is true exactly when its converter holds a bound node. |
| `Binding.LeafPresence` | xmlbinding.hpp:43-46 | A newly constructed leaf tests false. A leaf bound to any node tests true. A write through `access()` does not change the test. |
| `Binding.Get` | xmlbinding.hpp:26-36 | A leaf's `operator()` and its conversion to `value_type` both give the converter's `access()` value. |
| `Binding.Size` | xmlbinding.hpp:109 | `size()` is the length of `chain_`. |
| `Binding.IsEmpty` | xmlbinding.hpp:110 | `empty()` holds exactly when the size is 0. |
| `Binding.At` | xmlbinding.hpp:112-113 | `operator[](i)` is the i-th element of `chain_`, and needs i below the size. |
| `Converters.NewConverter` | xmlconverter.hpp:69-88 | A new converter has its kind, is bound to no node, and holds a value of its kind's type. |
| `Converters.Bind` | xmlconverter.hpp:20-35 | `bind` stores the node in `node_`, then the conversion step reads that stored node's text. The result is bound to the node and holds a value of its kind's `value_type`; for `short` this is a value in [-32768, 32767]. |
| `Converters.Convert` | xmlconverter.hpp:31-34 | The per-type `bind_continued` step. The string converter keeps the text. An integer converter holds what `atoi` reads, narrowed to its width, and exactly that value when it fits the width. |
| `Converters.Narrow` | xmlconverter.hpp:74-80 | Storing an `int` in a `short` gives a value in [-32768, 32767], congruent to it modulo 2^16, and the value itself when it fits. `int` and `long` keep it as is. |
| `Converters.ShortConverterWraps` | xmlconverter.hpp:74-80 | A `short` converter bound to the text "40000" holds -25536. |
| `Converters.Access` | xmlconverter.hpp:21-22 | `access()` returns `value_`, a value of the converter's `value_type`. |
| `Converters.Name` | xmlconverter.hpp:24 | `name()` of a bound converter is the name of its wrapper, which is the wrapped DOM node's name. |
| `Converters.RawValue` | xmlconverter.hpp:25-26 | `value()` of a bound converter is its wrapper's text, which is the wrapped DOM node's first TEXT child. |
| `Converters.Assign` | xmlconverter.hpp:21-22 | A write through the mutable `access()` of a value of the `value_type` lands in `value_`: `access()` then returns it, and the kind and node stay. |
| `Converters.BoundConverter` | xmlconverter.hpp:20-26 | After `bind(np)`, `name()` and `value()` report the node's name and unconverted text, and `access()` holds the conversion of that text. |
| `Converters.StringConverterKeepsText` | xmlconverter.hpp:38-48 | The string converter holds exactly the node's raw text. |
| `Converters.AtoiConvertersAgree` | xmlconverter.hpp:59-88 | The int, short and long converters run the same `atoi` step. Bound to the same node, each holds what `atoi` read narrowed to its width, and they hold the same number when it fits both widths. |
| `Converters.AtoiConverterReadsDecimal` | xmlconverter.hpp:59-88 | An integer converter bound to the decimal text of n holds n narrowed to its width, which is n when n fits. |
| `Numerals.Atoi` | xmlconverter.hpp:59-64 | The `atoi` prefix parse: a negative result only comes from a '-' sign after the leading white space. |
| `Numerals.AtoiReadsDecimalPrefix` | xmlconverter.hpp:59-64 | The parse is permissive: the decimal text of n followed by text that does not start with a digit reads as n. |
| `Numerals.AtoiRoundTrip` | xmlconverter.hpp:59-64 | Reading back the decimal text an output stream writes for n gives n. |
| `Numerals.AtoiSkipsLeadingSpace` | xmlconverter.hpp:59-64 | Leading white space does not change what `atoi` reads. |
| `Numerals.AtoiWithoutDigits` | xmlconverter.hpp:59-64 | Text with no digit after the white space and the optional sign reads as 0. |
| `Dom.Wrap` | xmldom.hpp:79-109 | The wrapper a `dom::node` constructor builds. A null pointer gives an empty name and value. Otherwise the name is the DOM node's name, and the value is the text of the first TEXT child. Later text children are ignored, and without a text child the value is empty. |
| `Dom.NewNode` | xmldom.hpp:79-109 | The constructor's loop over the children, which breaks at the first TEXT child, builds exactly `Wrap`. |
| `Dom.FirstTextIsFirstTextChild` | xmldom.hpp:94-106 | The value taken is the text of the first TEXT child, or empty when no child is a text node. |
| `Dom.Create` | xmldom.hpp:164-198 | Null gives null. Element, attribute and text nodes give `element`, `attribute` and `text_node` wrappers of that node. Any other node type gives null. |
| `Dom.Parser.constructor` | xmldom.hpp:74-75 | A new parser has a null root. |
| `Dom.Parser.Root` | xmldom.hpp:240-244 | `root()` returns the stored root: null before any successful parse, then the last document element's wrapper. |
| `Dom.Parser.Parse` | xmldom.hpp:200-238 | On a built document the root becomes the `element` wrapper of its document element, and the answer is true. On any caught exception the answer is false and the root stays. `err` is never written. |
| `Support.ErrorCode.constructor` | error_code.hpp:33-36 | A default error has code 0, empty text and an empty chain. |
| `Support.ErrorCode.WithCode` | error_code.hpp:38-44 | The (code, text) constructor stores both with an empty chain. |
| `Support.ErrorCode.Attach` | error_code.hpp:46-50 | `attach` appends a copy of its argument to the chain and keeps code, text and earlier entries. |
| `Support.ErrorCode.AttachOrCreate` | error_code.hpp:86-98 | `attach_or_create` changes the record in place exactly as `AttachOrCreated` says. |
| `Support.Attached` | error_code.hpp:46-50 | The chain grows by exactly the attached record at its end; code, text and earlier entries stay. |
| `Support.AttachOrCreated` | error_code.hpp:86-98 | A record with code 0 is replaced wholesale by (code, s) with an empty chain. Any other record keeps code and text and gains exactly one (code, s) entry with an empty chain. |
| `Support.ZeroCodeKeepsNoError` | error_code.hpp:92-93 | `attach_or_create` with code 0 on a code-0 record leaves code 0, so the next call replaces the record. |
| `Support.AttachOrCreateKeepsCauses` | error_code.hpp:94-97 | Once the code is non-zero, a run of `attach_or_create` calls keeps code, text and all earlier entries and appends one entry per call, in call order. |
| `Support.Render` | error_code.hpp:70-84 | What `operator<<` writes: for a record with no underlying errors, exactly the two header lines. |
| `Support.Write` | error_code.hpp:70-84 | The loop of `operator<<` writes the header lines, then each chain entry rendered recursively and followed by a newline, in index order. |
| `Support.RenderAttached` | error_code.hpp:70-84 | After `attach(x)` the rendering is the old rendering, then x's rendering and a newline. |
| `Support.RenderedCodeReadsBack` | error_code.hpp:74-75 | The code written after "Error code: " reads back with `atoi` as the record's code. |
| `DomPrint.NewMessage` | DOMPrint.cpp:92-99 | The message's constructor registers exactly the header under "vMasterHeader". |
| `DomPrint.SampleInstrument` | DOMPrint.cpp:129-131 | In the sample, `instrument()` is present and holds the text "SWAP". |
| `DomPrint.SampleEntityCoperId` | DOMPrint.cpp:132 | In the sample, the int member `entity_coper_id()` is present and holds 42, read from the text "42". |
| `DomPrint.SampleHasNoTrader` | DOMPrint.cpp:135-136 | The sample has no trader element, so the `has_trader` test is false. |
| `DomPrint.SampleDiaryEntries` | DOMPrint.cpp:63 | The header's diary member is the diary composite bound to the `<vMasterDiary>` child. |
| `DomPrint.SampleDiaryBound` | DOMPrint.cpp:29-35 | The diary's nodelist holds two entries, bound to the two `<vMasterDiaryEntry>` children in document order. |

## Left out

- Nested members are values inside their parent's map. Only the top-level record is an object updated in place. C++ `insert` stores a pointer to a member, so the record's own member and the map entry are the same object; the model reads members back through the map by name instead.
- The converter and the nodelist are value types changed by returning new values. The C++ updates `node_`, `value_` and `chain_` in place.
- `composite` and `nodelist` also derive from `node<string_converter>`. Whether their `bind` fills that inherited converter is in code that is not part of this model, so they carry no converter of their own.
- `node<T>::name()` and `node<T>::value()` have bodies outside this model; only the converter's `name()`/`value()` are modelled.
- `Converters.Bind`: binding a leaf to a null pointer is not modelled. The conversion step reads the stored node, and the engine only ever passes existing children.
- `Numerals.Atoi`: integers are unbounded. C `atoi` has undefined behaviour on text outside the `int` range, so `int` and `long` converters hold the unbounded value.
- The initial `value_` of an integer converter is taken to be 0; the converter constructors' bodies are not part of this model.
- The float and double converters are left out: they do floating-point parsing.
- `composite::process_attributes` is left out: it takes a raw parser-library node, and its body is not part of this model. Attribute children of the tree still dispatch by name like elements.
- `err` and the `bool` results of the members' `bind` and `bind_continued` are left out. Their bodies are not part of this model. The model assumes they do not write `err` and always succeed, and that `composite::bind`'s answer does not depend on them.
- `Dom.Parser.Parse`: the model keeps the parsed tree alive after `parse` returns. In the source, the parser object that owns the document is a local of the `try` block (xmldom.hpp:207). Under the parser library's ownership rule the document is released when that local is destroyed. So `root_` (xmldom.hpp:223) wraps a DOM pointer that dangles once `parse` returns. The model's `root` carries a live `DomNode` tree, so the dangling access a later `bind` makes cannot show up.
- The actual XML parsing, parser configuration, string transcoding and the parser library's initialisation and teardown are left out; `Parser.Parse` takes the parser's outcome as a parameter.
- The non-const `name()`/`value()` references of the DOM wrapper are not modelled; nothing in the engine writes through them.
- The `bool_hack` member-pointer idiom and `shared_ptr` ownership become an explicit presence predicate and immutable values.
- The compression adapter (zlib_adapter.hpp, zlib_adapter.cpp) and the demo driver's file reading, timing and console output are left out: they are foreign calls, threads and I/O.
