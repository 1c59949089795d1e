/**
 * The converters of xmlconverter.hpp. A converter keeps the DOM wrapper it
 * was bound to (`node_`) and the typed value converted from that wrapper's
 * text (`value_`). The string converter keeps the text as it is; the int,
 * short and long converters share one `atoi_converter` step.
 */
module Converters {
  import opened Wrappers
  import opened Numerals
  import opened Dom

  /** The integer widths of the three `atoi_converter` instances. */
  datatype IntWidth = Short | Int | Long

  /** Which converter: `string_converter`, or an `atoi_converter` of some width. */
  datatype ConverterKind = StringKind | AtoiKind(width: IntWidth)

  /** A converted value: text for the string converter, an integer for the others. */
  datatype Value = Text(text: string) | Number(number: int)

  /** A converter's state: its kind, the bound wrapper (`node_`, None while unbound) and `value_`. */
  datatype Converter = Converter(kind: ConverterKind, node: Option<Node>, value: Value)

  /**
   * Whether `n` is a value of the width's C++ type. Only `short` is bounded
   * here: `atoi` returns an `int`, and reading text outside the `int` range
   * is undefined, so `int` and `long` hold whatever `atoi` read.
   */
  predicate InRange(width: IntWidth, n: int) {
    width == Short ==> -0x8000 <= n < 0x8000
  }

  /**
   * Storing the `int` that `atoi` returned in `value_`: a `short` keeps the
   * value modulo 2^16 in [-32768, 32767]; `int` and `long` keep it as is.
   */
  function Narrow(width: IntWidth, n: int): (r: int)
    ensures InRange(width, r)
    ensures InRange(width, n) ==> r == n
    ensures (r - n) % 0x1_0000 == 0
  {
    if width == Short then (n + 0x8000) % 0x1_0000 - 0x8000 else n
  }

  /** `v` is a value of the kind's `value_type`. */
  predicate HasType(kind: ConverterKind, v: Value) {
    match kind
    case StringKind => v.Text?
    case AtoiKind(width) => v.Number? && InRange(width, v.number)
  }

  /** The stored value has the type the converter's kind declares. */
  predicate WellTyped(c: Converter) {
    HasType(c.kind, c.value)
  }

  /** A newly constructed converter: bound to nothing, holding its type's initial value. */
  function NewConverter(kind: ConverterKind): (c: Converter)
    ensures c.kind == kind && c.node.None? && WellTyped(c)
  {
    Converter(kind, None, if kind.StringKind? then Text("") else Number(0))
  }

  /**
   * The per-type `bind_continued` step: from the bound node's raw text to a
   * typed value. The string converter keeps the text; the others store what
   * `atoi` reads, narrowed to their `value_type`.
   */
  function Convert(kind: ConverterKind, raw: string): (v: Value)
    ensures HasType(kind, v)
    ensures kind.StringKind? ==> v == Text(raw)
    ensures kind.AtoiKind? && InRange(kind.width, Atoi(raw)) ==> v == Number(Atoi(raw))
  {
    match kind
    case StringKind => Text(raw)
    case AtoiKind(width) => Number(Narrow(width, Atoi(raw)))
  }

  /**
   * `converter::bind(err, np)`: store `np` in `node_` first, then run the
   * derived type's conversion step on that stored node's text.
   */
  function Bind(c: Converter, np: Node): (r: Converter)
    ensures r.kind == c.kind && WellTyped(r)
    ensures r.node == Some(np)
    ensures r.value == Convert(c.kind, np.value)
  {
    var stored := c.(node := Some(np));
    stored.(value := Convert(stored.kind, stored.node.value.value))
  }

  /** `access()`: the stored `value_`, a value of the converter's `value_type`. */
  function Access(c: Converter): (v: Value)
    ensures WellTyped(c) ==> HasType(c.kind, v)
  {
    c.value
  }

  /** A write through the mutable `access()` reference: it lands in `value_`, nothing else changes. */
  function Assign(c: Converter, v: Value): (r: Converter)
    requires HasType(c.kind, v)
    ensures Access(r) == v && r.kind == c.kind && r.node == c.node && WellTyped(r)
  {
    c.(value := v)
  }

  /** Whether a node has been bound: the presence the leaf's boolean test reports. */
  predicate IsBound(c: Converter) {
    c.node.Some?
  }

  /** `name()`: the name of the bound node, which is its DOM node's name. */
  function Name(c: Converter): (r: string)
    requires IsBound(c)
    ensures var np := c.node.value;
      np.source.Some? && np == Wrap(np.cls, np.source) ==> r == np.source.value.nodeName
  {
    c.node.value.name
  }

  /** `value()`: the unconverted text of the bound node, which is its DOM node's first text. */
  function RawValue(c: Converter): (r: string)
    requires IsBound(c)
    ensures var np := c.node.value;
      np.source.Some? && np == Wrap(np.cls, np.source) ==> r == FirstText(np.source.value.children)
  {
    c.node.value.value
  }

  /** After a bind, the converter reports the node's name and raw text and holds the converted text. */
  lemma BoundConverter(c: Converter, np: Node)
    ensures IsBound(Bind(c, np))
    ensures Name(Bind(c, np)) == np.name && RawValue(Bind(c, np)) == np.value
    ensures Access(Bind(c, np)) == Convert(c.kind, RawValue(Bind(c, np)))
  {
  }

  /** The string converter is the identity on text: what it holds is exactly the node's raw text. */
  lemma StringConverterKeepsText(c: Converter, np: Node)
    requires c.kind == StringKind
    ensures Access(Bind(c, np)) == Text(RawValue(Bind(c, np)))
  {
  }

  /**
   * The int, short and long converters run the same `atoi` step: bound to the
   * same node they hold what it read, narrowed to their width, and the same
   * number whenever that number fits both widths.
   */
  lemma AtoiConvertersAgree(c: Converter, d: Converter, np: Node)
    requires c.kind.AtoiKind? && d.kind.AtoiKind?
    ensures Access(Bind(c, np)) == Number(Narrow(c.kind.width, Atoi(np.value)))
    ensures InRange(c.kind.width, Atoi(np.value)) && InRange(d.kind.width, Atoi(np.value))
            ==> Access(Bind(c, np)) == Access(Bind(d, np)) == Number(Atoi(np.value))
  {
  }

  /**
   * An integer converter bound to a node whose text is the decimal form of
   * `n` holds `n` narrowed to its width, which is `n` when it fits.
   */
  lemma AtoiConverterReadsDecimal(c: Converter, np: Node, n: int)
    requires c.kind.AtoiKind? && np.value == IntToDecimal(n)
    ensures Access(Bind(c, np)) == Number(Narrow(c.kind.width, n))
    ensures InRange(c.kind.width, n) ==> Access(Bind(c, np)) == Number(n)
  {
    AtoiRoundTrip(n);
  }

  /** A `short` converter bound to the text of 40000 holds 40000 - 65536. */
  lemma ShortConverterWraps(c: Converter, np: Node)
    requires c.kind == AtoiKind(Short) && np.value == IntToDecimal(40000)
    ensures Access(Bind(c, np)) == Number(-25536)
  {
    AtoiConverterReadsDecimal(c, np, 40000);
  }
}
