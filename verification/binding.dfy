/**
 * The binding framework of namespace `xml::binding` (xmlbinding.hpp).
 *
 * A schema element is a leaf (`node<T>` over a converter), a composite
 * (a name-to-element map that its record's constructor fills with `insert`)
 * or a nodelist (an ordered, growing vector of bound sub-records). Binding a
 * composite to a DOM node walks that node's children in document order and
 * sends each child whose name is registered to that entry's bind.
 *
 * Nested elements are values held in their parent's map; the top-level
 * record is a `Composite` object whose map is updated in place.
 */
module Binding {
  import opened Wrappers
  import opened Dom
  import opened Converters

  /** A schema element and its current bound state. */
  datatype Field =
    | Leaf(converter: Converter)
    | Record(mappings: map<string, Field>)
    | List(proto: Field, chain: seq<Field>)
      // `proto` is the element a newly constructed `T` starts as; `chain` is `chain_`

  /** A leaf's `operator()` and its conversion to `value_type`: both give the converter's `access()`. */
  function Get(f: Field): (v: Value)
    requires f.Leaf?
    ensures v == Access(f.converter)
  {
    f.converter.value
  }

  /** A leaf's boolean test: true exactly when its converter has been bound to a node. */
  predicate IsPresent(f: Field): (b: bool)
    requires f.Leaf?
    ensures b <==> IsBound(f.converter)
  {
    IsBound(f.converter)
  }

  /**
   * A newly constructed leaf tests false; a leaf bound to a node tests true
   * whatever it held before; a write through `access()` keeps the test.
   */
  lemma LeafPresence(kind: ConverterKind, c: Converter, np: Node, v: Value)
    requires HasType(c.kind, v)
    ensures !IsPresent(Leaf(NewConverter(kind)))
    ensures IsPresent(Leaf(Bind(c, np)))
    ensures IsPresent(Leaf(Assign(c, v))) <==> IsPresent(Leaf(c))
  {
  }

  /** `nodelist::size()`: the length of `chain_`. */
  function Size(f: Field): (n: nat)
    requires f.List?
    ensures n == |f.chain|
  {
    |f.chain|
  }

  /** `nodelist::empty()`: holds exactly when the size is 0. */
  predicate IsEmpty(f: Field)
    requires f.List?
    ensures IsEmpty(f) <==> Size(f) == 0
  {
    f.chain == []
  }

  /** `nodelist::operator[](i)`: the i-th element of `chain_`, for i below the size. */
  function At(f: Field, i: nat): (e: Field)
    requires f.List? && i < Size(f)
    ensures e == f.chain[i]
  {
    f.chain[i]
  }

  /** Whether child `x` is sent to the entry registered under `name`: it has a wrapper and that name. */
  predicate Selects(x: DomNode, name: string) {
    Create(Some(x)).Some? && Create(Some(x)).value.name == name
  }

  /** The wrapper the factory builds for a child that has one. */
  function ChildNode(x: DomNode): (n: Node)
    requires Wrapped(x.nodeType)
    ensures Create(Some(x)) == Some(n)
  {
    Create(Some(x)).value
  }

  /**
   * One step of `composite::bind`: look the child's name up in the map and,
   * if found, replace that entry by the entry bound to the child.
   */
  function Dispatch(m: map<string, Field>, x: DomNode): map<string, Field>
    decreases x, 3
  {
    match Create(Some(x))
    case None => m
    case Some(n) => if n.name in m then m[n.name := BindField(m[n.name], x)] else m
  }

  /**
   * `bind` of a schema element to (the wrapper of) the DOM node `x`: a leaf
   * binds its converter; a composite dispatches the children of `x`; a
   * nodelist binds a new `T` to `x` and appends it.
   */
  function BindField(f: Field, x: DomNode): Field
    requires Wrapped(x.nodeType)
    decreases x, 2, f
  {
    match f
    case Leaf(c) => Leaf(Converters.Bind(c, ChildNode(x)))
    case Record(m) => Record(BindChildren(m, x, 0))
    case List(proto, chain) => List(proto, chain + [BindField(proto, x)])
  }

  /** The loop of `composite::bind` over the children of `p` from index `i` on. */
  function BindChildren(m: map<string, Field>, p: DomNode, i: nat): map<string, Field>
    requires i <= |p.children|
    decreases p, 1, |p.children| - i
  {
    if i == |p.children| then m else BindChildren(Dispatch(m, p.children[i]), p, i + 1)
  }

  /** The loop of `composite::bind`, run on the map `m` and the children of `p`. */
  method BindAll(m: map<string, Field>, p: DomNode) returns (r: map<string, Field>)
    ensures r == BindChildren(m, p, 0)
    decreases p, 1
  {
    r := m;
    var i := 0;
    while i < |p.children|
      invariant 0 <= i <= |p.children|
      invariant BindChildren(r, p, i) == BindChildren(m, p, 0)
    {
      var x := p.children[i];
      var n := Create(Some(x));
      if n.Some? && n.value.name in r {
        var bound := BindEntry(r[n.value.name], x);
        r := r[n.value.name := bound];
      }
      i := i + 1;
    }
  }

  /** The virtual `bind` of one entry, as `BindField` describes it. */
  method BindEntry(f: Field, x: DomNode) returns (g: Field)
    requires Wrapped(x.nodeType)
    ensures g == BindField(f, x)
    decreases x, 2, f
  {
    match f {
      case Leaf(c) =>
        var n := NewNode(ClassOf(x.nodeType), Some(x));
        g := Leaf(Converters.Bind(c, n));
      case Record(m) =>
        var m' := BindAll(m, x);
        g := Record(m');
      case List(proto, chain) =>
        var e := BindEntry(proto, x);
        g := List(proto, chain + [e]);
    }
  }

  /** The children of `cs` sent to the entry registered under `name`, in document order. */
  function Matching(cs: seq<DomNode>, name: string): (r: seq<DomNode>)
    ensures forall j | 0 <= j < |r| :: Wrapped(r[j].nodeType) && r[j].nodeName == name
  {
    if cs == [] then []
    else (if Selects(cs[0], name) then [cs[0]] else []) + Matching(cs[1..], name)
  }

  /** Selecting the children of a concatenation selects from each part. */
  lemma {:induction false} MatchingAppend(a: seq<DomNode>, b: seq<DomNode>, name: string)
    ensures Matching(a + b, name) == Matching(a, name) + Matching(b, name)
    decreases |a|
  {
    if a == [] {
      assert a + b == b;
    } else {
      assert (a + b)[0] == a[0];
      assert (a + b)[1..] == a[1..] + b;
      MatchingAppend(a[1..], b, name);
    }
  }

  /** An entry bound to each node of `cs` in turn. */
  function BindEach(f: Field, cs: seq<DomNode>): Field
    requires forall j | 0 <= j < |cs| :: Wrapped(cs[j].nodeType)
    decreases |cs|
  {
    if cs == [] then f else BindEach(BindField(f, cs[0]), cs[1..])
  }

  /** `bind` never adds or removes a registered name: the key set of the map stays as it was. */
  lemma {:induction false} BindChildrenKeepsNames(m: map<string, Field>, p: DomNode, i: nat)
    requires i <= |p.children|
    ensures BindChildren(m, p, i).Keys == m.Keys
    decreases |p.children| - i
  {
    if i < |p.children| {
      BindChildrenKeepsNames(Dispatch(m, p.children[i]), p, i + 1);
    }
  }

  /**
   * Dispatch by name: the entry registered under `name` ends up bound to
   * exactly the children whose name is `name` (and that have a wrapper), one
   * after another in document order; other children do not touch it.
   */
  lemma {:induction false} BindChildrenDispatchesByName(m: map<string, Field>, p: DomNode, i: nat, name: string)
    requires i <= |p.children| && name in m
    ensures name in BindChildren(m, p, i)
    ensures BindChildren(m, p, i)[name] == BindEach(m[name], Matching(p.children[i..], name))
    decreases |p.children| - i
  {
    BindChildrenKeepsNames(m, p, i);
    if i < |p.children| {
      var x := p.children[i];
      var m' := Dispatch(m, x);
      assert name in m';
      BindChildrenDispatchesByName(m', p, i + 1, name);
      assert p.children[i..][1..] == p.children[i + 1..];
      assert p.children[i..][0] == x;
      if Selects(x, name) {
        assert m'[name] == BindField(m[name], x);
        assert Matching(p.children[i..], name) == [x] + Matching(p.children[i + 1..], name);
      } else {
        assert m'[name] == m[name];
        assert Matching(p.children[i..], name) == Matching(p.children[i + 1..], name);
      }
    } else {
      assert p.children[i..] == [];
    }
  }

  /** An entry no child is sent to is left exactly as it was. */
  lemma UnmatchedEntryUnchanged(m: map<string, Field>, p: DomNode, name: string)
    requires name in m && Matching(p.children, name) == []
    ensures name in BindChildren(m, p, 0)
    ensures BindChildren(m, p, 0)[name] == m[name]
  {
    BindChildrenDispatchesByName(m, p, 0, name);
    assert p.children[0..] == p.children;
  }

  /**
   * Children whose names are not registered have no effect: two nodes whose
   * children agree on every registered name bind the map alike.
   */
  lemma UnregisteredChildrenIgnored(m: map<string, Field>, p: DomNode, q: DomNode)
    requires forall name | name in m :: Matching(p.children, name) == Matching(q.children, name)
    ensures BindChildren(m, p, 0) == BindChildren(m, q, 0)
  {
    BindChildrenKeepsNames(m, p, 0);
    BindChildrenKeepsNames(m, q, 0);
    assert p.children[0..] == p.children && q.children[0..] == q.children;
    forall name | name in m
      ensures BindChildren(m, p, 0)[name] == BindChildren(m, q, 0)[name]
    {
      BindChildrenDispatchesByName(m, p, 0, name);
      BindChildrenDispatchesByName(m, q, 0, name);
    }
  }

  /** A leaf bound to several nodes in turn ends up bound to the last of them: the last bind wins. */
  lemma {:induction false} BindEachLeaf(c: Converter, cs: seq<DomNode>)
    requires forall j | 0 <= j < |cs| :: Wrapped(cs[j].nodeType)
    decreases |cs|
    ensures cs == [] ==> BindEach(Leaf(c), cs) == Leaf(c)
    ensures cs != [] ==> BindEach(Leaf(c), cs) == Leaf(Converters.Bind(c, ChildNode(cs[|cs| - 1])))
  {
    if cs != [] {
      var c' := Converters.Bind(c, ChildNode(cs[0]));
      BindEachLeaf(c', cs[1..]);
      if |cs| > 1 {
        assert cs[1..][|cs| - 2] == cs[|cs| - 1];
        var last := ChildNode(cs[|cs| - 1]);
        assert Converters.Bind(c', last) == Converters.Bind(c, last);
      }
    }
  }

  /** A nodelist bound to several nodes in turn appends one bound `T` per node, in order, and keeps what it had. */
  lemma {:induction false} BindEachList(proto: Field, chain: seq<Field>, cs: seq<DomNode>)
    requires forall j | 0 <= j < |cs| :: Wrapped(cs[j].nodeType)
    decreases |cs|
    ensures var r := BindEach(List(proto, chain), cs);
      r.List? && r.proto == proto && |r.chain| == |chain| + |cs| && r.chain[..|chain|] == chain
      && forall j | 0 <= j < |cs| :: r.chain[|chain| + j] == BindField(proto, cs[j])
  {
    if cs != [] {
      var chain' := chain + [BindField(proto, cs[0])];
      BindEachList(proto, chain', cs[1..]);
      var r := BindEach(List(proto, chain'), cs[1..]);
      assert r.chain[..|chain|] == r.chain[..|chain'|][..|chain|];
      forall j | 0 <= j < |cs|
        ensures r.chain[|chain| + j] == BindField(proto, cs[j])
      {
        if j == 0 {
          assert r.chain[|chain|] == r.chain[..|chain'|][|chain|];
        } else {
          assert cs[1..][j - 1] == cs[j];
        }
      }
    }
  }

  /**
   * A leaf entry after `bind`: present exactly when some child carried its
   * name or it was present before; when a child matched, it is bound to the
   * last such child and holds the conversion of that child's first text.
   */
  lemma LeafAfterBind(m: map<string, Field>, p: DomNode, name: string)
    requires name in m && m[name].Leaf?
    ensures name in BindChildren(m, p, 0)
    ensures var r := BindChildren(m, p, 0)[name];
      var hits := Matching(p.children, name);
      && r.Leaf? && r.converter.kind == m[name].converter.kind
      && (IsPresent(r) <==> hits != [] || IsPresent(m[name]))
      && (hits == [] ==> r == m[name])
      && (hits != [] ==> r.converter.node == Create(Some(hits[|hits| - 1]))
                         && Get(r) == Convert(r.converter.kind, FirstText(hits[|hits| - 1].children)))
  {
    BindChildrenDispatchesByName(m, p, 0, name);
    assert p.children[0..] == p.children;
    BindEachLeaf(m[name].converter, Matching(p.children, name));
  }

  /**
   * A nodelist entry after `bind`: its size grows by the number of children
   * carrying its name, earlier elements stay, and the new element `j` is a
   * fresh `T` bound to the j-th such child in document order.
   */
  lemma ListAfterBind(m: map<string, Field>, p: DomNode, name: string)
    requires name in m && m[name].List?
    ensures name in BindChildren(m, p, 0)
    ensures var r := BindChildren(m, p, 0)[name];
      var hits := Matching(p.children, name);
      && r.List? && r.proto == m[name].proto
      && Size(r) == Size(m[name]) + |hits|
      && (forall j | 0 <= j < Size(m[name]) :: At(r, j) == At(m[name], j))
      && (forall j | 0 <= j < |hits| :: At(r, Size(m[name]) + j) == BindField(m[name].proto, hits[j]))
  {
    BindChildrenDispatchesByName(m, p, 0, name);
    assert p.children[0..] == p.children;
    var f := m[name];
    BindEachList(f.proto, f.chain, Matching(p.children, name));
    var r := BindChildren(m, p, 0)[name];
    forall j | 0 <= j < Size(f)
      ensures At(r, j) == At(f, j)
    {
      assert r.chain[j] == r.chain[..|f.chain|][j];
    }
  }

  /** The same variant, the same registered names, the same converter kind, the same nodelist prototype. */
  predicate SameShape(f: Field, g: Field) {
    match f
    case Leaf(c) => g.Leaf? && g.converter.kind == c.kind
    case Record(m) => g.Record? && g.mappings.Keys == m.Keys
    case List(proto, _) => g.List? && g.proto == proto
  }

  /** Binding changes values and presence, never the shape of an element. */
  lemma BindFieldKeepsShape(f: Field, x: DomNode)
    requires Wrapped(x.nodeType)
    ensures SameShape(f, BindField(f, x))
  {
    if f.Record? {
      BindChildrenKeepsNames(f.mappings, x, 0);
    }
  }

  /** Every entry of the map keeps its shape across a `bind`. */
  lemma BindChildrenKeepsShape(m: map<string, Field>, p: DomNode)
    ensures BindChildren(m, p, 0).Keys == m.Keys
    ensures forall name | name in m :: SameShape(m[name], BindChildren(m, p, 0)[name])
  {
    BindChildrenKeepsNames(m, p, 0);
    forall name | name in m
      ensures SameShape(m[name], BindChildren(m, p, 0)[name])
    {
      BindChildrenDispatchesByName(m, p, 0, name);
      assert p.children[0..] == p.children;
      BindEachKeepsShape(m[name], Matching(p.children, name));
    }
  }

  lemma {:induction false} BindEachKeepsShape(f: Field, cs: seq<DomNode>)
    requires forall j | 0 <= j < |cs| :: Wrapped(cs[j].nodeType)
    ensures SameShape(f, BindEach(f, cs))
    decreases |cs|
  {
    if cs != [] {
      var f' := BindField(f, cs[0]);
      BindFieldKeepsShape(f, cs[0]);
      BindEachKeepsShape(f', cs[1..]);
    }
  }

  /**
   * A record type: a `composite` whose constructor registers its members
   * with `insert`, and whose `bind` dispatches the children of a node to them.
   */
  class Composite {
    var mappings: map<string, Field>

    /** A composite before its record's constructor has registered anything. */
    constructor ()
      ensures mappings == map[]
    {
      mappings := map[];
    }

    /** `insert(name, member)`: registers one entry; each name is registered once. */
    method Insert(name: string, member: Field)
      requires name !in mappings
      modifies this
      ensures mappings == old(mappings)[name := member]
    {
      mappings := mappings[name := member];
    }

    /**
     * `composite::bind(err, np)`: for a non-null wrapper, dispatch the
     * children of the wrapped DOM node to the registered entries; answers
     * whether the wrapper was non-null. The registered names stay the same.
     */
    method Bind(np: Option<Node>) returns (ok: bool)
      modifies this
      ensures ok == np.Some?
      ensures mappings.Keys == old(mappings).Keys
      ensures np.Some? && np.value.source.Some? ==> mappings == BindChildren(old(mappings), np.value.source.value, 0)
      ensures !(np.Some? && np.value.source.Some?) ==> mappings == old(mappings)
    {
      ok := np.Some?;
      if np.Some? && np.value.source.Some? {
        var p := np.value.source.value;
        mappings := BindAll(mappings, p);
        BindChildrenKeepsNames(old(mappings), p, 0);
      }
    }
  }
}
