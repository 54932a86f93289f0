/** FormattedNode: what the formatter knows about one JSON element and how
    it has formatted it. Nodes are objects; the strategies of the engine
    overwrite their text, width and format in place. */
module Nodes {
  import J = JsonValue

  /** JsonValueKind. In the source STRING is declared with the same value
      as LIST, so Python's Enum makes it an alias: a string node has kind
      List, and every test for List also accepts strings. There is no
      separate String kind. */
  datatype Kind = Undefined | Dict | List | Int | Float | Boolean | Null

  datatype Format = Inline | InlineTabular | MultilineCompact | Expanded

  /** INLINE or INLINE_TABULAR: the formats the multiline-compact layout
      may put several of on one line. */
  predicate IsInlineFormat(f: Format) {
    f == Inline || f == InlineTabular
  }

  /** The kind format_simple assigns to a primitive. */
  function KindOf(v: J.Json): (k: Kind)
    ensures v.Str? ==> k == List
    ensures v.List? ==> k == List
    ensures v.Dict? ==> k == Dict
  {
    match v
    case Null => Null
    case Bool(_) => Boolean
    case Int(_) => Int
    case Float(_) => Float
    case Str(_) => List
    case List(_) => List
    case Dict(_) => Dict
  }

  /** The scalar fields of a node at one moment. */
  datatype View = View(
    name: string,
    nameLength: int,
    value: string,
    valueLength: int,
    complexity: int,
    depth: int,
    kind: Kind,
    format: Format)

  /** The recorded widths agree with the texts (str_len on ASCII text). */
  predicate Measured(v: View) {
    v.valueLength == |v.value| && v.nameLength == |v.name|
  }

  class FormattedNode {
    var name: string
    var nameLength: int
    var value: string
    var valueLength: int
    var complexity: int
    var depth: int
    var kind: Kind
    var format: Format
    var children: seq<FormattedNode>

    constructor ()
      ensures Snapshot() == View("", 0, "", 0, 0, 0, Undefined, Inline)
      ensures children == []
    {
      name := "";
      nameLength := 0;
      value := "";
      valueLength := 0;
      complexity := 0;
      depth := 0;
      kind := Undefined;
      format := Inline;
      children := [];
    }

    function Snapshot(): View
      reads this
    {
      View(name, nameLength, value, valueLength, complexity, depth, kind, format)
    }

    /** `cleanup`: a node that is not INLINE drops its children; the
        children it keeps drop theirs. Only `children` fields change. */
    method Cleanup()
      requires this !in children
      modifies this`children, children
      ensures children == (if old(format) == Inline then old(children) else [])
      ensures forall c :: c in children ==> c.children == []
      ensures Snapshot() == old(Snapshot())
      ensures forall c :: c in old(children) ==> c.Snapshot() == old(c.Snapshot())
      ensures old(format) != Inline ==> forall c :: c in old(children) ==> c.children == old(c.children)
    {
      if format != Inline {
        children := [];
      }
      var cs := children;
      var i := 0;
      while i < |cs|
        invariant 0 <= i <= |cs|
        invariant children == cs
        invariant forall j :: 0 <= j < i ==> cs[j].children == []
        invariant Snapshot() == old(Snapshot())
        invariant forall c :: c in old(children) ==> c.Snapshot() == old(c.Snapshot())
        invariant old(format) != Inline ==> cs == [] && forall c :: c in old(children) ==> c.children == old(c.children)
      {
        cs[i].children := [];
        i := i + 1;
      }
    }
  }

  /** The snapshots of a sequence of nodes. */
  function Views(ns: seq<FormattedNode>): (vs: seq<View>)
    reads ns
    ensures |vs| == |ns|
    ensures forall i :: 0 <= i < |ns| ==> vs[i] == ns[i].Snapshot()
  {
    seq(|ns|, i reads ns requires 0 <= i < |ns| => ns[i].Snapshot())
  }

  /** Nodes whose snapshots are, one by one, the views `vs`. */
  lemma ViewsOf(ns: seq<FormattedNode>, vs: seq<View>)
    requires |ns| == |vs| && forall i :: 0 <= i < |ns| ==> ns[i].Snapshot() == vs[i]
    ensures Views(ns) == vs
  {
  }

  /** The children of the nodes of a sequence, as objects. */
  function Grandchildren(ns: seq<FormattedNode>): set<object>
    reads ns
  {
    set i, j | 0 <= i < |ns| && 0 <= j < |ns[i].children| :: ns[i].children[j]
  }

  /** The children of each node of a sequence (the rows' cells, when the
      sequence is a table's rows). */
  function ChildViews(ns: seq<FormattedNode>): (rs: seq<seq<View>>)
    reads ns, Grandchildren(ns)
    ensures |rs| == |ns|
    ensures forall i :: 0 <= i < |ns| ==> rs[i] == Views(ns[i].children)
  {
    seq(|ns|, i reads ns, Grandchildren(ns) requires 0 <= i < |ns| => Views(ns[i].children))
  }
}
