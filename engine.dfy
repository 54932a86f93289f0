/** The recursion of formatter.py: format_element (followed by cleanup),
    format_list, format_dict and serialize, on FormattedNode objects. Each
    method is proved against the value-level model of module Formatting:
    the node it returns has the snapshot and children of `Formatted`. */
module Engine {
  import J = JsonValue
  import opened Text
  import opened Settings
  import opened Nodes
  import opened Layout
  import opened Tables
  import opened Strategies
  import opened TableStrategies
  import opened Formatting

  /** A cleaned-up node and the shape it stands for: same fields, children
      with the shape's views, pairwise distinct, none of them the node, and
      with no children of their own. */
  ghost predicate Shaped(n: FormattedNode, s: Shape)
    reads n, n.children
  {
    n.Snapshot() == s.view && Views(n.children) == s.children && n !in n.children &&
    (forall i, j :: 0 <= i < j < |n.children| ==> n.children[i] != n.children[j]) &&
    (forall i :: 0 <= i < |n.children| ==> n.children[i].children == [])
  }

  /** A node a format method has just made for a shape, before cleanup:
      the shape's view, distinct children none of which is the node, and
      the shape's children while the node stays INLINE. */
  ghost predicate Made(n: FormattedNode, s: Shape)
    reads n, n.children
  {
    n !in n.children && (forall i, j :: 0 <= i < j < |n.children| ==> n.children[i] != n.children[j]) &&
    n.Snapshot() == s.view && (n.format == Inline ==> Views(n.children) == s.children)
  }

  /** A node holding a shape: its fields are the shape's view and its
      children have the shape's children views. */
  ghost predicate Holds(n: FormattedNode, s: Shape)
    reads n, n.children
  {
    n.Snapshot() == s.view && Views(n.children) == s.children
  }

  /** The children a container collects, one per shape, pairwise distinct. */
  ghost predicate Built(items: seq<FormattedNode>, shapes: seq<Shape>)
    reads items, Grandchildren(items)
  {
    |items| == |shapes| &&
    (forall i :: 0 <= i < |items| ==> Holds(items[i], shapes[i])) &&
    (forall i, j :: 0 <= i < j < |items| ==> items[i] != items[j])
  }

  /** The first n children of a container, built one per shape. */
  ghost predicate BuiltUpTo(items: seq<FormattedNode>, shapes: seq<Shape>, n: nat)
    reads items, Grandchildren(items)
  {
    |items| == n && n <= |shapes| &&
    (forall i :: 0 <= i < n ==> Holds(items[i], shapes[i])) &&
    (forall i, j :: 0 <= i < j < n ==> items[i] != items[j])
  }

  /** Appending the node for shape n to the first n children. */
  lemma BuiltStep(items: seq<FormattedNode>, shapes: seq<Shape>, n: nat, c: FormattedNode)
    requires BuiltUpTo(items, shapes, n) && n < |shapes| && Holds(c, shapes[n]) && c !in items
    ensures BuiltUpTo(items + [c], shapes, n + 1)
  {
    var items' := items + [c];
    forall i | 0 <= i < n + 1 ensures Holds(items'[i], shapes[i]) {
      if i < n {
        assert items'[i] == items[i];
      }
    }
  }

  /** All children built. */
  lemma BuiltAll(items: seq<FormattedNode>, shapes: seq<Shape>)
    requires BuiltUpTo(items, shapes, |shapes|)
    ensures Built(items, shapes)
  {
  }

  /** Shapes at depth d whose children sit at depth d + 1. */
  ghost predicate Layered(shapes: seq<Shape>, d: int) {
    forall i :: 0 <= i < |shapes| ==>
      shapes[i].view.depth == d && forall k :: 0 <= k < |shapes[i].children| ==> shapes[i].children[k].depth == d + 1
  }

  /** Appending a new node that holds its shape keeps the children built. */
  lemma BuiltSnoc(items: seq<FormattedNode>, shapes: seq<Shape>, c: FormattedNode, s: Shape)
    requires Built(items, shapes) && Holds(c, s) && c !in items
    ensures Built(items + [c], shapes + [s])
  {
    var items', shapes' := items + [c], shapes + [s];
    forall i | 0 <= i < |items'| ensures Holds(items'[i], shapes'[i]) {
      if i < |items| {
        assert items'[i] == items[i] && shapes'[i] == shapes[i];
      }
    }
  }

  /** Overwriting slot p by a new node that holds its shape keeps the
      children built. */
  lemma BuiltSet(items: seq<FormattedNode>, shapes: seq<Shape>, p: nat, c: FormattedNode, s: Shape)
    requires Built(items, shapes) && Holds(c, s) && c !in items && p < |items|
    ensures Built(items[p := c], shapes[p := s])
  {
    var items', shapes' := items[p := c], shapes[p := s];
    forall i | 0 <= i < |items'| ensures Holds(items'[i], shapes'[i]) {
      if i != p {
        assert items'[i] == items[i] && shapes'[i] == shapes[i];
      }
    }
  }

  /** Children a level above their own children: no child's child is one
      of the children, since the depths differ. */
  lemma Unaliased(items: seq<FormattedNode>, shapes: seq<Shape>, d: int)
    requires Built(items, shapes) && Layered(shapes, d)
    ensures forall i, j, k :: 0 <= i < |items| && 0 <= j < |items| && 0 <= k < |items[i].children| ==>
      items[i].children[k] != items[j]
  {
    forall i, j, k | 0 <= i < |items| && 0 <= j < |items| && 0 <= k < |items[i].children|
      ensures items[i].children[k] != items[j]
    {
      assert Holds(items[i], shapes[i]) && Holds(items[j], shapes[j]);
      assert Views(items[i].children)[k] == items[i].children[k].Snapshot();
    }
  }
  /** The container, its children and their children are distinct objects
      where the strategies rewrite fields: no child twice, no grandchild that
      is a child, and no grandchild that is the container itself. */
  ghost predicate Apart(n: FormattedNode)
    reads n`children, n.children`children
  {
    n !in n.children &&
    (forall i, j :: 0 <= i < j < |n.children| ==> n.children[i] != n.children[j]) &&
    (forall i, j, k :: 0 <= i < |n.children| && 0 <= j < |n.children| && 0 <= k < |n.children[i].children| ==>
      n.children[i].children[k] != n.children[j]) &&
    (forall i, k :: 0 <= i < |n.children| && 0 <= k < |n.children[i].children| ==> n.children[i].children[k] != n)
  }

  /** A container over built, layered children is apart, and its children's
      views are the shapes' tops and cells. */
  lemma ApartOf(n: FormattedNode, shapes: seq<Shape>)
    requires n !in n.children && Built(n.children, shapes) && Layered(shapes, n.depth + 1)
    ensures Apart(n) && Views(n.children) == Tops(shapes) && ChildViews(n.children) == Cells(shapes)
  {
    BuiltViews(n.children, shapes);
    Unaliased(n.children, shapes, n.depth + 1);
    forall i, k | 0 <= i < |n.children| && 0 <= k < |n.children[i].children|
      ensures n.children[i].children[k] != n
    {
      assert Holds(n.children[i], shapes[i]);
      assert Views(n.children[i].children)[k] == n.children[i].children[k].Snapshot();
    }
  }


  /** The items of a list sit at depth d, their children at d + 1. */
  lemma ItemsLayered(cfg: Config, d: int, v: J.Json)
    requires v.List?
    ensures Layered(ItemShapes(cfg, d, v), d)
  {
    forall i | 0 <= i < |v.items| {
      FormattedFacts(cfg, d, v.items[i]);
    }
  }

  /** The members of a dict sit at depth d, their children at d + 1. */
  lemma MembersLayered(cfg: Config, d: int, v: J.Json)
    requires v.Dict?
    ensures Layered(MemberShapes(cfg, d, v), d)
  {
    var slots := J.Dedup(J.KeyTexts(v.entries));
    forall i | 0 <= i < |slots| {
      FormattedFacts(cfg, d, v.entries[slots[i]].1);
    }
  }

  /** Built children have the shapes' views and the shapes' cells. */
  lemma BuiltViews(items: seq<FormattedNode>, shapes: seq<Shape>)
    requires Built(items, shapes)
    ensures Views(items) == Tops(shapes) && ChildViews(items) == Cells(shapes)
  {
  }

  /** The constructor and field writes shared by format_list and
      format_dict once they have some children. */
  method NewContainer(depth: int, kind: Kind, items: seq<FormattedNode>, ghost shapes: seq<Shape>)
    returns (n: FormattedNode)
    requires Built(items, shapes)
    ensures fresh(n) && n.children == items && n !in n.children && Built(n.children, shapes)
    ensures n.Snapshot() == View("", 0, "", 0, JoinedComplexity(Tops(shapes)), depth, kind, Inline)
  {
    BuiltViews(items, shapes);
    var cx := JoinedComplexity(Views(items));
    n := new FormattedNode();
    n.kind := kind;
    n.complexity := cx;
    n.depth := depth;
    n.children := items;
  }

  /** A new list node over built children, laid out by format_list's
      strategies. */
  method ListContainer(cfg: Config, depth: int, items: seq<FormattedNode>, ghost shapes: seq<Shape>)
    returns (n: FormattedNode)
    requires Built(items, shapes) && Layered(shapes, depth + 1)
    modifies items`value, items`valueLength, items`format
    ensures fresh(n) && n.children == items && Made(n, ListShape(cfg, depth, shapes))
  {
    n := NewContainer(depth, List, items, shapes);
    ListLadder(cfg, n, shapes);
  }

  /** A new dict node over built members, laid out by format_dict's
      strategies. */
  method DictContainer(cfg: Config, depth: int, items: seq<FormattedNode>, ghost shapes: seq<Shape>)
    returns (n: FormattedNode)
    requires Built(items, shapes) && Layered(shapes, depth + 1)
    modifies items`value, items`valueLength, items`format, items`nameLength
    ensures fresh(n) && n.children == items && Made(n, DictShape(cfg, depth, shapes))
  {
    n := NewContainer(depth, Dict, items, shapes);
    DictLadder(cfg, n, shapes);
  }

  /** format_element followed by cleanup: the node of `Formatted`. */
  method FormatElement(cfg: Config, depth: int, v: J.Json) returns (n: FormattedNode, ws: seq<J.Warning>)
    ensures fresh(n) && forall k :: 0 <= k < |n.children| ==> fresh(n.children[k])
    ensures Shaped(n, Formatted(cfg, depth, v))
    ensures ws == J.Warnings(v)
    decreases v, 5
  {
    n, ws := FormatUncleaned(cfg, depth, v);
    FormattedFacts(cfg, depth, v);
    n.Cleanup();
  }

  /** format_element: dispatch on the kind of value, before cleanup. */
  method FormatUncleaned(cfg: Config, depth: int, v: J.Json) returns (n: FormattedNode, ws: seq<J.Warning>)
    ensures fresh(n) && forall k :: 0 <= k < |n.children| ==> fresh(n.children[k])
    ensures Made(n, Formatted(cfg, depth, v))
    ensures ws == J.Warnings(v)
    decreases v, 4
  {
    match v {
      case List(_) =>
        n, ws := FormatList(cfg, depth, v);
      case Dict(_) =>
        n, ws := FormatDict(cfg, depth, v);
      case _ =>
        n := FormatSimple(depth, v);
        ws := [];
    }
  }

  /** format_list before cleanup: the fields of `Formatted`, and the
      children of its shape when the node stays INLINE. */
  method FormatList(cfg: Config, depth: int, v: J.Json) returns (n: FormattedNode, ws: seq<J.Warning>)
    requires v.List?
    ensures fresh(n) && forall k :: 0 <= k < |n.children| ==> fresh(n.children[k])
    ensures Made(n, Formatted(cfg, depth, v))
    ensures ws == J.Warnings(v)
    decreases v, 3
  {
    var items;
    items, ws := FormatItems(cfg, depth + 1, v);
    assert ws == J.Warnings(v);
    if |items| == 0 {
      n := EmptyContainer(depth, List, "[]");
      return;
    }
    ghost var shapes := ItemShapes(cfg, depth + 1, v);
    assert Formatted(cfg, depth, v) == ListNode(cfg, depth, v) == ListShape(cfg, depth, shapes);
    ItemsLayered(cfg, depth + 1, v);
    n := ListContainer(cfg, depth, items, shapes);
  }

  /** The `map(format_element, element)` of format_list. */
  method FormatItems(cfg: Config, depth: int, v: J.Json) returns (items: seq<FormattedNode>, ws: seq<J.Warning>)
    requires v.List?
    ensures forall k :: 0 <= k < |items| ==> fresh(items[k])
    ensures Built(items, ItemShapes(cfg, depth, v))
    ensures ws == J.ListWarnings(v, |v.items|)
    decreases v, 2
  {
    ghost var shapes := ElementShapes(cfg, depth, v);
    items := [];
    ws := [];
    for i := 0 to |v.items|
      invariant forall k :: 0 <= k < |items| ==> fresh(items[k])
      invariant BuiltUpTo(items, shapes, i)
      invariant ws == J.ListWarnings(v, i)
    {
      var c, w := FormatItem(cfg, depth, v, shapes, items, i);
      BuiltStep(items, shapes, i, c);
      items := items + [c];
      ws := ws + w;
    }
    BuiltAll(items, shapes);
    ElementShapesAre(cfg, depth, v);
  }

  /** The shapes of a list's elements, in input order. */
  ghost function ElementShapes(cfg: Config, depth: int, v: J.Json): (r: seq<Shape>)
    requires v.List?
    ensures |r| == |v.items|
    ensures forall i {:trigger Formatted(cfg, depth, v.items[i])} :: 0 <= i < |v.items| ==>
      r[i] == Formatted(cfg, depth, v.items[i])
  {
    seq(|v.items|, i requires 0 <= i < |v.items| => Formatted(cfg, depth, v.items[i]))
  }

  /** The element shapes are the children format_list builds. */
  lemma ElementShapesAre(cfg: Config, depth: int, v: J.Json)
    requires v.List?
    ensures ElementShapes(cfg, depth, v) == ItemShapes(cfg, depth, v)
  {
    var fs := ElementShapes(cfg, depth, v);
    forall i | 0 <= i < |v.items| ensures fs[i] == ItemShapes(cfg, depth, v)[i] {
      assert fs[i] == Formatted(cfg, depth, v.items[i]);
    }
  }

  /** One child of format_list, formatted next to those already built. */
  method FormatItem(cfg: Config, depth: int, v: J.Json, ghost shapes: seq<Shape>,
                    ghost items: seq<FormattedNode>, i: nat)
    returns (c: FormattedNode, ws: seq<J.Warning>)
    requires v.List? && i < |v.items| && shapes == ElementShapes(cfg, depth, v) && BuiltUpTo(items, shapes, i)
    ensures fresh(c) && Holds(c, shapes[i]) && BuiltUpTo(items, shapes, i)
    ensures ws == J.Warnings(v.items[i])
    decreases v, 1
  {
    c, ws := FormatElement(cfg, depth, v.items[i]);
  }

  /** The strategy ladder of format_list over a node holding its children. */
  method ListLadder(cfg: Config, n: FormattedNode, ghost shapes: seq<Shape>)
    requires n !in n.children && Built(n.children, shapes) && Layered(shapes, n.depth + 1)
    requires n.Snapshot() == View("", 0, "", 0, JoinedComplexity(Tops(shapes)), n.depth, List, Inline)
    modifies n`value, n`valueLength, n`format, n.children`value, n.children`valueLength, n.children`format
    ensures n.Snapshot() == ListShape(cfg, n.depth, shapes).view
    ensures n.format == Inline ==> Views(n.children) == ListShape(cfg, n.depth, shapes).children
  {
    var ok := TryListInline(cfg, n, shapes);
    if !ok {
      ListTables(cfg, n, shapes);
    }
  }

  /** The inline strategy of format_list; when it fails, the container
      is left unchanged and ready for the table strategies. */
  method TryListInline(cfg: Config, n: FormattedNode, ghost shapes: seq<Shape>) returns (ok: bool)
    requires n !in n.children && Built(n.children, shapes) && Layered(shapes, n.depth + 1)
    requires n.Snapshot() == View("", 0, "", 0, JoinedComplexity(Tops(shapes)), n.depth, List, Inline)
    modifies n`value, n`valueLength, n`format
    ensures ok ==> n.Snapshot() == ListShape(cfg, n.depth, shapes).view
    ensures ok ==> Views(n.children) == ListShape(cfg, n.depth, shapes).children
    ensures !ok ==> Apart(n) && Views(n.children) == Tops(shapes) && ChildViews(n.children) == Cells(shapes)
    ensures !ok ==> n.Snapshot() == old(n.Snapshot()) && !ListInlineFits(cfg, n.depth, n.complexity, Tops(shapes))
  {
    ApartOf(n, shapes);
    assert n !in Grandchildren(n.children);
    ok := FormatListInline(cfg, n);
  }


  /** format_list after the inline strategy fails: justify_parallel_numbers,
      the two table strategies, then multiline compact or expanded. */
  method ListTables(cfg: Config, n: FormattedNode, ghost shapes: seq<Shape>)
    requires Apart(n) && Views(n.children) == Tops(shapes) && ChildViews(n.children) == Cells(shapes)
    requires n.Snapshot() == View("", 0, "", 0, JoinedComplexity(Tops(shapes)), n.depth, List, Inline)
    requires !ListInlineFits(cfg, n.depth, n.complexity, Tops(shapes))
    modifies n`value, n`format, n.children`value, n.children`valueLength, n.children`format
    ensures n.Snapshot() == ListShape(cfg, n.depth, shapes).view
    ensures n.format != Inline
  {
    ListShapeTabled(cfg, n.depth, shapes, n.Snapshot());
    JustifyItems(cfg, n, Tops(shapes), Cells(shapes));
    ListTableLadder(cfg, n, Justified(cfg, Tops(shapes)), Cells(shapes));
  }

  /** The two table strategies of format_list, then multiline compact or
      expanded, on children already justified. */
  method ListTableLadder(cfg: Config, n: FormattedNode, ghost js: seq<View>, ghost cells: seq<seq<View>>)
    requires Apart(n) && Views(n.children) == js && ChildViews(n.children) == cells
    modifies n`value, n`format, n.children`value, n.children`valueLength, n.children`format
    ensures n.Snapshot() == ListTabled(cfg, old(n.Snapshot()), js, cells)
  {
    var ok := FormatTableListDict(cfg, n, js, cells);
    if ok {
      return;
    }
    ok := FormatTableListList(cfg, n, js, cells);
    if ok {
      return;
    }
    FinishList(cfg, n, js);
  }

  /** justify_parallel_numbers on the children of a list: their views
      are justified, their own children untouched. */
  method JustifyItems(cfg: Config, n: FormattedNode, ghost cs: seq<View>, ghost cells: seq<seq<View>>)
    requires Apart(n) && Views(n.children) == cs && ChildViews(n.children) == cells
    modifies n.children`value, n.children`valueLength
    ensures Apart(n) && Views(n.children) == Justified(cfg, cs) && ChildViews(n.children) == cells
    ensures n.Snapshot() == old(n.Snapshot())
  {
    var items := n.children;
    ghost var cc := ChildViews(items);
    JustifyParallelNumbers(cfg, items);
    assert forall i :: 0 <= i < |items| ==> Views(items[i].children) == cc[i];
  }

  /** format_dict before cleanup, like FormatList. */
  method FormatDict(cfg: Config, depth: int, v: J.Json) returns (n: FormattedNode, ws: seq<J.Warning>)
    requires v.Dict?
    ensures fresh(n) && forall k :: 0 <= k < |n.children| ==> fresh(n.children[k])
    ensures Made(n, Formatted(cfg, depth, v))
    ensures ws == J.Warnings(v)
    decreases v, 3
  {
    var items;
    items, ws := FormatMembers(cfg, depth + 1, v);
    assert ws == J.Warnings(v);
    if |items| == 0 {
      n := EmptyContainer(depth, Dict, "{}");
      return;
    }
    PlacedAll(cfg, depth + 1, v, items);
    ghost var shapes := MemberShapes(cfg, depth + 1, v);
    assert Formatted(cfg, depth, v) == DictNode(cfg, depth, v) == DictShape(cfg, depth, shapes);
    MembersLayered(cfg, depth + 1, v);
    n := DictContainer(cfg, depth, items, shapes);
  }

  /** The shapes of a dict's entry values, in input order. */
  ghost function EntryShapes(cfg: Config, depth: int, v: J.Json): (r: seq<Shape>)
    requires v.Dict?
    ensures |r| == |v.entries|
    ensures forall i {:trigger Formatted(cfg, depth, v.entries[i].1)} :: 0 <= i < |v.entries| ==>
      r[i] == Formatted(cfg, depth, v.entries[i].1)
  {
    seq(|v.entries|, i requires 0 <= i < |v.entries| => Formatted(cfg, depth, v.entries[i].1))
  }

  /** The members the `items` list holds for the given slots: each node
      holds the entry shape of its slot, named with the slot's key. */
  ghost predicate Placed(items: seq<FormattedNode>, fs: seq<Shape>, es: seq<(J.Key, J.Json)>, slots: seq<nat>)
    requires |fs| == |es| && forall p :: 0 <= p < |slots| ==> slots[p] < |es|
    reads items, Grandchildren(items)
  {
    |items| == |slots| &&
    (forall p {:trigger items[p]} :: 0 <= p < |slots| ==> Holds(items[p], Keyed(fs[slots[p]], es[slots[p]].0)))
  }

  /** Once every entry is placed, the members are those of the model. */
  lemma PlacedAll(cfg: Config, depth: int, v: J.Json, items: seq<FormattedNode>)
    requires v.Dict?
    requires Placed(items, EntryShapes(cfg, depth, v), v.entries, J.Dedup(J.KeyTexts(v.entries)))
    requires forall p, q :: 0 <= p < q < |items| ==> items[p] != items[q]
    ensures Built(items, MemberShapes(cfg, depth, v))
  {
    var fs := EntryShapes(cfg, depth, v);
    var slots := J.Dedup(J.KeyTexts(v.entries));
    forall p | 0 <= p < |slots| ensures Holds(items[p], MemberShapes(cfg, depth, v)[p]) {
      assert fs[slots[p]] == Formatted(cfg, depth, v.entries[slots[p]].1);
    }
  }

  /** The `keys` dict of format_dict after the entries before i: every
      key text seen has an entry, naming the slot that holds the text. */
  ghost predicate KeyIndex(es: seq<(J.Key, J.Json)>, i: nat, slots: seq<nat>, keys: map<string, nat>)
    requires i <= |es|
  {
    slots == J.Dedup(J.KeyTexts(es)[..i]) &&
    (forall j :: 0 <= j < i ==> es[j].0.text in keys) &&
    (forall t :: t in keys ==> keys[t] < |slots| && slots[keys[t]] < i && es[slots[keys[t]]].0.text == t)
  }

  /** Entry i under a key text already in `keys`: the text was seen
      before, and the entry takes over the slot `keys` names. */
  lemma KeyStepSeen(es: seq<(J.Key, J.Json)>, i: nat, slots: seq<nat>, keys: map<string, nat>)
    requires i < |es| && KeyIndex(es, i, slots, keys) && es[i].0.text in keys
    ensures J.SeenBefore(es, i, es[i].0.text)
    ensures KeyIndex(es, i + 1, slots[keys[es[i].0.text] := i], keys)
  {
    var ks := J.KeyTexts(es);
    var t := es[i].0.text;
    var q := keys[t];
    assert es[slots[q]].0.text == t;
    J.DedupOverwrite(ks, i, q);
    var slots' := slots[q := i];
    forall u | u in keys ensures keys[u] < |slots'| && slots'[keys[u]] < i + 1 && es[slots'[keys[u]]].0.text == u {
      if keys[u] == q {
        assert es[slots[keys[u]]].0.text == u;
      }
    }
  }

  /** Entry i under a new key text: it was not seen before, and the entry
      gets a new slot at the end, which `keys` records. */
  lemma KeyStepNew(es: seq<(J.Key, J.Json)>, i: nat, slots: seq<nat>, keys: map<string, nat>)
    requires i < |es| && KeyIndex(es, i, slots, keys) && es[i].0.text !in keys
    ensures !J.SeenBefore(es, i, es[i].0.text)
    ensures KeyIndex(es, i + 1, slots + [i], keys[es[i].0.text := |slots|])
  {
    var ks := J.KeyTexts(es);
    var t := ks[i];
    var ks' := ks[..i + 1];
    assert ks'[..i] == ks[..i];
    assert forall j :: 0 <= j < i ==> ks'[j] != t;
    var p := J.SlotOf(ks', slots, t);
    assert p == |slots|;
  }

  /** Overwriting slot p with (a node holding) entry i. */
  lemma PlacedSet(items: seq<FormattedNode>, fs: seq<Shape>, es: seq<(J.Key, J.Json)>, slots: seq<nat>,
                  p: nat, i: nat, c: FormattedNode)
    requires |fs| == |es| && (forall q :: 0 <= q < |slots| ==> slots[q] < |es|) && p < |slots| && i < |es|
    requires Placed(items, fs, es, slots) && Holds(c, Keyed(fs[i], es[i].0))
    ensures Placed(items[p := c], fs, es, slots[p := i])
  {
    var items', slots' := items[p := c], slots[p := i];
    forall q | 0 <= q < |slots'| ensures Holds(items'[q], Keyed(fs[slots'[q]], es[slots'[q]].0)) {
      if q != p {
        assert items'[q] == items[q] && slots'[q] == slots[q];
      }
    }
  }

  /** Appending (a node holding) entry i in a new slot. */
  lemma PlacedSnoc(items: seq<FormattedNode>, fs: seq<Shape>, es: seq<(J.Key, J.Json)>, slots: seq<nat>,
                   i: nat, c: FormattedNode)
    requires |fs| == |es| && (forall q :: 0 <= q < |slots| ==> slots[q] < |es|) && i < |es|
    requires Placed(items, fs, es, slots) && Holds(c, Keyed(fs[i], es[i].0))
    ensures Placed(items + [c], fs, es, slots + [i])
  {
    var items', slots' := items + [c], slots + [i];
    forall q | 0 <= q < |slots'| ensures Holds(items'[q], Keyed(fs[slots'[q]], es[slots'[q]].0)) {
      if q < |slots| {
        assert items'[q] == items[q] && slots'[q] == slots[q];
      }
    }
  }

  /** The warnings of format_dict grow, entry by entry, by those of the
      value, then the converted key, then the duplicate key. */
  lemma DictWarningsStep(v: J.Json, i: nat, dup: seq<J.Warning>)
    requires v.Dict? && i < |v.entries|
    requires dup == if J.SeenBefore(v.entries, i, v.entries[i].0.text) then [J.DuplicateKey(v.entries[i].0.text)] else []
    ensures J.DictWarnings(v, i + 1) ==
      J.DictWarnings(v, i) + ((J.Warnings(v.entries[i].1) +
        if v.entries[i].0.OtherKey? then [J.ConvertedKey(v.entries[i].0.text)] else []) + dup)
  {
    var k := v.entries[i].0;
    var conv: seq<J.Warning> := if k.OtherKey? then [J.ConvertedKey(k.text)] else [];
    assert J.KeyWarnings(v.entries, i) == conv + dup;
    assert J.DictWarnings(v, i) + J.Warnings(v.entries[i].1) + (conv + dup) ==
      J.DictWarnings(v, i) + ((J.Warnings(v.entries[i].1) + conv) + dup);
  }

  /** One entry of format_dict: its value formatted, named with the
      quoted key, and the warnings of both. */
  method FormatMember(cfg: Config, depth: int, v: J.Json, i: nat, ghost items: seq<FormattedNode>, ghost slots: seq<nat>)
    returns (elem: FormattedNode, ws: seq<J.Warning>)
    requires v.Dict? && i < |v.entries| && forall p :: 0 <= p < |slots| ==> slots[p] < |v.entries|
    requires Placed(items, EntryShapes(cfg, depth, v), v.entries, slots)
    ensures fresh(elem) && elem !in items && Holds(elem, Keyed(EntryShapes(cfg, depth, v)[i], v.entries[i].0))
    ensures Placed(items, EntryShapes(cfg, depth, v), v.entries, slots)
    ensures ws == J.Warnings(v.entries[i].1) + if v.entries[i].0.OtherKey? then [J.ConvertedKey(v.entries[i].0.text)] else []
    decreases v, 0
  {
    ghost var fs := EntryShapes(cfg, depth, v);
    var (k, x) := v.entries[i];
    assert fs[i] == Formatted(cfg, depth, x);
    elem, ws := FormatElement(cfg, depth, x);
    assert Placed(items, fs, v.entries, slots);
    if k.OtherKey? {
      ws := ws + [J.ConvertedKey(k.text)];
    }
    elem.name := k.quoted;
    elem.nameLength := StrLen(k.quoted);
    assert Placed(items, fs, v.entries, slots);
  }

  /** The bookkeeping of format_dict for entry i once its node is made:
      a key text already in `keys` names the slot to overwrite (with a
      duplicate-key warning), a new one is recorded as the next slot. */
  method PlaceMember(k: J.Key, elem: FormattedNode, items: seq<FormattedNode>, keys: map<string, nat>,
                     ghost fs: seq<Shape>, ghost es: seq<(J.Key, J.Json)>, ghost i: nat, ghost slots: seq<nat>)
    returns (at: nat, keys': map<string, nat>, dup: seq<J.Warning>, ghost slots': seq<nat>)
    requires i < |es| && |fs| == |es| && k == es[i].0 && KeyIndex(es, i, slots, keys)
    requires Placed(items, fs, es, slots) && Holds(elem, Keyed(fs[i], k))
    ensures at <= |items| && KeyIndex(es, i + 1, slots', keys')
    ensures at == |items| ==> Placed(items + [elem], fs, es, slots')
    ensures at < |items| ==> Placed(items[at := elem], fs, es, slots')
    ensures dup == if J.SeenBefore(es, i, k.text) then [J.DuplicateKey(k.text)] else []
  {
    if k.text in keys {
      KeyStepSeen(es, i, slots, keys);
      dup := [J.DuplicateKey(k.text)];
      at := keys[k.text];
      PlacedSet(items, fs, es, slots, at, i, elem);
      keys' := keys;
      slots' := slots[at := i];
    } else {
      KeyStepNew(es, i, slots, keys);
      dup := [];
      at := |items|;
      PlacedSnoc(items, fs, es, slots, i, elem);
      keys' := keys[k.text := |items|];
      slots' := slots + [i];
    }
  }

  /** The loop of format_dict over the entries: format the value, name it
      with the quoted key, then overwrite the slot of a key text already
      seen, or append a new slot. */
  method FormatMembers(cfg: Config, depth: int, v: J.Json) returns (items: seq<FormattedNode>, ws: seq<J.Warning>)
    requires v.Dict?
    ensures forall k :: 0 <= k < |items| ==> fresh(items[k])
    ensures Placed(items, EntryShapes(cfg, depth, v), v.entries, J.Dedup(J.KeyTexts(v.entries)))
    ensures forall p, q :: 0 <= p < q < |items| ==> items[p] != items[q]
    ensures ws == J.DictWarnings(v, |v.entries|)
    decreases v, 2
  {
    ghost var es := v.entries;
    ghost var fs := EntryShapes(cfg, depth, v);
    ghost var slots: seq<nat> := [];
    ghost var pos: map<FormattedNode, nat> := map[];
    var keys: map<string, nat> := map[];
    items := [];
    ws := [];
    for i := 0 to |v.entries|
      invariant forall o :: o in pos ==> fresh(o)
      invariant Indexed(items, pos)
      invariant KeyIndex(es, i, slots, keys)
      invariant Placed(items, fs, es, slots)
      invariant ws == J.DictWarnings(v, i)
    {
      var w;
      items, keys, w, slots, pos := PlaceEntry(cfg, depth, v, i, items, keys, slots, pos);
      ws := ws + w;
    }
    assert J.KeyTexts(es)[..|es|] == J.KeyTexts(es);
    IndexedDistinct(items, pos);
  }

  /** One pass of format_dict's member loop: format entry i's value, name
      it with its key, and append it or overwrite the node of the same key. */
  method PlaceEntry(cfg: Config, depth: int, v: J.Json, i: nat, items: seq<FormattedNode>, keys: map<string, nat>,
                    ghost slots: seq<nat>, ghost pos: map<FormattedNode, nat>)
    returns (items': seq<FormattedNode>, keys': map<string, nat>, ws: seq<J.Warning>,
             ghost slots': seq<nat>, ghost pos': map<FormattedNode, nat>)
    requires v.Dict? && i < |v.entries| && Indexed(items, pos) && KeyIndex(v.entries, i, slots, keys)
    requires Placed(items, EntryShapes(cfg, depth, v), v.entries, slots)
    ensures forall o :: o in pos' ==> o in pos || fresh(o)
    ensures Indexed(items', pos') && KeyIndex(v.entries, i + 1, slots', keys')
    ensures Placed(items', EntryShapes(cfg, depth, v), v.entries, slots')
    ensures J.DictWarnings(v, i + 1) == J.DictWarnings(v, i) + ws
    decreases v, 1
  {
    var k := v.entries[i].0;
    var elem, w := FormatMember(cfg, depth, v, i, items, slots);
    var at, dup;
    at, keys', dup, slots' := PlaceMember(k, elem, items, keys, EntryShapes(cfg, depth, v), v.entries, i, slots);
    if at == |items| {
      items' := items + [elem];
    } else {
      items' := items[at := elem];
    }
    pos' := pos[elem := at];
    IndexedPut(items, pos, at, elem);
    DictWarningsStep(v, i, dup);
    ws := w + dup;
  }

  /** Each node of `items` is recorded in `pos` at its own index. */
  ghost predicate Indexed(items: seq<FormattedNode>, pos: map<FormattedNode, nat>) {
    forall p :: 0 <= p < |items| ==> items[p] in pos && pos[items[p]] == p
  }

  /** Appending a new node, or overwriting one, keeps the record of indices. */
  lemma IndexedPut(items: seq<FormattedNode>, pos: map<FormattedNode, nat>, at: nat, c: FormattedNode)
    requires Indexed(items, pos) && at <= |items| && c !in items
    ensures Indexed(if at == |items| then items + [c] else items[at := c], pos[c := at])
  {
    var items' := if at == |items| then items + [c] else items[at := c];
    forall p | 0 <= p < |items'| ensures items'[p] in pos[c := at] && pos[c := at][items'[p]] == p {
      if p != at {
        assert items'[p] == items[p];
      }
    }
  }

  /** Nodes recorded at their own indices are pairwise distinct. */
  lemma IndexedDistinct(items: seq<FormattedNode>, pos: map<FormattedNode, nat>)
    requires Indexed(items, pos)
    ensures forall p, q :: 0 <= p < q < |items| ==> items[p] != items[q]
  {
  }

  /** The strategy ladder of format_dict over a node holding its members. */
  method DictLadder(cfg: Config, n: FormattedNode, ghost shapes: seq<Shape>)
    requires n !in n.children && Built(n.children, shapes) && Layered(shapes, n.depth + 1)
    requires n.Snapshot() == View("", 0, "", 0, JoinedComplexity(Tops(shapes)), n.depth, Dict, Inline)
    modifies n`value, n`valueLength, n`format, n.children`value, n.children`valueLength, n.children`format,
             n.children`nameLength
    ensures n.Snapshot() == DictShape(cfg, n.depth, shapes).view
    ensures n.format == Inline ==> Views(n.children) == DictShape(cfg, n.depth, shapes).children
  {
    var ok := TryDictInline(cfg, n, shapes);
    if !ok {
      DictTables(cfg, n, shapes);
    }
  }

  /** The inline strategy of format_dict; when it fails, the container
      is left unchanged and ready for the table strategies. */
  method TryDictInline(cfg: Config, n: FormattedNode, ghost shapes: seq<Shape>) returns (ok: bool)
    requires n !in n.children && Built(n.children, shapes) && Layered(shapes, n.depth + 1)
    requires n.Snapshot() == View("", 0, "", 0, JoinedComplexity(Tops(shapes)), n.depth, Dict, Inline)
    modifies n`value, n`valueLength, n`format
    ensures ok ==> n.Snapshot() == DictShape(cfg, n.depth, shapes).view
    ensures ok ==> Views(n.children) == DictShape(cfg, n.depth, shapes).children
    ensures !ok ==> Apart(n) && Views(n.children) == Tops(shapes) && ChildViews(n.children) == Cells(shapes)
    ensures !ok ==> n.Snapshot() == old(n.Snapshot()) && !DictInlineFits(cfg, n.depth, n.complexity, Tops(shapes))
  {
    ApartOf(n, shapes);
    assert n !in Grandchildren(n.children);
    ok := FormatDictInline(cfg, n);
  }


  /** format_dict after the inline strategy fails: the two table
      strategies, then multiline compact or expanded, names unforced. */
  method DictTables(cfg: Config, n: FormattedNode, ghost shapes: seq<Shape>)
    requires Apart(n) && Views(n.children) == Tops(shapes) && ChildViews(n.children) == Cells(shapes)
    requires n.Snapshot() == View("", 0, "", 0, JoinedComplexity(Tops(shapes)), n.depth, Dict, Inline)
    requires !DictInlineFits(cfg, n.depth, n.complexity, Tops(shapes))
    modifies n`value, n`format, n.children`value, n.children`valueLength, n.children`format, n.children`nameLength
    ensures n.Snapshot() == DictShape(cfg, n.depth, shapes).view
    ensures n.format != Inline
  {
    DictShapeTabled(cfg, n.depth, shapes, n.Snapshot());
    DictTableLadder(cfg, n, Tops(shapes), Cells(shapes));
  }


  /** The two table strategies of format_dict, then multiline compact or
      expanded with names unforced. */
  method DictTableLadder(cfg: Config, n: FormattedNode, ghost cs: seq<View>, ghost cells: seq<seq<View>>)
    requires Apart(n) && Views(n.children) == cs && ChildViews(n.children) == cells
    modifies n`value, n`format, n.children`value, n.children`valueLength, n.children`format, n.children`nameLength
    ensures n.Snapshot() == DictTabled(cfg, old(n.Snapshot()), cs, cells)
  {
    var ok := FormatTableDictDict(cfg, n, cs, cells);
    if ok {
      return;
    }
    ok := FormatTableDictList(cfg, n, cs, cells);
    if ok {
      return;
    }
    FinishDict(cfg, n, cs, false);
  }

  /** serialize: the prefix, then the formatted root, with the warnings
      format_dict emitted on the way. */
  method Serialize(cfg: Config, v: J.Json) returns (s: string, ws: seq<J.Warning>)
    ensures s == Serialized(cfg, v)
    ensures ws == J.Warnings(v)
  {
    var c := InitInternals(cfg);
    var n;
    n, ws := FormatElement(c, 0, v);
    s := c.prefixString + n.value;
  }
}
