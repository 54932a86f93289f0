/** What `format_element` produces for a value, as one function of the
    configuration, the depth and the value: the node's snapshot and the
    snapshots of the children `cleanup` lets it keep. The strategies are
    tried in the order format_list and format_dict try them. */
module Formatting {
  import J = JsonValue
  import opened Text
  import opened Settings
  import opened Nodes
  import opened Columns
  import opened Layout
  import opened Tables

  /** A formatted node after cleanup: its fields, and its children's
      fields (kept only by an INLINE node; the children keep none). */
  datatype Shape = Shape(view: View, children: seq<View>)

  /** format_simple: the literal, its width, complexity 0. */
  function SimpleView(depth: int, v: J.Json): View
    requires J.IsPrimitive(v)
  {
    View("", 0, J.Literal(v), |J.Literal(v)|, 0, depth, KindOf(v), Inline)
  }

  /** empty_list / empty_dict. */
  function EmptyView(depth: int, kind: Kind, text: string): View {
    View("", 0, text, 2, 0, depth, kind, Inline)
  }

  function Tops(shapes: seq<Shape>): (r: seq<View>)
    ensures |r| == |shapes| && forall i :: 0 <= i < |shapes| ==> r[i] == shapes[i].view
  {
    seq(|shapes|, i requires 0 <= i < |shapes| => shapes[i].view)
  }

  function Cells(shapes: seq<Shape>): (r: seq<seq<View>>)
    ensures |r| == |shapes| && forall i :: 0 <= i < |shapes| ==> r[i] == shapes[i].children
  {
    seq(|shapes|, i requires 0 <= i < |shapes| => shapes[i].children)
  }

  function Complexities(cs: seq<View>): (r: seq<int>)
    ensures |r| == |cs| && forall i :: 0 <= i < |cs| ==> r[i] == cs[i].complexity
  {
    seq(|cs|, i requires 0 <= i < |cs| => cs[i].complexity)
  }

  /** A container's complexity: one more than its most complex child. */
  function JoinedComplexity(cs: seq<View>): int {
    MaxOf(Complexities(cs)) + 1
  }

  /** A dict member: the child's node with its quoted key as name. */
  function Keyed(s: Shape, k: J.Key): Shape {
    Shape(s.view.(name := k.quoted, nameLength := |k.quoted|), s.children)
  }

  /** The rows after format_dict_table_row. */
  function DictRows(cfg: Config, rows: seq<View>, cells: seq<seq<View>>, cols: seq<Stats>): (r: seq<View>)
    requires |rows| == |cells|
    ensures |r| == |rows|
    ensures forall i :: 0 <= i < |rows| ==>
      r[i] == rows[i].(value := DictRowText(cfg, cells[i], cols), valueLength := DictTableWidth(cfg, cols),
                       format := InlineTabular)
  {
    seq(|rows|, i requires 0 <= i < |rows| =>
      rows[i].(value := DictRowText(cfg, cells[i], cols), valueLength := DictTableWidth(cfg, cols),
               format := InlineTabular))
  }

  /** The rows after format_list_table_row. */
  function ListRows(cfg: Config, rows: seq<View>, cells: seq<seq<View>>, cols: seq<Stats>): (r: seq<View>)
    requires |rows| == |cells|
    requires forall i :: 0 <= i < |cells| ==> |cells[i]| <= |cols|
    ensures |r| == |rows|
    ensures forall i :: 0 <= i < |rows| ==>
      r[i] == rows[i].(value := ListRowText(cfg, cells[i], cols), valueLength := ListTableWidth(cfg, cols),
                       format := InlineTabular)
  {
    seq(|rows|, i requires 0 <= i < |rows| =>
      rows[i].(value := ListRowText(cfg, cells[i], cols), valueLength := ListTableWidth(cfg, cols),
               format := InlineTabular))
  }

  /** The dict-table strategy: the rows rewritten as dict table rows, or
      None when it is switched off (a threshold above 100; the similarity
      settings are integers) or get_property_stats refuses. */
  function DictTable(cfg: Config, rows: seq<View>, cells: seq<seq<View>>): Option<seq<View>>
    requires |rows| == |cells|
  {
    if cfg.tableDictMinimumSimilarity <= 100 && PropertyStats(cfg, rows, cells).Some? then
      Some(DictRows(cfg, rows, cells, PropertyStats(cfg, rows, cells).value))
    else None
  }

  /** The list-table strategy, the same way with get_list_stats. */
  function ListTable(cfg: Config, rows: seq<View>, cells: seq<seq<View>>): Option<seq<View>>
    requires |rows| == |cells|
  {
    if cfg.tableListMinimumSimilarity <= 100 && ListStats(cfg, rows, cells).Some? then
      var cols := ListStats(cfg, rows, cells).value;
      assert |cols| == ColumnCount(cells);
      Some(ListRows(cfg, rows, cells, cols))
    else None
  }

  /** When the list-table strategy applies, its rows are the list table
      rows over the columns get_list_stats returns. */
  lemma ListTableRows(cfg: Config, rows: seq<View>, cells: seq<seq<View>>)
    requires |rows| == |cells|
    requires cfg.tableListMinimumSimilarity <= 100 && ListStats(cfg, rows, cells).Some?
    ensures forall i :: 0 <= i < |cells| ==> |cells[i]| <= |ListStats(cfg, rows, cells).value|
    ensures ListTable(cfg, rows, cells) == Some(ListRows(cfg, rows, cells, ListStats(cfg, rows, cells).value))
  {
    ListStatsColumns(cfg, rows, cells);
  }

  /** The two table strategies in the order both ladders try them: the
      reformatted rows, or None when neither applies. */
  function TableRows(cfg: Config, rows: seq<View>, cells: seq<seq<View>>): Option<seq<View>>
    requires |rows| == |cells|
  {
    if DictTable(cfg, rows, cells).Some? then DictTable(cfg, rows, cells) else ListTable(cfg, rows, cells)
  }

  /** The last two list strategies: multiline-compact when allowed,
      expanded otherwise. */
  function ListFinish(cfg: Config, base: View, cs: seq<View>): View {
    if ListCompactAllowed(cfg, base.depth, base.complexity) then
      base.(value := CompactText(cfg, base.depth, "[", "]", ListPieces(cs)), format := MultilineCompact)
    else base.(value := ListExpandedText(cfg, base.depth, cs), format := Expanded)
  }

  function DictFinish(cfg: Config, base: View, cs: seq<View>, force: bool): View {
    if DictCompactAllowed(cfg, base.depth, base.complexity) then
      base.(value := CompactText(cfg, base.depth, "{", "}", DictPieces(cfg, cs, force)), format := MultilineCompact)
    else base.(value := DictExpandedText(cfg, base.depth, cs, force), format := Expanded)
  }

  /** The node format_list makes from its (non-empty) children. */
  function ListShape(cfg: Config, depth: int, shapes: seq<Shape>): Shape {
    var cs := Tops(shapes);
    var base := View("", 0, "", 0, JoinedComplexity(cs), depth, List, Inline);
    if ListInlineFits(cfg, depth, base.complexity, cs) then
      Shape(base.(value := ListInlineText(cfg, base.complexity, cs),
                  valueLength := ListInlineLength(cfg, base.complexity, cs)), cs)
    else
      Shape(ListTabled(cfg, base, Justified(cfg, cs), Cells(shapes)), [])
  }

  /** What format_list does once the inline strategy fails, on the
      justified children: a table when one applies, else multiline compact
      or expanded. */
  function ListTabled(cfg: Config, base: View, js: seq<View>, cells: seq<seq<View>>): View
    requires |js| == |cells|
  {
    var rows := TableRows(cfg, js, cells);
    ListFinish(cfg, base, if rows.Some? then rows.value else js)
  }

  /** The node format_dict makes from its (non-empty) members. */
  function DictShape(cfg: Config, depth: int, shapes: seq<Shape>): Shape {
    var cs := Tops(shapes);
    var base := View("", 0, "", 0, JoinedComplexity(cs), depth, Dict, Inline);
    if DictInlineFits(cfg, depth, base.complexity, cs) then
      Shape(base.(value := DictInlineText(cfg, base.complexity, cs),
                  valueLength := DictInlineLength(cfg, base.complexity, cs)), cs)
    else
      Shape(DictTabled(cfg, base, cs, Cells(shapes)), [])
  }

  /** What format_dict does once the inline strategy fails: a table when
      one applies (names padded), else multiline compact or expanded. */
  function DictTabled(cfg: Config, base: View, cs: seq<View>, cells: seq<seq<View>>): View
    requires |cs| == |cells|
  {
    var rows := TableRows(cfg, cs, cells);
    if rows.Some? then DictFinish(cfg, base, rows.value, true) else DictFinish(cfg, base, cs, false)
  }

  /** A list node the inline strategy does not fit is what its table
      ladder makes of the justified children, and is not INLINE. */
  lemma ListShapeTabled(cfg: Config, depth: int, shapes: seq<Shape>, base: View)
    requires base == View("", 0, "", 0, JoinedComplexity(Tops(shapes)), depth, List, Inline)
    requires !ListInlineFits(cfg, depth, base.complexity, Tops(shapes))
    ensures ListShape(cfg, depth, shapes).view == ListTabled(cfg, base, Justified(cfg, Tops(shapes)), Cells(shapes))
    ensures ListShape(cfg, depth, shapes).view.format != Inline
  {
  }

  /** A dict node the inline strategy does not fit is what its table
      ladder makes of the members, and is not INLINE. */
  lemma DictShapeTabled(cfg: Config, depth: int, shapes: seq<Shape>, base: View)
    requires base == View("", 0, "", 0, JoinedComplexity(Tops(shapes)), depth, Dict, Inline)
    requires !DictInlineFits(cfg, depth, base.complexity, Tops(shapes))
    ensures DictShape(cfg, depth, shapes).view == DictTabled(cfg, base, Tops(shapes), Cells(shapes))
    ensures DictShape(cfg, depth, shapes).view.format != Inline
  {
  }

  /** The children format_list formats. */
  function ItemShapes(cfg: Config, depth: int, v: J.Json): (r: seq<Shape>)
    requires v.List?
    ensures |r| == |v.items| && forall i :: 0 <= i < |v.items| ==> r[i] == Formatted(cfg, depth, v.items[i])
    decreases v, 0
  {
    seq(|v.items|, i requires 0 <= i < |v.items| => Formatted(cfg, depth, v.items[i]))
  }

  /** The members format_dict keeps: one per distinct key text, at the
      position of its first occurrence, formatted from its last value. */
  function MemberShapes(cfg: Config, depth: int, v: J.Json): (r: seq<Shape>)
    requires v.Dict?
    ensures |r| == |J.Dedup(J.KeyTexts(v.entries))|
    ensures forall i :: 0 <= i < |r| ==>
      r[i] == Keyed(Formatted(cfg, depth, v.entries[J.Dedup(J.KeyTexts(v.entries))[i]].1),
                    v.entries[J.Dedup(J.KeyTexts(v.entries))[i]].0)
    decreases v, 0
  {
    var es := v.entries;
    var slots := J.Dedup(J.KeyTexts(es));
    seq(|slots|, i requires 0 <= i < |slots| => Keyed(Formatted(cfg, depth, es[slots[i]].1), es[slots[i]].0))
  }

  /** format_list before `cleanup`. */
  function ListNode(cfg: Config, depth: int, v: J.Json): Shape
    requires v.List?
    decreases v, 1
  {
    if |v.items| == 0 then Shape(EmptyView(depth, List, "[]"), [])
    else ListShape(cfg, depth, ItemShapes(cfg, depth + 1, v))
  }

  /** format_dict before `cleanup`. */
  function DictNode(cfg: Config, depth: int, v: J.Json): Shape
    requires v.Dict?
    decreases v, 1
  {
    if |v.entries| == 0 then Shape(EmptyView(depth, Dict, "{}"), [])
    else DictShape(cfg, depth, MemberShapes(cfg, depth + 1, v))
  }

  /** `format_element` followed by `cleanup`. */
  function Formatted(cfg: Config, depth: int, v: J.Json): Shape
    decreases v, 2
  {
    match v
    case List(_) => ListNode(cfg, depth, v)
    case Dict(_) => DictNode(cfg, depth, v)
    case _ => Shape(SimpleView(depth, v), [])
  }

  /** `serialize`: the prefix, then the formatted root. */
  function Serialized(cfg: Config, v: J.Json): string {
    var c := InitInternals(cfg);
    c.prefixString + Formatted(c, 0, v).view.value
  }

  // ---------------------------------------------------------------------
  // Properties of the formatted tree.

  lemma MaxOfIsMaxNat(xs: seq<int>, ys: seq<nat>)
    requires |xs| == |ys| && xs != []
    requires forall i :: 0 <= i < |xs| ==> xs[i] == ys[i]
    ensures MaxOf(xs) == J.MaxNat(ys)
  {
    var i :| 0 <= i < |xs| && xs[i] == MaxOf(xs);
    var j :| 0 <= j < |ys| && ys[j] == J.MaxNat(ys);
    assert xs[j] <= MaxOf(xs) && ys[i] <= J.MaxNat(ys);
  }

  /** The list strategies set only value, width and format; the node
      keeps its children exactly when it ends up INLINE, which happens
      exactly when the inline strategy applies. */
  lemma ListShapeFacts(cfg: Config, depth: int, shapes: seq<Shape>)
    ensures var s := ListShape(cfg, depth, shapes); var cs := Tops(shapes); var cx := JoinedComplexity(cs);
      s.view == View("", 0, s.view.value, s.view.valueLength, cx, depth, List, s.view.format) &&
      (s.view.format == Inline <==> ListInlineFits(cfg, depth, cx, cs)) &&
      (s.view.format == Inline ==> s.children == cs && s.view.value == ListInlineText(cfg, cx, cs) &&
                                   s.view.valueLength == ListInlineLength(cfg, cx, cs)) &&
      (s.view.format != Inline ==> s.children == [] && s.view.valueLength == 0)
  {
  }

  lemma DictShapeFacts(cfg: Config, depth: int, shapes: seq<Shape>)
    ensures var s := DictShape(cfg, depth, shapes); var cs := Tops(shapes); var cx := JoinedComplexity(cs);
      s.view == View("", 0, s.view.value, s.view.valueLength, cx, depth, Dict, s.view.format) &&
      (s.view.format == Inline <==> DictInlineFits(cfg, depth, cx, cs)) &&
      (s.view.format == Inline ==> s.children == cs && s.view.value == DictInlineText(cfg, cx, cs) &&
                                   s.view.valueLength == DictInlineLength(cfg, cx, cs)) &&
      (s.view.format != Inline ==> s.children == [] && s.view.valueLength == 0)
  {
  }

  /** Both container shapes take their complexity from their children and
      lie at the depth they are made at. */
  lemma ShapeBase(cfg: Config, depth: int, shapes: seq<Shape>)
    ensures ListShape(cfg, depth, shapes).view.complexity == JoinedComplexity(Tops(shapes))
    ensures DictShape(cfg, depth, shapes).view.complexity == JoinedComplexity(Tops(shapes))
    ensures ListShape(cfg, depth, shapes).view.depth == depth && DictShape(cfg, depth, shapes).view.depth == depth
  {
    ListShapeFacts(cfg, depth, shapes);
    DictShapeFacts(cfg, depth, shapes);
  }

  /** The fields every strategy leaves alone: a node has its depth, the
      kind of its value, no name of its own, and keeps children only when
      it is INLINE, all of them INLINE and one level deeper. */
  lemma FormattedFacts(cfg: Config, depth: int, v: J.Json)
    ensures Formatted(cfg, depth, v).view.depth == depth
    ensures Formatted(cfg, depth, v).view.kind == KindOf(v)
    ensures Formatted(cfg, depth, v).view.name == "" && Formatted(cfg, depth, v).view.nameLength == 0
    ensures Formatted(cfg, depth, v).view.format != Inline ==> Formatted(cfg, depth, v).children == []
    ensures forall i :: 0 <= i < |Formatted(cfg, depth, v).children| ==>
      Formatted(cfg, depth, v).children[i].format == Inline && Formatted(cfg, depth, v).children[i].depth == depth + 1
  {
    match v
    case List(xs) =>
      if |xs| > 0 {
        ListNodeFacts(cfg, depth, v);
      }
    case Dict(es) =>
      if |es| > 0 {
        DictNodeFacts(cfg, depth, v);
      }
    case _ =>
  }

  lemma ListNodeFacts(cfg: Config, depth: int, v: J.Json)
    requires v.List? && |v.items| > 0
    ensures var s := ListNode(cfg, depth, v);
      s.view.depth == depth && s.view.kind == List && s.view.name == "" && s.view.nameLength == 0 &&
      (s.view.format != Inline ==> s.children == []) &&
      forall i :: 0 <= i < |s.children| ==> s.children[i].format == Inline && s.children[i].depth == depth + 1
  {
    ListShapeFacts(cfg, depth, ItemShapes(cfg, depth + 1, v));
    ItemDepths(cfg, depth + 1, v);
  }

  lemma DictNodeFacts(cfg: Config, depth: int, v: J.Json)
    requires v.Dict? && |v.entries| > 0
    ensures var s := DictNode(cfg, depth, v);
      s.view.depth == depth && s.view.kind == Dict && s.view.name == "" && s.view.nameLength == 0 &&
      (s.view.format != Inline ==> s.children == []) &&
      forall i :: 0 <= i < |s.children| ==> s.children[i].format == Inline && s.children[i].depth == depth + 1
  {
    DictShapeFacts(cfg, depth, MemberShapes(cfg, depth + 1, v));
    MemberDepths(cfg, depth + 1, v);
  }

  /** A node lies at the depth it is formatted at. */
  lemma FormattedDepth(cfg: Config, depth: int, v: J.Json)
    ensures Formatted(cfg, depth, v).view.depth == depth
  {
    match v
    case List(xs) =>
      if |xs| > 0 {
        ShapeBase(cfg, depth, ItemShapes(cfg, depth + 1, v));
      }
    case Dict(es) =>
      if |es| > 0 {
        ShapeBase(cfg, depth, MemberShapes(cfg, depth + 1, v));
      }
    case _ =>
  }

  /** A list's items formatted at depth d lie at depth d. */
  lemma ItemDepths(cfg: Config, d: int, v: J.Json)
    requires v.List?
    ensures forall i :: 0 <= i < |v.items| ==> Tops(ItemShapes(cfg, d, v))[i].depth == d
  {
    forall i | 0 <= i < |v.items| ensures Tops(ItemShapes(cfg, d, v))[i].depth == d {
      FormattedDepth(cfg, d, v.items[i]);
    }
  }

  /** A dict's members formatted at depth d lie at depth d. */
  lemma MemberDepths(cfg: Config, d: int, v: J.Json)
    requires v.Dict?
    ensures forall i :: 0 <= i < |MemberShapes(cfg, d, v)| ==> Tops(MemberShapes(cfg, d, v))[i].depth == d
  {
    var slots := J.Dedup(J.KeyTexts(v.entries));
    var shapes := MemberShapes(cfg, d, v);
    forall i | 0 <= i < |slots| ensures shapes[i].view.depth == d {
      var c := v.entries[slots[i]].1;
      FormattedDepth(cfg, d, c);
      assert shapes[i] == Keyed(Formatted(cfg, d, c), v.entries[slots[i]].0);
    }
  }

  /** A node's complexity is its value's: 0 for primitives and empty
      containers, else one more than its most complex kept child. */
  lemma {:induction false} FormattedComplexity(cfg: Config, depth: int, v: J.Json)
    ensures Formatted(cfg, depth, v).view.complexity == J.Complexity(v)
    decreases v, 2
  {
    match v
    case List(xs) =>
      if |xs| > 0 {
        ShapeBase(cfg, depth, ItemShapes(cfg, depth + 1, v));
        ListComplexity(cfg, depth, v);
      }
    case Dict(es) =>
      if |es| > 0 {
        ShapeBase(cfg, depth, MemberShapes(cfg, depth + 1, v));
        DictComplexity(cfg, depth, v);
      }
    case _ =>
  }

  lemma {:induction false} ListComplexity(cfg: Config, depth: int, v: J.Json)
    requires v.List? && v.items != []
    ensures JoinedComplexity(Tops(ItemShapes(cfg, depth + 1, v))) == J.Complexity(v)
    decreases v, 1
  {
    var shapes := ItemShapes(cfg, depth + 1, v);
    ItemComplexitiesMatch(cfg, depth, v);
    MaxOfIsMaxNat(Complexities(Tops(shapes)), J.ItemComplexities(v));
    J.ContainerComplexity(v);
  }

  lemma {:induction false} ItemComplexitiesMatch(cfg: Config, depth: int, v: J.Json)
    requires v.List?
    ensures |Tops(ItemShapes(cfg, depth + 1, v))| == |J.ItemComplexities(v)|
    ensures forall i :: 0 <= i < |v.items| ==> Complexities(Tops(ItemShapes(cfg, depth + 1, v)))[i] == J.ItemComplexities(v)[i]
    decreases v, 0
  {
    forall i | 0 <= i < |v.items|
      ensures Complexities(Tops(ItemShapes(cfg, depth + 1, v)))[i] == J.ItemComplexities(v)[i]
    {
      FormattedComplexity(cfg, depth + 1, v.items[i]);
    }
  }

  lemma {:induction false} DictComplexity(cfg: Config, depth: int, v: J.Json)
    requires v.Dict? && v.entries != []
    ensures JoinedComplexity(Tops(MemberShapes(cfg, depth + 1, v))) == J.Complexity(v)
    decreases v, 1
  {
    var shapes := MemberShapes(cfg, depth + 1, v);
    MemberComplexitiesMatch(cfg, depth, v);
    MaxOfIsMaxNat(Complexities(Tops(shapes)), J.MemberComplexities(v));
    J.ContainerComplexity(v);
  }

  lemma {:induction false} MemberComplexitiesMatch(cfg: Config, depth: int, v: J.Json)
    requires v.Dict?
    ensures |Tops(MemberShapes(cfg, depth + 1, v))| == |J.MemberComplexities(v)|
    ensures forall i :: 0 <= i < |J.MemberComplexities(v)| ==>
      Complexities(Tops(MemberShapes(cfg, depth + 1, v)))[i] == J.MemberComplexities(v)[i]
    decreases v, 0
  {
    var slots := J.Dedup(J.KeyTexts(v.entries));
    forall i | 0 <= i < |slots|
      ensures Complexities(Tops(MemberShapes(cfg, depth + 1, v)))[i] == J.MemberComplexities(v)[i]
    {
      FormattedComplexity(cfg, depth + 1, v.entries[slots[i]].1);
    }
  }

  /** Containers at or above always_expand_depth are always expanded (an
      empty one is still written inline). */
  lemma AlwaysExpanded(cfg: Config, depth: int, v: J.Json)
    requires (v.List? && v.items != []) || (v.Dict? && v.entries != [])
    requires depth <= cfg.alwaysExpandDepth
    ensures Formatted(cfg, depth, v).view.format == Expanded
  {
    if v.List? {
      ShapeBlock(cfg, depth, ItemShapes(cfg, depth + 1, v));
    } else {
      ShapeBlock(cfg, depth, MemberShapes(cfg, depth + 1, v));
    }
  }

  /** At or above always_expand_depth neither container shape is inline
      or multiline-compact. */
  lemma ShapeBlock(cfg: Config, depth: int, shapes: seq<Shape>)
    requires depth <= cfg.alwaysExpandDepth
    ensures ListShape(cfg, depth, shapes).view.format == Expanded
    ensures DictShape(cfg, depth, shapes).view.format == Expanded
  {
    ListShapeFacts(cfg, depth, shapes);
    DictShapeFacts(cfg, depth, shapes);
  }

  /** An INLINE container fits: its line is no longer than
      max_inline_length, its complexity at most max_inline_complexity, and
      it lies below always_expand_depth. */
  lemma InlineBounded(cfg: Config, depth: int, v: J.Json)
    requires (v.List? && v.items != []) || (v.Dict? && v.entries != [])
    requires Formatted(cfg, depth, v).view.format == Inline
    ensures Formatted(cfg, depth, v).view.valueLength <= cfg.maxInlineLength
    ensures Formatted(cfg, depth, v).view.complexity <= cfg.maxInlineComplexity
    ensures depth > cfg.alwaysExpandDepth
  {
    if v.List? {
      var shapes := ItemShapes(cfg, depth + 1, v);
      assert Formatted(cfg, depth, v) == ListShape(cfg, depth, shapes);
      ListShapeFacts(cfg, depth, shapes);
    } else {
      var shapes := MemberShapes(cfg, depth + 1, v);
      assert Formatted(cfg, depth, v) == DictShape(cfg, depth, shapes);
      DictShapeFacts(cfg, depth, shapes);
    }
  }

  /** The width of an INLINE node is the length of its text, and its kept
      children have measured names and values. */
  lemma {:induction false} InlineMeasured(cfg: Config, depth: int, v: J.Json)
    ensures Formatted(cfg, depth, v).view.format == Inline ==>
      Formatted(cfg, depth, v).view.valueLength == |Formatted(cfg, depth, v).view.value|
    ensures forall i :: 0 <= i < |Formatted(cfg, depth, v).children| ==> Measured(Formatted(cfg, depth, v).children[i])
    decreases v, 1
  {
    match v
    case List(xs) =>
      if |xs| > 0 {
        ListMeasured(cfg, depth, v);
      }
    case Dict(es) =>
      if |es| > 0 {
        DictMeasured(cfg, depth, v);
      }
    case _ =>
  }

  lemma {:induction false} ListMeasured(cfg: Config, depth: int, v: J.Json)
    requires v.List? && v.items != []
    ensures var s := ListShape(cfg, depth, ItemShapes(cfg, depth + 1, v));
      (s.view.format == Inline ==> s.view.valueLength == |s.view.value|) &&
      (forall i :: 0 <= i < |s.children| ==> Measured(s.children[i]))
    decreases v, 0
  {
    var xs := v.items;
    var shapes := ItemShapes(cfg, depth + 1, v);
    var cs := Tops(shapes);
    ListShapeFacts(cfg, depth, shapes);
    forall i | 0 <= i < |xs| ensures cs[i].format == Inline ==> Measured(cs[i]) {
      InlineMeasured(cfg, depth + 1, xs[i]);
      FormattedFacts(cfg, depth + 1, xs[i]);
    }
    if ListInlineFits(cfg, depth, JoinedComplexity(cs), cs) {
      ListInlineWidth(cfg, JoinedComplexity(cs), cs);
    }
  }

  lemma {:induction false} DictMeasured(cfg: Config, depth: int, v: J.Json)
    requires v.Dict? && v.entries != []
    ensures var s := DictShape(cfg, depth, MemberShapes(cfg, depth + 1, v));
      (s.view.format == Inline ==> s.view.valueLength == |s.view.value|) &&
      (forall i :: 0 <= i < |s.children| ==> Measured(s.children[i]))
    decreases v, 0
  {
    var es := v.entries;
    var slots := J.Dedup(J.KeyTexts(es));
    var shapes := MemberShapes(cfg, depth + 1, v);
    var cs := Tops(shapes);
    DictShapeFacts(cfg, depth, shapes);
    forall i | 0 <= i < |slots| ensures cs[i].format == Inline ==> Measured(cs[i]) {
      InlineMeasured(cfg, depth + 1, es[slots[i]].1);
    }
    if DictInlineFits(cfg, depth, JoinedComplexity(cs), cs) {
      DictInlineWidth(cfg, JoinedComplexity(cs), cs);
    }
  }

  /** Number literals as json.dumps writes them: an integer has no point,
      and a float's point is followed by digits. */
  predicate LiteralsReady(v: J.Json)
    decreases v
  {
    match v
    case Int(lit) => '.' !in lit
    case Float(lit) => PointHasFraction(lit)
    case List(xs) => forall i :: 0 <= i < |xs| ==> LiteralsReady(xs[i])
    case Dict(es) => forall i :: 0 <= i < |es| ==> LiteralsReady(es[i].1)
    case _ => true
  }

  /** Under well-formed literals, an INLINE node is a ready table cell. */
  lemma ViewReady(cfg: Config, depth: int, v: J.Json)
    requires LiteralsReady(v)
    ensures Formatted(cfg, depth, v).view.format == Inline ==> CellReady(Formatted(cfg, depth, v).view)
  {
    InlineMeasured(cfg, depth, v);
    FormattedFacts(cfg, depth, v);
  }

  /** Under well-formed literals, every INLINE node is a ready table cell,
      and so is every child a node keeps. */
  lemma FormattedReady(cfg: Config, depth: int, v: J.Json)
    requires LiteralsReady(v)
    ensures Formatted(cfg, depth, v).view.format == Inline ==> CellReady(Formatted(cfg, depth, v).view)
    ensures forall i :: 0 <= i < |Formatted(cfg, depth, v).children| ==>
      CellReady(Formatted(cfg, depth, v).children[i]) && Measured(Formatted(cfg, depth, v).children[i])
  {
    ViewReady(cfg, depth, v);
    match v
    case List(xs) =>
      if |xs| > 0 {
        ListReady(cfg, depth, v);
      }
    case Dict(es) =>
      if |es| > 0 {
        DictReady(cfg, depth, v);
      }
    case _ =>
  }

  lemma ListReady(cfg: Config, depth: int, v: J.Json)
    requires v.List? && v.items != [] && LiteralsReady(v)
    ensures forall i :: 0 <= i < |Formatted(cfg, depth, v).children| ==>
      CellReady(Formatted(cfg, depth, v).children[i]) && Measured(Formatted(cfg, depth, v).children[i])
  {
    var xs := v.items;
    var shapes := ItemShapes(cfg, depth + 1, v);
    assert Formatted(cfg, depth, v) == ListShape(cfg, depth, shapes);
    var cs := Tops(shapes);
    ListShapeFacts(cfg, depth, shapes);
    ListMeasured(cfg, depth, v);
    forall i | 0 <= i < |xs| ensures cs[i].format == Inline ==> CellReady(cs[i]) {
      assert LiteralsReady(xs[i]);
      ViewReady(cfg, depth + 1, xs[i]);
    }
  }

  lemma DictReady(cfg: Config, depth: int, v: J.Json)
    requires v.Dict? && v.entries != [] && LiteralsReady(v)
    ensures forall i :: 0 <= i < |Formatted(cfg, depth, v).children| ==>
      CellReady(Formatted(cfg, depth, v).children[i]) && Measured(Formatted(cfg, depth, v).children[i])
  {
    var es := v.entries;
    var slots := J.Dedup(J.KeyTexts(es));
    var shapes := MemberShapes(cfg, depth + 1, v);
    assert Formatted(cfg, depth, v) == DictShape(cfg, depth, shapes);
    var cs := Tops(shapes);
    DictShapeFacts(cfg, depth, shapes);
    DictMeasured(cfg, depth, v);
    forall i | 0 <= i < |slots| ensures cs[i].format == Inline ==> CellReady(cs[i]) {
      assert LiteralsReady(es[slots[i]].1);
      ViewReady(cfg, depth + 1, es[slots[i]].1);
    }
  }

  /** Table rows line up: whichever table strategy applies, every row
      becomes INLINE_TABULAR, keeps its other fields, and is exactly as
      wide as recorded, which is the same for all rows and fits
      max_inline_length. */
  lemma TableRowsAligned(cfg: Config, rows: seq<View>, cells: seq<seq<View>>)
    requires |rows| == |cells|
    requires forall r, j :: 0 <= r < |cells| && 0 <= j < |cells[r]| ==> CellReady(cells[r][j]) && Measured(cells[r][j])
    requires TableRows(cfg, rows, cells).Some?
    ensures var t := TableRows(cfg, rows, cells).value;
      |t| == |rows| &&
      forall i :: 0 <= i < |t| ==>
        t[i] == rows[i].(value := t[i].value, valueLength := t[i].valueLength, format := InlineTabular) &&
        t[i].valueLength == |t[i].value| == t[0].valueLength &&
        t[i].valueLength <= cfg.maxInlineLength
  {
    if cfg.tableDictMinimumSimilarity <= 100 && PropertyStats(cfg, rows, cells).Some? {
      var cols := PropertyStats(cfg, rows, cells).value;
      forall i | 0 <= i < |rows|
        ensures |DictRowText(cfg, cells[i], cols)| == DictTableWidth(cfg, cols) <= cfg.maxInlineLength
      {
        DictTableRowsFit(cfg, rows, cells, i);
      }
    } else {
      var cols := ListStats(cfg, rows, cells).value;
      forall i | 0 <= i < |rows|
        ensures |cells[i]| <= |cols| && |ListRowText(cfg, cells[i], cols)| == ListTableWidth(cfg, cols) <= cfg.maxInlineLength
      {
        ListTableRowsFit(cfg, rows, cells, i);
      }
    }
  }

  /** In a formatted tree with well-formed literals, a list's tables line
      up: the rows the table strategies give its children all have the
      recorded width. */
  lemma ListTablesAligned(cfg: Config, depth: int, xs: seq<J.Json>)
    requires LiteralsReady(J.List(xs))
    ensures var shapes := ItemShapes(cfg, depth + 1, J.List(xs));
      var rows := TableRows(cfg, Justified(cfg, Tops(shapes)), Cells(shapes));
      rows.Some? ==> forall i :: 0 <= i < |rows.value| ==>
        rows.value[i].valueLength == |rows.value[i].value| <= cfg.maxInlineLength
  {
    var shapes := ItemShapes(cfg, depth + 1, J.List(xs));
    var cells := Cells(shapes);
    forall r, j | 0 <= r < |cells| && 0 <= j < |cells[r]| ensures CellReady(cells[r][j]) && Measured(cells[r][j]) {
      FormattedReady(cfg, depth + 1, xs[r]);
    }
    if TableRows(cfg, Justified(cfg, Tops(shapes)), cells).Some? {
      TableRowsAligned(cfg, Justified(cfg, Tops(shapes)), cells);
    }
  }

  /** A primitive serializes to the prefix followed by its literal. */
  lemma SerializedPrimitive(cfg: Config, v: J.Json)
    requires J.IsPrimitive(v)
    ensures Serialized(cfg, v) == cfg.prefixString + J.Literal(v)
  {
  }
}
