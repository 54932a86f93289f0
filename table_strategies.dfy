/** The table strategies as methods over FormattedNode and ColumnStats
    objects: number justification, the statistics passes, and the two row
    formatters. Each is proved to leave exactly the state the functions of
    Tables and Layout describe. */
module TableStrategies {
  import opened Text
  import opened Settings
  import opened Nodes
  import opened Columns
  import opened Layout
  import opened Tables
  import opened Strategies
  import opened Formatting

  /** The statistics pass of justify_parallel_numbers: every sibling
      added to one fresh column at index 0. */
  method SiblingColumn(dontJustify: bool, items: seq<FormattedNode>) returns (s: Stats)
    ensures s == SiblingStats(dontJustify, Views(items))
  {
    ghost var es := JustifyEntries(Views(items));
    var stats := new ColumnStats(dontJustify);
    var i := 0;
    while i < |items|
      invariant 0 <= i <= |items|
      invariant stats.Snapshot() == StatsOf(NewStats(dontJustify), es[..i])
    {
      assert es[..i + 1] == es[..i] + [Entry(items[i].Snapshot(), 0)];
      StatsOfSnoc(NewStats(dontJustify), es[..i], Entry(items[i].Snapshot(), 0));
      stats.Update(items[i].Snapshot(), 0);
      i := i + 1;
    }
    assert es[..|items|] == es;
    s := stats.Snapshot();
  }

  /** justify_parallel_numbers: when there are at least two siblings and
      their column is numeric, every sibling is rewritten to the column's
      precision and width. */
  method JustifyParallelNumbers(cfg: Config, items: seq<FormattedNode>)
    requires forall i, j :: 0 <= i < j < |items| ==> items[i] != items[j]
    modifies items`value, items`valueLength
    ensures Views(items) == Justified(cfg, old(Views(items)))
  {
    if |items| < 2 || cfg.dontJustifyNumbers {
      return;
    }
    var s := SiblingColumn(cfg.dontJustifyNumbers, items);
    if s.kind != Int && s.kind != Float {
      return;
    }
    JustifyBy(s, items, Views(items));
  }

  /** The rewriting loop of justify_parallel_numbers. */
  method JustifyBy(s: Stats, items: seq<FormattedNode>, ghost cs: seq<View>)
    requires forall i, j :: 0 <= i < j < |items| ==> items[i] != items[j]
    requires Views(items) == cs
    modifies items`value, items`valueLength
    ensures Views(items) == JustifiedBy(s, cs)
  {
    ghost var target := JustifiedBy(s, cs);
    ghost var done: seq<View> := [];
    var i := 0;
    while i < |items|
      invariant 0 <= i <= |items|
      invariant done == target[..i]
      invariant forall j :: 0 <= j < i ==> items[j].Snapshot() == done[j]
      invariant forall j :: i <= j < |items| ==> items[j].Snapshot() == cs[j]
    {
      Rewrite(s, items[i]);
      TakeSnoc(target, i);
      done := done + [items[i].Snapshot()];
      i := i + 1;
    }
    assert target[..|items|] == target;
    ViewsOf(items, target);
  }

  /** One sibling rewritten to the column's precision and width. */
  method Rewrite(s: Stats, item: FormattedNode)
    modifies item`value, item`valueLength
    ensures item.Snapshot() ==
      old(item.Snapshot()).(value := FormatValue(s, old(item.value), old(item.valueLength)), valueLength := MaxValueSize(s))
  {
    item.value := FormatValue(s, item.value, item.valueLength);
    item.valueLength := MaxValueSize(s);
  }

  /** A name not seen before: a fresh column carrying the member's name,
      updated with the member. */
  method StartColumn(dontJustify: bool, prop: View, index: int) returns (ps: ColumnStats)
    ensures fresh(ps)
    ensures ps.Snapshot() == Updated(Fresh(dontJustify, prop), prop, index)
  {
    ps := new ColumnStats(dontJustify);
    ps.propName, ps.propNameLength := prop.name, prop.nameLength;
    ps.Update(prop, index);
  }

  /** The state of get_property_stats: distinct column objects in the
      dict's insertion order, whose fields are `cols`, and each property
      name mapped to its own column. */
  ghost predicate Gathered(props: map<string, ColumnStats>, order: seq<ColumnStats>, cols: seq<Stats>)
    reads order
  {
    Snapshots(order) == cols && Indexed(props, order, cols) &&
    forall k, l :: 0 <= k < l < |order| ==> order[k] != order[l]
  }

  /** One member visited by get_property_stats: a name not seen before
      gets a fresh column, which becomes its key in `props` and the next
      value in the dict's insertion order; then the name's column is
      updated with the member at its position in the row. */
  method AddMember(dontJustify: bool, props0: map<string, ColumnStats>, order0: seq<ColumnStats>,
                   prop: View, index: int, ghost cols0: seq<Stats>)
    returns (props: map<string, ColumnStats>, order: seq<ColumnStats>)
    requires Gathered(props0, order0, cols0)
    modifies order0
    ensures Gathered(props, order, AddEntry(dontJustify, cols0, Entry(prop, index)))
    ensures |order0| <= |order| && forall k :: 0 <= k < |order0| ==> order[k] == order0[k]
    ensures forall k :: |order0| <= k < |order| ==> fresh(order[k])
  {
    if prop.name !in props0 {
      var ps := StartColumn(dontJustify, prop, index);
      UpdatedKeepsName(Fresh(dontJustify, prop), prop, index);
      IndexedSnoc(props0, order0, cols0, ps.Snapshot(), ps);
      props, order := props0[prop.name := ps], order0 + [ps];
      assert Snapshots(order) == cols0 + [ps.Snapshot()];
    } else {
      UpdateColumn(dontJustify, props0, order0, prop, index, cols0);
      props, order := props0, order0;
    }
  }

  /** A name seen before: its column, found through `props`, is updated
      in place; no other column changes. */
  method UpdateColumn(dontJustify: bool, props: map<string, ColumnStats>, order: seq<ColumnStats>,
                      prop: View, index: int, ghost cols0: seq<Stats>)
    requires Gathered(props, order, cols0) && prop.name in props
    modifies order
    ensures Gathered(props, order, AddEntry(dontJustify, cols0, Entry(prop, index)))
  {
    ghost var k := ColumnOf(cols0, prop.name);
    var ps := props[prop.name];
    ghost var x := Updated(cols0[k], prop, index);
    ps.Update(prop, index);
    forall j | 0 <= j < |order| ensures order[j].Snapshot() == cols0[k := x][j] {
      if j != k {
        assert order[j] != order[k];
      }
    }
    SnapshotsOf(order, cols0[k := x]);
    UpdatedKeepsName(cols0[k], prop, index);
    IndexedUpdate(props, order, cols0, k, x);
  }

  /** The inner loop of get_property_stats: every member of one row (the
      fields of its children), with its position in the row. */
  method AddRowMembers(dontJustify: bool, props0: map<string, ColumnStats>, order0: seq<ColumnStats>,
                       row: seq<View>, ghost es: seq<Entry>)
    returns (props: map<string, ColumnStats>, order: seq<ColumnStats>)
    requires Gathered(props0, order0, Accumulate(dontJustify, es))
    modifies order0
    ensures Gathered(props, order, Accumulate(dontJustify, es + RowEntries(row)))
    ensures |order0| <= |order| && forall k :: 0 <= k < |order0| ==> order[k] == order0[k]
    ensures forall k :: |order0| <= k < |order| ==> fresh(order[k])
  {
    ghost var rs := RowEntries(row);
    ghost var seen := es;
    ghost var cols := Accumulate(dontJustify, es);
    props, order := props0, order0;
    assert es + rs[..0] == es;
    var index := 0;
    while index < |row|
      invariant 0 <= index <= |row|
      invariant seen == es + rs[..index] && cols == Accumulate(dontJustify, seen)
      invariant Gathered(props, order, cols)
      invariant |order0| <= |order| && forall k :: 0 <= k < |order0| ==> order[k] == order0[k]
      invariant forall k :: |order0| <= k < |order| ==> fresh(order[k])
    {
      ghost var e := rs[index];
      AccumulateSnoc(dontJustify, seen, e);
      props, order := AddMember(dontJustify, props, order, row[index], index, cols);
      seen, cols := seen + [e], AddEntry(dontJustify, cols, e);
      PrefixSnoc(es, rs, index);
      index := index + 1;
    }
    assert rs[..|rs|] == rs;
  }

  /** get_property_stats: refuses fewer than two rows or a row that is not
      an inline dict; otherwise one column per property name in order of
      first appearance, sorted by average position, then the similarity
      and width tests (no columns at all means a division by zero, which
      also refuses). */
  method GetPropertyStats(cfg: Config, item: FormattedNode) returns (r: Option<seq<Stats>>)
    ensures r == PropertyStats(cfg, old(Views(item.children)), old(ChildViews(item.children)))
  {
    var vs := Views(item.children);
    var cells := ChildViews(item.children);
    r := PropertyStatsOf(cfg, vs, cells);
  }

  /** The body of get_property_stats, on the fields of the rows (`vs`) and
      of their members (`cells`). The source tests each row as its loop
      reaches it; the columns are local, so testing every row first
      returns the same. */
  method PropertyStatsOf(cfg: Config, vs: seq<View>, cells: seq<seq<View>>) returns (r: Option<seq<Stats>>)
    ensures r == PropertyStats(cfg, vs, cells)
  {
    if |vs| < 2 {
      return None;
    }
    if exists i | 0 <= i < |vs| :: vs[i].kind != Dict || vs[i].format != Inline {
      var i :| 0 <= i < |vs| && (vs[i].kind != Dict || vs[i].format != Inline);
      PropertyStatsRefused(cfg, vs, cells, i);
      return None;
    }
    var cols := GatherPropertyColumns(cfg.dontJustifyNumbers, cells);
    var ordered := SortByAverage(cols);
    PropertyStatsEligible(cfg, vs, cells);
    if |ordered| == 0 {
      return None;
    }
    if 100 * Sum(Counts(ordered)) < cfg.tableDictMinimumSimilarity * (|ordered| * |vs|) {
      return None;
    }
    if DictTableWidth(cfg, ordered) > cfg.maxInlineLength {
      return None;
    }
    return Some(ordered);
  }

  /** The loops of get_property_stats: every member of every row, row by
      row, into the column of its name. */
  method GatherPropertyColumns(dontJustify: bool, cells: seq<seq<View>>) returns (cols: seq<Stats>)
    ensures cols == Accumulate(dontJustify, Flatten(cells))
  {
    var props: map<string, ColumnStats> := map[];
    var order: seq<ColumnStats> := [];
    assert cells[..0] == [];
    var i := 0;
    while i < |cells|
      invariant 0 <= i <= |cells|
      invariant Gathered(props, order, Accumulate(dontJustify, Flatten(cells[..i])))
      invariant forall k :: 0 <= k < |order| ==> fresh(order[k])
    {
      FlattenSnoc(cells, i);
      props, order := AddRowMembers(dontJustify, props, order, cells[i], Flatten(cells[..i]));
      i := i + 1;
    }
    assert cells[..|cells|] == cells;
    cols := Snapshots(order);
  }

  /** The padding loop of format_list_table_row: blanks for the columns
      from `lo` on, which the row lacks. */
  method RowPad(cfg: Config, cols: seq<Stats>, lo: nat) returns (pad: string)
    requires lo <= |cols|
    ensures pad == RowPadding(cfg, cols, lo, |cols|)
  {
    pad := "";
    var i := lo;
    while i < |cols|
      invariant lo <= i <= |cols|
      invariant pad == RowPadding(cfg, cols, lo, i)
    {
      var padSize := MaxValueSize(cols[i]) + (if i == 0 then 0 else |cfg.paddedCommaStr|);
      pad := pad + Fill(' ', padSize);
      i := i + 1;
    }
  }

  /** format_list_table_row: the row's items (whose fields are `cs`)
      padded to their columns, then blanks for the columns it lacks,
      recorded at the table's width. */
  method FormatListTableRow(cfg: Config, row: FormattedNode, cs: seq<View>, cols: seq<Stats>)
    requires |cs| <= |cols|
    modifies row`value, row`valueLength, row`format
    ensures row.Snapshot() == old(row.Snapshot()).(value := ListRowText(cfg, cs, cols),
                                                   valueLength := ListTableWidth(cfg, cols),
                                                   format := InlineTabular)
  {
    var cells := JoinTexts(RowCells(cs, cols), cfg.paddedCommaStr);
    var pad := RowPad(cfg, cols, |cs|);
    row.value := "[ " + cells + pad + " ]";
    row.valueLength := ListTableWidth(cfg, cols);
    row.format := InlineTabular;
  }

  /** The first loop of format_dict_table_row: one segment per column and
      the last column the row has. */
  method DictRowSegments(cfg: Config, cs: seq<View>, cols: seq<Stats>) returns (segs: seq<string>, highest: int)
    ensures segs == DictSegments(cfg, cs, cols)
    ensures highest == HighestPresent(cs, cols, |cols|)
  {
    segs := [];
    highest := -1;
    var j := 0;
    while j < |cols|
      invariant 0 <= j <= |cols|
      invariant segs == DictSegments(cfg, cs, cols)[..j]
      invariant highest == HighestPresent(cs, cols, j)
    {
      var segment, present := Segment(cfg, cs, cols[j]);
      TakeSnoc(DictSegments(cfg, cs, cols), j);
      segs := segs + [segment];
      if present {
        highest := j;
      }
      j := j + 1;
    }
    assert DictSegments(cfg, cs, cols)[..j] == DictSegments(cfg, cs, cols);
  }

  /** One column's segment of a dict row: the name, colon and justified
      value when the row has the property, blanks of that width when not. */
  method Segment(cfg: Config, cs: seq<View>, col: Stats) returns (segment: string, present: bool)
    ensures segment == DictSegment(cfg, cs, col)
    ensures present == FindProp(cs, col.propName).Some?
  {
    match FindProp(cs, col.propName) {
      case None =>
        segment := Fill(' ', col.propNameLength + |cfg.paddedColonStr| + MaxValueSize(col));
        present := false;
      case Some(p) =>
        segment := col.propName + cfg.paddedColonStr + FormatValue(col, p.value, p.valueLength);
        present := true;
    }
  }

  /** The second loop of format_dict_table_row: a comma before a segment
      when the previous one was not blank and a later column is present,
      blanks of the comma's width otherwise. */
  method AssembleSegments(cfg: Config, segs: seq<string>, highest: int) returns (text: string)
    ensures text == AssembleRow(cfg, segs, highest, |segs|).text
  {
    text := "";
    var firstElem := true;
    var needsComma := false;
    var i := 0;
    while i < |segs|
      invariant 0 <= i <= |segs|
      invariant firstElem == (i == 0)
      invariant text == AssembleRow(cfg, segs, highest, i).text
      invariant needsComma == AssembleRow(cfg, segs, highest, i).needsComma
    {
      if needsComma && i <= highest {
        text := text + cfg.paddedCommaStr;
      } else if !firstElem {
        text := text + Fill(' ', |cfg.paddedCommaStr|);
      }
      text := text + segs[i];
      needsComma := !IsBlank(segs[i]);
      firstElem := false;
      i := i + 1;
    }
  }

  /** format_dict_table_row: each column's segment in the columns' order,
      taken from the row's members (whose fields are `cs`), joined by
      AssembleSegments. The width is set by the caller. */
  method FormatDictTableRow(cfg: Config, row: FormattedNode, cs: seq<View>, cols: seq<Stats>)
    modifies row`value, row`format
    ensures row.Snapshot() == old(row.Snapshot()).(value := DictRowText(cfg, cs, cols), format := InlineTabular)
  {
    var segs, highest := DictRowSegments(cfg, cs, cols);
    var text := AssembleSegments(cfg, segs, highest);
    row.value := "{ " + text + " }";
    row.format := InlineTabular;
  }

  /** `[ColumnStats(dont_justify) for x in range(n)]`. */
  method NewColumns(dontJustify: bool, n: nat) returns (stats: seq<ColumnStats>)
    ensures |stats| == n
    ensures forall k :: 0 <= k < n ==> fresh(stats[k]) && stats[k].Snapshot() == NewStats(dontJustify)
    ensures forall k, l :: 0 <= k < l < n ==> stats[k] != stats[l]
  {
    stats := [];
    while |stats| < n
      invariant |stats| <= n
      invariant forall k :: 0 <= k < |stats| ==> fresh(stats[k]) && stats[k].Snapshot() == NewStats(dontJustify)
      invariant forall k, l :: 0 <= k < l < |stats| ==> stats[k] != stats[l]
    {
      var c := new ColumnStats(dontJustify);
      stats := stats + [c];
    }
  }

  /** The inner loop of get_list_stats: the row's k-th item goes to
      column k; the other columns are left alone. */
  method AddRow(stats: seq<ColumnStats>, row: FormattedNode)
    requires |row.children| <= |stats|
    requires forall k, l :: 0 <= k < l < |stats| ==> stats[k] != stats[l]
    modifies stats
    ensures Snapshots(stats) == AddedRow(old(Snapshots(stats)), old(Views(row.children)))
  {
    var k := 0;
    while k < |row.children|
      invariant 0 <= k <= |row.children|
      invariant forall q :: 0 <= q < |stats| ==>
        stats[q].Snapshot() ==
          if q < k then Updated(old(stats[q].Snapshot()), row.children[q].Snapshot(), q)
          else old(stats[q].Snapshot())
    {
      stats[k].Update(row.children[k].Snapshot(), k);
      k := k + 1;
    }
  }

  /** The column pass of get_list_stats: n fresh columns, then every
      row's k-th item added to column k, row by row. */
  method GatherListColumns(dontJustify: bool, rows: seq<FormattedNode>, n: nat) returns (cols: seq<Stats>)
    requires forall i :: 0 <= i < |rows| ==> |rows[i].children| <= n
    ensures cols == ListColumns(dontJustify, old(ChildViews(rows)), n)
  {
    ghost var cells := ChildViews(rows);
    var stats := NewColumns(dontJustify, n);
    assert cells[..0] == [];
    assert Snapshots(stats) == ListColumns(dontJustify, cells[..0], n);
    var i := 0;
    while i < |rows|
      invariant 0 <= i <= |rows|
      invariant forall k :: 0 <= k < n ==> fresh(stats[k])
      invariant Snapshots(stats) == ListColumns(dontJustify, cells[..i], n)
    {
      AddRow(stats, rows[i]);
      ListColumnsStep(dontJustify, cells, i, n);
      i := i + 1;
    }
    assert cells[..|rows|] == cells;
    cols := Snapshots(stats);
  }

  /** get_list_stats: refuses fewer than two rows or a row that is not an
      inline list; otherwise one column per position up to the longest
      row, then the similarity and width tests. */
  method GetListStats(cfg: Config, item: FormattedNode) returns (r: Option<seq<Stats>>)
    ensures r == ListStats(cfg, old(Views(item.children)), old(ChildViews(item.children)))
  {
    var rows := item.children;
    var cells := ChildViews(rows);
    ListStatsGate(cfg, Views(rows), cells);
    if |rows| < 2 {
      return None;
    }
    if exists i | 0 <= i < |rows| :: rows[i].kind != List || rows[i].format != Inline {
      return None;
    }
    var m := ColumnCount(cells);
    var cols := GatherListColumns(cfg.dontJustifyNumbers, rows, m);
    if m == 0 {
      return None;
    }
    if 100 * Sum(Lengths(cells)) < cfg.tableListMinimumSimilarity * (|rows| * m) {
      return None;
    }
    if ListTableWidth(cfg, cols) > cfg.maxInlineLength {
      return None;
    }
    return Some(cols);
  }

  // ---------------------------------------------------------------------
  // The four table strategies.

  /** The row loop of format_table_list_dict and format_table_dict_dict:
      every row rewritten by format_dict_table_row from its members'
      fields `cells`, and recorded at the table's width. */
  method WriteDictRows(cfg: Config, rows: seq<FormattedNode>, cells: seq<seq<View>>, cols: seq<Stats>,
                       ghost cs: seq<View>)
    requires forall i, j :: 0 <= i < j < |rows| ==> rows[i] != rows[j]
    requires |cells| == |rows| && Views(rows) == cs
    modifies rows`value, rows`valueLength, rows`format
    ensures Views(rows) == DictRows(cfg, cs, cells, cols)
  {
    ghost var target := DictRows(cfg, cs, cells, cols);
    ghost var done: seq<View> := [];
    var i := 0;
    while i < |rows|
      invariant 0 <= i <= |rows|
      invariant done == target[..i]
      invariant forall j :: 0 <= j < i ==> rows[j].Snapshot() == done[j]
      invariant forall j :: i <= j < |rows| ==> rows[j].Snapshot() == cs[j]
    {
      WriteDictRow(cfg, rows[i], cells[i], cols);
      TakeSnoc(target, i);
      done := done + [rows[i].Snapshot()];
      i := i + 1;
    }
    assert target[..|rows|] == target;
    ViewsOf(rows, target);
  }

  /** One row of that loop: the row text, then the table's width. */
  method WriteDictRow(cfg: Config, row: FormattedNode, cs: seq<View>, cols: seq<Stats>)
    modifies row`value, row`valueLength, row`format
    ensures row.Snapshot() == old(row.Snapshot()).(value := DictRowText(cfg, cs, cols),
                                                   valueLength := DictTableWidth(cfg, cols),
                                                   format := InlineTabular)
  {
    FormatDictTableRow(cfg, row, cs, cols);
    row.valueLength := DictTableWidth(cfg, cols);
  }

  /** The row loop of format_table_list_list and format_table_dict_list:
      every row rewritten by format_list_table_row from its items' fields
      `cells`; the table's width is recorded again, unchanged. */
  method WriteListRows(cfg: Config, rows: seq<FormattedNode>, cells: seq<seq<View>>, cols: seq<Stats>,
                       ghost cs: seq<View>)
    requires forall i, j :: 0 <= i < j < |rows| ==> rows[i] != rows[j]
    requires |cells| == |rows| && Views(rows) == cs
    requires forall i :: 0 <= i < |cells| ==> |cells[i]| <= |cols|
    modifies rows`value, rows`valueLength, rows`format
    ensures Views(rows) == ListRows(cfg, cs, cells, cols)
  {
    ghost var target := ListRows(cfg, cs, cells, cols);
    ghost var done: seq<View> := [];
    var i := 0;
    while i < |rows|
      invariant 0 <= i <= |rows|
      invariant done == target[..i]
      invariant forall j :: 0 <= j < i ==> rows[j].Snapshot() == done[j]
      invariant forall j :: i <= j < |rows| ==> rows[j].Snapshot() == cs[j]
    {
      FormatListTableRow(cfg, rows[i], cells[i], cols);
      rows[i].valueLength := ListTableWidth(cfg, cols);
      TakeSnoc(target, i);
      done := done + [rows[i].Snapshot()];
      i := i + 1;
    }
    assert target[..|rows|] == target;
    ViewsOf(rows, target);
  }

  /** The tail of the list table strategies: over the rewritten rows,
      multiline compact when its gate passes, else expanded. */
  method FinishList(cfg: Config, item: FormattedNode, ghost rows: seq<View>)
    requires item !in item.children
    requires Views(item.children) == rows
    modifies item`value, item`format
    ensures item.Snapshot() == ListFinish(cfg, old(item.Snapshot()), rows)
    ensures Views(item.children) == rows
  {
    var compact := FormatListMultilineCompact(cfg, item);
    if !compact {
      FormatListExpanded(cfg, item);
    }
  }

  /** The tail of format_dict: multiline compact, else expanded, names
      forced to one width when `force`. */
  method FinishDict(cfg: Config, item: FormattedNode, ghost rows: seq<View>, force: bool)
    requires item !in item.children
    requires forall i, j :: 0 <= i < j < |item.children| ==> item.children[i] != item.children[j]
    requires Views(item.children) == rows
    modifies item`value, item`format, item.children`nameLength
    ensures item.Snapshot() == DictFinish(cfg, old(item.Snapshot()), rows, force)
  {
    var compact := FormatDictMultilineCompact(cfg, item, force);
    if !compact {
      FormatDictExpanded(cfg, item, force);
    }
  }

  /** The row half of the dict-table strategy: get_property_stats and,
      when it accepts, every row rewritten as a dict table row. */
  method WriteDictTable(cfg: Config, item: FormattedNode, ghost cs: seq<View>, ghost cells: seq<seq<View>>)
    returns (ok: bool)
    requires item !in item.children
    requires forall i, j :: 0 <= i < j < |item.children| ==> item.children[i] != item.children[j]
    requires Views(item.children) == cs && ChildViews(item.children) == cells
    modifies item.children`value, item.children`valueLength, item.children`format
    ensures ok == DictTable(cfg, cs, cells).Some?
    ensures ok ==> Views(item.children) == DictTable(cfg, cs, cells).value
    ensures !ok ==> Views(item.children) == cs
  {
    if cfg.tableDictMinimumSimilarity > 100 {
      return false;
    }
    var cc := ChildViews(item.children);
    var stats := GetPropertyStats(cfg, item);
    if stats.None? {
      return false;
    }
    assert DictTable(cfg, cs, cells) == Some(DictRows(cfg, cs, cells, stats.value));
    WriteDictRows(cfg, item.children, cc, stats.value, cs);
    return true;
  }

  /** The row half of the list-table strategy, with get_list_stats. */
  method WriteListTable(cfg: Config, item: FormattedNode, ghost cs: seq<View>, ghost cells: seq<seq<View>>)
    returns (ok: bool)
    requires item !in item.children
    requires forall i, j :: 0 <= i < j < |item.children| ==> item.children[i] != item.children[j]
    requires Views(item.children) == cs && ChildViews(item.children) == cells
    modifies item.children`value, item.children`valueLength, item.children`format
    ensures ok == ListTable(cfg, cs, cells).Some?
    ensures ok ==> Views(item.children) == ListTable(cfg, cs, cells).value
    ensures !ok ==> Views(item.children) == cs
  {
    if cfg.tableListMinimumSimilarity > 100 {
      return false;
    }
    var cc := ChildViews(item.children);
    var stats := GetListStats(cfg, item);
    if stats.None? {
      return false;
    }
    ListTableRows(cfg, cs, cells);
    WriteListRows(cfg, item.children, cc, stats.value, cs);
    return true;
  }

  /** format_table_list_dict: dict table rows, then the list laid out over
      them; success whichever of the two layouts it used. */
  method FormatTableListDict(cfg: Config, item: FormattedNode, ghost cs: seq<View>, ghost cells: seq<seq<View>>)
    returns (ok: bool)
    requires item !in item.children
    requires forall i, j :: 0 <= i < j < |item.children| ==> item.children[i] != item.children[j]
    requires Views(item.children) == cs && ChildViews(item.children) == cells
    modifies item`value, item`format, item.children`value, item.children`valueLength, item.children`format
    ensures ok == DictTable(cfg, cs, cells).Some?
    ensures ok ==> Views(item.children) == DictTable(cfg, cs, cells).value &&
                   item.Snapshot() == ListFinish(cfg, old(item.Snapshot()), DictTable(cfg, cs, cells).value)
    ensures !ok ==> Views(item.children) == cs && item.Snapshot() == old(item.Snapshot())
  {
    ok := WriteDictTable(cfg, item, cs, cells);
    if ok {
      FinishList(cfg, item, DictTable(cfg, cs, cells).value);
    }
  }

  /** format_table_list_list: the same with list table rows. */
  method FormatTableListList(cfg: Config, item: FormattedNode, ghost cs: seq<View>, ghost cells: seq<seq<View>>)
    returns (ok: bool)
    requires item !in item.children
    requires forall i, j :: 0 <= i < j < |item.children| ==> item.children[i] != item.children[j]
    requires Views(item.children) == cs && ChildViews(item.children) == cells
    modifies item`value, item`format, item.children`value, item.children`valueLength, item.children`format
    ensures ok == ListTable(cfg, cs, cells).Some?
    ensures ok ==> Views(item.children) == ListTable(cfg, cs, cells).value &&
                   item.Snapshot() == ListFinish(cfg, old(item.Snapshot()), ListTable(cfg, cs, cells).value)
    ensures !ok ==> Views(item.children) == cs && item.Snapshot() == old(item.Snapshot())
  {
    ok := WriteListTable(cfg, item, cs, cells);
    if ok {
      FinishList(cfg, item, ListTable(cfg, cs, cells).value);
    }
  }

  /** format_table_dict_dict: dict table rows, then the dict laid out with
      its names forced to one width. */
  method FormatTableDictDict(cfg: Config, item: FormattedNode, ghost cs: seq<View>, ghost cells: seq<seq<View>>)
    returns (ok: bool)
    requires item !in item.children
    requires forall i, j :: 0 <= i < j < |item.children| ==> item.children[i] != item.children[j]
    requires Views(item.children) == cs && ChildViews(item.children) == cells
    modifies item`value, item`format, item.children`value, item.children`valueLength, item.children`format,
             item.children`nameLength
    ensures ok == DictTable(cfg, cs, cells).Some?
    ensures ok ==> item.Snapshot() == DictFinish(cfg, old(item.Snapshot()), DictTable(cfg, cs, cells).value, true)
    ensures !ok ==> Views(item.children) == cs && item.Snapshot() == old(item.Snapshot())
  {
    ok := WriteDictTable(cfg, item, cs, cells);
    assert item.Snapshot() == old(item.Snapshot());
    if ok {
      FinishDict(cfg, item, DictTable(cfg, cs, cells).value, true);
    }
  }

  /** format_table_dict_list: list table rows, then the dict laid out with
      its names forced to one width. */
  method FormatTableDictList(cfg: Config, item: FormattedNode, ghost cs: seq<View>, ghost cells: seq<seq<View>>)
    returns (ok: bool)
    requires item !in item.children
    requires forall i, j :: 0 <= i < j < |item.children| ==> item.children[i] != item.children[j]
    requires Views(item.children) == cs && ChildViews(item.children) == cells
    modifies item`value, item`format, item.children`value, item.children`valueLength, item.children`format,
             item.children`nameLength
    ensures ok == ListTable(cfg, cs, cells).Some?
    ensures ok ==> item.Snapshot() == DictFinish(cfg, old(item.Snapshot()), ListTable(cfg, cs, cells).value, true)
    ensures !ok ==> Views(item.children) == cs && item.Snapshot() == old(item.Snapshot())
  {
    ok := WriteListTable(cfg, item, cs, cells);
    assert item.Snapshot() == old(item.Snapshot());
    if ok {
      FinishDict(cfg, item, ListTable(cfg, cs, cells).value, true);
    }
  }
}
