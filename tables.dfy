/** Table detection and number justification as functions of the children's
    snapshots: the column statistics `justify_parallel_numbers`,
    `get_property_stats` and `get_list_stats` compute, the gates they
    apply, and the theorems that make the resulting rows line up. */
module Tables {
  import opened Text
  import opened Settings
  import opened Nodes
  import opened Columns
  import opened Layout

  // ---------------------------------------------------------------------
  // Kind unification over a whole column.

  /** A column unifies to a number kind exactly when all its values are
      numbers. */
  lemma UnifiedNumeric(ks: seq<Kind>)
    requires ks != []
    ensures IsNumeric(UnifiedKind(ks)) <==> forall i :: 0 <= i < |ks| ==> IsNumeric(ks[i])
  {
    if forall i :: 0 <= i < |ks| ==> ks[i] == ks[0] {
      assert IsNumeric(ks[0]) ==> forall i :: 0 <= i < |ks| ==> IsNumeric(ks[i]);
    }
  }

  /** From an unused start, a column's widths are never negative. */
  lemma {:induction false} StatsOfNonNegative(s: Stats, es: seq<Entry>)
    requires s.maxValueSizeRaw >= 0 && s.charsBeforeDec >= 0 && s.charsAfterDec >= 0
    ensures StatsOf(s, es).maxValueSizeRaw >= 0
    ensures StatsOf(s, es).charsBeforeDec >= 0 && StatsOf(s, es).charsAfterDec >= 0
    ensures MaxValueSize(StatsOf(s, es)) >= 0
    decreases |es|
  {
    if es != [] {
      StatsOfNonNegative(s, es[..|es| - 1]);
    }
  }

  // ---------------------------------------------------------------------
  // justify_parallel_numbers

  function JustifyEntries(cs: seq<View>): (r: seq<Entry>)
    ensures |r| == |cs| && forall i :: 0 <= i < |cs| ==> r[i] == Entry(cs[i], 0)
  {
    seq(|cs|, i requires 0 <= i < |cs| => Entry(cs[i], 0))
  }

  /** The one column of statistics gathered over all siblings. */
  function SiblingStats(dontJustify: bool, cs: seq<View>): Stats {
    StatsOf(NewStats(dontJustify), JustifyEntries(cs))
  }

  /** The siblings after justify_parallel_numbers: when there are at least
      two, justification is on and the column is numeric, each value is
      rewritten by format_value and recorded at the column's width. */
  function Justified(cfg: Config, cs: seq<View>): (r: seq<View>)
    ensures |r| == |cs|
  {
    if |cs| < 2 || cfg.dontJustifyNumbers then cs
    else
      var s := SiblingStats(cfg.dontJustifyNumbers, cs);
      if !IsNumeric(s.kind) then cs
      else JustifiedBy(s, cs)
  }

  /** Each value rewritten by format_value for column s and recorded at
      the column's width. */
  function JustifiedBy(s: Stats, cs: seq<View>): (r: seq<View>)
    ensures |r| == |cs|
    ensures forall i :: 0 <= i < |cs| ==>
      r[i] == cs[i].(value := FormatValue(s, cs[i].value, cs[i].valueLength), valueLength := MaxValueSize(s))
  {
    seq(|cs|, i requires 0 <= i < |cs| =>
      cs[i].(value := FormatValue(s, cs[i].value, cs[i].valueLength), valueLength := MaxValueSize(s)))
  }

  /** Justification rewrites the siblings only when every one is a number;
      then each keeps everything but its text and width, all get the same
      width, and each text is exactly that wide. */
  lemma JustifiedSpec(cfg: Config, cs: seq<View>)
    requires forall i :: 0 <= i < |cs| ==> CellReady(cs[i])
    ensures Justified(cfg, cs) != cs ==>
      |cs| >= 2 && !cfg.dontJustifyNumbers && (forall i :: 0 <= i < |cs| ==> IsNumeric(cs[i].kind))
    ensures |cs| >= 2 && !cfg.dontJustifyNumbers && (forall i :: 0 <= i < |cs| ==> IsNumeric(cs[i].kind)) ==>
      forall i :: 0 <= i < |cs| ==>
        var r := Justified(cfg, cs)[i];
        r == cs[i].(value := r.value, valueLength := r.valueLength) &&
        r.valueLength == |r.value| && r.valueLength == Justified(cfg, cs)[0].valueLength
  {
    if |cs| >= 2 && !cfg.dontJustifyNumbers {
      var es := JustifyEntries(cs);
      var s := SiblingStats(cfg.dontJustifyNumbers, cs);
      StatsOfKind(NewStats(false), es);
      UnifiedNumeric(Kinds(es));
      assert (forall i :: 0 <= i < |cs| ==> IsNumeric(cs[i].kind)) <==> IsNumeric(s.kind) by {
        assert forall i :: 0 <= i < |cs| ==> Kinds(es)[i] == cs[i].kind;
      }
      if IsNumeric(s.kind) {
        forall i | 0 <= i < |cs|
          ensures |FormatValue(s, cs[i].value, cs[i].valueLength)| == MaxValueSize(s)
        {
          CellWidth(NewStats(false), es, i);
        }
      }
    }
  }

  // ---------------------------------------------------------------------
  // get_property_stats: one column per property name, in order of first
  // appearance, then ordered by average position.

  /** The members of one row, each with its position in the row. */
  function RowEntries(cells: seq<View>): (r: seq<Entry>)
    ensures |r| == |cells| && forall i :: 0 <= i < |cells| ==> r[i] == Entry(cells[i], i)
  {
    seq(|cells|, i requires 0 <= i < |cells| => Entry(cells[i], i))
  }

  /** The members of all rows, row by row, as the nested loop visits them. */
  function Flatten(rows: seq<seq<View>>): seq<Entry>
    decreases |rows|
  {
    if rows == [] then [] else Flatten(rows[..|rows| - 1]) + RowEntries(rows[|rows| - 1])
  }

  /** Position of the column with this property name, or |cols|. */
  function ColumnOf(cols: seq<Stats>, name: string): (k: nat)
    ensures k <= |cols|
    ensures k < |cols| ==> cols[k].propName == name
    ensures forall i :: 0 <= i < k ==> cols[i].propName != name
    decreases |cols|
  {
    if cols == [] then 0
    else if cols[0].propName == name then 0
    else 1 + ColumnOf(cols[1..], name)
  }

  /** A new column for the property of this member. */
  function Fresh(dontJustify: bool, v: View): Stats {
    NewStats(dontJustify).(propName := v.name, propNameLength := v.nameLength)
  }

  /** One member visited: its name's column is updated, or a column is
      made for a name not seen before and appended. */
  function AddEntry(dontJustify: bool, cols: seq<Stats>, e: Entry): (r: seq<Stats>)
    ensures |r| == |cols| || |r| == |cols| + 1
  {
    var k := ColumnOf(cols, e.node.name);
    if k < |cols| then cols[k := Updated(cols[k], e.node, e.index)]
    else cols + [Updated(Fresh(dontJustify, e.node), e.node, e.index)]
  }

  /** The `props` dict after visiting the given members: a column is made
      the first time a name appears and updated at every appearance. */
  function Accumulate(dontJustify: bool, es: seq<Entry>): seq<Stats>
    decreases |es|
  {
    if es == [] then []
    else AddEntry(dontJustify, Accumulate(dontJustify, es[..|es| - 1]), es[|es| - 1])
  }

  /** The members with this name, in visiting order. */
  function Named(es: seq<Entry>, name: string): (r: seq<Entry>)
    ensures |r| <= |es|
    decreases |es|
  {
    if es == [] then []
    else Named(es[..|es| - 1], name) + (if es[|es| - 1].node.name == name then [es[|es| - 1]] else [])
  }

  lemma {:induction false} NamedHasName(es: seq<Entry>, name: string)
    ensures forall q :: 0 <= q < |Named(es, name)| ==> Named(es, name)[q].node.name == name
    ensures forall q :: 0 <= q < |Named(es, name)| ==> Named(es, name)[q] in es
    decreases |es|
  {
    if es != [] {
      NamedHasName(es[..|es| - 1], name);
    }
  }

  lemma {:induction false} NamedEmpty(es: seq<Entry>, name: string)
    requires forall i :: 0 <= i < |es| ==> es[i].node.name != name
    ensures Named(es, name) == []
    decreases |es|
  {
    if es != [] {
      NamedEmpty(es[..|es| - 1], name);
    }
  }

  lemma {:induction false} NamedContains(es: seq<Entry>, i: nat)
    requires i < |es|
    ensures es[i] in Named(es, es[i].node.name)
    decreases |es|
  {
    var n := |es| - 1;
    if i < n {
      NamedContains(es[..n], i);
    }
  }

  /** StatsOf a sequence extended by one entry. */
  lemma StatsOfSnoc(s: Stats, es: seq<Entry>, e: Entry)
    ensures StatsOf(s, es + [e]) == Updated(StatsOf(s, es), e.node, e.index)
  {
    assert (es + [e])[..|es|] == es;
  }

  /** The column is the update-fold of exactly the members with its name,
      started from a column made for the first of them. */
  predicate ColumnIsFold(dontJustify: bool, es: seq<Entry>, col: Stats) {
    var named := Named(es, col.propName);
    named != [] && col == StatsOf(Fresh(dontJustify, named[0].node), named)
  }

  /** ColumnOf finds a name that is present. */
  lemma {:induction false} ColumnOfFinds(cols: seq<Stats>, j: nat)
    requires j < |cols|
    ensures ColumnOf(cols, cols[j].propName) <= j
    decreases j
  {
    if j > 0 && cols[0].propName != cols[j].propName {
      ColumnOfFinds(cols[1..], j - 1);
    }
  }

  lemma UpdatedKeepsName(s: Stats, v: View, index: int)
    ensures Updated(s, v, index).propName == s.propName
  {
  }

  /** ColumnOf looks only at the names. */
  lemma {:induction false} ColumnOfSameNames(a: seq<Stats>, b: seq<Stats>, name: string)
    requires |a| == |b| && forall j :: 0 <= j < |a| ==> a[j].propName == b[j].propName
    ensures ColumnOf(a, name) == ColumnOf(b, name)
    decreases |a|
  {
    if a != [] && a[0].propName != name {
      ColumnOfSameNames(a[1..], b[1..], name);
    }
  }

  /** ColumnOf after appending a column. */
  lemma {:induction false} ColumnOfSnoc(a: seq<Stats>, x: Stats, name: string)
    ensures ColumnOf(a + [x], name) ==
      if ColumnOf(a, name) < |a| then ColumnOf(a, name) else if x.propName == name then |a| else |a| + 1
    decreases |a|
  {
    if a != [] && a[0].propName != name {
      assert (a + [x])[1..] == a[1..] + [x];
      ColumnOfSnoc(a[1..], x, name);
    }
  }

  /** The `props` dict and the columns in its insertion order agree with
      the accumulated columns: a name is a key exactly when it has a
      column, and the key leads to that column's object. */
  ghost predicate Indexed<T>(props: map<string, T>, order: seq<T>, cols: seq<Stats>) {
    |order| == |cols| &&
    (forall name :: name in props <==> ColumnOf(cols, name) < |cols|) &&
    (forall name :: name in props ==> props[name] == order[ColumnOf(cols, name)])
  }

  /** A column appended for a name not seen before: the name becomes a key
      leading to the new object. */
  lemma IndexedSnoc<T>(props: map<string, T>, order: seq<T>, cols: seq<Stats>, x: Stats, o: T)
    requires Indexed(props, order, cols)
    requires ColumnOf(cols, x.propName) == |cols|
    ensures Indexed(props[x.propName := o], order + [o], cols + [x])
  {
    forall name ensures name in props[x.propName := o] <==> ColumnOf(cols + [x], name) < |cols + [x]| {
      ColumnOfSnoc(cols, x, name);
    }
    forall name | name in props[x.propName := o]
      ensures props[x.propName := o][name] == (order + [o])[ColumnOf(cols + [x], name)]
    {
      ColumnOfSnoc(cols, x, name);
    }
  }

  /** A column updated under its own name: the index is unchanged. */
  lemma IndexedUpdate<T>(props: map<string, T>, order: seq<T>, cols: seq<Stats>, k: nat, x: Stats)
    requires Indexed(props, order, cols)
    requires k < |cols| && x.propName == cols[k].propName
    ensures Indexed(props, order, cols[k := x])
  {
    forall name ensures ColumnOf(cols[k := x], name) == ColumnOf(cols, name) {
      ColumnOfSameNames(cols[k := x], cols, name);
    }
  }

  lemma AccumulateSnoc(dontJustify: bool, es: seq<Entry>, e: Entry)
    ensures Accumulate(dontJustify, es + [e]) == AddEntry(dontJustify, Accumulate(dontJustify, es), e)
  {
    assert (es + [e])[..|es|] == es;
  }

  lemma FlattenSnoc(rows: seq<seq<View>>, i: nat)
    requires i < |rows|
    ensures Flatten(rows[..i + 1]) == Flatten(rows[..i]) + RowEntries(rows[i])
  {
    assert rows[..i + 1][..i] == rows[..i];
  }

  /** One step of the `props` loop, as far as names go. */
  lemma AccumulateStep(dontJustify: bool, es: seq<Entry>)
    requires es != []
    ensures var prev := Accumulate(dontJustify, es[..|es| - 1]);
      var cols := Accumulate(dontJustify, es);
      var t := es[|es| - 1].node.name;
      (forall j :: 0 <= j < |prev| ==> cols[j].propName == prev[j].propName) &&
      (ColumnOf(prev, t) < |prev| ==> |cols| == |prev|) &&
      (ColumnOf(prev, t) == |prev| ==> |cols| == |prev| + 1 && cols[|prev|].propName == t)
  {
    var prev := Accumulate(dontJustify, es[..|es| - 1]);
    var e := es[|es| - 1];
    var k := ColumnOf(prev, e.node.name);
    if k < |prev| {
      UpdatedKeepsName(prev[k], e.node, e.index);
    } else {
      UpdatedKeepsName(Fresh(dontJustify, e.node), e.node, e.index);
    }
  }

  /** No two columns share a property name. */
  predicate DistinctNames(cols: seq<Stats>) {
    forall p, q :: 0 <= p < q < |cols| ==> cols[p].propName != cols[q].propName
  }

  /** Every visited member's name has a column. */
  predicate CoversNames(cols: seq<Stats>, es: seq<Entry>) {
    forall i :: 0 <= i < |es| ==> ColumnOf(cols, es[i].node.name) < |cols|
  }

  lemma {:induction false} AccumulateDistinct(dontJustify: bool, es: seq<Entry>)
    ensures DistinctNames(Accumulate(dontJustify, es))
    decreases |es|
  {
    if es != [] {
      var n := |es| - 1;
      AccumulateDistinct(dontJustify, es[..n]);
      var prev := Accumulate(dontJustify, es[..n]);
      var e := es[n];
      var k := ColumnOf(prev, e.node.name);
      var cols := Accumulate(dontJustify, es);
      assert cols == AddEntry(dontJustify, prev, e);
      if k < |prev| {
        UpdatedKeepsName(prev[k], e.node, e.index);
        assert |cols| == |prev| && forall j :: 0 <= j < |cols| ==> cols[j].propName == prev[j].propName;
      } else {
        UpdatedKeepsName(Fresh(dontJustify, e.node), e.node, e.index);
        assert cols == prev + [Updated(Fresh(dontJustify, e.node), e.node, e.index)];
      }
    }
  }

  lemma {:induction false} AccumulateCovers(dontJustify: bool, es: seq<Entry>)
    ensures CoversNames(Accumulate(dontJustify, es), es)
    decreases |es|
  {
    if es != [] {
      var n := |es| - 1;
      var pre := es[..n];
      AccumulateCovers(dontJustify, pre);
      var prev := Accumulate(dontJustify, pre);
      var e := es[n];
      var cols := Accumulate(dontJustify, es);
      assert cols == AddEntry(dontJustify, prev, e);
      var k := ColumnOf(prev, e.node.name);
      if k < |prev| {
        UpdatedKeepsName(prev[k], e.node, e.index);
        forall i | 0 <= i < |es| ensures ColumnOf(cols, es[i].node.name) < |cols| {
          ColumnOfSameNames(prev, cols, es[i].node.name);
          if i < n {
            assert pre[i] == es[i];
          }
        }
      } else {
        var x := Updated(Fresh(dontJustify, e.node), e.node, e.index);
        UpdatedKeepsName(Fresh(dontJustify, e.node), e.node, e.index);
        forall i | 0 <= i < |es| ensures ColumnOf(cols, es[i].node.name) < |cols| {
          ColumnOfSnoc(prev, x, es[i].node.name);
          if i < n {
            assert pre[i] == es[i];
          }
        }
      }
    }
  }

  lemma AccumulateNames(dontJustify: bool, es: seq<Entry>)
    ensures var cols := Accumulate(dontJustify, es);
      (forall p, q :: 0 <= p < q < |cols| ==> cols[p].propName != cols[q].propName) &&
      (forall i :: 0 <= i < |es| ==> ColumnOf(cols, es[i].node.name) < |cols|)
  {
    AccumulateDistinct(dontJustify, es);
    AccumulateCovers(dontJustify, es);
  }

  /** The columns of the `props` dict: each is the fold of the members
      with its name. */
  lemma {:induction false} AccumulateFold(dontJustify: bool, es: seq<Entry>)
    ensures var cols := Accumulate(dontJustify, es);
      forall k :: 0 <= k < |cols| ==> ColumnIsFold(dontJustify, es, cols[k])
    decreases |es|
  {
    if es != [] {
      AccumulateFold(dontJustify, es[..|es| - 1]);
      AccumulateFoldStep(dontJustify, es);
    }
  }

  /** One member more keeps every column the fold of its members. */
  lemma AccumulateFoldStep(dontJustify: bool, es: seq<Entry>)
    requires es != []
    requires var pre := es[..|es| - 1]; var prev := Accumulate(dontJustify, pre);
      forall k :: 0 <= k < |prev| ==> ColumnIsFold(dontJustify, pre, prev[k])
    ensures var cols := Accumulate(dontJustify, es);
      forall k :: 0 <= k < |cols| ==> ColumnIsFold(dontJustify, es, cols[k])
  {
    var prev := Accumulate(dontJustify, es[..|es| - 1]);
    if ColumnOf(prev, es[|es| - 1].node.name) < |prev| {
      FoldStepSeen(dontJustify, es);
    } else {
      FoldStepNew(dontJustify, es);
    }
  }

  /** A column of another name keeps its members. */
  lemma FoldStepOther(dontJustify: bool, es: seq<Entry>, j: nat)
    requires es != []
    requires var pre := es[..|es| - 1]; var prev := Accumulate(dontJustify, pre);
      forall k :: 0 <= k < |prev| ==> ColumnIsFold(dontJustify, pre, prev[k])
    requires j < |Accumulate(dontJustify, es[..|es| - 1])|
    requires Accumulate(dontJustify, es[..|es| - 1])[j].propName != es[|es| - 1].node.name
    ensures ColumnIsFold(dontJustify, es, Accumulate(dontJustify, es[..|es| - 1])[j])
  {
    var pre := es[..|es| - 1];
    var prev := Accumulate(dontJustify, pre);
    assert Named(es, prev[j].propName) == Named(pre, prev[j].propName);
  }

  /** The step for a name already seen: its column takes the member. */
  lemma FoldStepSeen(dontJustify: bool, es: seq<Entry>)
    requires es != []
    requires var pre := es[..|es| - 1]; var prev := Accumulate(dontJustify, pre);
      forall k :: 0 <= k < |prev| ==> ColumnIsFold(dontJustify, pre, prev[k])
    requires ColumnOf(Accumulate(dontJustify, es[..|es| - 1]), es[|es| - 1].node.name) <
             |Accumulate(dontJustify, es[..|es| - 1])|
    ensures var cols := Accumulate(dontJustify, es);
      forall k :: 0 <= k < |cols| ==> ColumnIsFold(dontJustify, es, cols[k])
  {
    var n := |es| - 1;
    var pre := es[..n];
    AccumulateNames(dontJustify, pre);
    var prev := Accumulate(dontJustify, pre);
    var e := es[n];
    var t := e.node.name;
    var k := ColumnOf(prev, t);
    var cols := Accumulate(dontJustify, es);
    assert Named(es, t) == Named(pre, t) + [e];
    var named := Named(pre, t);
    StatsOfSnoc(Fresh(dontJustify, named[0].node), named, e);
    assert ColumnIsFold(dontJustify, es, cols[k]);
    forall j | 0 <= j < |cols| ensures ColumnIsFold(dontJustify, es, cols[j]) {
      if j != k {
        assert prev[j].propName != prev[k].propName;
        FoldStepOther(dontJustify, es, j);
      }
    }
  }

  /** The step for a new name: a fresh column for it at the end. */
  lemma FoldStepNew(dontJustify: bool, es: seq<Entry>)
    requires es != []
    requires var pre := es[..|es| - 1]; var prev := Accumulate(dontJustify, pre);
      forall k :: 0 <= k < |prev| ==> ColumnIsFold(dontJustify, pre, prev[k])
    requires ColumnOf(Accumulate(dontJustify, es[..|es| - 1]), es[|es| - 1].node.name) >=
             |Accumulate(dontJustify, es[..|es| - 1])|
    ensures var cols := Accumulate(dontJustify, es);
      forall k :: 0 <= k < |cols| ==> ColumnIsFold(dontJustify, es, cols[k])
  {
    var n := |es| - 1;
    var pre := es[..n];
    AccumulateNames(dontJustify, pre);
    var prev := Accumulate(dontJustify, pre);
    var e := es[n];
    var t := e.node.name;
    var cols := Accumulate(dontJustify, es);
    forall i | 0 <= i < n ensures pre[i].node.name != t {
      assert ColumnOf(prev, pre[i].node.name) < |prev|;
    }
    NamedEmpty(pre, t);
    assert Named(es, t) == [e];
    StatsOfSnoc(Fresh(dontJustify, e.node), [], e);
    assert ColumnIsFold(dontJustify, es, cols[|prev|]);
    forall j | 0 <= j < |prev| ensures ColumnIsFold(dontJustify, es, cols[j]) {
      ColumnOfFinds(prev, j);
      FoldStepOther(dontJustify, es, j);
    }
  }

  // Ordering by average index: `order_sum / count`, compared exactly.

  /** a's average position is strictly lower than b's (counts positive). */
  predicate AverageBefore(a: Stats, b: Stats) {
    a.orderSum * b.count < b.orderSum * a.count
  }

  /** Insert x after every element whose average is not higher (this keeps
      equal averages in their original order, as `sorted` does). */
  function Insert(s: seq<Stats>, x: Stats): (r: seq<Stats>)
    ensures multiset(r) == multiset(s) + multiset{x}
    decreases |s|
  {
    if s == [] then [x]
    else if AverageBefore(x, s[0]) then [x] + s
    else
      assert s == [s[0]] + s[1..];
      [s[0]] + Insert(s[1..], x)
  }

  /** `sorted(props.values(), key=lambda x: x.order_sum / x.count)`. */
  function SortByAverage(cs: seq<Stats>): (r: seq<Stats>)
    ensures multiset(r) == multiset(cs)
    decreases |cs|
  {
    if cs == [] then []
    else
      assert cs == cs[..|cs| - 1] + [cs[|cs| - 1]];
      Insert(SortByAverage(cs[..|cs| - 1]), cs[|cs| - 1])
  }

  /** No element's average is lower than its predecessor's. */
  predicate SortedByAverage(s: seq<Stats>) {
    forall i :: 0 < i < |s| ==> !AverageBefore(s[i], s[i - 1])
  }

  lemma {:induction false} InsertSorted(s: seq<Stats>, x: Stats)
    requires SortedByAverage(s)
    ensures SortedByAverage(Insert(s, x))
    ensures Insert(s, x) != [] && (Insert(s, x)[0] == x || Insert(s, x)[0] == s[0])
    decreases |s|
  {
    if s != [] && !AverageBefore(x, s[0]) {
      InsertSorted(s[1..], x);
      var r := Insert(s[1..], x);
      assert Insert(s, x) == [s[0]] + r;
      if s[1..] != [] {
        assert !AverageBefore(s[1], s[0]);
      }
    }
  }

  /** The columns come out ordered by average position, and they are the
      same columns. */
  lemma {:induction false} SortByAverageSpec(cs: seq<Stats>)
    ensures SortedByAverage(SortByAverage(cs))
    ensures multiset(SortByAverage(cs)) == multiset(cs)
    decreases |cs|
  {
    if cs != [] {
      SortByAverageSpec(cs[..|cs| - 1]);
      InsertSorted(SortByAverage(cs[..|cs| - 1]), cs[|cs| - 1]);
    }
  }

  /** Sum of the columns' counts: the number of members visited. */
  function Counts(cols: seq<Stats>): (r: seq<int>)
    ensures |r| == |cols| && forall i :: 0 <= i < |cols| ==> r[i] == cols[i].count
  {
    seq(|cols|, i requires 0 <= i < |cols| => cols[i].count)
  }

  /** Every row is an inline dict. */
  predicate DictRowsEligible(rows: seq<View>) {
    forall i :: 0 <= i < |rows| ==> rows[i].kind == Dict && rows[i].format == Inline
  }

  /** `get_property_stats`, over the rows' snapshots and their members'.
      The score test `100 * total / (columns * rows) < threshold` is done
      exactly; with no columns at all the division fails and the result is
      None. */
  function PropertyStats(cfg: Config, rows: seq<View>, cells: seq<seq<View>>): Option<seq<Stats>> {
    if |rows| < 2 then None
    else if !DictRowsEligible(rows) then None
    else
      var cols := SortByAverage(Accumulate(cfg.dontJustifyNumbers, Flatten(cells)));
      if |cols| == 0 then None
      else if 100 * Sum(Counts(cols)) < cfg.tableDictMinimumSimilarity * (|cols| * |rows|) then None
      else if DictTableWidth(cfg, cols) > cfg.maxInlineLength then None
      else Some(cols)
  }

  /** A row that is not an inline dict refuses the table. */
  lemma PropertyStatsRefused(cfg: Config, rows: seq<View>, cells: seq<seq<View>>, i: nat)
    requires |rows| >= 2 && i < |rows|
    requires rows[i].kind != Dict || rows[i].format != Inline
    ensures PropertyStats(cfg, rows, cells) == None
  {
  }

  /** Once the rows are eligible, the result is decided by the sorted
      columns alone. */
  lemma PropertyStatsEligible(cfg: Config, rows: seq<View>, cells: seq<seq<View>>)
    requires |rows| >= 2 && DictRowsEligible(rows)
    ensures var cols := SortByAverage(Accumulate(cfg.dontJustifyNumbers, Flatten(cells)));
      PropertyStats(cfg, rows, cells) ==
        if |cols| == 0 then None
        else if 100 * Sum(Counts(cols)) < cfg.tableDictMinimumSimilarity * (|cols| * |rows|) then None
        else if DictTableWidth(cfg, cols) > cfg.maxInlineLength then None
        else Some(cols)
  {
  }

  /** The refusals of get_property_stats, both ways. */
  lemma PropertyStatsGate(cfg: Config, rows: seq<View>, cells: seq<seq<View>>)
    ensures PropertyStats(cfg, rows, cells).Some? <==>
      |rows| >= 2 && DictRowsEligible(rows) &&
      var cols := SortByAverage(Accumulate(cfg.dontJustifyNumbers, Flatten(cells)));
      |cols| > 0 &&
      100 * Sum(Counts(cols)) >= cfg.tableDictMinimumSimilarity * (|cols| * |rows|) &&
      DictTableWidth(cfg, cols) <= cfg.maxInlineLength
  {
  }

  lemma {:induction false} FlattenHas(rows: seq<seq<View>>, r: nat, j: nat)
    requires r < |rows| && j < |rows[r]|
    ensures Entry(rows[r][j], j) in Flatten(rows)
    decreases |rows|
  {
    var n := |rows| - 1;
    if r < n {
      FlattenHas(rows[..n], r, j);
      assert rows[..n][r] == rows[r];
    } else {
      assert RowEntries(rows[n])[j] == Entry(rows[r][j], j);
    }
  }

  lemma {:induction false} FlattenReady(rows: seq<seq<View>>)
    requires forall r, j :: 0 <= r < |rows| && 0 <= j < |rows[r]| ==> CellReady(rows[r][j])
    ensures forall e :: e in Flatten(rows) ==> CellReady(e.node)
    decreases |rows|
  {
    if rows != [] {
      var n := |rows| - 1;
      assert forall r, j :: 0 <= r < n && 0 <= j < |rows[..n][r]| ==> rows[..n][r][j] == rows[r][j];
      FlattenReady(rows[..n]);
    }
  }

  /** The names recorded for columns are those of their members. */
  lemma ColumnNameWidth(dontJustify: bool, es: seq<Entry>, col: Stats)
    requires ColumnIsFold(dontJustify, es, col)
    requires forall e :: e in es ==> e.node.nameLength == |e.node.name|
    ensures col.propNameLength == |col.propName|
    ensures Unused(Fresh(dontJustify, Named(es, col.propName)[0].node))
  {
    var named := Named(es, col.propName);
    NamedHasName(es, col.propName);
    StatsOfCounts(Fresh(dontJustify, named[0].node), named);
  }

  /** Every value of a column is as wide as the column, when the column is
      the fold of its members. */
  lemma ColumnCellWidth(dontJustify: bool, es: seq<Entry>, col: Stats, c: View, idx: int)
    requires ColumnIsFold(dontJustify, es, col)
    requires forall e :: e in es ==> CellReady(e.node) && e.node.nameLength == |e.node.name|
    requires Entry(c, idx) in es && c.name == col.propName
    ensures |FormatValue(col, c.value, c.valueLength)| == MaxValueSize(col)
    ensures MaxValueSize(col) >= 0
  {
    var named := Named(es, col.propName);
    NamedHasName(es, col.propName);
    ColumnNameWidth(dontJustify, es, col);
    var i :| 0 <= i < |es| && es[i] == Entry(c, idx);
    NamedContains(es, i);
    var q :| 0 <= q < |named| && named[q] == Entry(c, idx);
    CellWidth(Fresh(dontJustify, named[0].node), named, q);
    StatsOfNonNegative(Fresh(dontJustify, named[0].node), named);
  }

  /** Dict-row tables line up: when get_property_stats accepts the rows,
      every row format_dict_table_row writes is exactly the table's width,
      which fits max_inline_length. */
  lemma DictTableRowsFit(cfg: Config, rows: seq<View>, cells: seq<seq<View>>, r: nat)
    requires PropertyStats(cfg, rows, cells).Some?
    requires r < |cells|
    requires forall r, j :: 0 <= r < |cells| && 0 <= j < |cells[r]| ==> CellReady(cells[r][j]) && Measured(cells[r][j])
    ensures var cols := PropertyStats(cfg, rows, cells).value;
      |DictRowText(cfg, cells[r], cols)| == DictTableWidth(cfg, cols) <= cfg.maxInlineLength
  {
    var dj := cfg.dontJustifyNumbers;
    var es := Flatten(cells);
    var cols := PropertyStats(cfg, rows, cells).value;
    PropertyColumnsReady(cfg, rows, cells);
    FlattenReady(cells);
    FlattenMeasured(cells);
    forall j | 0 <= j < |cols| && FindProp(cells[r], cols[j].propName).Some?
      ensures |FormatValue(cols[j], FindProp(cells[r], cols[j].propName).value.value,
                           FindProp(cells[r], cols[j].propName).value.valueLength)| == MaxValueSize(cols[j])
    {
      var c := FindProp(cells[r], cols[j].propName).value;
      var idx :| 0 <= idx < |cells[r]| && cells[r][idx] == c;
      FlattenHas(cells, r, idx);
      ColumnCellWidth(dj, es, cols[j], c, idx);
    }
    DictRowWidth(cfg, cells[r], cols);
  }

  /** Each column get_property_stats returns is the fold of the entries
      with its name, and is ready to be rendered. */
  lemma PropertyColumnsReady(cfg: Config, rows: seq<View>, cells: seq<seq<View>>)
    requires PropertyStats(cfg, rows, cells).Some?
    requires forall r, j :: 0 <= r < |cells| && 0 <= j < |cells[r]| ==> CellReady(cells[r][j]) && Measured(cells[r][j])
    ensures var cols := PropertyStats(cfg, rows, cells).value;
      forall j :: 0 <= j < |cols| ==>
        ColumnIsFold(cfg.dontJustifyNumbers, Flatten(cells), cols[j]) && ColumnReady(cfg, cols[j])
  {
    var dj := cfg.dontJustifyNumbers;
    var es := Flatten(cells);
    var acc := Accumulate(dj, es);
    var cols := PropertyStats(cfg, rows, cells).value;
    AccumulateNames(dj, es);
    AccumulateFold(dj, es);
    SortByAverageSpec(acc);
    FlattenReady(cells);
    assert forall e :: e in es ==> e.node.nameLength == |e.node.name| by {
      FlattenMeasured(cells);
    }
    forall j | 0 <= j < |cols|
      ensures ColumnIsFold(dj, es, cols[j]) && ColumnReady(cfg, cols[j])
    {
      assert cols[j] in multiset(acc);
      var k :| 0 <= k < |acc| && acc[k] == cols[j];
      ColumnNameWidth(dj, es, cols[j]);
      StatsOfNonNegative(Fresh(dj, Named(es, cols[j].propName)[0].node), Named(es, cols[j].propName));
    }
  }

  lemma {:induction false} FlattenMeasured(rows: seq<seq<View>>)
    requires forall r, j :: 0 <= r < |rows| && 0 <= j < |rows[r]| ==> Measured(rows[r][j])
    ensures forall e :: e in Flatten(rows) ==> e.node.nameLength == |e.node.name|
    decreases |rows|
  {
    if rows != [] {
      var n := |rows| - 1;
      assert forall r, j :: 0 <= r < n && 0 <= j < |rows[..n][r]| ==> rows[..n][r][j] == rows[r][j];
      FlattenMeasured(rows[..n]);
    }
  }

  // ---------------------------------------------------------------------
  // get_list_stats: column j gathers the j-th item of every row long
  // enough to have one.

  /** Every row is an inline "list": kind LIST, which a string also has. */
  predicate ListRowsEligible(rows: seq<View>) {
    forall i :: 0 <= i < |rows| ==> rows[i].kind == List && rows[i].format == Inline
  }

  /** `number_of_columns`: the length of the longest row. */
  function ColumnCount(cells: seq<seq<View>>): (m: nat)
    ensures forall i :: 0 <= i < |cells| ==> |cells[i]| <= m
    ensures cells != [] ==> exists i :: 0 <= i < |cells| && |cells[i]| == m
  {
    var m := MaxOf(Lengths(cells));
    if cells == [] then 0
    else
      assert Lengths(cells)[0] >= 0;
      m
  }

  /** The items column j receives, row by row. */
  function ColumnEntries(cells: seq<seq<View>>, j: nat): seq<Entry>
    decreases |cells|
  {
    if cells == [] then []
    else
      var last := cells[|cells| - 1];
      ColumnEntries(cells[..|cells| - 1], j) + (if j < |last| then [Entry(last[j], j)] else [])
  }

  /** Adding one more row to column j's entries. */
  lemma ColumnEntriesSnoc(cells: seq<seq<View>>, i: nat, j: nat)
    requires i < |cells|
    ensures ColumnEntries(cells[..i + 1], j) ==
      ColumnEntries(cells[..i], j) + (if j < |cells[i]| then [Entry(cells[i][j], j)] else [])
  {
    assert cells[..i + 1][..i] == cells[..i];
  }

  function ListColumns(dontJustify: bool, cells: seq<seq<View>>, m: nat): (r: seq<Stats>)
    ensures |r| == m
    ensures forall j :: 0 <= j < m ==> r[j] == StatsOf(NewStats(dontJustify), ColumnEntries(cells, j))
  {
    seq(m, j requires 0 <= j < m => StatsOf(NewStats(dontJustify), ColumnEntries(cells, j)))
  }

  /** The columns after one more row: its k-th item added to column k. */
  function AddedRow(cols: seq<Stats>, row: seq<View>): (r: seq<Stats>)
    requires |row| <= |cols|
    ensures |r| == |cols|
    ensures forall q :: 0 <= q < |cols| ==> r[q] == if q < |row| then Updated(cols[q], row[q], q) else cols[q]
  {
    seq(|cols|, q requires 0 <= q < |cols| => if q < |row| then Updated(cols[q], row[q], q) else cols[q])
  }

  /** The columns of the first i + 1 rows are those of the first i with
      row i added. */
  lemma ListColumnsStep(dontJustify: bool, cells: seq<seq<View>>, i: nat, m: nat)
    requires i < |cells| && |cells[i]| <= m
    ensures ListColumns(dontJustify, cells[..i + 1], m) == AddedRow(ListColumns(dontJustify, cells[..i], m), cells[i])
  {
    forall q | 0 <= q < m
      ensures ListColumns(dontJustify, cells[..i + 1], m)[q] == AddedRow(ListColumns(dontJustify, cells[..i], m), cells[i])[q]
    {
      ColumnEntriesSnoc(cells, i, q);
      if q < |cells[i]| {
        StatsOfSnoc(NewStats(dontJustify), ColumnEntries(cells[..i], q), Entry(cells[i][q], q));
      } else {
        assert ColumnEntries(cells[..i + 1], q) == ColumnEntries(cells[..i], q);
      }
    }
  }

  /** `get_list_stats`, over the rows' snapshots and their items'. */
  function ListStats(cfg: Config, rows: seq<View>, cells: seq<seq<View>>): Option<seq<Stats>> {
    if |rows| < 2 then None
    else if !ListRowsEligible(rows) then None
    else
      var m := ColumnCount(cells);
      var cols := ListColumns(cfg.dontJustifyNumbers, cells, m);
      if m == 0 then None
      else if 100 * Sum(Lengths(cells)) < cfg.tableListMinimumSimilarity * (|rows| * m) then None
      else if ListTableWidth(cfg, cols) > cfg.maxInlineLength then None
      else Some(cols)
  }

  /** The refusals of get_list_stats, both ways. */
  lemma ListStatsGate(cfg: Config, rows: seq<View>, cells: seq<seq<View>>)
    ensures ListStats(cfg, rows, cells).Some? <==>
      |rows| >= 2 && ListRowsEligible(rows) && ColumnCount(cells) > 0 &&
      100 * Sum(Lengths(cells)) >= cfg.tableListMinimumSimilarity * (|rows| * ColumnCount(cells)) &&
      ListTableWidth(cfg, ListColumns(cfg.dontJustifyNumbers, cells, ColumnCount(cells))) <= cfg.maxInlineLength
  {
  }

  /** A list table has a column for every item of its longest row. */
  lemma ListStatsColumns(cfg: Config, rows: seq<View>, cells: seq<seq<View>>)
    requires ListStats(cfg, rows, cells).Some?
    ensures |ListStats(cfg, rows, cells).value| == ColumnCount(cells)
    ensures forall i :: 0 <= i < |cells| ==> |cells[i]| <= |ListStats(cfg, rows, cells).value|
  {
  }

  lemma {:induction false} ColumnEntriesHas(cells: seq<seq<View>>, r: nat, j: nat)
    requires r < |cells| && j < |cells[r]|
    ensures Entry(cells[r][j], j) in ColumnEntries(cells, j)
    decreases |cells|
  {
    var n := |cells| - 1;
    if r < n {
      ColumnEntriesHas(cells[..n], r, j);
      assert cells[..n][r] == cells[r];
    }
  }

  lemma {:induction false} ColumnEntriesReady(cells: seq<seq<View>>, j: nat)
    requires forall r, i :: 0 <= r < |cells| && 0 <= i < |cells[r]| ==> CellReady(cells[r][i])
    ensures forall q :: 0 <= q < |ColumnEntries(cells, j)| ==> CellReady(ColumnEntries(cells, j)[q].node)
    decreases |cells|
  {
    if cells != [] {
      var n := |cells| - 1;
      assert forall r, i :: 0 <= r < n && 0 <= i < |cells[..n][r]| ==> cells[..n][r][i] == cells[r][i];
      ColumnEntriesReady(cells[..n], j);
    }
  }

  /** List-row tables line up: when get_list_stats accepts the rows, every
      row has at most as many items as there are columns, and every row
      format_list_table_row writes is exactly the table's width, which fits
      max_inline_length. */
  lemma ListTableRowsFit(cfg: Config, rows: seq<View>, cells: seq<seq<View>>, r: nat)
    requires ListStats(cfg, rows, cells).Some?
    requires r < |cells|
    requires forall r, j :: 0 <= r < |cells| && 0 <= j < |cells[r]| ==> CellReady(cells[r][j])
    ensures var cols := ListStats(cfg, rows, cells).value;
      |cells[r]| <= |cols| &&
      |ListRowText(cfg, cells[r], cols)| == ListTableWidth(cfg, cols) <= cfg.maxInlineLength
  {
    var cols := ListStats(cfg, rows, cells).value;
    var m := ColumnCount(cells);
    forall j | 0 <= j < |cols|
      ensures MaxValueSize(cols[j]) >= 0
    {
      StatsOfNonNegative(NewStats(cfg.dontJustifyNumbers), ColumnEntries(cells, j));
    }
    forall j | 0 <= j < |cells[r]|
      ensures |RowCells(cells[r], cols)[j]| == MaxValueSize(cols[j])
    {
      ColumnEntriesHas(cells, r, j);
      ColumnEntriesReady(cells, j);
      var es := ColumnEntries(cells, j);
      var q :| 0 <= q < |es| && es[q] == Entry(cells[r][j], j);
      CellWidth(NewStats(cfg.dontJustifyNumbers), es, q);
    }
    ListRowWidth(cfg, cells[r], cols);
  }
}
