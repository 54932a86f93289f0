/** ColumnStats: per-column statistics for table layout and number
    justification, the fixed-precision rewrite of a number literal, and
    `format_value`, which pads one cell to its column's width. */
module Columns {
  import opened Text
  import opened Nodes

  /** The fields of a ColumnStats object at one moment. `maxValueSizeRaw`
      is the backing field `_max_value_size`; `MaxValueSize` is the
      property getter. */
  datatype Stats = Stats(
    dontJustify: bool,
    propName: string,
    propNameLength: int,
    orderSum: int,
    count: int,
    maxValueSizeRaw: int,
    kind: Kind,
    charsBeforeDec: int,
    charsAfterDec: int)

  /** `ColumnStats(dont_justify)`. */
  function NewStats(dontJustify: bool): Stats {
    Stats(dontJustify, "", 0, 0, 0, 0, Null, 0, 0)
  }

  /** A statistics record to which nothing has been added yet. */
  predicate Unused(s: Stats) {
    s.orderSum == 0 && s.count == 0 && s.maxValueSizeRaw == 0 && s.kind == Null &&
    s.charsBeforeDec == 0 && s.charsAfterDec == 0
  }

  /** How a column's kind absorbs one more value once it has a kind:
      INT and FLOAT unify to FLOAT, any other disagreement is UNDEFINED. */
  function CombineKinds(k: Kind, seen: Kind): Kind {
    if k == Float && seen == Int then Float
    else if k == Int && seen == Float then Float
    else if k != seen then Undefined
    else k
  }

  /** Digits before the decimal point that a value needs in its column. */
  function BeforeDigits(v: View): nat {
    if v.kind == Float then |WholePart(v.value)|
    else if v.kind == Int then |v.value|
    else 0
  }

  /** Digits after the decimal point that a value needs in its column. */
  function AfterDigits(v: View): nat {
    if v.kind == Float then |FracPart(v.value)| else 0
  }

  /** `update` with the column's new kind given, and with the width the
      `max_value_size` getter reports before the update: the assignment
      to `max_value_size` reads the getter, not the backing field. */
  function UpdatedWithKind(s: Stats, v: View, index: int, kind: Kind, width: int): Stats {
    Stats(s.dontJustify, s.propName, s.propNameLength,
          s.orderSum + index,
          s.count + 1,
          Max(width, v.valueLength),
          kind,
          if IsNumeric(v.kind) then Max(s.charsBeforeDec, BeforeDigits(v)) else s.charsBeforeDec,
          if v.kind == Float then Max(s.charsAfterDec, AfterDigits(v)) else s.charsAfterDec)
  }

  /** `update` as written: kind NULL is both the start value and the kind
      of a JSON null, so a null seen before any other value is forgotten. */
  function UpdatedAsWritten(s: Stats, v: View, index: int): Stats {
    UpdatedWithKind(s, v, index, if s.kind == Null then v.kind else CombineKinds(s.kind, v.kind),
                    MaxValueSizeAsWritten(s))
  }

  /** `update` as intended: the first value seen gives the column its kind. */
  function Updated(s: Stats, v: View, index: int): Stats {
    UpdatedWithKind(s, v, index, if s.count == 0 then v.kind else CombineKinds(s.kind, v.kind),
                    MaxValueSize(s))
  }

  /** The `max_value_size` getter as written: a FLOAT column always counts
      a decimal point, even one that no value has. */
  function MaxValueSizeAsWritten(s: Stats): int {
    if s.dontJustify then s.maxValueSizeRaw
    else if s.kind == Float then s.charsBeforeDec + s.charsAfterDec + 1
    else if s.kind == Int then s.charsBeforeDec
    else s.maxValueSizeRaw
  }

  /** Width of a justified number in a column: `total_length` of format_value. */
  function JustifiedWidth(s: Stats): int {
    s.charsBeforeDec + s.charsAfterDec + (if s.charsAfterDec > 0 then 1 else 0)
  }

  predicate IsNumeric(k: Kind) {
    k == Int || k == Float
  }

  /** The `max_value_size` getter as intended: for a numeric column, the
      width format_value pads its numbers to. */
  function MaxValueSize(s: Stats): (w: int)
    ensures !s.dontJustify && s.kind == Float ==> w == JustifiedWidth(s)
    ensures !s.dontJustify && s.kind == Int ==> w == s.charsBeforeDec
    ensures s.dontJustify || !IsNumeric(s.kind) ==> w == s.maxValueSizeRaw
  {
    if s.dontJustify then s.maxValueSizeRaw
    else if s.kind == Float then JustifiedWidth(s)
    else if s.kind == Int then s.charsBeforeDec
    else s.maxValueSizeRaw
  }

  /** `_fixed_value`: a literal with an exponent is returned unchanged;
      a plain decimal numeral is zero-extended to numDecimals fraction
      digits (Decimal.quantize on a value that already has no more digits
      than that); anything Decimal rejects (Infinity, NaN) falls back to
      the literal itself. */
  function FixedValue(value: string, numDecimals: int): string {
    if 'e' in value then value
    else if !IsDecimalNumeral(value) then value
    else
      var frac := FracPart(value);
      if numDecimals > 0 && numDecimals >= |frac| then
        WholePart(value) + "." + frac + Fill('0', numDecimals - |frac|)
      else value
  }

  /** What `_fixed_value` produces: the literal itself when it has an
      exponent or no digits are asked for; otherwise the literal followed
      by zeros (after a point it did not have) up to numDecimals fraction
      digits. */
  lemma FixedValueSpec(value: string, numDecimals: int)
    ensures 'e' in value ==> FixedValue(value, numDecimals) == value
    ensures numDecimals <= 0 ==> FixedValue(value, numDecimals) == value
    ensures 'e' !in value && IsDecimalNumeral(value) && numDecimals > 0 && '.' in value &&
            |FracPart(value)| <= numDecimals ==>
              |value| <= |FixedValue(value, numDecimals)| &&
              FixedValue(value, numDecimals)[..|value|] == value &&
              |FixedValue(value, numDecimals)| == |WholePart(value)| + 1 + numDecimals &&
              (forall i :: |value| <= i < |FixedValue(value, numDecimals)| ==> FixedValue(value, numDecimals)[i] == '0')
    ensures 'e' !in value && IsDecimalNumeral(value) && numDecimals > 0 && '.' !in value ==>
              |FixedValue(value, numDecimals)| == |value| + 1 + numDecimals &&
              FixedValue(value, numDecimals)[..|value|] == value && FixedValue(value, numDecimals)[|value|] == '.' &&
              (forall i :: |value| < i < |FixedValue(value, numDecimals)| ==> FixedValue(value, numDecimals)[i] == '0')
  {
    if 'e' !in value && IsDecimalNumeral(value) {
      SplitDotLength(value);
    }
  }

  /** `format_value`: a number in a numeric column (justification on) is
      brought to the column's precision and right-aligned to its width;
      any other value is left-aligned, spaces appended, so that its
      recorded width reaches the column's `max_value_size`. */
  function FormatValue(s: Stats, value: string, valueLength: int): string {
    if IsNumeric(s.kind) && !s.dontJustify then
      RJust(FixedValue(value, s.charsAfterDec), JustifiedWidth(s))
    else
      LJust(value, MaxValueSize(s) - (valueLength - |value|))
  }

  // ---------------------------------------------------------------------
  // A column's statistics are the updates of its values in order.

  datatype Entry = Entry(node: View, index: int)

  function StatsOf(s: Stats, es: seq<Entry>): Stats
    decreases |es|
  {
    if es == [] then s
    else
      var last := es[|es| - 1];
      Updated(StatsOf(s, es[..|es| - 1]), last.node, last.index)
  }

  function Indices(es: seq<Entry>): (r: seq<int>)
    ensures |r| == |es| && forall i :: 0 <= i < |es| ==> r[i] == es[i].index
  {
    seq(|es|, i requires 0 <= i < |es| => es[i].index)
  }

  function ValueLengths(es: seq<Entry>): (r: seq<int>)
    ensures |r| == |es| && forall i :: 0 <= i < |es| ==> r[i] == es[i].node.valueLength
  {
    seq(|es|, i requires 0 <= i < |es| => es[i].node.valueLength)
  }

  function Befores(es: seq<Entry>): (r: seq<int>)
    ensures |r| == |es| && forall i :: 0 <= i < |es| ==> r[i] == BeforeDigits(es[i].node)
  {
    seq(|es|, i requires 0 <= i < |es| => BeforeDigits(es[i].node))
  }

  function Afters(es: seq<Entry>): (r: seq<int>)
    ensures |r| == |es| && forall i :: 0 <= i < |es| ==> r[i] == AfterDigits(es[i].node)
  {
    seq(|es|, i requires 0 <= i < |es| => AfterDigits(es[i].node))
  }

  lemma PrefixMaps(es: seq<Entry>, n: nat)
    requires n <= |es|
    ensures Indices(es[..n]) == Indices(es)[..n]
    ensures ValueLengths(es[..n]) == ValueLengths(es)[..n]
    ensures Befores(es[..n]) == Befores(es)[..n]
    ensures Afters(es[..n]) == Afters(es)[..n]
  {
  }

  /** Counting: `count` is the number of values and `order_sum` the sum of
      their indices. */
  lemma {:induction false} StatsOfCounts(s: Stats, es: seq<Entry>)
    ensures StatsOf(s, es).count == s.count + |es|
    ensures StatsOf(s, es).orderSum == s.orderSum + Sum(Indices(es))
    ensures StatsOf(s, es).dontJustify == s.dontJustify
    ensures StatsOf(s, es).propName == s.propName
    ensures StatsOf(s, es).propNameLength == s.propNameLength
    decreases |es|
  {
    if es != [] {
      var n := |es| - 1;
      StatsOfCounts(s, es[..n]);
      PrefixMaps(es, n);
      assert Indices(es)[..n] == Indices(es[..n]);
    }
  }

  /** Running maxima of the digit counts: the most digits any value needs
      before and after the point (or the start values). */
  lemma StatsOfMaxima(s: Stats, es: seq<Entry>)
    requires s.charsBeforeDec >= 0 && s.charsAfterDec >= 0
    ensures StatsOf(s, es).charsBeforeDec == if es == [] then s.charsBeforeDec else Max(s.charsBeforeDec, MaxOf(Befores(es)))
    ensures StatsOf(s, es).charsAfterDec == if es == [] then s.charsAfterDec else Max(s.charsAfterDec, MaxOf(Afters(es)))
  {
    StatsOfBefore(s, es);
    StatsOfAfter(s, es);
  }

  lemma {:induction false} StatsOfBefore(s: Stats, es: seq<Entry>)
    requires s.charsBeforeDec >= 0
    ensures StatsOf(s, es).charsBeforeDec == if es == [] then s.charsBeforeDec else Max(s.charsBeforeDec, MaxOf(Befores(es)))
    decreases |es|
  {
    if es != [] {
      var n := |es| - 1;
      StatsOfBefore(s, es[..n]);
      PrefixMaps(es, n);
    }
  }

  lemma {:induction false} StatsOfAfter(s: Stats, es: seq<Entry>)
    requires s.charsAfterDec >= 0
    ensures StatsOf(s, es).charsAfterDec == if es == [] then s.charsAfterDec else Max(s.charsAfterDec, MaxOf(Afters(es)))
    decreases |es|
  {
    if es != [] {
      var n := |es| - 1;
      StatsOfAfter(s, es[..n]);
      PrefixMaps(es, n);
    }
  }

  /** Values whose recorded widths and literals are those `json.dumps`
      gives (see CellReady). */
  predicate ReadyEntries(es: seq<Entry>) {
    forall i :: 0 <= i < |es| ==> CellReady(es[i].node)
  }

  /** One `update` of a column whose backing field is within its getter:
      the getter never reports less afterwards, it covers the new value,
      and the backing field stays within it. */
  lemma UpdatedWithinGetter(s: Stats, v: View, index: int)
    requires s.charsBeforeDec >= 0 && s.charsAfterDec >= 0
    requires s.maxValueSizeRaw <= MaxValueSize(s)
    requires s.count == 0 ==> MaxValueSize(s) <= 0
    requires CellReady(v)
    ensures var t := Updated(s, v, index);
      MaxValueSize(s) <= MaxValueSize(t) && v.valueLength <= MaxValueSize(t) &&
      t.maxValueSizeRaw <= MaxValueSize(t)
  {
    var t := Updated(s, v, index);
    if !t.dontJustify && IsNumeric(t.kind) {
      SplitDotLength(v.value);
      if s.count != 0 {
        assert IsNumeric(s.kind) && IsNumeric(v.kind);
      }
    }
  }

  /** From an empty column over ready values, the backing field never
      exceeds what the getter reports. */
  lemma {:induction false} StatsOfWithinGetter(s: Stats, es: seq<Entry>)
    requires Unused(s) && ReadyEntries(es)
    ensures var t := StatsOf(s, es);
      t.maxValueSizeRaw <= MaxValueSize(t) && t.count == |es| &&
      t.charsBeforeDec >= 0 && t.charsAfterDec >= 0 && (t.count == 0 ==> MaxValueSize(t) <= 0)
    decreases |es|
  {
    if es != [] {
      var n := |es| - 1;
      assert ReadyEntries(es[..n]);
      StatsOfWithinGetter(s, es[..n]);
      UpdatedWithinGetter(StatsOf(s, es[..n]), es[n].node, es[n].index);
    }
  }

  /** The width the getter reports never decreases as values are added. */
  lemma {:induction false} GetterMonotone(s: Stats, es: seq<Entry>, n: nat)
    requires Unused(s) && ReadyEntries(es) && n <= |es|
    ensures MaxValueSize(StatsOf(s, es[..n])) <= MaxValueSize(StatsOf(s, es))
    decreases |es|
  {
    if n < |es| {
      var m := |es| - 1;
      assert es[..n] == es[..m][..n];
      assert ReadyEntries(es[..m]);
      GetterMonotone(s, es[..m], n);
      var prev := StatsOf(s, es[..m]);
      StatsOfWithinGetter(s, es[..m]);
      UpdatedWithinGetter(prev, es[m].node, es[m].index);
      assert StatsOf(s, es) == Updated(prev, es[m].node, es[m].index);
    } else {
      assert es[..n] == es;
    }
  }

  /** What `_max_value_size` holds after each value added: the larger of
      the value's width and the width the getter reported just before. */
  function WidthsSeen(s: Stats, es: seq<Entry>): (r: seq<int>)
    ensures |r| == |es|
    ensures forall i :: 0 <= i < |es| ==> r[i] == Max(MaxValueSize(StatsOf(s, es[..i])), es[i].node.valueLength)
  {
    seq(|es|, i requires 0 <= i < |es| => Max(MaxValueSize(StatsOf(s, es[..i])), es[i].node.valueLength))
  }

  /** The backing width of an empty column over ready values is the largest
      width it was ever assigned: each value's own width and every width
      the getter reported before an update. So a column that was numeric
      and then mixed keeps its numeric width. */
  lemma {:induction false} StatsOfRawWidth(s: Stats, es: seq<Entry>)
    requires Unused(s) && ReadyEntries(es)
    ensures StatsOf(s, es).maxValueSizeRaw == MaxOf(WidthsSeen(s, es))
    decreases |es|
  {
    if es != [] {
      var n := |es| - 1;
      var prev := StatsOf(s, es[..n]);
      assert ReadyEntries(es[..n]);
      StatsOfRawWidth(s, es[..n]);
      StatsOfWithinGetter(s, es[..n]);
      var w := WidthsSeen(s, es);
      assert w[n] == Max(MaxValueSize(prev), es[n].node.valueLength);
      assert StatsOf(s, es).maxValueSizeRaw == w[n];
      if n > 0 {
        WidthsSeenPrefix(s, es, n);
        assert MaxOf(w) == Max(MaxOf(w[..n]), w[n]);
      }
    }
  }

  lemma WidthsSeenPrefix(s: Stats, es: seq<Entry>, n: nat)
    requires n <= |es|
    ensures WidthsSeen(s, es[..n]) == WidthsSeen(s, es)[..n]
  {
    forall i | 0 <= i < n ensures es[..n][..i] == es[..i] { }
  }

  /** Each ready value fits within the column's backing width and digit
      counts. */
  lemma StatsOfBounds(s: Stats, es: seq<Entry>, k: nat)
    requires Unused(s) && ReadyEntries(es)
    requires k < |es|
    ensures es[k].node.valueLength <= StatsOf(s, es).maxValueSizeRaw
    ensures BeforeDigits(es[k].node) <= StatsOf(s, es).charsBeforeDec
    ensures AfterDigits(es[k].node) <= StatsOf(s, es).charsAfterDec
  {
    StatsOfMaxima(s, es);
    assert Befores(es)[k] == BeforeDigits(es[k].node);
    assert Afters(es)[k] == AfterDigits(es[k].node);
    StatsOfRawWidth(s, es);
    assert WidthsSeen(s, es)[k] >= es[k].node.valueLength;
  }

  /** The backing width never decreases as ready values are added to an
      empty column: the getter it is assigned from covers it. */
  lemma {:induction false} RawWidthMonotone(s: Stats, es: seq<Entry>, n: nat)
    requires Unused(s) && ReadyEntries(es) && n <= |es|
    ensures StatsOf(s, es[..n]).maxValueSizeRaw <= StatsOf(s, es).maxValueSizeRaw
  {
    if n < |es| {
      var m := |es| - 1;
      assert ReadyEntries(es[..n]) && ReadyEntries(es[..m]);
      StatsOfWithinGetter(s, es[..n]);
      GetterMonotone(s, es[..m], n);
      assert es[..m][..n] == es[..n];
    } else {
      assert es[..n] == es;
    }
  }

  /** The kind a column of values should get: their common kind, FLOAT for
      a mix of INT and FLOAT, UNDEFINED for anything else. */
  function UnifiedKind(ks: seq<Kind>): Kind
    requires ks != []
  {
    if forall i :: 0 <= i < |ks| ==> ks[i] == ks[0] then ks[0]
    else if forall i :: 0 <= i < |ks| ==> IsNumeric(ks[i]) then Float
    else Undefined
  }

  function Kinds(es: seq<Entry>): (r: seq<Kind>)
    ensures |r| == |es| && forall i :: 0 <= i < |es| ==> r[i] == es[i].node.kind
  {
    seq(|es|, i requires 0 <= i < |es| => es[i].node.kind)
  }

  /** Unifying one more kind is combining it with the unified kind so far. */
  lemma UnifiedKindSnoc(ks: seq<Kind>, k: Kind)
    requires ks != []
    ensures UnifiedKind(ks + [k]) == CombineKinds(UnifiedKind(ks), k)
  {
    var all := ks + [k];
    assert forall i :: 0 <= i < |ks| ==> all[i] == ks[i];
    assert all[|ks|] == k;
    if forall i :: 0 <= i < |ks| ==> ks[i] == ks[0] {
      if k == ks[0] {
        assert forall i :: 0 <= i < |all| ==> all[i] == all[0];
      } else {
        assert all[|ks|] != all[0];
      }
    } else {
      var j :| 0 <= j < |ks| && ks[j] != ks[0];
      assert all[j] != all[0];
      if !(forall i :: 0 <= i < |ks| ==> IsNumeric(ks[i])) {
        var m :| 0 <= m < |ks| && !IsNumeric(ks[m]);
        assert !IsNumeric(all[m]);
      }
    }
  }

  /** Kind unification: the column's kind is the unified kind of its values. */
  lemma {:induction false} StatsOfKind(s: Stats, es: seq<Entry>)
    requires s.count == 0 && es != []
    ensures StatsOf(s, es).kind == UnifiedKind(Kinds(es))
    decreases |es|
  {
    var n := |es| - 1;
    StatsOfCounts(s, es[..n]);
    if n > 0 {
      StatsOfKind(s, es[..n]);
      assert Kinds(es) == Kinds(es[..n]) + [es[n].node.kind];
      UnifiedKindSnoc(Kinds(es[..n]), es[n].node.kind);
    } else {
      assert forall i :: 0 <= i < |Kinds(es)| ==> Kinds(es)[i] == Kinds(es)[0];
    }
  }

  /** A number literal that has a decimal point has digits after it (true
      of every float `json.dumps` writes). */
  predicate PointHasFraction(value: string) {
    '.' in value ==> FracPart(value) != ""
  }

  /** The premise under which a column's cells line up: every value's
      recorded width is its text's length, float literals do not end in a
      bare point, and integer literals have none. */
  predicate CellReady(v: View) {
    v.valueLength == |v.value| &&
    (v.kind == Float ==> PointHasFraction(v.value)) &&
    (v.kind == Int ==> '.' !in v.value)
  }

  /** A justified number fits its column: after the fixed-precision
      rewrite it is no wider than the column's justified width. */
  lemma FixedValueFits(s: Stats, v: View)
    requires IsNumeric(v.kind) && CellReady(v)
    requires BeforeDigits(v) <= s.charsBeforeDec && AfterDigits(v) <= s.charsAfterDec
    ensures |FixedValue(v.value, s.charsAfterDec)| <= JustifiedWidth(s)
  {
    SplitDotLength(v.value);
    FixedValueSpec(v.value, s.charsAfterDec);
  }

  /** In an INT column every value is an INT, so no fraction digits are
      counted. */
  lemma IntColumnHasNoFraction(s: Stats, es: seq<Entry>)
    requires Unused(s) && es != []
    requires StatsOf(s, es).kind == Int
    ensures StatsOf(s, es).charsAfterDec == 0
    ensures forall i :: 0 <= i < |es| ==> es[i].node.kind == Int
  {
    StatsOfKind(s, es);
    StatsOfMaxima(s, es);
    var ks := Kinds(es);
    assert forall i :: 0 <= i < |ks| ==> ks[i] == ks[0];
    var j :| 0 <= j < |es| && Afters(es)[j] == MaxOf(Afters(es));
    assert es[j].node.kind == Int;
  }

  /** Every cell of a column is exactly as wide as the column says: this is
      what makes table columns and justified siblings line up. Stated for
      the intended `update` and `max_value_size`. */
  lemma CellWidth(s: Stats, es: seq<Entry>, k: nat)
    requires Unused(s)
    requires k < |es|
    requires forall i :: 0 <= i < |es| ==> CellReady(es[i].node)
    ensures var c := StatsOf(s, es);
      |FormatValue(c, es[k].node.value, es[k].node.valueLength)| == MaxValueSize(c)
  {
    var c := StatsOf(s, es);
    var v := es[k].node;
    StatsOfBounds(s, es, k);
    StatsOfCounts(s, es);
    if IsNumeric(c.kind) && !c.dontJustify {
      StatsOfKind(s, es);
      assert IsNumeric(Kinds(es)[k]);
      if c.kind == Int {
        IntColumnHasNoFraction(s, es);
      }
      FixedValueFits(c, v);
    }
  }

  /** With d > 0 fraction digits asked for, a plain decimal numeral whose
      fraction has at most d digits comes back with its point d + 1
      characters from the end. */
  lemma FixedValuePoint(x: string, d: int)
    requires d > 0 && 'e' !in x && IsDecimalNumeral(x)
    requires |FracPart(x)| <= d
    ensures var f := FixedValue(x, d); |f| > d && f[|f| - d - 1] == '.'
  {
    var f := FixedValue(x, d);
    SplitDotLength(x);
    FixedValueSpec(x, d);
    if '.' in x {
      var w := |WholePart(x)|;
      assert x[w] == '.';
      assert f[..|x|][w] == f[w];
    }
  }

  /** Decimal points line up: in a justified column with fraction digits, a
      plain decimal number ends with its point followed by exactly
      `chars_after_dec` digits. */
  lemma DecimalPointAligned(s: Stats, es: seq<Entry>, k: nat)
    requires Unused(s) && !s.dontJustify
    requires k < |es|
    requires forall i :: 0 <= i < |es| ==> CellReady(es[i].node)
    requires IsNumeric(StatsOf(s, es).kind) && StatsOf(s, es).charsAfterDec > 0
    requires 'e' !in es[k].node.value && IsDecimalNumeral(es[k].node.value)
    ensures var c := StatsOf(s, es); var r := FormatValue(c, es[k].node.value, es[k].node.valueLength);
      |r| > c.charsAfterDec && r[|r| - c.charsAfterDec - 1] == '.'
  {
    var c := StatsOf(s, es);
    var v := es[k].node;
    var d := c.charsAfterDec;
    StatsOfBounds(s, es, k);
    StatsOfCounts(s, es);
    StatsOfKind(s, es);
    assert IsNumeric(Kinds(es)[k]);
    JustifiedValuePoint(c, v);
  }

  /** A plain decimal number of a column's kind, with no more fraction
      digits than the column, is justified with its point `d + 1` from the
      end, where d is `chars_after_dec`. */
  lemma JustifiedValuePoint(c: Stats, v: View)
    requires IsNumeric(c.kind) && !c.dontJustify && c.charsAfterDec > 0
    requires IsNumeric(v.kind) && CellReady(v) && AfterDigits(v) <= c.charsAfterDec
    requires 'e' !in v.value && IsDecimalNumeral(v.value)
    ensures var r := FormatValue(c, v.value, v.valueLength);
      |r| > c.charsAfterDec && r[|r| - c.charsAfterDec - 1] == '.'
  {
    var d := c.charsAfterDec;
    if v.kind == Int {
      SplitDotLength(v.value);
    }
    assert |FracPart(v.value)| <= d;
    FixedValuePoint(v.value, d);
    var f := FixedValue(v.value, d);
    RJustPoint(f, JustifiedWidth(c), d);
    assert FormatValue(c, v.value, v.valueLength) == RJust(f, JustifiedWidth(c));
  }

  /** Right-justifying keeps a character's distance from the end. */
  lemma RJustPoint(f: string, width: int, d: nat)
    requires |f| > d && f[|f| - d - 1] == '.'
    ensures var r := RJust(f, width); |r| > d && r[|r| - d - 1] == '.'
  {
    var r := RJust(f, width);
    assert r[|r| - |f|..][|f| - d - 1] == r[|r| - d - 1];
  }

  // ---------------------------------------------------------------------
  // The as-written definitions against the inputs that expose them.

  /** A null seen first is forgotten: a column [null, 2] becomes INT, so
      format_value sends "null" through the numeric branch and the cell is
      4 wide in a column whose width is 1. */
  lemma NullBeforeNumberAsWritten()
    ensures var nul := View("", 0, "null", 4, 0, 1, Null, Inline);
      var two := View("", 0, "2", 1, 0, 1, Int, Inline);
      var c := UpdatedAsWritten(UpdatedAsWritten(NewStats(false), nul, 0), two, 0);
      c.kind == Int && MaxValueSizeAsWritten(c) == 1 && |FormatValue(c, "null", 4)| == 4
  {
    var c := UpdatedAsWritten(UpdatedAsWritten(NewStats(false), View("", 0, "null", 4, 0, 1, Null, Inline), 0),
                              View("", 0, "2", 1, 0, 1, Int, Inline), 0);
    assert 'e' !in "null" by { assert "null"[0] != 'e' && "null"[1] != 'e' && "null"[2] != 'e' && "null"[3] != 'e'; }
    assert !IsDecimalNumeral("null") by {
      assert IndexOf("null", '.') == 4;
      assert !IsDigit("null"[0]);
    }
  }

  /** A FLOAT column whose floats have no fraction digits (1e+16, Infinity):
      the as-written width counts a point that format_value never writes,
      so the cell is one narrower than the column. */
  lemma ExponentFloatAsWritten()
    ensures var big := View("", 0, "1e+16", 5, 0, 1, Float, Inline);
      var c := UpdatedAsWritten(NewStats(false), big, 0);
      MaxValueSizeAsWritten(c) == 6 && |FormatValue(c, "1e+16", 5)| == 5 && MaxValueSize(c) == 5
  {
    var big := View("", 0, "1e+16", 5, 0, 1, Float, Inline);
    assert IndexOf("1e+16", '.') == 5;
    assert WholePart("1e+16") == "1e+16";
    assert 'e' in "1e+16" by { assert "1e+16"[1] == 'e'; }
  }

  /** A column that is numeric first and mixed later keeps the numeric
      width the getter reported: after 100.5 and 1.2345 the getter says
      3 + 4 + 1 = 8, and the string "x" that makes the column UNDEFINED
      leaves the backing field at 8, which is now what the getter reports. */
  lemma NumericThenMixedWidth()
    ensures var a := View("", 0, "100.5", 5, 0, 1, Float, Inline);
      var b := View("", 0, "1.2345", 6, 0, 1, Float, Inline);
      var x := View("", 0, "\"x\"", 3, 0, 1, List, Inline);
      var c := Updated(Updated(Updated(NewStats(false), a, 0), b, 0), x, 0);
      c.kind == Undefined && MaxValueSize(c) == 8
  {
    var a := View("", 0, "100.5", 5, 0, 1, Float, Inline);
    var b := View("", 0, "1.2345", 6, 0, 1, Float, Inline);
    TwoFloats(a, b);
  }

  /** The column of the two floats 100.5 and 1.2345. */
  lemma TwoFloats(a: View, b: View)
    requires a == View("", 0, "100.5", 5, 0, 1, Float, Inline)
    requires b == View("", 0, "1.2345", 6, 0, 1, Float, Inline)
    ensures var c := Updated(Updated(NewStats(false), a, 0), b, 0);
      c.kind == Float && c.count == 2 && !c.dontJustify && MaxValueSize(c) == 8
  {
    TwoFloatDigits();
  }

  lemma TwoFloatDigits()
    ensures |WholePart("100.5")| == 3 && |FracPart("100.5")| == 1
    ensures |WholePart("1.2345")| == 1 && |FracPart("1.2345")| == 4
  {
    assert IndexOf("100.5", '.') == 3 by { assert "100.5"[3] == '.'; }
    assert IndexOf("1.2345", '.') == 1;
  }

  // ---------------------------------------------------------------------
  // The object the engine updates in place.

  class ColumnStats {
    var dontJustify: bool
    var propName: string
    var propNameLength: int
    var orderSum: int
    var count: int
    var maxValueSizeRaw: int
    var kind: Kind
    var charsBeforeDec: int
    var charsAfterDec: int

    constructor (dontJustify: bool)
      ensures Snapshot() == NewStats(dontJustify)
    {
      this.dontJustify := dontJustify;
      propName := "";
      propNameLength := 0;
      orderSum := 0;
      count := 0;
      maxValueSizeRaw := 0;
      kind := Null;
      charsBeforeDec := 0;
      charsAfterDec := 0;
    }

    function Snapshot(): Stats
      reads this
    {
      Stats(dontJustify, propName, propNameLength, orderSum, count, maxValueSizeRaw, kind, charsBeforeDec, charsAfterDec)
    }

    /** `update`: add one value to the column. */
    method Update(v: View, index: int)
      modifies this
      ensures Snapshot() == Updated(old(Snapshot()), v, index)
    {
      var width := MaxValueSize(Snapshot());
      var newKind := NextKind(count, kind, v.kind);
      var before, after := NextDigits(charsBeforeDec, charsAfterDec, v);
      orderSum, count, maxValueSizeRaw, kind, charsBeforeDec, charsAfterDec :=
        orderSum + index, count + 1, Max(width, v.valueLength), newKind, before, after;
    }
  }

  /** The kind branch of `update`: the first value gives the kind; after
      that INT and FLOAT unify to FLOAT and any other mismatch to
      UNDEFINED. */
  method NextKind(count: int, kind: Kind, seen: Kind) returns (k: Kind)
    ensures k == if count == 0 then seen else CombineKinds(kind, seen)
  {
    k := kind;
    if count == 0 {
      k := seen;
    } else if kind == Float && seen == Int {
      k := Float;
    } else if kind == Int && seen == Float {
      k := Float;
    } else if kind != seen {
      k := Undefined;
    }
  }

  /** The digit branch of `update`: a FLOAT widens both sides of the
      point, an INT only the side before it. */
  method NextDigits(before: int, after: int, v: View) returns (b: int, a: int)
    ensures b == if IsNumeric(v.kind) then Max(before, BeforeDigits(v)) else before
    ensures a == if v.kind == Float then Max(after, AfterDigits(v)) else after
  {
    b, a := before, after;
    if v.kind == Float {
      var whole, frac := WholePart(v.value), FracPart(v.value);
      a := Max(a, |frac|);
      b := Max(b, |whole|);
    } else if v.kind == Int {
      b := Max(b, |v.value|);
    }
  }

  /** The fields of a sequence of ColumnStats objects. */
  function Snapshots(ss: seq<ColumnStats>): (r: seq<Stats>)
    reads ss
    ensures |r| == |ss| && forall i :: 0 <= i < |ss| ==> r[i] == ss[i].Snapshot()
  {
    seq(|ss|, i reads ss requires 0 <= i < |ss| => ss[i].Snapshot())
  }

  /** Columns whose snapshots are, one by one, the statistics `cols`. */
  lemma SnapshotsOf(ss: seq<ColumnStats>, cols: seq<Stats>)
    requires |ss| == |cols| && forall i :: 0 <= i < |ss| ==> ss[i].Snapshot() == cols[i]
    ensures Snapshots(ss) == cols
  {
  }
}
