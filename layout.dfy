/** The text each layout strategy assembles from a container's children,
    as functions of the children's snapshots: inline, multiline-compact,
    expanded, and the two kinds of table row. The engine's loops build
    these strings piece by piece. */
module Layout {
  import opened Text
  import opened Settings
  import opened Nodes
  import opened Columns

  // ---------------------------------------------------------------------
  // Joining parts with a separator, as the `first_elem` loops do.

  function Join(parts: seq<string>, sep: string): string
    decreases |parts|
  {
    if |parts| == 0 then ""
    else if |parts| == 1 then parts[0]
    else Join(parts[..|parts| - 1], sep) + sep + parts[|parts| - 1]
  }

  /** The length of each part, such as each text or each row. */
  function Lengths<T>(parts: seq<seq<T>>): (r: seq<int>)
    ensures |r| == |parts| && forall i :: 0 <= i < |parts| ==> r[i] == |parts[i]|
  {
    seq(|parts|, i requires 0 <= i < |parts| => |parts[i]|)
  }

  lemma SumPrefix(xs: seq<int>, n: nat)
    requires 0 < n <= |xs|
    ensures Sum(xs[..n]) == Sum(xs[..n - 1]) + xs[n - 1]
  {
    assert xs[..n][..n - 1] == xs[..n - 1];
  }

  /** The joined text is as long as its parts plus one separator between
      each two of them. */
  lemma {:induction false} JoinLength(parts: seq<string>, sep: string)
    ensures |Join(parts, sep)| == if parts == [] then 0 else Sum(Lengths(parts)) + (|parts| - 1) * |sep|
    decreases |parts|
  {
    if |parts| > 1 {
      var n := |parts| - 1;
      JoinLength(parts[..n], sep);
      assert Lengths(parts[..n]) == Lengths(parts)[..n];
      SumPrefix(Lengths(parts), n + 1);
      assert Lengths(parts)[..n + 1] == Lengths(parts);
    } else if |parts| == 1 {
      assert Sum(Lengths(parts)) == Sum(Lengths(parts)[..0]) + |parts[0]|;
    }
  }

  /** A joined text begins with its first part. */
  lemma {:induction false} JoinHead(parts: seq<string>, sep: string)
    requires parts != []
    ensures |parts[0]| <= |Join(parts, sep)| && Join(parts, sep)[..|parts[0]|] == parts[0]
    decreases |parts|
  {
    if |parts| > 1 {
      var n := |parts| - 1;
      JoinHead(parts[..n], sep);
      var j := Join(parts[..n], sep);
      assert Join(parts, sep) == j + sep + parts[n];
      assert (j + sep + parts[n])[..|parts[0]|] == j[..|parts[0]|];
    }
  }

  /** Splitting the parts splits the joined text at a separator. */
  lemma {:induction false} JoinSplit(parts: seq<string>, sep: string, i: nat)
    requires 0 < i < |parts|
    ensures Join(parts, sep) == Join(parts[..i], sep) + sep + Join(parts[i..], sep)
    decreases |parts|
  {
    var n := |parts| - 1;
    if i < n {
      JoinSplit(parts[..n], sep, i);
      assert parts[..n][..i] == parts[..i];
      assert parts[i..][..|parts[i..]| - 1] == parts[..n][i..];
      assert parts[i..][|parts[i..]| - 1] == parts[n];
    } else {
      assert parts[..n] == parts[..i];
      assert parts[i..] == [parts[n]];
    }
  }

  // ---------------------------------------------------------------------
  // What the strategies read from the children.

  function ValueTexts(cs: seq<View>): (r: seq<string>)
    ensures |r| == |cs| && forall i :: 0 <= i < |cs| ==> r[i] == cs[i].value
  {
    seq(|cs|, i requires 0 <= i < |cs| => cs[i].value)
  }

  function Widths(cs: seq<View>): (r: seq<int>)
    ensures |r| == |cs| && forall i :: 0 <= i < |cs| ==> r[i] == cs[i].valueLength
  {
    seq(|cs|, i requires 0 <= i < |cs| => cs[i].valueLength)
  }

  function NameWidths(cs: seq<View>): (r: seq<int>)
    ensures |r| == |cs| && forall i :: 0 <= i < |cs| ==> r[i] == cs[i].nameLength
  {
    seq(|cs|, i requires 0 <= i < |cs| => cs[i].nameLength)
  }

  /** `max([fn.name_length for fn in item.children])`. */
  function MaxNameLength(cs: seq<View>): (m: int)
    ensures forall i :: 0 <= i < |cs| ==> cs[i].nameLength <= m
    ensures cs != [] ==> exists i :: 0 <= i < |cs| && cs[i].nameLength == m
  {
    var m := MaxOf(NameWidths(cs));
    assert forall i :: 0 <= i < |cs| ==> NameWidths(cs)[i] == cs[i].nameLength;
    m
  }

  // ---------------------------------------------------------------------
  // Inline.

  function Padding(cfg: Config, complexity: int): string {
    if UseBracketPadding(cfg, complexity) then " " else ""
  }

  /** The inline gate shared by lists and dicts, before the width test. */
  predicate InlineAllowed(cfg: Config, depth: int, complexity: int, cs: seq<View>) {
    depth > cfg.alwaysExpandDepth && complexity <= cfg.maxInlineComplexity &&
    forall i :: 0 <= i < |cs| ==> cs[i].format == Inline
  }

  /** `line_length` of format_list_inline. */
  function ListInlineLength(cfg: Config, complexity: int, cs: seq<View>): int {
    2 + (if UseBracketPadding(cfg, complexity) then 2 else 0) +
    (|cs| - 1) * |cfg.paddedCommaStr| + Sum(Widths(cs))
  }

  function ListInlineText(cfg: Config, complexity: int, cs: seq<View>): string {
    "[" + Padding(cfg, complexity) + Join(ValueTexts(cs), cfg.paddedCommaStr) + Padding(cfg, complexity) + "]"
  }

  predicate ListInlineFits(cfg: Config, depth: int, complexity: int, cs: seq<View>) {
    InlineAllowed(cfg, depth, complexity, cs) && ListInlineLength(cfg, complexity, cs) <= cfg.maxInlineLength
  }

  /** The width format_list_inline records is the width of the text it
      writes, whenever the children's recorded widths are theirs. */
  lemma ListInlineWidth(cfg: Config, complexity: int, cs: seq<View>)
    requires cs != []
    requires forall i :: 0 <= i < |cs| ==> cs[i].valueLength == |cs[i].value|
    ensures |ListInlineText(cfg, complexity, cs)| == ListInlineLength(cfg, complexity, cs)
  {
    JoinLength(ValueTexts(cs), cfg.paddedCommaStr);
    assert Lengths(ValueTexts(cs)) == Widths(cs);
  }

  function DictPart(cfg: Config, c: View): string {
    c.name + cfg.paddedColonStr + c.value
  }

  function DictParts(cfg: Config, cs: seq<View>): (r: seq<string>)
    ensures |r| == |cs| && forall i :: 0 <= i < |cs| ==> r[i] == DictPart(cfg, cs[i])
  {
    seq(|cs|, i requires 0 <= i < |cs| => DictPart(cfg, cs[i]))
  }

  /** `line_length` of format_dict_inline. */
  function DictInlineLength(cfg: Config, complexity: int, cs: seq<View>): int {
    2 + (if UseBracketPadding(cfg, complexity) then 2 else 0) +
    |cs| * |cfg.paddedColonStr| + (|cs| - 1) * |cfg.paddedCommaStr| +
    Sum(NameWidths(cs)) + Sum(Widths(cs))
  }

  function DictInlineText(cfg: Config, complexity: int, cs: seq<View>): string {
    "{" + Padding(cfg, complexity) + Join(DictParts(cfg, cs), cfg.paddedCommaStr) + Padding(cfg, complexity) + "}"
  }

  predicate DictInlineFits(cfg: Config, depth: int, complexity: int, cs: seq<View>) {
    InlineAllowed(cfg, depth, complexity, cs) && DictInlineLength(cfg, complexity, cs) <= cfg.maxInlineLength
  }

  lemma DictPartsLength(cfg: Config, cs: seq<View>)
    requires forall i :: 0 <= i < |cs| ==> Measured(cs[i])
    ensures Sum(Lengths(DictParts(cfg, cs))) == Sum(NameWidths(cs)) + |cs| * |cfg.paddedColonStr| + Sum(Widths(cs))
  {
    var names := NameWidths(cs);
    var named := seq(|cs|, i requires 0 <= i < |cs| => names[i] + |cfg.paddedColonStr|);
    SumShift(named, names, |cfg.paddedColonStr|);
    SumAdd(Lengths(DictParts(cfg, cs)), named, Widths(cs));
  }

  /** Pointwise sums add up. */
  lemma {:induction false} SumAdd(xs: seq<int>, ys: seq<int>, zs: seq<int>)
    requires |xs| == |ys| == |zs|
    requires forall i :: 0 <= i < |xs| ==> xs[i] == ys[i] + zs[i]
    ensures Sum(xs) == Sum(ys) + Sum(zs)
    decreases |xs|
  {
    if xs != [] {
      var n := |xs| - 1;
      SumAdd(xs[..n], ys[..n], zs[..n]);
    }
  }

  /** The width format_dict_inline records is the width of the text it
      writes, whenever names and values are measured. */
  lemma DictInlineWidth(cfg: Config, complexity: int, cs: seq<View>)
    requires cs != []
    requires forall i :: 0 <= i < |cs| ==> Measured(cs[i])
    ensures |DictInlineText(cfg, complexity, cs)| == DictInlineLength(cfg, complexity, cs)
  {
    JoinLength(DictParts(cfg, cs), cfg.paddedCommaStr);
    DictPartsLength(cfg, cs);
  }

  // ---------------------------------------------------------------------
  // Multiline-compact: pieces laid out left to right, a new line started
  // when the formats alternate or the line would get too long.

  /** One child as the compact layout sees it: its text, its format and the
      width it contributes (without the comma). */
  datatype Piece = Piece(text: string, format: Format, width: int)

  /** The text written so far and the width of the current line. */
  datatype Run = Run(text: string, lineLength: int)

  function ListPieces(cs: seq<View>): (r: seq<Piece>)
    ensures |r| == |cs|
    ensures forall i :: 0 <= i < |cs| ==> r[i] == Piece(cs[i].value, cs[i].format, cs[i].valueLength)
  {
    seq(|cs|, i requires 0 <= i < |cs| => Piece(cs[i].value, cs[i].format, cs[i].valueLength))
  }

  /** A dict member for the compact layout; with `force` its name is padded
      to the longest name and counted at that width. */
  function DictPiece(cfg: Config, c: View, maxName: int, force: bool): Piece {
    Piece(c.name + (if force then Fill(' ', maxName - c.nameLength) else "") + cfg.paddedColonStr + c.value,
          c.format,
          (if force then maxName else c.nameLength) + |cfg.paddedColonStr| + c.valueLength)
  }

  function DictPieces(cfg: Config, cs: seq<View>, force: bool): (r: seq<Piece>)
    ensures |r| == |cs|
    ensures forall i :: 0 <= i < |cs| ==> r[i] == DictPiece(cfg, cs[i], MaxNameLength(cs), force)
  {
    seq(|cs|, i requires 0 <= i < |cs| => DictPiece(cfg, cs[i], MaxNameLength(cs), force))
  }

  /** `flag_new_line` before a piece other than the first. */
  predicate BreakBefore(cfg: Config, prev: Format, cur: Format, lineLength: int, segment: int) {
    if !IsInlineFormat(cur) then IsInlineFormat(prev)
    else if !IsInlineFormat(prev) then true
    else lineLength + segment > cfg.maxInlineLength + |cfg.paddedCommaStr| && lineLength > 0
  }

  /** The first n pieces laid out inside a container at `depth`. */
  function CompactRun(cfg: Config, depth: int, ps: seq<Piece>, n: nat): Run
    requires n <= |ps|
    decreases n
  {
    if n == 0 then Run("", 0)
    else
      var r := CompactRun(cfg, depth, ps, n - 1);
      var i := n - 1;
      var seg := ps[i].width + |cfg.paddedCommaStr|;
      var brk := i != 0 && BreakBefore(cfg, ps[i - 1].format, ps[i].format, r.lineLength, seg);
      var head := if brk then r.text + cfg.eolStr + Indent(cfg, depth + 1) else r.text;
      Run(head + ps[i].text + (if i < |ps| - 1 then cfg.paddedCommaStr else ""),
          (if brk then 0 else r.lineLength) + seg)
  }

  function CompactText(cfg: Config, depth: int, open: string, close: string, ps: seq<Piece>): string {
    open + cfg.eolStr + Indent(cfg, depth + 1) + CompactRun(cfg, depth, ps, |ps|).text +
    cfg.eolStr + Indent(cfg, depth) + close
  }

  predicate ListCompactAllowed(cfg: Config, depth: int, complexity: int) {
    depth > cfg.alwaysExpandDepth && complexity <= cfg.maxCompactListComplexity
  }

  predicate DictCompactAllowed(cfg: Config, depth: int, complexity: int) {
    cfg.multilineCompactDict && ListCompactAllowed(cfg, depth, complexity)
  }

  /** No two neighbouring pieces are both outside the inline formats (the
      layout does not break between two such pieces). */
  predicate NoAdjacentBlocks(ps: seq<Piece>) {
    forall i :: 0 < i < |ps| ==> IsInlineFormat(ps[i - 1].format) || IsInlineFormat(ps[i].format)
  }

  /** Line width in the compact layout: a line is never wider than
      max_inline_length plus one comma, unless it holds a single piece. */
  lemma {:induction false} CompactLineBound(cfg: Config, depth: int, ps: seq<Piece>, n: nat)
    requires 0 < n <= |ps|
    requires forall i :: 0 <= i < |ps| ==> ps[i].width >= 0
    requires NoAdjacentBlocks(ps)
    ensures var r := CompactRun(cfg, depth, ps, n); var seg := ps[n - 1].width + |cfg.paddedCommaStr|;
      r.lineLength >= seg &&
      (r.lineLength <= cfg.maxInlineLength + |cfg.paddedCommaStr| || r.lineLength == seg)
    decreases n
  {
    if n > 1 {
      CompactLineBound(cfg, depth, ps, n - 1);
    }
  }

  function Segments(cfg: Config, ps: seq<Piece>): (r: seq<int>)
    ensures |r| == |ps| && forall i :: 0 <= i < |ps| ==> r[i] == ps[i].width + |cfg.paddedCommaStr|
  {
    seq(|ps|, i requires 0 <= i < |ps| => ps[i].width + |cfg.paddedCommaStr|)
  }

  function Texts(ps: seq<Piece>): (r: seq<string>)
    ensures |r| == |ps| && forall i :: 0 <= i < |ps| ==> r[i] == ps[i].text
  {
    seq(|ps|, i requires 0 <= i < |ps| => ps[i].text)
  }

  lemma {:induction false} SumPrefixMonotone(xs: seq<int>, m: nat, n: nat)
    requires m <= n <= |xs|
    requires forall i :: 0 <= i < |xs| ==> xs[i] >= 0
    ensures Sum(xs[..m]) <= Sum(xs[..n])
    decreases n - m
  {
    if m < n {
      SumPrefixMonotone(xs, m, n - 1);
      SumPrefix(xs, n);
    }
  }

  lemma {:induction false} CompactRunUnbroken(cfg: Config, depth: int, ps: seq<Piece>, n: nat)
    requires n <= |ps|
    requires forall i :: 0 <= i < |ps| ==> ps[i].width >= 0 && IsInlineFormat(ps[i].format)
    requires Sum(Segments(cfg, ps)) <= cfg.maxInlineLength + |cfg.paddedCommaStr|
    ensures CompactRun(cfg, depth, ps, n).lineLength == Sum(Segments(cfg, ps)[..n])
    ensures CompactRun(cfg, depth, ps, n).text ==
      Join(Texts(ps)[..n], cfg.paddedCommaStr) + (if 0 < n < |ps| then cfg.paddedCommaStr else "")
    decreases n
  {
    if n > 0 {
      var segs := Segments(cfg, ps);
      CompactRunUnbroken(cfg, depth, ps, n - 1);
      SumPrefix(segs, n);
      SumPrefixMonotone(segs, n, |ps|);
      assert segs[..|ps|] == segs;
      assert Texts(ps)[..n][..n - 1] == Texts(ps)[..n - 1];
    }
  }

  /** When every piece is inline and all of them fit the line budget
      together, the compact layout puts them on one line, joined by commas
      exactly as the inline layout joins them. */
  lemma CompactOneLine(cfg: Config, depth: int, ps: seq<Piece>)
    requires forall i :: 0 <= i < |ps| ==> ps[i].width >= 0 && IsInlineFormat(ps[i].format)
    requires Sum(Segments(cfg, ps)) <= cfg.maxInlineLength + |cfg.paddedCommaStr|
    ensures CompactRun(cfg, depth, ps, |ps|).text == Join(Texts(ps), cfg.paddedCommaStr)
  {
    CompactRunUnbroken(cfg, depth, ps, |ps|);
    assert Texts(ps)[..|ps|] == Texts(ps);
  }

  // ---------------------------------------------------------------------
  // Expanded: one child per line, each at its own depth's indentation.

  function ListExpandedParts(cfg: Config, cs: seq<View>): (r: seq<string>)
    ensures |r| == |cs| && forall i :: 0 <= i < |cs| ==> r[i] == Indent(cfg, cs[i].depth) + cs[i].value
  {
    seq(|cs|, i requires 0 <= i < |cs| => Indent(cfg, cs[i].depth) + cs[i].value)
  }

  function ListExpandedText(cfg: Config, depth: int, cs: seq<View>): string {
    "[" + cfg.eolStr + Join(ListExpandedParts(cfg, cs), cfg.paddedCommaStr + cfg.eolStr) +
    cfg.eolStr + Indent(cfg, depth) + "]"
  }

  /** One member line of an expanded dict; with `pad` the name is padded
      to the longest name. */
  function DictExpandedPart(cfg: Config, c: View, maxName: int, pad: bool): string {
    Indent(cfg, c.depth) + c.name + (if pad then Fill(' ', maxName - c.nameLength) else "") +
    cfg.paddedColonStr + c.value
  }

  function DictExpandedParts(cfg: Config, cs: seq<View>, pad: bool): (r: seq<string>)
    ensures |r| == |cs| && forall i :: 0 <= i < |cs| ==> r[i] == DictExpandedPart(cfg, cs[i], MaxNameLength(cs), pad)
  {
    seq(|cs|, i requires 0 <= i < |cs| => DictExpandedPart(cfg, cs[i], MaxNameLength(cs), pad))
  }

  function DictExpandedText(cfg: Config, depth: int, cs: seq<View>, force: bool): string {
    "{" + cfg.eolStr +
    Join(DictExpandedParts(cfg, cs, cfg.alignExpandedPropertyNames || force), cfg.paddedCommaStr + cfg.eolStr) +
    cfg.eolStr + Indent(cfg, depth) + "}"
  }

  /** Aligned property names: with padding on, every member line has its
      colon in the same column after its indentation, just past the
      longest name. */
  lemma ExpandedColonsAligned(cfg: Config, cs: seq<View>, i: nat)
    requires Initialized(cfg)
    requires i < |cs|
    requires forall j :: 0 <= j < |cs| ==> cs[j].nameLength == |cs[j].name|
    ensures var p := DictExpandedParts(cfg, cs, true)[i];
      |Indent(cfg, cs[i].depth)| + MaxNameLength(cs) < |p| &&
      p[|Indent(cfg, cs[i].depth)| + MaxNameLength(cs)] == ':'
  {
    var m := MaxNameLength(cs);
    var ind := Indent(cfg, cs[i].depth);
    var c := cs[i];
    var pre := ind + c.name + Fill(' ', m - c.nameLength);
    assert |pre| == |ind| + m;
    assert DictExpandedParts(cfg, cs, true)[i] == pre + cfg.paddedColonStr + c.value;
    assert cfg.paddedColonStr[0] == ':';
  }

  // ---------------------------------------------------------------------
  // Table rows.

  /** The width of each column: `max_value_size`. */
  function ColumnWidths(cols: seq<Stats>): (r: seq<int>)
    ensures |r| == |cols| && forall i :: 0 <= i < |cols| ==> r[i] == MaxValueSize(cols[i])
  {
    seq(|cols|, i requires 0 <= i < |cols| => MaxValueSize(cols[i]))
  }

  /** The cells a list row actually has, each padded to its column. */
  function RowCells(cells: seq<View>, cols: seq<Stats>): (r: seq<string>)
    requires |cells| <= |cols|
    ensures |r| == |cells|
    ensures forall i :: 0 <= i < |cells| ==> r[i] == FormatValue(cols[i], cells[i].value, cells[i].valueLength)
  {
    seq(|cells|, i requires 0 <= i < |cells| => FormatValue(cols[i], cells[i].value, cells[i].valueLength))
  }

  /** The blanks standing in for the columns lo..hi-1 a row lacks. */
  function RowPadding(cfg: Config, cols: seq<Stats>, lo: nat, hi: nat): string
    requires lo <= hi <= |cols|
    decreases hi
  {
    if hi == lo then ""
    else RowPadding(cfg, cols, lo, hi - 1) +
         Fill(' ', MaxValueSize(cols[hi - 1]) + (if hi - 1 == 0 then 0 else |cfg.paddedCommaStr|))
  }

  function ListRowText(cfg: Config, cells: seq<View>, cols: seq<Stats>): string
    requires |cells| <= |cols|
  {
    "[ " + Join(RowCells(cells, cols), cfg.paddedCommaStr) + RowPadding(cfg, cols, |cells|, |cols|) + " ]"
  }

  /** The width every row of a list-row table is given. */
  function ListTableWidth(cfg: Config, cols: seq<Stats>): int {
    Sum(ColumnWidths(cols)) + (|cols| - 1) * |cfg.paddedCommaStr| + 4
  }

  /** How many separators the padding for columns lo..hi-1 contains: one
      per column, except none before column 0. */
  function SepCount(lo: nat, hi: nat): int {
    if hi == lo then 0 else if lo == 0 then hi - 1 else hi - lo
  }

  lemma {:induction false} RowPaddingLength(cfg: Config, cols: seq<Stats>, lo: nat, hi: nat)
    requires lo <= hi <= |cols|
    requires forall j :: 0 <= j < |cols| ==> MaxValueSize(cols[j]) >= 0
    ensures |RowPadding(cfg, cols, lo, hi)| ==
      Sum(ColumnWidths(cols)[..hi]) - Sum(ColumnWidths(cols)[..lo]) + SepCount(lo, hi) * |cfg.paddedCommaStr|
    decreases hi
  {
    if hi > lo {
      var c := |cfg.paddedCommaStr|;
      var w := ColumnWidths(cols);
      RowPaddingLength(cfg, cols, lo, hi - 1);
      SumPrefix(w, hi);
      var extra := if hi - 1 == 0 then 0 else c;
      assert SepCount(lo, hi) == SepCount(lo, hi - 1) + (if hi - 1 == 0 then 0 else 1);
      if hi - 1 != 0 {
        MulStep(SepCount(lo, hi - 1), c);
      }
    }
  }

  lemma RowFrameLength(cfg: Config, parts: seq<string>, cols: seq<Stats>)
    requires |parts| <= |cols| && cols != []
    requires forall j :: 0 <= j < |cols| ==> MaxValueSize(cols[j]) >= 0
    requires forall j :: 0 <= j < |parts| ==> |parts[j]| == MaxValueSize(cols[j])
    ensures |"[ " + Join(parts, cfg.paddedCommaStr) + RowPadding(cfg, cols, |parts|, |cols|) + " ]"| == ListTableWidth(cfg, cols)
  {
    var w := ColumnWidths(cols);
    var k := |parts|;
    var n := |cols|;
    var c := |cfg.paddedCommaStr|;
    var jn := Join(parts, cfg.paddedCommaStr);
    var pad := RowPadding(cfg, cols, k, n);
    JoinLength(parts, cfg.paddedCommaStr);
    RowPaddingLength(cfg, cols, k, n);
    assert w[..n] == w;
    assert |"[ " + jn + pad + " ]"| == 4 + |jn| + |pad|;
    if k > 0 {
      assert Lengths(parts) == w[..k];
      assert |jn| == Sum(w[..k]) + (k - 1) * c;
      assert |pad| == Sum(w) - Sum(w[..k]) + (n - k) * c;
      MulAdd(k - 1, n - k, c);
    } else {
      assert w[..0] == [];
      assert |jn| == 0;
      assert |pad| == Sum(w) + (n - 1) * c;
    }
  }

  /** A list row is exactly as wide as its table, whenever each cell it has
      is as wide as its column. */
  lemma ListRowWidth(cfg: Config, cells: seq<View>, cols: seq<Stats>)
    requires |cells| <= |cols| && cols != []
    requires forall j :: 0 <= j < |cols| ==> MaxValueSize(cols[j]) >= 0
    requires forall j :: 0 <= j < |cells| ==> |RowCells(cells, cols)[j]| == MaxValueSize(cols[j])
    ensures |ListRowText(cfg, cells, cols)| == ListTableWidth(cfg, cols)
  {
    RowFrameLength(cfg, RowCells(cells, cols), cols);
  }

  lemma MulStep(a: int, c: int)
    ensures (a + 1) * c == a * c + c
  {
  }

  lemma MulAdd(a: int, b: int, c: int)
    ensures a * c + b * c == (a + b) * c
  {
  }

  /** In a joined text, part j starts after the parts before it and one
      separator per part before it. */
  lemma JoinPartAt(parts: seq<string>, sep: string, j: nat)
    requires j < |parts|
    ensures var off := Sum(Lengths(parts)[..j]) + j * |sep|;
      0 <= off && off + |parts[j]| <= |Join(parts, sep)| && Join(parts, sep)[off..off + |parts[j]|] == parts[j]
  {
    var tail := Join(parts[j..], sep);
    JoinHead(parts[j..], sep);
    assert parts[j..][0] == parts[j];
    if j > 0 {
      JoinSplit(parts, sep, j);
      JoinLength(parts[..j], sep);
      assert Lengths(parts[..j]) == Lengths(parts)[..j];
      var before := Join(parts[..j], sep) + sep;
      MulStep(j - 1, |sep|);
      assert |before| == Sum(Lengths(parts)[..j]) + j * |sep|;
      assert Join(parts, sep) == before + tail;
      assert (before + tail)[|before|..|before| + |parts[j]|] == tail[..|parts[j]|];
    } else {
      assert parts[j..] == parts;
    }
  }

  lemma RowFrameCellAt(cfg: Config, parts: seq<string>, cols: seq<Stats>, j: nat)
    requires |parts| <= |cols| && j < |parts|
    requires forall i :: 0 <= i < |parts| ==> |parts[i]| == MaxValueSize(cols[i])
    ensures var off := 2 + Sum(ColumnWidths(cols)[..j]) + j * |cfg.paddedCommaStr|;
      var t := "[ " + Join(parts, cfg.paddedCommaStr) + RowPadding(cfg, cols, |parts|, |cols|) + " ]";
      0 <= off && off + |parts[j]| <= |t| && t[off..off + |parts[j]|] == parts[j]
  {
    var sep := cfg.paddedCommaStr;
    JoinPartAt(parts, sep, j);
    assert Lengths(parts)[..j] == ColumnWidths(cols)[..j];
    var jn := Join(parts, sep);
    var off := Sum(Lengths(parts)[..j]) + j * |sep|;
    var t := "[ " + jn + RowPadding(cfg, cols, |parts|, |cols|) + " ]";
    assert t[2 + off..2 + off + |parts[j]|] == jn[off..off + |parts[j]|];
  }

  /** Columns line up: cell j of every list row starts at the same offset,
      two characters for the bracket and space plus the widths of the
      columns before it and their commas. */
  lemma ListRowCellAt(cfg: Config, cells: seq<View>, cols: seq<Stats>, j: nat)
    requires |cells| <= |cols| && j < |cells|
    requires forall i :: 0 <= i < |cells| ==> |RowCells(cells, cols)[i]| == MaxValueSize(cols[i])
    ensures var off := 2 + Sum(ColumnWidths(cols)[..j]) + j * |cfg.paddedCommaStr|;
      var t := ListRowText(cfg, cells, cols);
      0 <= off && off + MaxValueSize(cols[j]) <= |t| && t[off..off + MaxValueSize(cols[j])] == RowCells(cells, cols)[j]
  {
    RowFrameCellAt(cfg, RowCells(cells, cols), cols, j);
  }

  /** The first member of a dict row named like a column (`filter(...)[0]`). */
  function FindProp(cs: seq<View>, name: string): (r: Option<View>)
    ensures r.Some? ==> r.value in cs && r.value.name == name
    ensures r.None? <==> forall i :: 0 <= i < |cs| ==> cs[i].name != name
    decreases |cs|
  {
    if cs == [] then None
    else if cs[0].name == name then Some(cs[0])
    else FindProp(cs[1..], name)
  }

  /** One column's segment of a dict row: the member, or blanks of the
      same width when the row lacks it. */
  function DictSegment(cfg: Config, cs: seq<View>, col: Stats): string {
    match FindProp(cs, col.propName)
    case None => Fill(' ', col.propNameLength + |cfg.paddedColonStr| + MaxValueSize(col))
    case Some(p) => col.propName + cfg.paddedColonStr + FormatValue(col, p.value, p.valueLength)
  }

  function DictSegments(cfg: Config, cs: seq<View>, cols: seq<Stats>): (r: seq<string>)
    ensures |r| == |cols| && forall j :: 0 <= j < |cols| ==> r[j] == DictSegment(cfg, cs, cols[j])
  {
    seq(|cols|, j requires 0 <= j < |cols| => DictSegment(cfg, cs, cols[j]))
  }

  /** `highest_non_blank_index` after the first n columns. */
  function HighestPresent(cs: seq<View>, cols: seq<Stats>, n: nat): (h: int)
    requires n <= |cols|
    ensures -1 <= h < n
    decreases n
  {
    if n == 0 then -1
    else if FindProp(cs, cols[n - 1].propName).Some? then n - 1
    else HighestPresent(cs, cols, n - 1)
  }

  /** `highest_non_blank_index` is the last of the first n columns that the
      row has, or -1 when it has none of them. */
  lemma {:induction false} HighestPresentSpec(cs: seq<View>, cols: seq<Stats>, n: nat)
    requires n <= |cols|
    ensures HighestPresent(cs, cols, n) >= 0 ==> FindProp(cs, cols[HighestPresent(cs, cols, n)].propName).Some?
    ensures forall j :: HighestPresent(cs, cols, n) < j < n ==> FindProp(cs, cols[j].propName).None?
    decreases n
  {
    if n > 0 && FindProp(cs, cols[n - 1].propName).None? {
      HighestPresentSpec(cs, cols, n - 1);
    }
  }

  /** The assembled segments and `needs_comma` after the first n segments. */
  datatype Assembly = Assembly(text: string, needsComma: bool)

  function AssembleRow(cfg: Config, segs: seq<string>, highest: int, n: nat): Assembly
    requires n <= |segs|
    decreases n
  {
    if n == 0 then Assembly("", false)
    else
      var r := AssembleRow(cfg, segs, highest, n - 1);
      var i := n - 1;
      var sep := if r.needsComma && i <= highest then cfg.paddedCommaStr
                 else if i != 0 then Fill(' ', |cfg.paddedCommaStr|)
                 else "";
      Assembly(r.text + sep + segs[i], !IsBlank(segs[i]))
  }

  function DictRowText(cfg: Config, cs: seq<View>, cols: seq<Stats>): string {
    var segs := DictSegments(cfg, cs, cols);
    "{ " + AssembleRow(cfg, segs, HighestPresent(cs, cols, |cols|), |segs|).text + " }"
  }

  /** Name plus value width of each column. */
  function DictColumnWidths(cols: seq<Stats>): (r: seq<int>)
    ensures |r| == |cols| && forall i :: 0 <= i < |cols| ==> r[i] == cols[i].propNameLength + MaxValueSize(cols[i])
  {
    seq(|cols|, i requires 0 <= i < |cols| => cols[i].propNameLength + MaxValueSize(cols[i]))
  }

  /** The width every row of a dict-row table is given (and the line length
      get_property_stats tests). */
  function DictTableWidth(cfg: Config, cols: seq<Stats>): int {
    Sum(DictColumnWidths(cols)) + |cols| * |cfg.paddedColonStr| + (|cols| - 1) * |cfg.paddedCommaStr| + 4
  }

  lemma {:induction false} AssembleRowLength(cfg: Config, segs: seq<string>, highest: int, n: nat)
    requires n <= |segs|
    ensures |AssembleRow(cfg, segs, highest, n).text| ==
      if n == 0 then 0 else Sum(Lengths(segs)[..n]) + (n - 1) * |cfg.paddedCommaStr|
    ensures n == 0 ==> !AssembleRow(cfg, segs, highest, n).needsComma
    decreases n
  {
    if n > 0 {
      AssembleRowLength(cfg, segs, highest, n - 1);
      SumPrefix(Lengths(segs), n);
      var c := |cfg.paddedCommaStr|;
      var r := AssembleRow(cfg, segs, highest, n - 1);
      assert |AssembleRow(cfg, segs, highest, n).text| == |r.text| + (if n == 1 then 0 else c) + |segs[n - 1]|;
      if n > 1 {
        assert (n - 1) * c == (n - 2) * c + c;
      }
    }
  }

  /** A column is well-formed for rendering: its recorded name width is its
      name's length, and its widths are not negative. */
  predicate ColumnReady(cfg: Config, col: Stats) {
    col.propNameLength == |col.propName| && MaxValueSize(col) >= 0
  }

  /** A dict row is exactly as wide as its table, whenever each value it
      has is as wide as its column. */
  lemma DictRowWidth(cfg: Config, cs: seq<View>, cols: seq<Stats>)
    requires cols != []
    requires forall j :: 0 <= j < |cols| ==> ColumnReady(cfg, cols[j])
    requires forall j :: 0 <= j < |cols| && FindProp(cs, cols[j].propName).Some? ==>
      |FormatValue(cols[j], FindProp(cs, cols[j].propName).value.value, FindProp(cs, cols[j].propName).value.valueLength)|
        == MaxValueSize(cols[j])
    ensures |DictRowText(cfg, cs, cols)| == DictTableWidth(cfg, cols)
  {
    var segs := DictSegments(cfg, cs, cols);
    AssembleRowLength(cfg, segs, HighestPresent(cs, cols, |cols|), |segs|);
    forall j | 0 <= j < |cols|
      ensures Lengths(segs)[j] == DictColumnWidths(cols)[j] + |cfg.paddedColonStr|
    {
      DictSegmentLength(cfg, cs, cols[j]);
    }
    SumShift(Lengths(segs), DictColumnWidths(cols), |cfg.paddedColonStr|);
    assert Lengths(segs)[..|segs|] == Lengths(segs);
  }

  /** A segment is as wide as its column's name, colon and value. */
  lemma DictSegmentLength(cfg: Config, cs: seq<View>, col: Stats)
    requires ColumnReady(cfg, col)
    requires FindProp(cs, col.propName).Some? ==>
      |FormatValue(col, FindProp(cs, col.propName).value.value, FindProp(cs, col.propName).value.valueLength)| == MaxValueSize(col)
    ensures |DictSegment(cfg, cs, col)| == col.propNameLength + MaxValueSize(col) + |cfg.paddedColonStr|
  {
  }

  /** Adding k to every element adds k times the length to the sum. */
  lemma {:induction false} SumShift(xs: seq<int>, ys: seq<int>, k: int)
    requires |xs| == |ys|
    requires forall i :: 0 <= i < |xs| ==> xs[i] == ys[i] + k
    ensures Sum(xs) == Sum(ys) + |xs| * k
    decreases |xs|
  {
    if xs != [] {
      var n := |xs| - 1;
      SumShift(xs[..n], ys[..n], k);
    }
  }
}
