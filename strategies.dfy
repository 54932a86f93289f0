/** The formatter's per-node strategies as methods over FormattedNode
    objects: each one assembles its text in a buffer, as the source does,
    and is proved to write exactly the text the layout functions describe
    and to change nothing else. */
module Strategies {
  import J = JsonValue
  import opened Text
  import opened Settings
  import opened Nodes
  import opened Columns
  import opened Layout
  import opened Tables

  lemma JoinSnoc(parts: seq<string>, sep: string, i: nat)
    requires i < |parts|
    ensures Join(parts[..i + 1], sep) == if i == 0 then parts[0] else Join(parts[..i], sep) + sep + parts[i]
  {
    assert parts[..i + 1][..i] == parts[..i];
  }

  /** format_simple. */
  method FormatSimple(depth: int, v: J.Json) returns (n: FormattedNode)
    requires J.IsPrimitive(v)
    ensures fresh(n) && n.children == []
    ensures n.Snapshot() == View("", 0, J.Literal(v), |J.Literal(v)|, 0, depth, KindOf(v), Inline)
  {
    n := new FormattedNode();
    n.value := J.Literal(v);
    n.valueLength := StrLen(n.value);
    n.complexity := 0;
    n.depth := depth;
    match v
    case Null => n.kind := Null;
    case Bool(_) => n.kind := Boolean;
    case Int(_) => n.kind := Int;
    case Float(_) => n.kind := Float;
    case Str(_) => n.kind := List;
  }

  /** empty_list and empty_dict. */
  method EmptyContainer(depth: int, kind: Kind, text: string) returns (n: FormattedNode)
    ensures fresh(n) && n.children == []
    ensures n.Snapshot() == View("", 0, text, 2, 0, depth, kind, Inline)
  {
    n := new FormattedNode();
    n.value := text;
    n.valueLength := 2;
    n.complexity := 0;
    n.depth := depth;
    n.kind := kind;
    n.format := Inline;
  }

  /** The buffer loop of the inline and expanded strategies: the parts
      with the separator between each pair. */
  method JoinTexts(parts: seq<string>, sep: string) returns (body: string)
    ensures body == Join(parts, sep)
  {
    body := "";
    var i := 0;
    while i < |parts|
      invariant 0 <= i <= |parts|
      invariant body == Join(parts[..i], sep)
    {
      JoinSnoc(parts, sep, i);
      if i != 0 {
        body := body + sep;
      }
      body := body + parts[i];
      i := i + 1;
    }
    assert parts[..|parts|] == parts;
  }

  /** format_list_inline: succeeds exactly when the inline gate and the
      width test pass, and then writes the inline text at its width. */
  method FormatListInline(cfg: Config, item: FormattedNode) returns (ok: bool)
    requires item !in item.children
    modifies item`value, item`valueLength, item`format
    ensures ok == ListInlineFits(cfg, item.depth, item.complexity, old(Views(item.children)))
    ensures item.Snapshot() ==
      if ok then old(item.Snapshot()).(value := ListInlineText(cfg, item.complexity, old(Views(item.children))),
                                       valueLength := ListInlineLength(cfg, item.complexity, old(Views(item.children))),
                                       format := Inline)
      else old(item.Snapshot())
  {
    var cs := Views(item.children);
    if item.depth <= cfg.alwaysExpandDepth || item.complexity > cfg.maxInlineComplexity {
      return false;
    }
    if exists i | 0 <= i < |cs| :: cs[i].format != Inline {
      return false;
    }
    var lineLength := ListInlineLength(cfg, item.complexity, cs);
    if lineLength > cfg.maxInlineLength {
      return false;
    }
    var pad := Padding(cfg, item.complexity);
    var body := JoinTexts(ValueTexts(cs), cfg.paddedCommaStr);
    item.value := "[" + pad + body + pad + "]";
    item.valueLength := lineLength;
    item.format := Inline;
    return true;
  }

  /** format_dict_inline: the same for a dict's members. */
  method FormatDictInline(cfg: Config, item: FormattedNode) returns (ok: bool)
    requires item !in item.children
    modifies item`value, item`valueLength, item`format
    ensures ok == DictInlineFits(cfg, item.depth, item.complexity, old(Views(item.children)))
    ensures item.Snapshot() ==
      if ok then old(item.Snapshot()).(value := DictInlineText(cfg, item.complexity, old(Views(item.children))),
                                       valueLength := DictInlineLength(cfg, item.complexity, old(Views(item.children))),
                                       format := Inline)
      else old(item.Snapshot())
  {
    var cs := Views(item.children);
    if item.depth <= cfg.alwaysExpandDepth || item.complexity > cfg.maxInlineComplexity {
      return false;
    }
    if exists i | 0 <= i < |cs| :: cs[i].format != Inline {
      return false;
    }
    var lineLength := DictInlineLength(cfg, item.complexity, cs);
    if lineLength > cfg.maxInlineLength {
      return false;
    }
    var pad := Padding(cfg, item.complexity);
    var body := JoinTexts(DictParts(cfg, cs), cfg.paddedCommaStr);
    item.value := "{" + pad + body + pad + "}";
    item.valueLength := lineLength;
    item.format := Inline;
    return true;
  }

  /** The `flag_new_line` test as the compact loops write it. */
  method NewLineFlag(cfg: Config, prev: Format, cur: Format, lineLength: int, segment: int) returns (flag: bool)
    ensures flag == BreakBefore(cfg, prev, cur, lineLength, segment)
  {
    flag := false;
    if cur != Inline && cur != InlineTabular {
      if prev == Inline || prev == InlineTabular {
        flag := true;
      }
    } else if prev != Inline && prev != InlineTabular {
      flag := true;
    } else if lineLength + segment > cfg.maxInlineLength + |cfg.paddedCommaStr| && lineLength > 0 {
      flag := true;
    }
  }

  /** The loop shared by both multiline-compact strategies: walks the
      pieces, starting a new line where `flag_new_line` says so. */
  method CompactLines(cfg: Config, depth: int, ps: seq<Piece>) returns (body: string)
    ensures body == CompactRun(cfg, depth, ps, |ps|).text
  {
    body := "";
    var lineLength := 0;
    var i := 0;
    while i < |ps|
      invariant 0 <= i <= |ps|
      invariant body == CompactRun(cfg, depth, ps, i).text
      invariant lineLength == CompactRun(cfg, depth, ps, i).lineLength
    {
      var segment := ps[i].width + |cfg.paddedCommaStr|;
      if i != 0 {
        var flag := NewLineFlag(cfg, ps[i - 1].format, ps[i].format, lineLength, segment);
        if flag {
          body := body + cfg.eolStr + Indent(cfg, depth + 1);
          lineLength := 0;
        }
      }
      body := body + ps[i].text;
      if i < |ps| - 1 {
        body := body + cfg.paddedCommaStr;
      }
      i := i + 1;
      lineLength := lineLength + segment;
    }
  }

  /** The tail both multiline-compact strategies share: the opening
      bracket, the pieces' lines indented one level deeper, the closing
      bracket on a line of its own. */
  method WriteCompact(cfg: Config, item: FormattedNode, open: string, close: string, ps: seq<Piece>)
    modifies item`value, item`format
    ensures item.Snapshot() == old(item.Snapshot()).(value := CompactText(cfg, item.depth, open, close, ps),
                                                     format := MultilineCompact)
  {
    var body := CompactLines(cfg, item.depth, ps);
    item.value := open + cfg.eolStr + Indent(cfg, item.depth + 1) + body + cfg.eolStr + Indent(cfg, item.depth) + close;
    item.format := MultilineCompact;
  }

  /** format_list_multiline_compact: succeeds exactly when its gate
      passes, and then writes the compact layout of the children. */
  method FormatListMultilineCompact(cfg: Config, item: FormattedNode) returns (ok: bool)
    requires item !in item.children
    modifies item`value, item`format
    ensures ok == ListCompactAllowed(cfg, item.depth, item.complexity)
    ensures item.Snapshot() ==
      if ok then old(item.Snapshot()).(value := CompactText(cfg, item.depth, "[", "]", ListPieces(old(Views(item.children)))),
                                       format := MultilineCompact)
      else old(item.Snapshot())
  {
    if item.depth <= cfg.alwaysExpandDepth || item.complexity > cfg.maxCompactListComplexity {
      return false;
    }
    WriteCompact(cfg, item, "[", "]", ListPieces(Views(item.children)));
    return true;
  }

  /** Members with every name width set to `width`. */
  function WithNameLength(cs: seq<View>, width: int): (r: seq<View>)
    ensures |r| == |cs|
    ensures forall i :: 0 <= i < |cs| ==> r[i] == cs[i].(nameLength := width)
  {
    seq(|cs|, i requires 0 <= i < |cs| => cs[i].(nameLength := width))
  }

  /** The members after format_dict_multiline_compact with names forced to
      the longest name's width. */
  function ForcedNames(cs: seq<View>): seq<View> {
    WithNameLength(cs, MaxNameLength(cs))
  }

  /** The `prop.name_length = max_prop_name_length` assignments of the
      forced compact layout: every member's name width becomes `width`. */
  method SetNameLengths(items: seq<FormattedNode>, width: int)
    requires forall i, j :: 0 <= i < j < |items| ==> items[i] != items[j]
    modifies items`nameLength
    ensures forall j :: 0 <= j < |items| ==> items[j].Snapshot() == old(items[j].Snapshot()).(nameLength := width)
  {
    var i := 0;
    while i < |items|
      invariant 0 <= i <= |items|
      invariant forall j :: 0 <= j < |items| ==>
        items[j].Snapshot() == if j < i then old(items[j].Snapshot()).(nameLength := width) else old(items[j].Snapshot())
    {
      items[i].nameLength := width;
      i := i + 1;
    }
  }

  /** format_dict_multiline_compact: succeeds exactly when its gate passes,
      and then writes the compact layout of the members; with `force` it
      also records the longest name's width as every member's name width.
      The name widths are written after the text is assembled, which the
      source interleaves; nothing reads them in between except the segment
      width, which the pieces already count at the forced width. */
  method FormatDictMultilineCompact(cfg: Config, item: FormattedNode, force: bool) returns (ok: bool)
    requires item !in item.children
    requires forall i, j :: 0 <= i < j < |item.children| ==> item.children[i] != item.children[j]
    modifies item`value, item`format, item.children`nameLength
    ensures ok == DictCompactAllowed(cfg, item.depth, item.complexity)
    ensures item.Snapshot() ==
      if ok then old(item.Snapshot()).(value := CompactText(cfg, item.depth, "{", "}", DictPieces(cfg, old(Views(item.children)), force)),
                                       format := MultilineCompact)
      else old(item.Snapshot())
    ensures forall j :: 0 <= j < |item.children| ==>
      item.children[j].Snapshot() ==
        if ok && force then old(item.children[j].Snapshot()).(nameLength := MaxNameLength(old(Views(item.children))))
        else old(item.children[j].Snapshot())
  {
    if !cfg.multilineCompactDict || item.depth <= cfg.alwaysExpandDepth ||
       item.complexity > cfg.maxCompactListComplexity {
      return false;
    }
    WriteDictCompact(cfg, item, force);
    return true;
  }

  /** The writes of format_dict_multiline_compact once its gate passes. */
  method WriteDictCompact(cfg: Config, item: FormattedNode, force: bool)
    requires item !in item.children
    requires forall i, j :: 0 <= i < j < |item.children| ==> item.children[i] != item.children[j]
    modifies item`value, item`format, item.children`nameLength
    ensures item.Snapshot() ==
      old(item.Snapshot()).(value := CompactText(cfg, item.depth, "{", "}", DictPieces(cfg, old(Views(item.children)), force)),
                            format := MultilineCompact)
    ensures forall j :: 0 <= j < |item.children| ==>
      item.children[j].Snapshot() ==
        if force then old(item.children[j].Snapshot()).(nameLength := MaxNameLength(old(Views(item.children))))
        else old(item.children[j].Snapshot())
  {
    var cs := Views(item.children);
    WriteCompact(cfg, item, "{", "}", DictPieces(cfg, cs, force));
    if force {
      SetNameLengths(item.children, MaxNameLength(cs));
    }
  }

  /** format_list_expanded: one child per line. */
  method FormatListExpanded(cfg: Config, item: FormattedNode)
    requires item !in item.children
    modifies item`value, item`format
    ensures item.Snapshot() ==
      old(item.Snapshot()).(value := ListExpandedText(cfg, item.depth, old(Views(item.children))), format := Expanded)
  {
    var body := JoinTexts(ListExpandedParts(cfg, Views(item.children)), cfg.paddedCommaStr + cfg.eolStr);
    item.value := "[" + cfg.eolStr + body + cfg.eolStr + Indent(cfg, item.depth) + "]";
    item.format := Expanded;
  }

  /** format_dict_expanded: one member per line, names padded to the
      longest when aligning or forced. */
  method FormatDictExpanded(cfg: Config, item: FormattedNode, force: bool)
    requires item !in item.children
    modifies item`value, item`format
    ensures item.Snapshot() ==
      old(item.Snapshot()).(value := DictExpandedText(cfg, item.depth, old(Views(item.children)), force), format := Expanded)
  {
    var pad := cfg.alignExpandedPropertyNames || force;
    var body := JoinTexts(DictExpandedParts(cfg, Views(item.children), pad), cfg.paddedCommaStr + cfg.eolStr);
    item.value := "{" + cfg.eolStr + body + cfg.eolStr + Indent(cfg, item.depth) + "}";
    item.format := Expanded;
  }
}
