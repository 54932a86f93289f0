# compact-json formatter, modelled in Dafny

This project models the core of compact-json's `Formatter`
(`src/compact_json/formatter.py`). The formatter turns a JSON value tree
into text. Each list and dict is written in one of these layouts:

- inline, on one line;
- as a table of aligned rows (lists or dicts whose children are all inline
  dicts, or all inline lists);
- multiline-compact, with several children per line;
- expanded, with one child per line.

Numbers that sit side by side in a list, or in one table column, are
justified to the same precision and width.

The formatter builds a tree of `FormattedNode` objects bottom-up:

- `format_element` formats the children first, then creates the
  container node.
- The container tries each strategy in turn. A strategy that succeeds
  fills in the node's `value`, `value_length` and `format`.
- The table strategies also rewrite the children in place. They use
  `ColumnStats` objects, which gather each column's widths and kind.
- `cleanup` then drops the children of every node that is not inline.

The model follows that structure:

- **FormattedNode and ColumnStats are classes.** `FormattedNode` has the
  source's fields. `ColumnStats.Update` changes the column's fields in
  place.
- **The formatting code is imperative.** Module `Engine` holds the
  recursion (`format_element`, `format_list`, `format_dict`, `serialize`).
  Modules `Strategies` and `TableStrategies` hold the strategies. Each is a
  method over those objects with the source's loops.
- **Every method is proved against a pure specification.** The pure layer
  is:
  - `Layout`: the text each strategy writes;
  - `Tables`: `get_property_stats`, `get_list_stats` and
    `justify_parallel_numbers` as functions;
  - `Formatting`: `Formatted`, the node `format_element` makes for a
    value with the corrected column statistics of the two Findings below,
    after cleanup, and `Serialized`.
- **Properties are proved of the pure layer.** Examples:
  - repeated keys keep their first position and their last value;
  - the complexity is one more than that of the most complex child;
  - inline nodes fit within `max_inline_length`;
  - every table row has the table's width;
  - table columns line up;
  - decimal points line up in a justified column (apart from the two
    `Decimal` cases listed under "Left out");
  - expanded property names align their colons;
  - the column order of a dict table is sorted by average position.
- **Serialization is connected end to end.** `Engine.Serialize` returns
  exactly `Formatting.Serialized` of its input. Both use the corrected
  column statistics (see "Left out" and "Findings").

Modules, in dependency order:

| module | file | content |
|---|---|---|
| Text | text.dfy | `ljust`, `rjust`, `" " * n`, `split(".")`, sums and maxima |
| JsonValue | json_value.dfy | the input tree, key de-duplication, complexity, the warnings `format_dict` emits |
| Settings | settings.dfy | the dataclass fields, `init_internals`, `indent`, `str_len` |
| Nodes | nodes.dfy | `JsonValueKind`, `Format`, the `FormattedNode` class, `cleanup` |
| Columns | columns.dfy | the `ColumnStats` class, its pure `Stats` record, `max_value_size`, `format_value`, `_fixed_value` |
| Layout | layout.dfy | the text of the inline, multiline-compact, expanded and table-row layouts |
| Tables | tables.dfy | number justification and the two table-statistics passes as functions |
| Formatting | formatting.dfy | the value-level model of `format_element` and its properties |
| Strategies | strategies.dfy | `format_simple`, empty containers, the inline, multiline-compact and expanded strategies |
| TableStrategies | table_strategies.dfy | `justify_parallel_numbers`, `get_property_stats`, `get_list_stats`, the table-row writers, the four table strategies |
| Engine | engine.dfy | `format_element`, `format_list`, `format_dict`, `serialize` |

Points where the model follows the code as written:

- The multiline-compact loops (lines 504-529 and 754-779) start a new line
  in two cases. A non-inline child starts a new line after an inline one.
  An inline child starts a new line after a non-inline one. Two non-inline
  neighbours are not separated by a break.
- `JsonValueKind` gives `STRING` the same value as `LIST` (lines 27-35). A
  string's node therefore has kind LIST. This holds for its table
  eligibility too.
- Take a dict whose keys are 100, 200 and "100". It yields three warnings:
  two key conversions and one duplicate. `"100"` overwrites the entry of
  100, in its place.
- `update` assigns `max_value_size` through the property (line 107). The
  new backing width is the larger of the value's width and what the getter
  reports. So a column that was numeric keeps its numeric width after a
  later value makes it mixed.
- The table strategies return `item` or the result of
  `format_list_expanded`. Both results are truthy, so success is modelled
  as `true`.

## Model

| member | source | states |
|---|---|---|
| Text.LJust | src/compact_json/formatter.py:176 | `ljust` keeps the text as a prefix and pads with spaces up to the width, never shortening |
| Text.RJust | src/compact_json/formatter.py:167 | `rjust` keeps the text as a suffix and pads with spaces in front up to the width, never shortening |
| Text.Fill | src/compact_json/formatter.py:628 | `c * n` (here `" " * n`) has max(n, 0) characters, all c |
| Text.IndexOf | src/compact_json/formatter.py:118 | the first index of the character, or the length exactly when the character is absent |
| Text.SplitDotLength | src/compact_json/formatter.py:118-121 | a value with a point is its whole part, the point and its fraction part; one without is all whole part, with an empty fraction |
| JsonValue.Dedup | src/compact_json/formatter.py:398-403 | the surviving entry slots point into the entries, are never more than the entries, and are non-empty for a non-empty dict |
| JsonValue.DedupCorrect | src/compact_json/formatter.py:398-403 | key handling: one slot per distinct key text, every key covered, each slot holding the last entry written under its key, slots in first-occurrence order |
| JsonValue.DedupDistinct | src/compact_json/formatter.py:398-403 | no key text occupies two members |
| JsonValue.DedupCovers | src/compact_json/formatter.py:398-403 | every key of the input has a member |
| JsonValue.DedupLastWrite | src/compact_json/formatter.py:398-400 | a duplicate key replaces the earlier member: each member holds the last entry with its key |
| JsonValue.DedupOrder | src/compact_json/formatter.py:401-403 | members are ordered by the first occurrence of their key |
| JsonValue.DedupOverwrite | src/compact_json/formatter.py:398-400 | an entry whose key already holds slot q overwrites slot q and changes nothing else |
| JsonValue.ContainerComplexity | src/compact_json/formatter.py:200-203 | a non-empty list or dict has complexity one more than its most complex (surviving) child |
| JsonValue.MemberComplexities | src/compact_json/formatter.py:410 | the complexities of the members `format_dict` keeps, one per distinct key, from the last value under each key |
| Settings.InitInternals | src/compact_json/formatter.py:305-310 | eol string from the eol style, indent string tab or `indent_spaces` spaces, comma and colon strings with a padding space when asked; no other field changes |
| Nodes.KindOf | src/compact_json/formatter.py:341-352 | the kind of a value's node: strings share LIST's kind, lists are LIST, dicts DICT |
| Nodes.FormattedNode.constructor | src/compact_json/formatter.py:48-57 | a new node: empty name and value, zero widths, complexity and depth, kind UNDEFINED, format INLINE, no children |
| Nodes.FormattedNode.Cleanup | src/compact_json/formatter.py:59-63 | a non-INLINE node loses its children, and the dropped children keep their own; the kept children lose theirs; no field of the node or its children changes otherwise |
| Columns.ColumnStats.constructor | src/compact_json/formatter.py:87-97 | a fresh column: no name, zero counters and widths, kind NULL |
| Columns.ColumnStats.Update | src/compact_json/formatter.py:99-128 | the column's fields become those of the corrected `update` applied to the value at the index; `_max_value_size` is assigned through the property, from the getter's width before the update |
| Columns.NextKind | src/compact_json/formatter.py:108-115 | the first value gives the column its kind; INT and FLOAT mix to FLOAT; any other mix is UNDEFINED |
| Columns.NextDigits | src/compact_json/formatter.py:117-127 | a FLOAT widens both sides of the point, an INT only the whole part, other kinds neither |
| Columns.MaxValueSize | src/compact_json/formatter.py:130-139 | a justified FLOAT column is as wide as `format_value` writes it, a justified INT column is its digit count, otherwise the backing field `_max_value_size` (whose content Columns.StatsOfRawWidth states) |
| Columns.FixedValueSpec | src/compact_json/formatter.py:66-81 | a literal with an exponent, or a request for no decimals, is unchanged; a plain decimal is extended with zeros to exactly the asked number of decimals |
| Columns.StatsOfCounts | src/compact_json/formatter.py:99-102 | after a run of updates, `count` grew by the number of values and `order_sum` by the sum of their indices; name and justification flag are unchanged |
| Columns.StatsOfMaxima | src/compact_json/formatter.py:117-127 | both digit counts are the running maxima of the digits the values need before and after the point |
| Columns.UpdatedWithinGetter | src/compact_json/formatter.py:107-139 | one update of a column whose backing field is within its getter: the getter never reports less afterwards, covers the new value, and the backing field stays within it |
| Columns.StatsOfWithinGetter | src/compact_json/formatter.py:107-139 | from an empty column over ready values, `_max_value_size` never exceeds what the getter reports |
| Columns.GetterMonotone | src/compact_json/formatter.py:107-139 | from an empty column over ready values, the width the getter reports never decreases as values are added |
| Columns.StatsOfRawWidth | src/compact_json/formatter.py:107 | from an empty column over ready values, `_max_value_size` is the largest of each value's width and the getter's width just before that value was added |
| Columns.NumericThenMixedWidth | src/compact_json/formatter.py:107-139 | after 100.5, 1.2345 and the string "x" the column is UNDEFINED and still 8 wide: the width it had as a FLOAT column |
| Columns.StatsOfBounds | src/compact_json/formatter.py:107-127 | every ready value added to an empty column fits within the column's backing width and digit counts |
| Columns.RawWidthMonotone | src/compact_json/formatter.py:107 | from an empty column over ready values, `_max_value_size` never shrinks as values are added |
| Columns.UnifiedKindSnoc | src/compact_json/formatter.py:108-115 | unifying one more kind combines it with the kind unified so far |
| Columns.StatsOfKind | src/compact_json/formatter.py:108-115 | a column's kind is the unified kind of all its values, whatever comes first |
| Columns.FixedValueFits | src/compact_json/formatter.py:156-167 | a number whose digits are within the column's counts is no wider than the column's justified width |
| Columns.IntColumnHasNoFraction | src/compact_json/formatter.py:117-127 | in an INT column every value is an INT and no fraction digits are recorded |
| Columns.CellWidth | src/compact_json/formatter.py:145-176 | every cell `format_value` writes is exactly `max_value_size` wide, justified or padded |
| Columns.FixedValuePoint | src/compact_json/formatter.py:66-76 | with d > 0 decimals the fixed value has its point exactly d characters from the end |
| Columns.DecimalPointAligned | src/compact_json/formatter.py:156-167 | in a justified column with fraction digits, every plain decimal cell has its point at the same distance from the cell's end |
| Columns.JustifiedValuePoint | src/compact_json/formatter.py:156-167 | a plain decimal justified into a number column keeps its point `chars_after_dec` from the end |
| Columns.RJustPoint | src/compact_json/formatter.py:167 | right-justifying keeps the point's distance from the end |
| Columns.NullBeforeNumberAsWritten | src/compact_json/formatter.py:108-109 | as written, a column [null, 2] becomes INT, 1 wide, and "null" is written 4 wide in it |
| Columns.ExponentFloatAsWritten | src/compact_json/formatter.py:134-135 | as written, a FLOAT column holding 1e+16 is counted 6 wide while its cell is written 5 wide; the corrected width is 5 |
| Layout.JoinLength | src/compact_json/formatter.py:467-472 | the `first_elem` loop writes the parts with one separator between neighbours, so its length is theirs plus the separators |
| Layout.JoinSplit | src/compact_json/formatter.py:467-472 | a joined text splits at the separator between any two parts |
| Layout.MaxNameLength | src/compact_json/formatter.py:730 | the widest member name: no member is wider and some member has that width |
| Layout.ListInlineWidth | src/compact_json/formatter.py:455-480 | the width `format_list_inline` records is the length of the text it writes |
| Layout.DictPartsLength | src/compact_json/formatter.py:688-691 | the member parts of an inline dict together are as long as the names, colons and values |
| Layout.DictInlineWidth | src/compact_json/formatter.py:687-713 | the width `format_dict_inline` records is the length of the text it writes |
| Layout.DictPieces | src/compact_json/formatter.py:740-753 | each member piece of a multiline-compact dict is built from that member and the widest name |
| Layout.CompactLineBound | src/compact_json/formatter.py:520-533 | a multiline-compact line is never wider than `max_inline_length` plus a comma unless it holds a single piece |
| Layout.CompactRunUnbroken | src/compact_json/formatter.py:497-539 | inline pieces that fit the budget are written on one line, joined by commas |
| Layout.CompactOneLine | src/compact_json/formatter.py:497-539 | all-inline children that fit the line budget give a single compact line holding the joined texts |
| Layout.ExpandedColonsAligned | src/compact_json/formatter.py:920-925 | with aligned names, every expanded member line has its colon at the same column |
| Layout.RowPaddingLength | src/compact_json/formatter.py:623-628 | the blanks for missing columns are as wide as those columns plus their separators |
| Layout.RowFrameLength | src/compact_json/formatter.py:609-638 | a list row whose cells fill their columns is exactly the table width `value_length` records |
| Layout.ListRowWidth | src/compact_json/formatter.py:605-638 | a list table row is exactly the table width, whenever each cell it has fills its column |
| Layout.JoinPartAt | src/compact_json/formatter.py:613-621 | in a joined row, part j starts after the parts before it and their separators |
| Layout.ListRowCellAt | src/compact_json/formatter.py:612-621 | columns line up: cell j of every list row starts at the same offset |
| Layout.FindProp | src/compact_json/formatter.py:866-868 | the member found has the column's name, and none is found exactly when no member has it |
| Layout.HighestPresentSpec | src/compact_json/formatter.py:862-885 | `highest_non_blank_index` is the last column the row has; every later column is missing from it |
| Layout.AssembleRowLength | src/compact_json/formatter.py:889-903 | the assembled segments take one comma or blank of comma width between neighbours |
| Layout.DictRowWidth | src/compact_json/formatter.py:857-906 | a dict table row is exactly the table width, whenever each value it has fills its column |
| Layout.DictSegmentLength | src/compact_json/formatter.py:869-885 | each segment, present or blank, is as wide as the column's name, colon and value |
| Tables.UnifiedNumeric | src/compact_json/formatter.py:945-949 | a column unifies to INT or FLOAT exactly when every value is a number |
| Tables.JustifiedBy | src/compact_json/formatter.py:951-958 | each sibling is rewritten by `format_value` and given the column's width; nothing else changes |
| Tables.JustifiedSpec | src/compact_json/formatter.py:935-958 | siblings change only when there are at least two, justification is on and all are numbers; then each comes out exactly the column's width |
| Tables.ColumnOf | src/compact_json/formatter.py:975-981 | the column found has the member's name and no earlier column does |
| Tables.AddEntry | src/compact_json/formatter.py:974-983 | one member adds at most one column |
| Tables.AccumulateDistinct | src/compact_json/formatter.py:969-983 | no two columns of `props` share a name |
| Tables.AccumulateCovers | src/compact_json/formatter.py:969-983 | every member's name has a column |
| Tables.AccumulateFold | src/compact_json/formatter.py:969-983 | each column is the `update` fold of exactly the members with its name, in visiting order, started from the first such member's name |
| Tables.ColumnOfSnoc | src/compact_json/formatter.py:975-979 | after a column for a new name is appended, lookup finds old names where they were and the new name at the end |
| Tables.Insert | src/compact_json/formatter.py:987 | inserting a column adds exactly that column |
| Tables.InsertSorted | src/compact_json/formatter.py:987 | insertion keeps the columns ordered by average position |
| Tables.SortByAverageSpec | src/compact_json/formatter.py:987 | the columns come out ordered by average position and are a permutation of the input |
| Tables.PropertyStatsRefused | src/compact_json/formatter.py:970-972 | a row that is not an inline dict refuses the dict table |
| Tables.PropertyStatsEligible | src/compact_json/formatter.py:985-1014 | over eligible rows the result is the sorted columns, unless the similarity score or the line length refuses them |
| Tables.PropertyStatsGate | src/compact_json/formatter.py:960-1014 | `get_property_stats` succeeds exactly when there are two or more rows, all inline dicts, at least one column, the score reaches the threshold and the row fits `max_inline_length` |
| Tables.ColumnNameWidth | src/compact_json/formatter.py:976-978 | a column records the width of its own name |
| Tables.ColumnCellWidth | src/compact_json/formatter.py:878-884 | every value under a column's name is written exactly the column's width |
| Tables.DictTableRowsFit | src/compact_json/formatter.py:1000-1011 | when the dict table is accepted, every row written is exactly the table width, and that width fits `max_inline_length` |
| Tables.PropertyColumnsReady | src/compact_json/formatter.py:969-987 | each accepted column is the fold of its members and records its name's width |
| Tables.ColumnCount | src/compact_json/formatter.py:1032 | `number_of_columns` is the length of the longest row |
| Tables.ListColumns | src/compact_json/formatter.py:1033-1039 | column j is the `update` fold of the j-th item of every row that has one |
| Tables.AddedRow | src/compact_json/formatter.py:1038-1039 | a row updates column k with its k-th item and leaves the other columns alone |
| Tables.ListColumnsStep | src/compact_json/formatter.py:1037-1039 | the columns after one more row are the previous columns with that row added |
| Tables.ListStatsGate | src/compact_json/formatter.py:1016-1060 | `get_list_stats` succeeds exactly when there are two or more rows, all inline lists, some column, the similarity reaches the threshold and the row fits `max_inline_length` |
| Tables.ListStatsColumns | src/compact_json/formatter.py:1032-1035 | an accepted list table has one column per item of its longest row |
| Tables.ListTableRowsFit | src/compact_json/formatter.py:1053-1058 | when the list table is accepted, every row is exactly the table width and fits `max_inline_length` |
| Formatting.DictRows | src/compact_json/formatter.py:569-571 | each row becomes a dict table row with the table's width; names, depth and kind are kept |
| Formatting.ListRows | src/compact_json/formatter.py:596-598 | each row becomes a list table row with the table's width; names, depth and kind are kept |
| Formatting.ListTableRows | src/compact_json/formatter.py:578-598 | when the list table applies, its rows are the list table rows over the accepted columns |
| Formatting.ListShapeTabled | src/compact_json/formatter.py:368-383 | a list that does not fit inline is what its table ladder makes of the justified children, and is not INLINE |
| Formatting.DictShapeTabled | src/compact_json/formatter.py:414-427 | a dict that does not fit inline is what its table ladder makes of the members, and is not INLINE |
| Formatting.ItemShapes | src/compact_json/formatter.py:358 | one child per item, in order, each the item's formatted node |
| Formatting.MemberShapes | src/compact_json/formatter.py:387-403 | one member per distinct key, at its first position, formatted from its last value and named by its key |
| Formatting.FormattedFacts | src/compact_json/formatter.py:321-331 | a formatted node has its depth, its value's kind and no name; a non-INLINE node keeps no children; kept children are INLINE one level deeper |
| Formatting.ListNodeFacts | src/compact_json/formatter.py:356-366 | the node of a non-empty list, before cleanup: depth, kind LIST, no name; children one level deeper |
| Formatting.DictNodeFacts | src/compact_json/formatter.py:405-412 | the node of a non-empty dict, before cleanup: depth, kind DICT, no name; children one level deeper |
| Formatting.ShapeBase | src/compact_json/formatter.py:362-365 | both container nodes take their complexity from their children and lie at their own depth |
| Formatting.FormattedDepth | src/compact_json/formatter.py:339 | a node lies at the depth it is formatted at |
| Formatting.FormattedComplexity | src/compact_json/formatter.py:200-203 | a node's complexity is its value's: 0 for primitives and empty containers, else one more than the most complex surviving child |
| Formatting.ListComplexity | src/compact_json/formatter.py:364 | the complexity `format_list` computes from its items is the list's complexity |
| Formatting.DictComplexity | src/compact_json/formatter.py:410 | the complexity `format_dict` computes from its members is the dict's complexity |
| Formatting.AlwaysExpanded | src/compact_json/formatter.py:225-227 | a non-empty container at or above `always_expand_depth` is always EXPANDED |
| Formatting.ShapeBlock | src/compact_json/formatter.py:442-446 | no strategy but expanded accepts a container at or above `always_expand_depth` |
| Formatting.InlineBounded | src/compact_json/formatter.py:440-460 | an INLINE container is no wider than `max_inline_length`, no more complex than `max_inline_complexity`, and lies below `always_expand_depth` |
| Formatting.InlineMeasured | src/compact_json/formatter.py:455-480 | an INLINE node's recorded width is the length of its text, and the same holds for every child it keeps |
| Formatting.ViewReady | src/compact_json/formatter.py:333-354 | with `json.dumps`-shaped number literals, an INLINE node is a well-formed table cell |
| Formatting.FormattedReady | src/compact_json/formatter.py:333-354 | with well-formed literals, every child a node keeps is a well-formed cell whose width is its text's length |
| Formatting.TableRowsAligned | src/compact_json/formatter.py:549-603 | whichever table strategy applies, every row it writes has the same width, and that width fits `max_inline_length` |
| Formatting.ListTablesAligned | src/compact_json/formatter.py:371-377 | in a formatted list with well-formed literals, the table rows of its justified children all have one width |
| Formatting.SerializedPrimitive | src/compact_json/formatter.py:301-303 | a primitive serializes to the prefix followed by its literal |
| Strategies.FormatSimple | src/compact_json/formatter.py:333-354 | a new childless INLINE node holding the literal, its length, complexity 0, the depth and the value's kind |
| Strategies.EmptyContainer | src/compact_json/formatter.py:429-438 | `empty_list` / `empty_dict`: a new childless INLINE node of width 2 and complexity 0 |
| Strategies.JoinTexts | src/compact_json/formatter.py:467-472 | the `first_elem` buffer loop produces the parts joined by the separator |
| Strategies.FormatListInline | src/compact_json/formatter.py:440-482 | succeeds exactly when the inline gate and the width test pass; then the node holds the inline text and its width and is INLINE, otherwise nothing changes |
| Strategies.FormatDictInline | src/compact_json/formatter.py:670-715 | the same for a dict: members written as name, colon, value |
| Strategies.NewLineFlag | src/compact_json/formatter.py:504-529 | `flag_new_line` is the break rule of the compact layout |
| Strategies.CompactLines | src/compact_json/formatter.py:497-539 | the compact loop writes the layout of all pieces |
| Strategies.WriteCompact | src/compact_json/formatter.py:494-547 | the node holds the compact text between its brackets and is MULTILINE_COMPACT |
| Strategies.FormatListMultilineCompact | src/compact_json/formatter.py:484-547 | succeeds exactly when the depth and complexity gate passes; then the node holds the compact text over its children, otherwise nothing changes |
| Strategies.SetNameLengths | src/compact_json/formatter.py:745-747 | every member's name width becomes the widest one; nothing else changes |
| Strategies.FormatDictMultilineCompact | src/compact_json/formatter.py:717-797 | succeeds exactly when `multiline_compact_dict` is on and the gate passes; then the node holds the compact text and, when forced, every member name width is the widest |
| Strategies.WriteDictCompact | src/compact_json/formatter.py:730-797 | the writes of the compact dict once its gate passes |
| Strategies.FormatListExpanded | src/compact_json/formatter.py:642-658 | the node holds one child per line at the child's indentation and is EXPANDED |
| Strategies.FormatDictExpanded | src/compact_json/formatter.py:908-933 | the node holds one member per line, names padded when forced or aligned, and is EXPANDED |
| TableStrategies.SiblingColumn | src/compact_json/formatter.py:941-943 | the one column gathered over all siblings, at index 0 |
| TableStrategies.JustifyParallelNumbers | src/compact_json/formatter.py:935-958 | the siblings become exactly `Tables.Justified` of what they were |
| TableStrategies.JustifyBy | src/compact_json/formatter.py:951-958 | every sibling is rewritten to the column's precision and width |
| TableStrategies.Rewrite | src/compact_json/formatter.py:952-958 | one sibling gets `format_value`'s text and the column's width |
| TableStrategies.StartColumn | src/compact_json/formatter.py:975-983 | a new column named after the member, with the member added |
| TableStrategies.AddMember | src/compact_json/formatter.py:974-983 | one member visited: `props` and its columns follow the pure accumulation; old columns kept, new ones fresh |
| TableStrategies.UpdateColumn | src/compact_json/formatter.py:980-983 | a name already seen: only its column takes the member |
| TableStrategies.AddRowMembers | src/compact_json/formatter.py:974-983 | every member of one row, with its position, added to the columns |
| TableStrategies.GetPropertyStats | src/compact_json/formatter.py:960-1014 | returns exactly `Tables.PropertyStats` of the node's children |
| TableStrategies.PropertyStatsOf | src/compact_json/formatter.py:960-1014 | the body of `get_property_stats` on the rows' fields returns `Tables.PropertyStats` |
| TableStrategies.GatherPropertyColumns | src/compact_json/formatter.py:969-983 | the `props` loops produce the accumulated columns of all members, row by row |
| TableStrategies.RowPad | src/compact_json/formatter.py:623-628 | the padding loop writes the blanks for the columns the row lacks |
| TableStrategies.FormatListTableRow | src/compact_json/formatter.py:605-640 | the row holds the list row text and the table's width and is INLINE_TABULAR |
| TableStrategies.DictRowSegments | src/compact_json/formatter.py:862-887 | one segment per column and the last column the row has |
| TableStrategies.Segment | src/compact_json/formatter.py:865-887 | one column's segment, and whether the row has that property |
| TableStrategies.AssembleSegments | src/compact_json/formatter.py:889-903 | the second loop joins the segments with commas or blanks of comma width |
| TableStrategies.FormatDictTableRow | src/compact_json/formatter.py:857-906 | the row holds the dict row text and is INLINE_TABULAR |
| TableStrategies.NewColumns | src/compact_json/formatter.py:1033-1035 | n distinct fresh columns, all unused |
| TableStrategies.AddRow | src/compact_json/formatter.py:1038-1039 | the row's k-th item is added to column k |
| TableStrategies.GatherListColumns | src/compact_json/formatter.py:1032-1039 | the column pass produces `Tables.ListColumns` of the rows |
| TableStrategies.GetListStats | src/compact_json/formatter.py:1016-1060 | returns exactly `Tables.ListStats` of the node's children |
| TableStrategies.WriteDictRows | src/compact_json/formatter.py:569-571 | the rows become `Formatting.DictRows` |
| TableStrategies.WriteDictRow | src/compact_json/formatter.py:570-571 | one row gets the dict row text and the table's width |
| TableStrategies.WriteListRows | src/compact_json/formatter.py:596-598 | the rows become `Formatting.ListRows` |
| TableStrategies.FinishList | src/compact_json/formatter.py:573-576 | multiline compact over the rewritten rows when allowed, else expanded |
| TableStrategies.FinishDict | src/compact_json/formatter.py:823-826 | multiline compact when allowed, else expanded, names forced to one width when asked |
| TableStrategies.WriteDictTable | src/compact_json/formatter.py:552-571 | succeeds exactly when the dict table applies, and then the rows are its rows; otherwise they are unchanged |
| TableStrategies.WriteListTable | src/compact_json/formatter.py:580-598 | succeeds exactly when the list table applies, and then the rows are its rows; otherwise they are unchanged |
| TableStrategies.FormatTableListDict | src/compact_json/formatter.py:549-576 | succeeds exactly when the dict table applies; then the rows are rewritten and the list is laid out over them; otherwise nothing changes |
| TableStrategies.FormatTableListList | src/compact_json/formatter.py:578-603 | the same with list table rows |
| TableStrategies.FormatTableDictDict | src/compact_json/formatter.py:799-826 | succeeds exactly when the dict table applies; then the dict is laid out over the rewritten rows with names forced; otherwise nothing changes |
| TableStrategies.FormatTableDictList | src/compact_json/formatter.py:828-855 | the same with list table rows |
| Engine.NewContainer | src/compact_json/formatter.py:362-366 | a new INLINE container over the children, its complexity one more than theirs |
| Engine.ListContainer | src/compact_json/formatter.py:362-383 | a new list node over the children, laid out as `Formatting.ListShape` says |
| Engine.DictContainer | src/compact_json/formatter.py:408-427 | a new dict node over the members, laid out as `Formatting.DictShape` says |
| Engine.FormatElement | src/compact_json/formatter.py:321-331 | a fresh tree, after cleanup, whose fields are `Formatting.Formatted` of the value, with exactly the value's warnings |
| Engine.FormatUncleaned | src/compact_json/formatter.py:323-328 | the dispatch on lists, dicts and primitives makes the node of `Formatted` before cleanup |
| Engine.FormatList | src/compact_json/formatter.py:356-383 | the node of `Formatted` for a list, over fresh children, with the items' warnings |
| Engine.FormatItems | src/compact_json/formatter.py:358 | one fresh distinct child per item, each the item's formatted node |
| Engine.FormatItem | src/compact_json/formatter.py:358 | one more child, holding its item's node, beside the earlier ones |
| Engine.ListLadder | src/compact_json/formatter.py:368-383 | the strategy ladder of `format_list` leaves the node as `ListShape` says |
| Engine.TryListInline | src/compact_json/formatter.py:368-369 | inline success gives `ListShape`; failure changes nothing and means the inline test failed |
| Engine.ListTables | src/compact_json/formatter.py:371-383 | after inline fails, the node becomes `ListShape` and is not INLINE |
| Engine.ListTableLadder | src/compact_json/formatter.py:373-383 | the table strategies, then compact or expanded, give `ListTabled` |
| Engine.JustifyItems | src/compact_json/formatter.py:371 | the children become justified; the node and the grandchildren are unchanged |
| Engine.FormatDict | src/compact_json/formatter.py:385-427 | the node of `Formatted` for a dict, over fresh members, with the warnings in emission order |
| Engine.FormatMember | src/compact_json/formatter.py:390-397 | entry i's value formatted and named by its quoted key, with its warnings then the key-conversion warning |
| Engine.PlaceMember | src/compact_json/formatter.py:398-403 | a repeated key overwrites its member in place with a duplicate warning; a new key is appended |
| Engine.KeyStepSeen | src/compact_json/formatter.py:398-400 | a key already in `keys` was seen before, and overwriting its slot keeps `keys` accurate |
| Engine.KeyStepNew | src/compact_json/formatter.py:401-403 | a new key was not seen before, and appending it keeps `keys` accurate |
| Engine.DictWarningsStep | src/compact_json/formatter.py:390-399 | the warnings grow, entry by entry, by the value's warnings, the conversion and the duplicate |
| Engine.FormatMembers | src/compact_json/formatter.py:387-403 | the member loop leaves one distinct fresh member per distinct key, in first position with the last value, and all warnings |
| Engine.PlaceEntry | src/compact_json/formatter.py:389-403 | one pass of the member loop keeps the loop invariants |
| Engine.DictLadder | src/compact_json/formatter.py:414-427 | the strategy ladder of `format_dict` leaves the node as `DictShape` says |
| Engine.TryDictInline | src/compact_json/formatter.py:414-415 | inline success gives `DictShape`; failure changes nothing and means the inline test failed |
| Engine.DictTables | src/compact_json/formatter.py:417-427 | after inline fails, the node becomes `DictShape` and is not INLINE |
| Engine.DictTableLadder | src/compact_json/formatter.py:417-427 | the table strategies, then compact or expanded, give `DictTabled` |
| Engine.Serialize | src/compact_json/formatter.py:301-303 | the output is exactly `Formatting.Serialized` of the value, with the value's warnings |

## Left out

- The command-line front end (`_compact_json.py`) and all file I/O are not part of this model.
- `json.dumps` is not reimplemented. Literal and quoted-key texts are inputs of the value tree; `ensure_ascii` has no effect in the model.
- `str_len` is the character count. The `east_asian_string_widths` branch (`wcwidth`) is a foreign call and is left out.
- Columns.FixedValueSpec: states `_fixed_value` only for exponent literals, for zero decimals and for plain decimals that need zero-extension. `Decimal.quantize` rounding of surplus digits is not modelled, because a column always asks for at least as many decimals as any of its values has.
- Columns.FixedValue: a non-decimal literal (`Infinity`, `NaN`) is returned unchanged, as the `InvalidOperation` fallback does. The warning that fallback emits is not modelled.
- Columns.FixedValue: a zero quantized to 7 or more decimals is zero-extended, while `str(Decimal(...))` writes it in scientific form. For a justified column holding `0` and `0.1234567`, the source writes `0E-7` right-aligned and the model writes `0.0000000`. Columns.DecimalPointAligned is therefore not true of the source for that cell.
- Columns.FixedValue: a value is zero-extended even when the quantized number has more than 28 significant digits. There `Decimal.quantize` raises `InvalidOperation` and the source returns the literal unextended, with a warning. An example is a 20-digit integer in a column that also holds a float with 9 decimals.
- Columns.ColumnStats.Update, Columns.MaxValueSize, Formatting.Formatted, Engine.FormatElement, Engine.Serialize: these follow the corrected halves of the two Findings, not the code as written at lines 108-109 and 134-135. The output differs from the source on two kinds of input. (a) A value list that does not fit inline and starts with nulls, such as `[null, 1, 22, ...]`: the source's column becomes INT and justifies the children, writing `"null"` through the quantize fallback with a warning; the model leaves that column UNDEFINED, does not justify the children and emits no warning. (b) A FLOAT column without fraction digits, such as one holding `1e+16` or `Infinity`: the source's column width, row padding and row widths, and the `max_inline_length` test on them, are one character per column larger than the model's. Tables.UnifiedNumeric, Tables.JustifiedSpec, Columns.CellWidth and Formatting.TableRowsAligned hold of the corrected definitions only. Apart from these two corrections the column statistics follow lines 99-139 as written, including the getter read at line 107.
- Tables.PropertyStatsGate: the similarity score is compared exactly, by cross-multiplication, instead of in floating point. A division by zero refuses the table, as the `ZeroDivisionError` branch does.
- Tables.ListStatsGate: the same exact comparison for the list similarity.
- The similarity thresholds are integers, so the `> 100.5` switch-off test of the table strategies becomes `> 100`.
- Tables.SortByAverage: the average position `order_sum / count` is compared exactly, by cross-multiplication, instead of as a float. Ties keep their original order, as Python's stable `sorted` does.
- The configuration is a parameter of every operation rather than object state. `init_internals` is applied once by `Serialize`.
- The `indent` cache, `combine` and the `debug` logging are not modelled; `indent` is a function of the depth.
- Warnings are returned as a sequence, in emission order, instead of being raised through `warnings.warn`.
- Columns.ColumnStats.Update: takes the node's fields as a value rather than the node object. The statistics passes read the rows' fields the same way.
- Columns.StatsOfBounds, Columns.RawWidthMonotone, Columns.StatsOfRawWidth: stated for ready values (`CellReady`: the recorded width is the literal's length, as `json.dumps` gives) added to a column that starts empty. For other widths the getter read at line 107 can report less than the backing field, and the assignment then shrinks it.
- TableStrategies.PropertyStatsOf: tests every row for eligibility before gathering; the source stops at the first ineligible row in the middle of gathering. The result is the same, because the columns are local.
- Strategies.FormatDictMultilineCompact: the forced name widths are written after the text is assembled, not during the loop. The final state is the same.
- Enum keys (`k.value`) are not modelled: a key is a string or a non-string converted by `str()`.
- The tree is built from fresh objects; aliasing between input and output nodes does not arise and is not modelled.

## Findings

| source | as written | input that shows it | evidently intended | confidence | as-written member | corrected member |
|---|---|---|---|---|---|---|
| src/compact_json/formatter.py:134-135 | a justified FLOAT column's width is `chars_before_dec + chars_after_dec + 1`, counting a point even when no value has a fraction | a FLOAT column holding `1e+16` (or `Infinity`): width 6, but `format_value` writes the cell 5 wide, so table rows differ in width | count the point only when `chars_after_dec > 0`, as `format_value` does at lines 160-161 | not executed | Columns.ExponentFloatAsWritten | Columns.CellWidth |
| src/compact_json/formatter.py:108-109 | kind NULL is both the start value and the kind of a null, so a null seen first is forgotten | a column `[null, 2]`: kind INT, width 1, and `"null"` goes through the quantize fallback and is written 4 wide | the first value (`count == 0`) gives the column its kind, so the column is UNDEFINED and padded | not executed | Columns.NullBeforeNumberAsWritten | Columns.StatsOfKind |
