# ansible-doc-extractor: options tables and doc normalisation, in Dafny

ansible-doc-extractor turns the documentation block of an Ansible module
into a reStructuredText page. This project models the three pieces of it that
compute something:

- `table_gen.py`, the options-table engine. A `Table` object keeps three
  column widths and a doubly linked list of row nodes and spacer nodes.
  `_build_row` appends an option's rows and widens the columns.
  `_add_spacer` appends a spacer and raises the spacer above to the deeper
  level. `_build_row_dll` walks an options dict and its suboptions.
  `build_table` adds the header block and renders every node with the final
  widths. The model is the class `TableGen.Table`, which holds the list as a
  sequence of nodes in list order. Its methods are proved against
  specification functions (`Walk`, `Built`, `Render`). `TableGenLayout`
  proves what those functions produce: the options visited in order, the
  layout of rows and spacers, the widths, the line count, the spacer levels,
  and when every line has the same length.
- `table_builder.py`, the older table drawer, which works on module-level
  globals. It has three maxima and the list `table`. The model is the class
  `TableBuilder.Globals`. A Python exception is returned as a value together
  with the state the globals are left in. `TableBuilderProps` proves what the
  measuring covers, the order and number of drawn lines, and the shape and
  length of spacers and rows.
- `cli.py`: `ensure_list`, the recursive, in-place `convert_descriptions`,
  and the rule that names the written page. `CliProps` defines the
  normalised tree field by field (`Normalized`). It proves three facts about
  `convert_descriptions`: exactly when it raises, that on success it yields
  `Normalized`, and that running it again changes nothing. It also proves
  what `split(".")[-1]` picks and that the naming rule is stable.

Python values are modelled by `PyValue.Value`: None, bools, ints, strings,
lists, and dicts with ordered entries. `PyValue` gives the Python operations
the core uses: `d.get`, `d[k]`, `in`, item assignment, `len`, `str`, and the
`repr` of a UTF-8 byte string. Their error cases are returned as `PyError`
values.

## Model

| member | source | states |
|---|---|---|
| TableGen.NewCell | src/ansible_doc_extractor/table_gen.py:86-93 | A cell is made exactly when its type is one of `CELL_TYPE`, and it keeps the content and type; any other type gives `IncorrectCellTypeException` for that type |
| TableGen.IndentText | src/ansible_doc_extractor/table_gen.py:42-45 | Indent cells holding one space take four characters each |
| TableGen.RowText | src/ansible_doc_extractor/table_gen.py:39-58 | A row whose cells fit their columns (the first narrowed by the indent) is exactly `p + c + m + 10` characters long |
| TableGen.SpacerText | src/ansible_doc_extractor/table_gen.py:68-82 | A spacer whose indent fits the first column is exactly `p + c + m + 10` characters long |
| TableGen.RenderRow | src/ansible_doc_extractor/table_gen.py:39-58 | The loop over the indent cells builds the row text `RowText` |
| TableGen.RenderSpacer | src/ansible_doc_extractor/table_gen.py:68-82 | The loop over the levels builds the spacer text `SpacerText` |
| TableGen.RenderNode | src/ansible_doc_extractor/table_gen.py:218-220 | A node renders as a row or as a spacer, according to its kind |
| TableGen.Render | src/ansible_doc_extractor/table_gen.py:216-222 | One line per node of the list |
| TableGen.RenderTable | src/ansible_doc_extractor/table_gen.py:216-222 | The loop from the head node to the end yields `Render` of the list |
| TableGen.IndentCells | src/ansible_doc_extractor/table_gen.py:112-115 | `level` indent cells, each holding one space |
| Text.Repeat | src/ansible_doc_extractor/table_gen.py:69-79 | `c * n` has `max(n, 0)` characters, all of them c; a negative count gives the empty string |
| Text.Pad | src/ansible_doc_extractor/table_gen.py:52-55 | `cell_padding(s, abs(len(s) - width))` starts with s and continues with spaces only. A cell that fits is exactly `width` long. An over-long cell is `2 * len(s) - width` long, because the padding count is an absolute value. The same lambda is at table_builder.py:49-52 |
| TableGen.ChoicesText | src/ansible_doc_extractor/table_gen.py:122-127 | Definition, with no contract of its own: `str(choices)` when truthy, else "". `RowWidths` and `RowNodesShape` state its use |
| TableGen.DescriptionText | src/ansible_doc_extractor/table_gen.py:129-135 | Definition, with no contract of its own: `str(description[0])` when the description is truthy, else "". `DescriptionMeasure` relates it to `DescriptionLen` |
| TableGen.DescriptionLen | src/ansible_doc_extractor/table_gen.py:129-134 | Definition, with no contract of its own: `len(description[0])` when the description is truthy, else 0. `RowWidths` and `DescriptionMeasure` state its use |
| TableGen.RowNodes | src/ansible_doc_extractor/table_gen.py:109-149 | One row, or two for a required option, each with `level + 3` cells |
| TableGen.RowNodesShape | src/ansible_doc_extractor/table_gen.py:109-149 | The rows carry the indent, then name, choices text and `str` of the description's first item; a required option adds `required` after the same indent |
| TableGen.RowWidths | src/ansible_doc_extractor/table_gen.py:116-135 | Widths never shrink, cover the new row (name plus 4 per level, choices text, `len` of the description's first item), and each is the old width or the row's own measure |
| TableGen.DescriptionMeasure | src/ansible_doc_extractor/table_gen.py:129-135 | The printed comment cell, `str(description[0])`, is never shorter than the width measured for it, `len(description[0])`, and is exactly as long iff the item is a string |
| TableGen.StrDescriptionMeasure | src/ansible_doc_extractor/table_gen.py:129-135 | A string first item is printed exactly as wide as it is measured |
| TableGen.ListDescription | src/ansible_doc_extractor/table_gen.py:129-135 | One instance of `DescriptionMeasure`, adding no coverage of its own: a description whose first item is a list is accepted; it asks for a width of 2 (its item count) while its cell prints ten characters |
| TableGen.UpperSpacer | src/ansible_doc_extractor/table_gen.py:151-158 | The spacer above the newest row is a spacer node of the list |
| TableGen.SpacerAdded | src/ansible_doc_extractor/table_gen.py:151-164 | A `-` spacer at the level is appended; the spacer above the newest row is raised to the maximum of its level and the new one; nothing else changes |
| TableGen.SubOptions | src/ansible_doc_extractor/table_gen.py:190-191 | The value read under `suboptions`, structurally smaller than the option |
| TableGen.Step | src/ansible_doc_extractor/table_gen.py:174-188 | An option's rows and then its spacer (`_build_row`, `_add_spacer`): the list still ends in a spacer and no column narrows |
| TableGen.Walk | src/ansible_doc_extractor/table_gen.py:166-198 | The walk keeps the list ending in a spacer and never narrows a column |
| TableGen.WalkRest | src/ansible_doc_extractor/table_gen.py:178-195 | The same, from the i-th option on |
| TableGen.Descend | src/ansible_doc_extractor/table_gen.py:190-195 | The same, for the descent into a truthy `suboptions` |
| TableGen.Header | src/ansible_doc_extractor/table_gen.py:203-212 | The header block ends in a spacer and never narrows a column |
| TableGen.Built | src/ansible_doc_extractor/table_gen.py:200-215 | The whole list ends in a spacer and the widths only grow from the starting ones |
| TableGen.Table.constructor | src/ansible_doc_extractor/table_gen.py:101-107 | Widths start at 0 and the list is empty |
| TableGen.Table.BuildRow | src/ansible_doc_extractor/table_gen.py:109-149 | The option's rows are appended and the widths become `RowWidths` of the old ones |
| TableGen.Table.AddSpacer | src/ansible_doc_extractor/table_gen.py:151-164 | The list becomes `SpacerAdded` of the old list; the widths are unchanged |
| TableGen.Table.BuildRowDll | src/ansible_doc_extractor/table_gen.py:166-198 | The list stays well linked and the state becomes `Walk` of the old state |
| TableGen.Table.BuildTable | src/ansible_doc_extractor/table_gen.py:200-222 | The state becomes `Built` of the old widths and the returned lines are `Render` of the list with the final widths |
| TableGenLayout.Visited | src/ansible_doc_extractor/table_gen.py:166-198 | The first visited option is the dict's first option at the walk's level; no option is visited above that level |
| TableGenLayout.AtDepth | src/ansible_doc_extractor/table_gen.py:166-198 | Helper for stating `VisitedTopLevel`, not a model of these lines: every item kept is at the given depth |
| TableGenLayout.AtDepthAppend | src/ansible_doc_extractor/table_gen.py:166-198 | Helper for proving `VisitedTopLevel`, not a model of these lines: selecting a depth distributes over concatenation |
| TableGenLayout.VisitedTopLevel | src/ansible_doc_extractor/table_gen.py:171-188 | The options visited at the walk's own level are the dict's keys, in order |
| TableGenLayout.FirstOptionSubsSkipped | src/ansible_doc_extractor/table_gen.py:171-178 | Whatever the first option holds, only its own row is made for it; the rest of the walk is unchanged |
| TableGenLayout.Blocks | src/ansible_doc_extractor/table_gen.py:109-149 | One well-formed block of rows per visited option |
| TableGenLayout.Layout | src/ansible_doc_extractor/table_gen.py:151-198 | A non-empty layout ends in a spacer at the last option's depth |
| TableGenLayout.LayoutComplete | src/ansible_doc_extractor/table_gen.py:109-149 | Every row in the layout has its indent and three content cells |
| TableGenLayout.LayoutAppend | src/ansible_doc_extractor/table_gen.py:151-164 | Laying out two runs of options is laying out the first, raising its last spacer to the second's depth, then the second |
| TableGenLayout.Measured | src/ansible_doc_extractor/table_gen.py:116-135 | Measuring never narrows a column |
| TableGenLayout.MeasuredAppend | src/ansible_doc_extractor/table_gen.py:116-135 | Measuring two runs of options one after the other is measuring them together |
| TableGenLayout.WalkLayout | src/ansible_doc_extractor/table_gen.py:166-198 | The walk appends the layout of the visited options and measures each of them |
| TableGenLayout.BuiltLayout | src/ansible_doc_extractor/table_gen.py:200-215 | The list is `-` spacer, header row, `=` spacer, then the layout of every visited option; the widths are the header's measure, then every option's |
| TableGenLayout.LayoutLength | src/ansible_doc_extractor/table_gen.py:109-164 | The layout has two nodes per option, three for a required one |
| TableGenLayout.TableLength | src/ansible_doc_extractor/table_gen.py:200-222 | The table has three header lines plus two per visited option (three when required); with no data it has three lines |
| TableGenLayout.MeasuredCovers | src/ansible_doc_extractor/table_gen.py:116-135 | The measured widths cover every visited option's name, choices text and `len` of its description's first item |
| TableGenLayout.MeasuredTight | src/ansible_doc_extractor/table_gen.py:116-135 | Each measured width is its start or some option's own measure |
| TableGenLayout.HeaderWidths | src/ansible_doc_extractor/table_gen.py:205-212 | Columns are at least 10, 16 and 7 wide, and no narrower than before the call |
| TableGenLayout.LayoutSpacers | src/ansible_doc_extractor/table_gen.py:151-164 | In a layout every spacer sits at the deeper of the depths of the rows around it |
| TableGenLayout.TableSpacers | src/ansible_doc_extractor/table_gen.py:151-215 | In the finished list every spacer after the head spacer sits at the deeper of the depths of the rows around it |
| TableGenLayout.RowFits | src/ansible_doc_extractor/table_gen.py:39-58 | A row that fits the widths renders at full width |
| TableGenLayout.ItemRowsFit | src/ansible_doc_extractor/table_gen.py:109-149 | A measured option's rows fit the widths when its description starts with a string and its required row fits |
| TableGenLayout.LayoutAligned | src/ansible_doc_extractor/table_gen.py:39-82 | A layout of fitting blocks renders at full width |
| TableGenLayout.HeaderAligned | src/ansible_doc_extractor/table_gen.py:203-212 | The header block renders at full width |
| TableGenLayout.TableAligned | src/ansible_doc_extractor/table_gen.py:200-222 | When every description starts with a string and every `required` row fits the first column, every line of the table is `max_param_len + max_cho_def_len + max_comment_len + 10` long |
| TableGenLayout.RenderAligned | src/ansible_doc_extractor/table_gen.py:216-222 | Rendering a list that fits the widths gives lines all of full width |
| TableBuilder.KeyLengths | src/ansible_doc_extractor/table_builder.py:31-41 | Measuring one key never lowers a maximum |
| TableBuilder.SetLengths | src/ansible_doc_extractor/table_builder.py:26-41 | Measuring an option spec never lowers a maximum |
| TableBuilder.MeasureTable | src/ansible_doc_extractor/table_builder.py:80-83 | The measuring loop of `build_table` never lowers a maximum |
| TableBuilder.Column | src/ansible_doc_extractor/table_builder.py:49-54 | Definition, with no contract of its own: the bytes repr of the padded, UTF-8 encoded cell. `ColumnShape` gives its text and length |
| TableBuilder.Row | src/ansible_doc_extractor/table_builder.py:44-55 | Definition, with no contract of its own: `"| {} | {} | {} |"` around the three columns under the current maxima. `RowWidth` gives its length |
| TableBuilder.Spacer | src/ansible_doc_extractor/table_builder.py:85-95 | Definition, with no contract of its own: three fills of `max + 5` characters between four `+`. `SpacerShape` and `SpacersAgree` state its shape |
| TableBuilder.HeaderRow | src/ansible_doc_extractor/table_builder.py:98 | Definition, with no contract of its own: the row of "Parameters", "Choices/Defaults" and "Comments". `HeaderWidth` says when it matches the spacers |
| TableBuilder.TableBuilt | src/ansible_doc_extractor/table_builder.py:71-101 | Definition, with no contract of its own. The maxima, list and result of `build_table`: measuring, then spacer, header and header spacer, then `table_builder`. `TableBuiltRows` and `FreshTable` state the outcome |
| TableBuilder.Drawn | src/ansible_doc_extractor/table_builder.py:63-64 | One drawn string per line |
| TableBuilder.OptionRow | src/ansible_doc_extractor/table_builder.py:61-63 | An option yields its row exactly when it is a dict whose description's first item is a string; a non-dict raises AttributeError and a missing description KeyError; the row holds the name, choices and first description item |
| TableBuilder.Globals.constructor | src/ansible_doc_extractor/table_builder.py:21-25 | The list is empty and the maxima are 0 |
| TableBuilder.Globals.SetTableLengths | src/ansible_doc_extractor/table_builder.py:26-41 | The maxima and the exception become `SetLengths` of the old maxima; the list is unchanged |
| TableBuilder.Globals.SetKeyLengths | src/ansible_doc_extractor/table_builder.py:31-41 | The maxima and the exception become `KeyLengths` of the old maxima; the list is unchanged |
| TableBuilder.Globals.RowBuilder | src/ansible_doc_extractor/table_builder.py:44-55 | The row of the three cells under the current maxima |
| TableBuilder.Globals.TableBuilder | src/ansible_doc_extractor/table_builder.py:58-68 | The list and the exception become `OptionsRows` of the old list; the maxima are unchanged |
| TableBuilder.Globals.OptionRowsOf | src/ansible_doc_extractor/table_builder.py:60-68 | One round of the loop: the list and the exception become `OptionRows` of the old list |
| TableBuilder.Globals.MeasureOptions | src/ansible_doc_extractor/table_builder.py:80-83 | The maxima and the exception become `MeasureTable` of the old maxima; the list is unchanged |
| TableBuilder.Globals.BuildTable | src/ansible_doc_extractor/table_builder.py:71-101 | The maxima, the list and the result become those of `TableBuilt` from the old globals |
| TableBuilderProps.SetLengthsCovers | src/ansible_doc_extractor/table_builder.py:26-41 | A measuring pass that raises nothing leaves maxima covering every key of the spec, through `suboptions` |
| TableBuilderProps.CoveredGrows | src/ansible_doc_extractor/table_builder.py:26-41 | Helper for proving `SetLengthsCovers`, not a model of these lines: coverage survives larger maxima |
| TableBuilderProps.MeasureTableCovers | src/ansible_doc_extractor/table_builder.py:80-83 | After the measuring loop every top-level name fits the first column and every top-level spec is covered |
| TableBuilderProps.DescriptionAsName | src/ansible_doc_extractor/table_builder.py:32-41 | A `description` whose first item does not widen the comment column is measured as a parameter name of 11 characters |
| TableBuilderProps.NestedNamesUnmeasured | src/ansible_doc_extractor/table_builder.py:37-39 | The names of nested options are not measured: renaming the options under `suboptions`, with the same specs in the same order, gives the same maxima and the same exception |
| TableBuilderProps.NestedNameUnmeasured | src/ansible_doc_extractor/table_builder.py:37-41 | One instance of `NestedNamesUnmeasured`, adding no coverage of its own: a 20-character nested name leaves the first column at 11 |
| TableBuilderProps.ExpectedAppend | src/ansible_doc_extractor/table_builder.py:63-64 | The expected lines of two runs of options are the first run's then the second's |
| TableBuilderProps.OptionsLinesRender | src/ansible_doc_extractor/table_builder.py:58-68 | `table_builder` raises nothing exactly when every option in pre-order is a described dict |
| TableBuilderProps.OptionsLinesOrder | src/ansible_doc_extractor/table_builder.py:58-68 | Without an exception, `table_builder` appends each option's row and the spacer, in pre-order through `suboptions` |
| TableBuilderProps.OptionsRowsDrawn | src/ansible_doc_extractor/table_builder.py:58-68 | `table_builder` appends the drawing of those lines and raises where they raise |
| TableBuilderProps.TableBuiltRows | src/ansible_doc_extractor/table_builder.py:71-101 | `build_table` raises exactly when measuring raises or some option, at any depth, fails to render. When measuring raises, the list is unchanged; when an option fails to render, the list keeps its old lines and gains the header block and the rows drawn so far; without an exception those rows are the rows of every option in pre-order |
| TableBuilderProps.FreshTable | src/ansible_doc_extractor/table_builder.py:71-101 | From the globals at import, a `build_table` that raises nothing returns spacer, header, header spacer, then the drawing of every option in pre-order |
| TableBuilderProps.ExpectedAt | src/ansible_doc_extractor/table_builder.py:63-64 | Line 2j is option j's row and line 2j + 1 the spacer |
| TableBuilderProps.DrawnAt | src/ansible_doc_extractor/table_builder.py:63-64 | A drawn option line is `row_builder` of its name, choices text and description; a spacer line is the spacer |
| TableBuilderProps.SingleOption | src/ansible_doc_extractor/table_builder.py:66-68 | A single-option dict is handled by one round of the loop, as the nested call relies on |
| TableBuilderProps.ColumnShape | src/ansible_doc_extractor/table_builder.py:49-52 | A plain cell is shown as `b'...'` around the padded text, `width + 3` long plus twice its excess |
| TableBuilderProps.SpacerShape | src/ansible_doc_extractor/table_builder.py:85-95 | A spacer is `P + D + C + 19` long, with `+` at both ends and between the segments and the fill character elsewhere |
| TableBuilderProps.SpacersAgree | src/ansible_doc_extractor/table_builder.py:87-95 | The header spacer and the row spacer have the same length and their `+` at the same places |
| TableBuilderProps.RowWidth | src/ansible_doc_extractor/table_builder.py:44-55 | A row of plain cells is as long as a spacer plus twice each column's excess |
| TableBuilderProps.HeaderWidth | src/ansible_doc_extractor/table_builder.py:97-99 | The header row is as long as the spacers exactly when the columns are at least 10, 16 and 8 wide |
| Cli.EnsureList | src/ansible_doc_extractor/cli.py:41-44 | The result is a list; a list is returned as it is, anything else as the one-item list of it |
| Cli.EnsureListIdempotent | src/ansible_doc_extractor/cli.py:41-44 | `ensure_list` twice is `ensure_list` once |
| Cli.Convert | src/ansible_doc_extractor/cli.py:47-54 | A non-dict raises AttributeError and is left as it is; a dict keeps its keys |
| Cli.ConvertFrom | src/ansible_doc_extractor/cli.py:48-54 | The loop keeps the dict's keys |
| Cli.ConvertDefinition | src/ansible_doc_extractor/cli.py:49-54 | A definition stays a dict or non-dict, a dict keeps its keys, and a non-dict is never changed |
| Cli.Describe | src/ansible_doc_extractor/cli.py:49-50 | On a dict the description becomes `ensure_list` of itself and every other key reads the same; anything else raises TypeError |
| Cli.Descend | src/ansible_doc_extractor/cli.py:51-54 | Converting the nested options under a key keeps the keys and leaves every other key as it was |
| Cli.ConvertDescriptions | src/ansible_doc_extractor/cli.py:47-54 | The loop leaves the tree and the exception that `Convert` gives |
| Cli.ConvertOneDefinition | src/ansible_doc_extractor/cli.py:49-54 | One round leaves the definition and the exception that `ConvertDefinition` gives |
| Cli.ConvertNested | src/ansible_doc_extractor/cli.py:51-54 | The nested call leaves the definition and the exception that `Descend` gives |
| Cli.Split | src/ansible_doc_extractor/cli.py:78 | `split(".")` gives at least one part, no part holds a dot, and joining the parts with dots gives the string back |
| Cli.SelectName | src/ansible_doc_extractor/cli.py:74-79 | A doc with `module` is named by it and gets `plugin_type` "module"; otherwise a missing `name` raises KeyError, a non-string one AttributeError, and the page is named by the last dotted part of `name`, stored as `module`; no key is lost, and every key but the one written reads as before |
| CliProps.Normalized | src/ansible_doc_extractor/cli.py:47-54 | The normal form of a tree keeps dicts as dicts with the same keys |
| CliProps.NormalDefinition | src/ansible_doc_extractor/cli.py:49-54 | The normal form of a definition keeps its keys and leaves a non-dict alone |
| CliProps.NormalizedListed | src/ansible_doc_extractor/cli.py:47-54 | In the normal form every description, at any depth through `suboptions` and `contains`, is a list |
| CliProps.ListedFixed | src/ansible_doc_extractor/cli.py:41-54 | A tree whose descriptions are all lists is its own normal form |
| CliProps.ListedIffNormal | src/ansible_doc_extractor/cli.py:41-54 | A tree is in normal form exactly when all its descriptions are lists, and normalising twice is normalising once |
| CliProps.ConvertSucceeds | src/ansible_doc_extractor/cli.py:47-54 | `convert_descriptions` raises nothing exactly when the tree is `Convertible` |
| CliProps.DefinitionSucceeds | src/ansible_doc_extractor/cli.py:49-54 | One round raises nothing exactly when the definition is convertible |
| CliProps.StagedStep | src/ansible_doc_extractor/cli.py:50-54 | Writing a normalised field into a partly normalised definition normalises one more field |
| CliProps.DescribedStaged | src/ansible_doc_extractor/cli.py:49-50 | The description step of a round normalises the description field and nothing else |
| CliProps.DescendNormalizes | src/ansible_doc_extractor/cli.py:51-54 | Converting the nested options under a key that raises nothing normalises that field |
| CliProps.DefinitionNormalizes | src/ansible_doc_extractor/cli.py:49-54 | One round that raises nothing leaves the normal form of the definition |
| CliProps.ConvertNormalizes | src/ansible_doc_extractor/cli.py:47-54 | On a tree with distinct keys, a `convert_descriptions` that raises nothing leaves exactly `Normalized` of it |
| CliProps.ConvertIdempotent | src/ansible_doc_extractor/cli.py:47-54 | Converting a converted tree again raises nothing and changes nothing |
| CliProps.LastPart | src/ansible_doc_extractor/cli.py:78 | `split(".")[-1]` is the text after the last dot, or the whole string when it has no dot |
| CliProps.SelectNameStable | src/ansible_doc_extractor/cli.py:74-79 | Applying the rule to a doc it has named gives the same name again |
| PyValue.Truthy | src/ansible_doc_extractor/table_gen.py:123 | Definition, with no contract of its own: Python truthiness. None, False, 0 and empty strings, lists and dicts are false |
| PyValue.EqualsTrue | src/ansible_doc_extractor/table_gen.py:138 | Definition, with no contract of its own: `v == True`, which holds for `True` and for `1` |
| PyValue.Subscript0 | src/ansible_doc_extractor/table_gen.py:132 | `v[0]` succeeds exactly on a non-empty list or string. Otherwise it raises IndexError on an empty one, KeyError on a dict and TypeError on anything else |
| PyValue.Len | src/ansible_doc_extractor/table_gen.py:133 | `len(v)` succeeds exactly on strings, lists and dicts, and raises TypeError on anything else |
| PyValue.PyStr | src/ansible_doc_extractor/table_gen.py:124 | Definition, with no contract of its own: `str(v)`. A string is itself; anything else is its `repr` (simplified, see Left out). `ReprLonger` bounds it |
| PyValue.Repr | src/ansible_doc_extractor/table_gen.py:124 | Definition, with no contract of its own: `repr` of None, bools, ints, strings, and lists and dicts shown item by item with `, ` between items |
| PyValue.Encode | src/ansible_doc_extractor/table_builder.py:50-52 | `s.encode('UTF-8')` is a sequence of bytes, each below 256. `Utf8` gives one to four bytes per character, with an ASCII character as its own code. `PlainEncode` proves plain text encodes to itself |
| PyValue.BytesRepr | src/ansible_doc_extractor/table_builder.py:54 | Definition, with no contract of its own: the repr of a bytes value, `b` and a quote around the escaped bytes. `PlainRepr` gives it for plain text |
| PyValue.Lower | src/ansible_doc_extractor/table_builder.py:32 | `k.lower()` keeps the length; only ASCII letters are folded (see Left out) |
| PyValue.GetItem | src/ansible_doc_extractor/cli.py:50 | `v[k]` succeeds exactly when v is a dict holding k, and reads its value; otherwise KeyError on a dict, TypeError on anything else |
| PyValue.GetOr | src/ansible_doc_extractor/table_builder.py:61 | `v.get(k, default)` on a dict reads k or gives the default; anything else has no `get` |
| PyValue.Contains | src/ansible_doc_extractor/cli.py:49 | `k in v` is key membership on a dict, item membership on a list and substring on a string; it raises on None, bools and ints |
| PyValue.SetItem | src/ansible_doc_extractor/cli.py:50 | After `d[k] = v`, k reads v, every other key reads as before, and a new key goes at the end |
| PyValue.SetItemReads | src/ansible_doc_extractor/cli.py:50 | The same, stated through the `get` of the dict |
| PyValue.ReprLonger | src/ansible_doc_extractor/table_gen.py:124 | `str` of a list or a dict has more characters than the list or dict has items |
| PyValue.PlainRepr | src/ansible_doc_extractor/table_builder.py:50-54 | The bytes repr of a plain string is the string between `b'` and `'` |

## Left out

- Logging, file output, argparse, Jinja templates, `rst_ify`, YAML loading and
  `plugin_docs.get_docstring` in `cli.py` are not modelled. The rest of
  `render_module_docs` is left out as well, apart from the naming rule.
- `table_gen.py`'s `max_level` field is not modelled; no output depends on it.
  Node identity is not modelled either: the linked list is a sequence in
  list order. `prev_node`/`next_node` linkage is captured by that order and
  by `Linked`.
- TableGen.Table.BuildRow, BuildRowDll, BuildTable: inputs on which `table_gen.py`
  raises are excluded by the preconditions `OptionOk`, `Walkable` and
  `TableInput`. These say what the walk needs: an option dict with the keys it
  reads, and a non-empty dict wherever `options[0]` is read. The exception
  paths are not modelled.
- TableGen.Table.BuildRow: a cell keeps `str()` of its content rather than the
  object, since only `str()` of a cell is ever read.
- Dict keys are strings only. A non-string key, such as YAML's `1:`, raises in
  the source and this error is not modelled. It would make `k.lower()` raise
  AttributeError at `table_builder.py:32`, and `len(param)` raise TypeError at
  `table_gen.py:117` and `table_builder.py:50`.
- TableBuilder.Globals.BuildTable: returns the contents of the global list
  as a value. The source returns the module-global `table` list itself.
  Later calls therefore extend a list that an earlier call returned. This
  sharing is not modelled; only the global's contents are.
- `IncorrectCellTypeException` is the error `IncorrectCellType` of `NewCell`.
  The rows the table makes always use the four cell types.
- PyValue.Repr is a simplified `str()` of lists and dicts. It has no escaping
  of quotes or control characters, no choice between single and double quotes,
  and no floats.
- PyValue.Lower folds ASCII letters only; Python's `str.lower` folds all of
  Unicode.
- Dict keys are assumed distinct where it matters: `CliProps.ConvertNormalizes`
  and `CliProps.ConvertIdempotent` require `WellFormed`. A Python dict cannot
  hold a key twice, but the value model can.
- `convert_descriptions` is modelled on values. The tree is returned as the
  in-place updates leave it. Sharing is not modelled: if one sub-dict is
  reachable twice in a Python tree, it is converted twice in place.
- The nested `table_builder({option: ...}, row_spacer)` call is modelled as the
  loop body `OptionRowsOf` on that one option. `TableBuilderProps.SingleOption`
  proves the two agree.
- The measuring loop of `table_builder.build_table` is the separate method
  `MeasureOptions`. The round of `convert_descriptions` is the separate
  method `ConvertOneDefinition`. Its two nested-call branches are
  `ConvertNested`.
- The UTF-8 encoding in `row_builder` is modelled. Its `repr` is proved only
  for printable ASCII without quotes or backslashes (`PlainChar`), and the
  width lemmas about drawn rows assume plain cells.
