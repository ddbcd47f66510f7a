/**
 * The linked-list table renderer of table_gen.py.
 *
 * `Table` walks an options tree once, appending row nodes and `-` spacer
 * nodes to a list while it keeps three running column widths, and then
 * renders every node with the final widths. The doubly-linked list of the
 * source is the sequence `nodes`: every node is appended at its tail, and
 * the back-patch of `_add_spacer` is an update of an earlier element.
 *
 * The functions `Step`, `Walk` and `WalkRest` state what `_build_row_dll`
 * does, call for call, on values; the methods of `Table` are proved to
 * follow them. TableGenLayout relates them to a reference layout.
 */
module TableGen {
  import opened Wrappers
  import opened Text
  import opened PyValue

  /** The members of the CELL_TYPE enum. */
  datatype CellType = INDENT | PARAM | CHO_DEF | COMMENT

  /** What a caller hands to `Cell(content, cell_type)` as the type: a CELL_TYPE member or any other object. */
  datatype CellTypeArg = Member(cellType: CellType) | Other(name: string)

  datatype Cell = Cell(content: string, cellType: CellType)

  datatype CellError = IncorrectCellType(given: CellTypeArg)

  /** `Cell(content, cell_type)`: raises IncorrectCellTypeException unless the type is a CELL_TYPE member. */
  function NewCell(content: string, cellType: CellTypeArg): (r: Result<Cell, CellError>)
    ensures r.Ok? <==> cellType.Member?
    ensures r.Ok? ==> r.value.content == content && r.value.cellType == cellType.cellType
    ensures r.Err? ==> r.error == IncorrectCellType(cellType)
  {
    match cellType
    case Member(t) => Ok(Cell(content, t))
    case Other(_) => Err(IncorrectCellType(cellType))
  }

  /** A list node: a row of cells (leading INDENT cells, then three content cells) or a spacer. */
  datatype Node = RowNode(cells: seq<Cell>) | RowSpacerNode(spacerChar: char, level: nat)

  /** The three column widths `max_param_len`, `max_cho_def_len`, `max_comment_len`. */
  datatype Widths = Widths(param: nat, choDef: nat, comment: nat)

  predicate WidthsLe(a: Widths, b: Widths)
  {
    a.param <= b.param && a.choDef <= b.choDef && a.comment <= b.comment
  }

  /** Every row has its three content cells, which `RowNode.__str__` asserts. */
  predicate RowsComplete(nodes: seq<Node>)
  {
    forall k :: 0 <= k < |nodes| && nodes[k].RowNode? ==> |nodes[k].cells| >= 3
  }

  /** The shape of the list between calls of the walker: complete rows, a spacer at the tail. */
  predicate Linked(nodes: seq<Node>)
  {
    RowsComplete(nodes) && Tailed(nodes)
  }

  /** The list ends in a spacer, which the next option's rows are linked after. */
  predicate Tailed(nodes: seq<Node>)
  {
    |nodes| > 0 && nodes[|nodes| - 1].RowSpacerNode?
  }

  /** The nesting depth of a row: the number of its INDENT cells. */
  function Depth(n: Node): nat
    requires n.RowNode? && |n.cells| >= 3
  {
    |n.cells| - 3
  }

  // ---------------------------------------------------------------------------
  // Rendering: RowNode.__str__ and RowSpacerNode.__str__
  // ---------------------------------------------------------------------------

  /** The indent part of a row: `" {} |".format(cell)` for each indent cell. */
  function IndentText(cells: seq<Cell>): (r: string)
    ensures (forall i :: 0 <= i < |cells| ==> cells[i].content == " ") ==> |r| == 4 * |cells|
  {
    if cells == [] then ""
    else IndentText(cells[..|cells| - 1]) + " " + cells[|cells| - 1].content + " |"
  }

  /**
   * A row as `RowNode.__str__` renders it with widths p, c, m: the indent
   * segments, then the three content cells padded to their column, where
   * the first column is narrowed by the characters the indent used.
   */
  function RowText(cells: seq<Cell>, p: int, c: int, m: int): (r: string)
    requires |cells| >= 3
    ensures var k := |cells| - 3;
      |cells[k].content| + |IndentText(cells[..k])| <= p && |cells[k + 1].content| <= c && |cells[k + 2].content| <= m
      ==> |r| == p + c + m + 10
  {
    var k := |cells| - 3;
    var indent := IndentText(cells[..k]);
    "|" + indent + " " + Pad(cells[k].content, p - |indent|) + " | " + Pad(cells[k + 1].content, c)
      + " | " + Pad(cells[k + 2].content, m) + " |"
  }

  /** The indent part of a spacer: three fill characters and a `+` per level. */
  function SpacerIndent(ch: char, level: nat): (r: string)
    ensures |r| == 4 * level
  {
    if level == 0 then "" else SpacerIndent(ch, level - 1) + Repeat(ch, 3) + "+"
  }

  /**
   * A spacer as `RowSpacerNode.__str__` renders it with widths p, c, m. The
   * first fill is narrowed by the indent, and Python's `ch * n` gives the
   * empty string when n is negative.
   */
  function SpacerText(ch: char, level: nat, p: int, c: nat, m: nat): (r: string)
    ensures 4 * level <= p + 2 ==> |r| == p + c + m + 10
  {
    "+" + SpacerIndent(ch, level) + Repeat(ch, p - 4 * level + 2) + "+" + Repeat(ch, c + 2) + "+"
      + Repeat(ch, m + 2) + "+"
  }

  function NodeText(n: Node, w: Widths): string
    requires n.RowNode? ==> |n.cells| >= 3
  {
    match n
    case RowNode(cells) => RowText(cells, w.param, w.choDef, w.comment)
    case RowSpacerNode(ch, level) => SpacerText(ch, level, w.param, w.choDef, w.comment)
  }

  /** The lines `build_table` collects: every node rendered with the same widths. */
  function Render(nodes: seq<Node>, w: Widths): (lines: seq<string>)
    requires RowsComplete(nodes)
    ensures |lines| == |nodes|
  {
    seq(|nodes|, k requires 0 <= k < |nodes| => NodeText(nodes[k], w))
  }

  /** `RowNode.__str__`. */
  method RenderRow(cells: seq<Cell>, maxParamLen: int, maxChoDefLen: int, maxCommentLen: int)
    returns (rowStr: string)
    requires |cells| >= 3
    ensures rowStr == RowText(cells, maxParamLen, maxChoDefLen, maxCommentLen)
  {
    rowStr := "|";
    var indentCnt := |cells| - 3;
    var paramLen := maxParamLen;
    for i := 0 to indentCnt
      invariant rowStr == "|" + IndentText(cells[..i])
      invariant paramLen == maxParamLen - |IndentText(cells[..i])|
    {
      var indentCellStr := " " + cells[i].content + " |";
      assert cells[..i + 1][..i] == cells[..i];
      rowStr := rowStr + indentCellStr;
      paramLen := paramLen - |indentCellStr|;
    }
    var param := cells[indentCnt].content;
    var choDef := cells[indentCnt + 1].content;
    var comment := cells[indentCnt + 2].content;
    rowStr := rowStr + " " + Pad(param, paramLen) + " | " + Pad(choDef, maxChoDefLen) + " | "
      + Pad(comment, maxCommentLen) + " |";
  }

  /** `RowSpacerNode.__str__`. */
  method RenderSpacer(spacerChar: char, level: nat, maxParamLen: int, maxChoDefLen: nat, maxCommentLen: nat)
    returns (rowSpacer: string)
    ensures rowSpacer == SpacerText(spacerChar, level, maxParamLen, maxChoDefLen, maxCommentLen)
  {
    rowSpacer := "+";
    var paramLen := maxParamLen;
    for i := 0 to level
      invariant rowSpacer == "+" + SpacerIndent(spacerChar, i)
      invariant paramLen == maxParamLen - 4 * i
    {
      var indentSpacer := Repeat(spacerChar, 3);
      rowSpacer := rowSpacer + indentSpacer + "+";
      paramLen := paramLen - (|indentSpacer| + 1);
    }
    rowSpacer := rowSpacer + Repeat(spacerChar, paramLen + 2) + "+" + Repeat(spacerChar, maxChoDefLen + 2) + "+"
      + Repeat(spacerChar, maxCommentLen + 2) + "+";
  }

  /**
   * The last loop of `Table.build_table`: from the head node along the
   * `next_node` links, each node's text with the table's widths.
   */
  method RenderTable(nodes: seq<Node>, w: Widths) returns (table: seq<string>)
    requires RowsComplete(nodes)
    ensures table == Render(nodes, w)
  {
    var headNode := 0;
    table := [];
    while headNode < |nodes|
      invariant headNode <= |nodes| && |table| == headNode
      invariant forall k :: 0 <= k < headNode ==> table[k] == NodeText(nodes[k], w)
    {
      var line := RenderNode(nodes[headNode], w.param, w.choDef, w.comment);
      table := table + [line];
      headNode := headNode + 1;
    }
  }

  /** `node.__str__(...)`, dispatched on the node's class. */
  method RenderNode(n: Node, maxParamLen: nat, maxChoDefLen: nat, maxCommentLen: nat) returns (line: string)
    requires n.RowNode? ==> |n.cells| >= 3
    ensures line == NodeText(n, Widths(maxParamLen, maxChoDefLen, maxCommentLen))
  {
    match n
    case RowNode(cells) =>
      line := RenderRow(cells, maxParamLen, maxChoDefLen, maxCommentLen);
    case RowSpacerNode(ch, level) =>
      line := RenderSpacer(ch, level, maxParamLen, maxChoDefLen, maxCommentLen);
  }

  // ---------------------------------------------------------------------------
  // Building rows: Table._build_row and Table._add_spacer
  // ---------------------------------------------------------------------------

  function IndentCells(level: nat): (r: seq<Cell>)
    ensures |r| == level
    ensures forall i :: 0 <= i < level ==> r[i] == Cell(" ", INDENT)
  {
    seq(level, _ => Cell(" ", INDENT))
  }

  /**
   * What `_build_row` needs of an option's value to run without raising: a
   * dict, whose truthy description has a first item (`description[0]`)
   * that `len` accepts.
   */
  predicate OptionOk(spec: Value)
  {
    var d := PyGet(spec, "description");
    spec.Dict? && (Truthy(d) ==> Subscript0(d).Ok? && Len(Subscript0(d).value).Ok?)
  }

  /** The choices cell: `str(choices)` when choices is truthy, else "". */
  function ChoicesText(spec: Value): string
  {
    var v := PyGet(spec, "choices");
    if Truthy(v) then PyStr(v) else ""
  }

  /**
   * The comment cell: `str(description[0])` when the description is truthy,
   * else "". The cell keeps the item itself, and only its `str` is ever
   * used; the item may be a string, but also a list or a dict.
   */
  function DescriptionText(spec: Value): string
  {
    var d := PyGet(spec, "description");
    if Truthy(d) && Subscript0(d).Ok? then PyStr(Subscript0(d).value) else ""
  }

  /** The comment width the row asks for: `len(description[0])` when the description is truthy, else 0. */
  function DescriptionLen(spec: Value): nat
  {
    var d := PyGet(spec, "description");
    if Truthy(d) && Subscript0(d).Ok? && Len(Subscript0(d).value).Ok? then Len(Subscript0(d).value).value else 0
  }

  /** The description, when truthy, starts with a string: the usual shape of a module's documentation. */
  predicate StrDescription(spec: Value)
  {
    var d := PyGet(spec, "description");
    Truthy(d) ==> Subscript0(d).Ok? && Subscript0(d).value.Str?
  }

  /**
   * The comment cell is never shorter than the width it asks for, and it is
   * exactly as long when the description's first item is a string: `len` of
   * a list or a dict counts its items, while its `str` is longer.
   */
  lemma DescriptionMeasure(spec: Value)
    requires OptionOk(spec)
    ensures |DescriptionText(spec)| >= DescriptionLen(spec)
    ensures |DescriptionText(spec)| == DescriptionLen(spec) <==> StrDescription(spec)
  {
    var d := PyGet(spec, "description");
    if Truthy(d) {
      ReprLonger(Subscript0(d).value);
    }
  }

  /** A string first item is printed exactly as wide as it is measured. */
  lemma StrDescriptionMeasure(spec: Value)
    requires StrDescription(spec)
    ensures |DescriptionText(spec)| == DescriptionLen(spec)
  {
  }

  /**
   * A description whose first item is a list is accepted: the comment
   * column asks for its item count, 2, while the cell prints its `str`,
   * ten characters.
   */
  lemma ListDescription()
    ensures var spec := Dict([Entry("description", List([List([Str("a"), Str("b")])]))]);
      OptionOk(spec) && DescriptionLen(spec) == 2 && DescriptionText(spec) == "['a', 'b']"
  {
    var d := List([List([Str("a"), Str("b")])]);
    var spec := Dict([Entry("description", d)]);
    assert PyGet(spec, "description") == d;
    assert Repr(Str("a")) == "'a'" && Repr(Str("b")) == "'b'";
    assert ReprItems(List([Str("a"), Str("b")]), 1) == "'b'";
  }

  /** `data.get("required") == True`. */
  predicate IsRequired(spec: Value)
  {
    EqualsTrue(PyGet(spec, "required"))
  }

  function ContentRow(param: string, spec: Value, level: nat): Node
  {
    RowNode(IndentCells(level) + [Cell(param, PARAM), Cell(ChoicesText(spec), CHO_DEF), Cell(DescriptionText(spec), COMMENT)])
  }

  function RequiredRow(level: nat): Node
  {
    RowNode(IndentCells(level) + [Cell("required", PARAM), Cell(" ", CHO_DEF), Cell(" ", COMMENT)])
  }

  /**
   * The nodes `_build_row` appends for one option: its content row at the
   * given depth, followed by a `required` row at the same depth when the
   * option is required.
   */
  function RowNodes(param: string, spec: Value, level: nat): (r: seq<Node>)
    ensures |r| == if IsRequired(spec) then 2 else 1
    ensures forall k :: 0 <= k < |r| ==> r[k].RowNode? && |r[k].cells| == level + 3
  {
    [ContentRow(param, spec, level)] + if IsRequired(spec) then [RequiredRow(level)] else []
  }

  /**
   * The rows of one option: `level` indent cells of " " each, then the name,
   * the choices text and the first description paragraph; a required
   * option's second row carries "required", " ", " " after the same indent.
   */
  lemma RowNodesShape(param: string, spec: Value, level: nat)
    ensures var r := RowNodes(param, spec, level);
      && RowsComplete(r)
      && (forall k :: 0 <= k < |r| ==> Depth(r[k]) == level && forall i :: 0 <= i < level ==> r[k].cells[i] == Cell(" ", INDENT))
      && r[0].cells[level..] == [Cell(param, PARAM), Cell(ChoicesText(spec), CHO_DEF), Cell(DescriptionText(spec), COMMENT)]
      && (|r| == 2 ==> r[1].cells[level..] == [Cell("required", PARAM), Cell(" ", CHO_DEF), Cell(" ", COMMENT)])
  {
    var r := RowNodes(param, spec, level);
    assert r[0].cells[level..] == [Cell(param, PARAM), Cell(ChoicesText(spec), CHO_DEF), Cell(DescriptionText(spec), COMMENT)];
    if |r| == 2 {
      assert r[1] == RequiredRow(level);
      assert r[1].cells[level..] == [Cell("required", PARAM), Cell(" ", CHO_DEF), Cell(" ", COMMENT)];
    }
  }

  /**
   * The widths after `_build_row`: the name is measured with four extra
   * characters per level, the choices cell by its length, and the comment
   * by `len` of the description's first item.
   * The `required` row is not measured.
   */
  function RowWidths(w: Widths, param: string, spec: Value, level: nat): (r: Widths)
    ensures WidthsLe(w, r)
    ensures r.param >= |param| + 4 * level && r.choDef >= |ChoicesText(spec)| && r.comment >= DescriptionLen(spec)
    ensures r.param == w.param || r.param == |param| + 4 * level
    ensures r.choDef == w.choDef || r.choDef == |ChoicesText(spec)|
    ensures r.comment == w.comment || r.comment == DescriptionLen(spec)
  {
    Widths(Max(w.param, |param| + 4 * level), Max(w.choDef, |ChoicesText(spec)|),
           Max(w.comment, DescriptionLen(spec)))
  }

  /** `_add_spacer` is called right after a row, or a row and its `required` row, that follows a spacer. */
  predicate CanAddSpacer(nodes: seq<Node>)
  {
    |nodes| >= 2 &&
    (nodes[|nodes| - 2].RowSpacerNode? || (|nodes| >= 3 && nodes[|nodes| - 3].RowSpacerNode?))
  }

  /** The spacer `_add_spacer` back-patches: the one above the newest row, skipping a `required` row. */
  function UpperSpacer(nodes: seq<Node>): (u: nat)
    requires CanAddSpacer(nodes)
    ensures u < |nodes| && nodes[u].RowSpacerNode?
  {
    if nodes[|nodes| - 2].RowSpacerNode? then |nodes| - 2 else |nodes| - 3
  }

  /**
   * The list after `_add_spacer(level)`: a `-` spacer at the given level
   * appended, and the spacer above the newest row raised to that level if
   * it was lower.
   */
  function SpacerAdded(nodes: seq<Node>, level: nat): (r: seq<Node>)
    requires CanAddSpacer(nodes)
    ensures |r| == |nodes| + 1 && r[|nodes|] == RowSpacerNode('-', level)
    ensures var u := UpperSpacer(nodes);
      r[u] == RowSpacerNode(nodes[u].spacerChar, Max(nodes[u].level, level))
      && forall k :: 0 <= k < |nodes| && k != u ==> r[k] == nodes[k]
  {
    var u := UpperSpacer(nodes);
    nodes[u := RowSpacerNode(nodes[u].spacerChar, Max(nodes[u].level, level))] + [RowSpacerNode('-', level)]
  }

  // ---------------------------------------------------------------------------
  // Walking the tree: Table._build_row_dll
  // ---------------------------------------------------------------------------

  /** `data.get('suboptions')` is truthy. */
  predicate HasSub(spec: Value)
  {
    Truthy(PyGet(spec, "suboptions"))
  }

  function SubOptions(spec: Value): (r: Value)
    requires HasSub(spec)
    ensures spec decreases to r
    ensures PyGet(spec, "suboptions") == r
  {
    spec.entries[Find(spec.entries, "suboptions").value].value
  }

  /**
   * What `_build_row_dll` needs of the dict it walks to run without raising:
   * a non-empty dict (it reads `options[0]`) of option dicts, and the same of
   * the truthy suboptions it descends into, which are those of every option
   * but the first.
   */
  predicate Walkable(dict: Value)
    decreases dict
  {
    dict.Dict? && dict.entries != [] &&
    forall i :: 0 <= i < |dict.entries| ==>
      OptionOk(dict.entries[i].value) &&
      (i > 0 && HasSub(dict.entries[i].value) ==> Walkable(SubOptions(dict.entries[i].value)))
  }

  /**
   * The walker goes one level down below an option whose suboptions are a
   * truthy dict. A truthy suboptions value that is no dict makes it raise;
   * `Walkable` excludes that, and the functions below leave the list alone there.
   */
  predicate Descends(spec: Value)
  {
    HasSub(spec) && SubOptions(spec).Dict?
  }

  /** The list and the widths, as the walker leaves them. */
  datatype Build = Build(nodes: seq<Node>, widths: Widths)

  /** After a spacer, an option's rows leave the list ready for `_add_spacer`, which finds that spacer. */
  lemma RowsAfterSpacer(nodes: seq<Node>, param: string, spec: Value, level: nat)
    requires Tailed(nodes)
    ensures var grown := nodes + RowNodes(param, spec, level);
      CanAddSpacer(grown) && UpperSpacer(grown) == |nodes| - 1
  {
    var grown := nodes + RowNodes(param, spec, level);
    assert grown[|nodes| - 1] == nodes[|nodes| - 1];
  }

  /** An option's rows and the spacer after them keep the list complete and ending in a spacer. */
  lemma RowsLinked(nodes: seq<Node>, param: string, spec: Value, level: nat)
    requires Linked(nodes)
    ensures var grown := nodes + RowNodes(param, spec, level);
      CanAddSpacer(grown) && Linked(SpacerAdded(grown, level))
  {
    var rows := RowNodes(param, spec, level);
    var grown := nodes + rows;
    RowsAfterSpacer(nodes, param, spec, level);
    assert RowsComplete(grown) by {
      assert forall k :: |nodes| <= k < |grown| ==> grown[k] == rows[k - |nodes|];
    }
  }

  /** `_build_row` and then `_add_spacer` for one option. */
  function Step(b: Build, e: Entry, level: nat): (r: Build)
    requires Tailed(b.nodes)
    ensures Tailed(r.nodes) && WidthsLe(b.widths, r.widths)
  {
    RowsAfterSpacer(b.nodes, e.key, e.value, level);
    Build(SpacerAdded(b.nodes + RowNodes(e.key, e.value, level), level), RowWidths(b.widths, e.key, e.value, level))
  }

  /** The options of a dict, in order; nothing for any other value. */
  function Options(dict: Value): seq<Entry>
  {
    if dict.Dict? then dict.entries else []
  }

  /**
   * `_build_row_dll(tail, dict, level)`: the first option, then the rest of
   * the loop. On a value with no options the walker raises; `Walkable`
   * excludes that, and here it leaves the list alone.
   */
  function Walk(b: Build, dict: Value, level: nat): (r: Build)
    requires Tailed(b.nodes)
    ensures Tailed(r.nodes) && WidthsLe(b.widths, r.widths)
    decreases dict, 1, 0
  {
    if Options(dict) == [] then b else WalkRest(Step(b, Options(dict)[0], level), dict, level, 1)
  }

  /** The loop of `_build_row_dll` from option i on: each option, then its suboptions one level deeper. */
  function WalkRest(b: Build, dict: Value, level: nat, i: nat): (r: Build)
    requires Tailed(b.nodes)
    ensures Tailed(r.nodes) && WidthsLe(b.widths, r.widths)
    decreases dict, 0, |Options(dict)| - i
  {
    if i >= |Options(dict)| then b
    else
      var e := Options(dict)[i];
      WalkRest(Descend(Step(b, e, level), e.value, level), dict, level, i + 1)
  }

  /** After an option's row: the walk one level down into its suboptions, if it has any. */
  function Descend(b: Build, spec: Value, level: nat): (r: Build)
    requires Tailed(b.nodes)
    ensures Tailed(r.nodes) && WidthsLe(b.widths, r.widths)
    decreases spec, 2
  {
    if Descends(spec) then Walk(b, SubOptions(spec), level + 1) else b
  }

  /** The header's stand-in option: `{'description': ['Comment'], 'choices': 'Choices/Defaults'}`. */
  const HeadDict: Value := Dict([Entry("description", List([Str("Comment")])), Entry("choices", Str("Choices/Defaults"))])

  /** What `build_table` accepts without raising: no data at all, or a walkable options dict. */
  predicate TableInput(data: Value)
  {
    !Truthy(data) || Walkable(data)
  }

  /** The list `build_table` builds before any data: a `-` spacer, the header row, a `=` spacer. */
  function Header(w0: Widths): (r: Build)
    ensures Tailed(r.nodes) && WidthsLe(w0, r.widths)
  {
    Build([RowSpacerNode('-', 0)] + RowNodes("Parameters", HeadDict, 0) + [RowSpacerNode('=', 0)],
          RowWidths(w0, "Parameters", HeadDict, 0))
  }

  /** The list and widths `build_table(data)` renders, starting from widths w0. */
  function Built(w0: Widths, data: Value): (r: Build)
    requires TableInput(data)
    ensures Tailed(r.nodes) && WidthsLe(w0, r.widths)
  {
    if Truthy(data) then Walk(Header(w0), data, 0) else Header(w0)
  }

  /**
   * The table object. The widths are its fields; `nodes` is the list that
   * `build_table` links from its head node.
   */
  class Table {
    var maxParamLen: nat
    var maxChoDefLen: nat
    var maxCommentLen: nat
    var nodes: seq<Node>

    function CurrentWidths(): Widths
      reads this
    {
      Widths(maxParamLen, maxChoDefLen, maxCommentLen)
    }

    function State(): Build
      reads this
    {
      Build(nodes, CurrentWidths())
    }

    constructor ()
      ensures CurrentWidths() == Widths(0, 0, 0) && nodes == []
    {
      maxParamLen, maxChoDefLen, maxCommentLen := 0, 0, 0;
      nodes := [];
    }

    /** `_build_row`: append the option's row (and its `required` row) and widen the columns. */
    method BuildRow(param: string, data: Value, level: nat)
      requires OptionOk(data)
      modifies this
      ensures nodes == old(nodes) + RowNodes(param, data, level)
      ensures CurrentWidths() == RowWidths(old(CurrentWidths()), param, data, level)
    {
      var indentCells: seq<Cell> := [];
      for i := 0 to level
        invariant indentCells == IndentCells(i)
      {
        indentCells := indentCells + [Cell(" ", INDENT)];
      }
      var cells := indentCells;

      var paramLen := |param| + level * 4;
      if paramLen > maxParamLen {
        maxParamLen := paramLen;
      }
      cells := cells + [Cell(param, PARAM)];

      var choDef := "";
      if Truthy(PyGet(data, "choices")) {
        choDef := PyStr(PyGet(data, "choices"));
        if |choDef| > maxChoDefLen {
          maxChoDefLen := |choDef|;
        }
      }
      assert choDef == ChoicesText(data) && maxChoDefLen == Max(old(maxChoDefLen), |choDef|);
      cells := cells + [Cell(choDef, CHO_DEF)];

      var description := "";
      if Truthy(PyGet(data, "description")) {
        var item := Subscript0(PyGet(data, "description")).value;
        var itemLen := Len(item).value;
        if itemLen > maxCommentLen {
          maxCommentLen := itemLen;
        }
        description := PyStr(item);
      }
      assert description == DescriptionText(data) && maxCommentLen == Max(old(maxCommentLen), DescriptionLen(data));
      cells := cells + [Cell(description, COMMENT)];
      assert cells == IndentCells(level) + [Cell(param, PARAM), Cell(ChoicesText(data), CHO_DEF), Cell(DescriptionText(data), COMMENT)];
      nodes := nodes + [RowNode(cells)];

      if EqualsTrue(PyGet(data, "required")) {
        var requiredCells := indentCells + [Cell("required", PARAM), Cell(" ", CHO_DEF), Cell(" ", COMMENT)];
        nodes := nodes + [RowNode(requiredCells)];
        assert nodes == old(nodes) + [RowNode(cells), RowNode(requiredCells)];
        assert RowNodes(param, data, level) == [RowNode(cells), RowNode(requiredCells)];
      } else {
        assert RowNodes(param, data, level) == [RowNode(cells)];
      }
    }

    /** `_add_spacer`: append a `-` spacer and raise the spacer above the newest row to its level. */
    method AddSpacer(level: nat)
      requires CanAddSpacer(nodes)
      modifies this
      ensures nodes == SpacerAdded(old(nodes), level)
      ensures CurrentWidths() == old(CurrentWidths())
    {
      var upper := |nodes| - 2;
      if !nodes[upper].RowSpacerNode? {
        upper := upper - 1;
      }
      var levelDelta := level - nodes[upper].level;
      if levelDelta > 0 {
        nodes := nodes[upper := RowSpacerNode(nodes[upper].spacerChar, nodes[upper].level + levelDelta)];
      }
      nodes := nodes + [RowSpacerNode('-', level)];
    }

    /** `_build_row_dll`: walk one level of the tree, appending at the tail of the list. */
    method BuildRowDll(data: Value, level: nat)
      requires Walkable(data) && Linked(nodes)
      modifies this
      ensures Linked(nodes)
      ensures State() == Walk(old(State()), data, level)
      decreases data
    {
      var options := data.entries;
      ghost var start := State();
      BuildRow(options[0].key, options[0].value, level);
      RowsLinked(start.nodes, options[0].key, options[0].value, level);
      AddSpacer(level);
      assert State() == Step(start, options[0], level);

      for i := 1 to |options|
        invariant Linked(nodes)
        invariant WalkRest(State(), data, level, i) == Walk(start, data, level)
      {
        var param := options[i].key;
        var paramValDict := options[i].value;
        ghost var before := State();
        BuildRow(param, paramValDict, level);
        RowsLinked(before.nodes, param, paramValDict, level);
        AddSpacer(level);
        assert State() == Step(before, options[i], level);
        ghost var afterRow := State();
        if HasSub(paramValDict) {
          BuildRowDll(SubOptions(paramValDict), level + 1);
        }
        assert State() == Descend(afterRow, paramValDict, level);
      }
    }

    /** `build_table`: the header block, the walk over the data, then every node rendered. */
    method BuildTable(data: Value) returns (table: seq<string>)
      requires TableInput(data)
      modifies this
      ensures State() == Built(old(CurrentWidths()), data)
      ensures RowsComplete(nodes)
      ensures table == Render(nodes, CurrentWidths())
    {
      ghost var w0 := CurrentWidths();
      nodes := [RowSpacerNode('-', 0)];
      BuildRow("Parameters", HeadDict, 0);
      nodes := nodes + [RowSpacerNode('=', 0)];
      assert State() == Header(w0);
      if Truthy(data) {
        BuildRowDll(data, 0);
      }

      table := RenderTable(nodes, CurrentWidths());
    }
  }
}
