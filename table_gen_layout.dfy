/**
 * What `Table.build_table` produces, stated without the walker's loop: the
 * options in the order they are visited, the rows and spacers laid out for
 * them, and the widths measured over them. The theorem `WalkLayout` ties the
 * walker (`TableGen.Walk`, which the `Table` methods are proved against) to
 * this description; the remaining lemmas read properties of the finished
 * table off it.
 */
module TableGenLayout {
  import opened Text
  import opened PyValue
  import opened TableGen

  /** An option the walker visits: its name, its value and its depth. */
  datatype Item = Item(name: string, spec: Value, depth: nat)

  // ---------------------------------------------------------------------------
  // The visiting order
  // ---------------------------------------------------------------------------

  /**
   * The options `_build_row_dll(dict, level)` makes rows for, in order: the
   * first option, then every further option followed by its suboptions one
   * level deeper. The first option's suboptions are not visited.
   */
  function Visited(dict: Value, level: nat): (r: seq<Item>)
    ensures Options(dict) != [] ==>
      r != [] && r[0] == Item(Options(dict)[0].key, Options(dict)[0].value, level)
    ensures forall k :: 0 <= k < |r| ==> r[k].depth >= level
    decreases dict, 1, 0
  {
    if Options(dict) == [] then []
    else [Item(Options(dict)[0].key, Options(dict)[0].value, level)] + VisitedFrom(dict, level, 1)
  }

  /** The options visited by the loop of `_build_row_dll` from option i on. */
  function VisitedFrom(dict: Value, level: nat, i: nat): (r: seq<Item>)
    ensures forall k :: 0 <= k < |r| ==> r[k].depth >= level
    decreases dict, 0, |Options(dict)| - i
  {
    if i >= |Options(dict)| then []
    else
      var e := Options(dict)[i];
      [Item(e.key, e.value, level)] + SubItems(e.value, level)
        + VisitedFrom(dict, level, i + 1)
  }

  /** What the walk visits below an option that is not the first: its suboptions, if it has any. */
  function SubItems(spec: Value, level: nat): (r: seq<Item>)
    ensures forall k :: 0 <= k < |r| ==> r[k].depth > level
    decreases spec, 2
  {
    if Descends(spec) then Visited(SubOptions(spec), level + 1) else []
  }

  /** The options of a table: none for falsy data, else every visited option from depth 0. */
  function TableItems(data: Value): (r: seq<Item>)
    requires TableInput(data)
  {
    if Truthy(data) then Visited(data, 0) else []
  }

  function AtDepth(items: seq<Item>, d: nat): (r: seq<Item>)
    ensures forall k :: 0 <= k < |r| ==> r[k].depth == d
  {
    if items == [] then []
    else (if items[0].depth == d then [items[0]] else []) + AtDepth(items[1..], d)
  }

  lemma {:induction false} AtDepthAppend(a: seq<Item>, b: seq<Item>, d: nat)
    ensures AtDepth(a + b, d) == AtDepth(a, d) + AtDepth(b, d)
  {
    if a != [] {
      assert (a + b)[0] == a[0] && (a + b)[1..] == a[1..] + b;
      var h := if a[0].depth == d then [a[0]] else [];
      assert AtDepth(a + b, d) == h + AtDepth(a[1..] + b, d);
      assert AtDepth(a, d) == h + AtDepth(a[1..], d);
      AtDepthAppend(a[1..], b, d);
      assert h + (AtDepth(a[1..], d) + AtDepth(b, d)) == (h + AtDepth(a[1..], d)) + AtDepth(b, d);
    } else {
      assert a + b == b;
    }
  }

  lemma {:induction false} AtDepthNone(items: seq<Item>, d: nat)
    requires forall k :: 0 <= k < |items| ==> items[k].depth > d
    ensures AtDepth(items, d) == []
  {
    if items != [] {
      AtDepthNone(items[1..], d);
    }
  }

  function Names(items: seq<Item>): (r: seq<string>)
    ensures |r| == |items|
  {
    seq(|items|, k requires 0 <= k < |items| => items[k].name)
  }

  /**
   * The rows at the walk's own depth are the dict's options, every one of
   * them, in the dict's order; everything else it visits lies deeper.
   */
  lemma {:induction false} VisitedTopLevel(dict: Value, level: nat)
    requires Walkable(dict)
    ensures Names(AtDepth(Visited(dict, level), level)) == Keys(dict.entries)
    decreases dict, 1, 0
  {
    var e := dict.entries[0];
    var head := [Item(e.key, e.value, level)];
    var rest := VisitedFrom(dict, level, 1);
    calc {
      Names(AtDepth(Visited(dict, level), level));
      { AtDepthAppend(head, rest, level);
        assert AtDepth(head, level) == head; }
      Names(head + AtDepth(rest, level));
      { NamesCons(head[0], AtDepth(rest, level)); }
      [e.key] + Names(AtDepth(rest, level));
      { VisitedFromTopLevel(dict, level, 1); }
      [e.key] + Keys(dict.entries)[1..];
      Keys(dict.entries);
    }
  }

  lemma {:induction false} VisitedFromTopLevel(dict: Value, level: nat, i: nat)
    requires Walkable(dict) && 1 <= i <= |dict.entries|
    ensures Names(AtDepth(VisitedFrom(dict, level, i), level)) == Keys(dict.entries)[i..]
    decreases |dict.entries| - i
  {
    if i < |dict.entries| {
      var e := dict.entries[i];
      var head := [Item(e.key, e.value, level)];
      var subs := SubItems(e.value, level);
      var rest := VisitedFrom(dict, level, i + 1);
      calc {
        Names(AtDepth(VisitedFrom(dict, level, i), level));
        { assert VisitedFrom(dict, level, i) == head + subs + rest;
          AtDepthAppend(head + subs, rest, level);
          AtDepthAppend(head, subs, level);
          AtDepthNone(subs, level);
          assert AtDepth(head, level) == head; }
        Names(head + AtDepth(rest, level));
        { NamesCons(head[0], AtDepth(rest, level)); }
        [e.key] + Names(AtDepth(rest, level));
        { VisitedFromTopLevel(dict, level, i + 1); }
        [e.key] + Keys(dict.entries)[i + 1..];
        Keys(dict.entries)[i..];
      }
    }
  }

  lemma NamesCons(it: Item, items: seq<Item>)
    ensures Names([it] + items) == [it.name] + Names(items)
  {
    assert forall k :: 0 < k <= |items| ==> ([it] + items)[k] == items[k - 1];
  }

  /**
   * Whatever the first option holds, only its own row is made for it: the
   * rest of the walk is the same for any value of the first option.
   */
  lemma FirstOptionSubsSkipped(dict: Value, level: nat, v: Value)
    requires Walkable(dict) && OptionOk(v)
    ensures var other := Dict(dict.entries[0 := Entry(dict.entries[0].key, v)]);
      Walkable(other) && Visited(other, level) == [Item(dict.entries[0].key, v, level)] + Visited(dict, level)[1..]
  {
    var other := Dict(dict.entries[0 := Entry(dict.entries[0].key, v)]);
    assert Walkable(other) by {
      forall i | 0 <= i < |other.entries|
        ensures OptionOk(other.entries[i].value) &&
          (i > 0 && HasSub(other.entries[i].value) ==> Walkable(SubOptions(other.entries[i].value)))
      {
        if i > 0 {
          assert other.entries[i] == dict.entries[i];
        }
      }
    }
    VisitedFromSame(dict, other, level, 1);
  }

  lemma {:induction false} VisitedFromSame(a: Value, b: Value, level: nat, i: nat)
    requires Walkable(a) && Walkable(b) && 1 <= i <= |a.entries| == |b.entries|
    requires a.entries[1..] == b.entries[1..]
    ensures VisitedFrom(a, level, i) == VisitedFrom(b, level, i)
    decreases |a.entries| - i
  {
    if i < |a.entries| {
      assert a.entries[i] == a.entries[1..][i - 1] == b.entries[i];
      VisitedFromSame(a, b, level, i + 1);
    }
  }

  // ---------------------------------------------------------------------------
  // The layout of the list
  // ---------------------------------------------------------------------------

  /** The rows `_build_row` makes for one item, and the item's depth. */
  datatype Block = Block(rows: seq<Node>, depth: nat)

  /** One or more rows, each with `depth` indent cells before its three content cells. */
  predicate BlockOk(bk: Block)
  {
    bk.rows != [] && forall k :: 0 <= k < |bk.rows| ==> bk.rows[k].RowNode? && |bk.rows[k].cells| == bk.depth + 3
  }

  predicate BlocksOk(bs: seq<Block>)
  {
    forall k :: 0 <= k < |bs| ==> BlockOk(bs[k])
  }

  function BlockOf(it: Item): (bk: Block)
    ensures BlockOk(bk)
  {
    Block(RowNodes(it.name, it.spec, it.depth), it.depth)
  }

  function Blocks(items: seq<Item>): (bs: seq<Block>)
    ensures |bs| == |items| && BlocksOk(bs)
  {
    seq(|items|, k requires 0 <= k < |items| => BlockOf(items[k]))
  }

  lemma BlocksAppend(a: seq<Item>, b: seq<Item>)
    ensures Blocks(a + b) == Blocks(a) + Blocks(b)
  {
    assert forall k :: 0 <= k < |a + b| ==> (a + b)[k] == if k < |a| then a[k] else b[k - |a|];
  }

  /** The level of the spacer below block k: the deeper of its depth and the next block's. */
  function SpacerLevel(bs: seq<Block>, k: nat): nat
    requires k < |bs|
  {
    if k + 1 < |bs| then Max(bs[k].depth, bs[k + 1].depth) else bs[k].depth
  }

  /** Each block's rows, each followed by a `-` spacer at the deeper of the two depths around it. */
  function Layout(bs: seq<Block>): (r: seq<Node>)
    ensures bs != [] ==> r != [] && r[|r| - 1] == RowSpacerNode('-', bs[|bs| - 1].depth)
  {
    if bs == [] then []
    else bs[0].rows + [RowSpacerNode('-', SpacerLevel(bs, 0))] + Layout(bs[1..])
  }

  /** Blocks of complete rows lay out as complete rows. */
  lemma {:induction false} LayoutComplete(bs: seq<Block>)
    requires BlocksOk(bs)
    ensures RowsComplete(Layout(bs))
  {
    if bs != [] {
      var r := Layout(bs);
      var rows := bs[0].rows;
      var tail := Layout(bs[1..]);
      assert r == rows + [RowSpacerNode('-', SpacerLevel(bs, 0))] + tail;
      LayoutComplete(bs[1..]);
      assert BlockOk(bs[0]);
      forall k | 0 <= k < |r| && r[k].RowNode? ensures |r[k].cells| >= 3 {
        if k < |rows| {
          assert r[k] == rows[k];
        } else {
          assert r[k] == tail[k - |rows| - 1];
        }
      }
    }
  }

  /** The tail spacer raised to depth d, as `_add_spacer` does when a row at depth d follows it. */
  function Raise(nodes: seq<Node>, d: nat): (r: seq<Node>)
    requires Tailed(nodes)
    ensures |r| == |nodes| && r[..|nodes| - 1] == nodes[..|nodes| - 1] && Tailed(r)
  {
    var last := nodes[|nodes| - 1];
    nodes[|nodes| - 1 := RowSpacerNode(last.spacerChar, Max(last.level, d))]
  }

  /** The list after the walker has appended the blocks' rows to nodes. */
  function Attach(nodes: seq<Node>, bs: seq<Block>): (r: seq<Node>)
    requires Tailed(nodes)
    ensures Tailed(r)
  {
    if bs == [] then nodes else Raise(nodes, bs[0].depth) + Layout(bs)
  }

  /** The widths after `_build_row` has measured every item, in order. */
  function Measured(w: Widths, items: seq<Item>): (r: Widths)
    ensures WidthsLe(w, r)
    decreases |items|
  {
    if items == [] then w
    else Measured(RowWidths(w, items[0].name, items[0].spec, items[0].depth), items[1..])
  }

  lemma {:induction false} RaiseAppend(x: seq<Node>, y: seq<Node>, d: nat)
    requires y != [] && y[|y| - 1].RowSpacerNode?
    ensures Raise(x + y, d) == x + Raise(y, d)
  {
    assert (x + y)[|x + y| - 1] == y[|y| - 1];
  }

  /** Appending after a single block raises that block's spacer to the next block's depth. */
  lemma LayoutAppendOne(a: seq<Block>, b: seq<Block>)
    requires |a| == 1 && b != []
    ensures Raise(Layout(a), b[0].depth) + Layout(b) == Layout(a + b)
  {
    var ab := a + b;
    var d := b[0].depth;
    var rows := a[0].rows;
    var s := [RowSpacerNode('-', a[0].depth)];
    var s' := [RowSpacerNode('-', Max(a[0].depth, d))];
    assert ab[0] == a[0] && ab[1..] == b && a[1..] == [] && ab[1] == b[0];
    calc {
      Raise(Layout(a), d) + Layout(b);
      { assert Layout(a) == rows + s; }
      Raise(rows + s, d) + Layout(b);
      { RaiseAppend(rows, s, d); }
      (rows + s') + Layout(b);
      Layout(ab);
    }
  }

  lemma {:induction false} LayoutAppend(a: seq<Block>, b: seq<Block>)
    requires a != [] && b != []
    ensures Raise(Layout(a), b[0].depth) + Layout(b) == Layout(a + b)
  {
    if |a| == 1 {
      LayoutAppendOne(a, b);
    } else {
      var ab := a + b;
      var d := b[0].depth;
      var rows := a[0].rows;
      var s := [RowSpacerNode('-', SpacerLevel(a, 0))];
      assert ab[0] == a[0] && ab[1..] == a[1..] + b && ab[1] == a[1];
      var x := Raise(Layout(a[1..]), d);
      calc {
        Raise(Layout(a), d) + Layout(b);
        { assert Layout(a) == rows + s + Layout(a[1..]);
          RaiseAppend(rows + s, Layout(a[1..]), d); }
        (rows + s + x) + Layout(b);
        (rows + s) + (x + Layout(b));
        { LayoutAppend(a[1..], b); }
        (rows + s) + Layout(a[1..] + b);
        Layout(ab);
      }
    }
  }

  lemma {:induction false} AttachAppend(nodes: seq<Node>, a: seq<Block>, b: seq<Block>)
    requires Tailed(nodes)
    ensures Attach(Attach(nodes, a), b) == Attach(nodes, a + b)
  {
    if a == [] {
      assert a + b == b;
    } else if b == [] {
      assert a + b == a;
    } else {
      LayoutAppend(a, b);
      RaiseAppend(Raise(nodes, a[0].depth), Layout(a), b[0].depth);
      assert (a + b)[0] == a[0];
    }
  }

  lemma {:induction false} MeasuredAppend(w: Widths, a: seq<Item>, b: seq<Item>)
    ensures Measured(Measured(w, a), b) == Measured(w, a + b)
    decreases |a|
  {
    if a == [] {
      assert a + b == b;
    } else {
      assert (a + b)[0] == a[0] && (a + b)[1..] == a[1..] + b;
      MeasuredAppend(RowWidths(w, a[0].name, a[0].spec, a[0].depth), a[1..], b);
    }
  }

  /** One walker step appends exactly the layout of one item. */
  lemma StepAttach(b: Build, e: Entry, level: nat)
    requires Tailed(b.nodes)
    ensures var it := [Item(e.key, e.value, level)];
      Step(b, e, level) == Build(Attach(b.nodes, Blocks(it)), Measured(b.widths, it))
  {
    var it := [Item(e.key, e.value, level)];
    var rows := RowNodes(e.key, e.value, level);
    RowsAfterSpacer(b.nodes, e.key, e.value, level);
    var n := |b.nodes|;
    var last := b.nodes[n - 1];
    var raised := RowSpacerNode(last.spacerChar, Max(last.level, level));
    assert (b.nodes + rows)[n - 1 := raised] == b.nodes[n - 1 := raised] + rows;
    assert Blocks(it) == [Block(rows, level)];
    assert Layout(Blocks(it)) == rows + [RowSpacerNode('-', level)] + Layout([]);
  }

  /**
   * The walker's result: `_build_row_dll(tail, dict, level)` appends the
   * layout of the visited options and measures each of them.
   */
  lemma {:induction false} WalkLayout(b: Build, dict: Value, level: nat)
    requires Tailed(b.nodes)
    ensures var items := Visited(dict, level);
      Walk(b, dict, level) == Build(Attach(b.nodes, Blocks(items)), Measured(b.widths, items))
    decreases dict, 1, 0
  {
    if Options(dict) != [] {
      var e := Options(dict)[0];
      var it := [Item(e.key, e.value, level)];
      var b1 := Step(b, e, level);
      StepAttach(b, e, level);
      WalkRestLayout(b1, dict, level, 1);
      BuildChain(b, b1, WalkRest(b1, dict, level, 1), it, VisitedFrom(dict, level, 1), Visited(dict, level));
    }
  }

  lemma {:induction false} WalkRestLayout(b: Build, dict: Value, level: nat, i: nat)
    requires Tailed(b.nodes)
    ensures var items := VisitedFrom(dict, level, i);
      WalkRest(b, dict, level, i) == Build(Attach(b.nodes, Blocks(items)), Measured(b.widths, items))
    decreases dict, 0, |Options(dict)| - i
  {
    if i < |Options(dict)| {
      var e := Options(dict)[i];
      var b2 := Descend(Step(b, e, level), e.value, level);
      DescendLayout(b, e, level);
      WalkRestLayout(b2, dict, level, i + 1);
      BuildChain(b, b2, WalkRest(b2, dict, level, i + 1),
        [Item(e.key, e.value, level)] + SubItems(e.value, level), VisitedFrom(dict, level, i + 1),
        VisitedFrom(dict, level, i));
    }
  }

  /** An option's own row and then its suboptions' rows, as one step of the walker's loop appends them. */
  lemma {:induction false} DescendLayout(b: Build, e: Entry, level: nat)
    requires Tailed(b.nodes)
    ensures var front := [Item(e.key, e.value, level)] + SubItems(e.value, level);
      Descend(Step(b, e, level), e.value, level) == Build(Attach(b.nodes, Blocks(front)), Measured(b.widths, front))
    decreases e.value, 2
  {
    var it := [Item(e.key, e.value, level)];
    var subs := SubItems(e.value, level);
    var b1 := Step(b, e, level);
    StepAttach(b, e, level);
    if Descends(e.value) {
      WalkLayout(b1, SubOptions(e.value), level + 1);
    } else {
      assert Blocks(subs) == [];
    }
    BuildAppend(b, it, subs);
  }

  /** The layout of a run of items laid out after that of another, as one step of an induction. */
  lemma BuildChain(b: Build, b2: Build, b3: Build, a: seq<Item>, c: seq<Item>, ac: seq<Item>)
    requires Tailed(b.nodes) && ac == a + c
    requires b2 == Build(Attach(b.nodes, Blocks(a)), Measured(b.widths, a))
    requires b3 == Build(Attach(b2.nodes, Blocks(c)), Measured(b2.widths, c))
    ensures b3 == Build(Attach(b.nodes, Blocks(ac)), Measured(b.widths, ac))
  {
    BuildAppend(b, a, c);
  }

  /** Appending the layouts of two runs of items one after the other appends the layout of both. */
  lemma BuildAppend(b: Build, a: seq<Item>, c: seq<Item>)
    requires Tailed(b.nodes)
    ensures Build(Attach(Attach(b.nodes, Blocks(a)), Blocks(c)), Measured(Measured(b.widths, a), c))
      == Build(Attach(b.nodes, Blocks(a + c)), Measured(b.widths, a + c))
  {
    BlocksAppend(a, c);
    AttachAppend(b.nodes, Blocks(a), Blocks(c));
    MeasuredAppend(b.widths, a, c);
  }

  // ---------------------------------------------------------------------------
  // The finished table
  // ---------------------------------------------------------------------------

  /** The header row `build_table` makes for its stand-in option. */
  function HeaderRow(): Node
  {
    ContentRow("Parameters", HeadDict, 0)
  }

  lemma HeadDictFields()
    ensures OptionOk(HeadDict) && !IsRequired(HeadDict)
    ensures ChoicesText(HeadDict) == "Choices/Defaults" && DescriptionText(HeadDict) == "Comment"
    ensures DescriptionLen(HeadDict) == 7 && StrDescription(HeadDict)
  {
    assert PyGet(HeadDict, "required") == Null by {
      assert Keys(HeadDict.entries) == ["description", "choices"];
      PyGetMissing(HeadDict, "required");
    }
    assert PyGet(HeadDict, "choices") == Str("Choices/Defaults") by {
      assert HeadDict.entries[1] == Entry("choices", Str("Choices/Defaults"));
    }
  }

  /**
   * `build_table(data)`: a `-` spacer, the header row and a `=` spacer, then
   * the layout of every visited option; the widths are those measured over
   * the header and then over every visited option.
   */
  lemma BuiltLayout(w0: Widths, data: Value)
    requires TableInput(data)
    ensures var items := TableItems(data);
      && Built(w0, data).nodes == [RowSpacerNode('-', 0), HeaderRow(), RowSpacerNode('=', 0)] + Layout(Blocks(items))
      && Built(w0, data).widths == Measured(RowWidths(w0, "Parameters", HeadDict, 0), items)
    ensures RowsComplete(Built(w0, data).nodes)
  {
    HeadDictFields();
    var head := Header(w0);
    assert RowNodes("Parameters", HeadDict, 0) == [HeaderRow()];
    assert head.nodes == [RowSpacerNode('-', 0), HeaderRow(), RowSpacerNode('=', 0)];
    if Truthy(data) {
      WalkLayout(head, data, 0);
      assert Raise(head.nodes, 0) == head.nodes;
    } else {
      assert Blocks(TableItems(data)) == [];
    }
    var ns := Built(w0, data).nodes;
    var l := Layout(Blocks(TableItems(data)));
    LayoutComplete(Blocks(TableItems(data)));
    forall k | 0 <= k < |ns| && ns[k].RowNode? ensures |ns[k].cells| >= 3 {
      if k >= 3 {
        assert ns[k] == l[k - 3];
      }
    }
  }

  /** The number of list nodes an item takes: its row, a `required` row when required, and a spacer. */
  function NodeCount(items: seq<Item>): (n: nat)
  {
    if items == [] then 0 else (if IsRequired(items[0].spec) then 3 else 2) + NodeCount(items[1..])
  }

  lemma {:induction false} LayoutLength(items: seq<Item>)
    ensures |Layout(Blocks(items))| == NodeCount(items)
  {
    if items != [] {
      assert Blocks(items)[1..] == Blocks(items[1..]);
      LayoutLength(items[1..]);
    }
  }

  /**
   * The table has three lines for the header block and, per visited option,
   * two, or three for a required option; with no data it has the three
   * header lines alone.
   */
  lemma TableLength(w0: Widths, data: Value)
    requires TableInput(data)
    ensures RowsComplete(Built(w0, data).nodes)
    ensures var b := Built(w0, data);
      |Render(b.nodes, b.widths)| == 3 + NodeCount(TableItems(data))
    ensures !Truthy(data) ==> |Render(Built(w0, data).nodes, Built(w0, data).widths)| == 3
  {
    BuiltLayout(w0, data);
    LayoutLength(TableItems(data));
  }

  /** The widths the measuring gives an item's row. */
  predicate Covers(w: Widths, it: Item)
  {
    w.param >= |it.name| + 4 * it.depth && w.choDef >= |ChoicesText(it.spec)| &&
    w.comment >= DescriptionLen(it.spec)
  }

  /** The measured widths fit every item's row and are no narrower than where they started. */
  lemma {:induction false} MeasuredCovers(w: Widths, items: seq<Item>)
    ensures forall k :: 0 <= k < |items| ==> Covers(Measured(w, items), items[k])
    decreases |items|
  {
    if items != [] {
      var w1 := RowWidths(w, items[0].name, items[0].spec, items[0].depth);
      var rest := items[1..];
      MeasuredCovers(w1, rest);
      var r := Measured(w, items);
      assert r == Measured(w1, rest);
      forall k | 0 <= k < |items| ensures Covers(r, items[k]) {
        if k > 0 {
          assert items[k] == rest[k - 1];
        } else {
          assert WidthsLe(w1, r);
        }
      }
    }
  }

  /**
   * The measured widths are the smallest that fit: each is its start or
   * some item's own measure.
   */
  lemma {:induction false} MeasuredTight(w: Widths, items: seq<Item>)
    ensures var r := Measured(w, items);
      && (r.param == w.param || exists k :: 0 <= k < |items| && r.param == |items[k].name| + 4 * items[k].depth)
      && (r.choDef == w.choDef || exists k :: 0 <= k < |items| && r.choDef == |ChoicesText(items[k].spec)|)
      && (r.comment == w.comment || exists k :: 0 <= k < |items| && r.comment == DescriptionLen(items[k].spec))
    decreases |items|
  {
    if items != [] {
      var w1 := RowWidths(w, items[0].name, items[0].spec, items[0].depth);
      var rest := items[1..];
      MeasuredTight(w1, rest);
      var r := Measured(w, items);
      assert r == Measured(w1, rest);
      if r.param != w.param && r.param != w1.param {
        var k :| 0 <= k < |rest| && r.param == |rest[k].name| + 4 * rest[k].depth;
        assert items[k + 1] == rest[k];
      }
      if r.choDef != w.choDef && r.choDef != w1.choDef {
        var k :| 0 <= k < |rest| && r.choDef == |ChoicesText(rest[k].spec)|;
        assert items[k + 1] == rest[k];
      }
      if r.comment != w.comment && r.comment != w1.comment {
        var k :| 0 <= k < |rest| && r.comment == DescriptionLen(rest[k].spec);
        assert items[k + 1] == rest[k];
      }
    }
  }

  /**
   * Whatever the data, the first column is at least as wide as
   * "Parameters", the second as "Choices/Defaults" and the third as
   * "Comment", and no column is narrower than the table's widths were
   * before the call.
   */
  lemma HeaderWidths(w0: Widths, data: Value)
    requires TableInput(data)
    ensures var w := Built(w0, data).widths;
      WidthsLe(w0, w) && w.param >= 10 && w.choDef >= 16 && w.comment >= 7
  {
    HeadDictFields();
    BuiltLayout(w0, data);
  }

  // ---------------------------------------------------------------------------
  // Spacer levels
  // ---------------------------------------------------------------------------

  /** A spacer at index j sits at the deeper of the depths of the rows around it. */
  predicate SpacerBetweenRows(nodes: seq<Node>, j: nat)
    requires RowsComplete(nodes) && 0 < j < |nodes| && nodes[j].RowSpacerNode?
  {
    nodes[j - 1].RowNode? &&
    if j + 1 < |nodes| then
      nodes[j + 1].RowNode? && nodes[j].level == Max(Depth(nodes[j - 1]), Depth(nodes[j + 1]))
    else
      nodes[j].level == Depth(nodes[j - 1])
  }

  /** Every spacer but a leading one sits between rows, as `SpacerBetweenRows` says. */
  predicate SpacersBetweenRows(nodes: seq<Node>)
    requires RowsComplete(nodes)
  {
    forall j :: 0 <= j < |nodes| && nodes[j].RowSpacerNode? ==> 0 < j && SpacerBetweenRows(nodes, j)
  }

  lemma LayoutHead(bs: seq<Block>)
    requires BlocksOk(bs) && bs != []
    ensures Layout(bs)[0] == bs[0].rows[0]
  {
  }

  /**
   * Every spacer of a layout comes right after a row and sits at the depth
   * of the deeper of the rows around it, or at the depth of the row above
   * it when it is the last node.
   */
  lemma {:induction false} LayoutSpacers(bs: seq<Block>)
    requires BlocksOk(bs)
    ensures RowsComplete(Layout(bs)) && SpacersBetweenRows(Layout(bs))
  {
    LayoutComplete(bs);
    if bs != [] {
      var l := Layout(bs);
      var rows := bs[0].rows;
      var tail := Layout(bs[1..]);
      var n := |rows|;
      assert l == rows + [RowSpacerNode('-', SpacerLevel(bs, 0))] + tail;
      assert BlockOk(bs[0]);
      LayoutSpacers(bs[1..]);
      forall j | 0 <= j < |l| && l[j].RowSpacerNode? ensures 0 < j && SpacerBetweenRows(l, j) {
        if j < n {
          assert false;
        } else if j == n {
          assert l[j] == RowSpacerNode('-', SpacerLevel(bs, 0));
          assert l[j - 1] == rows[n - 1];
          if j + 1 < |l| {
            assert bs[1..] != [] && BlockOk(bs[1]);
            assert l[j + 1] == tail[0] == bs[1].rows[0];
          }
        } else {
          var j' := j - n - 1;
          assert l[j] == tail[j'];
          if j' == 0 {
            assert false;
          }
          assert SpacerBetweenRows(tail, j');
          assert l[j - 1] == tail[j' - 1];
          if j + 1 < |l| {
            assert l[j + 1] == tail[j' + 1];
          }
        }
      }
    }
  }

  /**
   * The finished list: every spacer after the head spacer sits between two
   * rows at the deeper of their depths (or below the last row at its
   * depth), so a spacer draws one `+---` segment for each indent level of
   * the deeper row beside it.
   */
  lemma TableSpacers(w0: Widths, data: Value)
    requires TableInput(data)
    ensures RowsComplete(Built(w0, data).nodes)
    ensures var ns := Built(w0, data).nodes;
      forall j :: 0 < j < |ns| && ns[j].RowSpacerNode? ==> SpacerBetweenRows(ns, j)
  {
    BuiltLayout(w0, data);
    var bs := Blocks(TableItems(data));
    var head := [RowSpacerNode('-', 0), HeaderRow(), RowSpacerNode('=', 0)];
    var l := Layout(bs);
    var ns := head + l;
    LayoutSpacers(bs);
    forall j | 0 < j < |ns| && ns[j].RowSpacerNode? ensures SpacerBetweenRows(ns, j) {
      if j == 2 {
        if bs != [] {
          assert BlockOk(bs[0]) && bs[0].depth == 0;
          assert ns[3] == l[0] == bs[0].rows[0];
        }
      } else if j > 2 {
        assert ns[j] == l[j - 3];
        assert ns[j - 1] == l[j - 4];
        if j + 1 < |ns| {
          assert ns[j + 1] == l[j - 2];
        }
      }
    }
  }

  // ---------------------------------------------------------------------------
  // Alignment
  // ---------------------------------------------------------------------------

  /** Every node of the list renders to the table's full width. */
  predicate FullWidth(nodes: seq<Node>, w: Widths)
    requires RowsComplete(nodes)
  {
    forall j :: 0 <= j < |nodes| ==> |NodeText(nodes[j], w)| == w.param + w.choDef + w.comment + 10
  }

  /** A row whose indent cells are blank and whose three content cells fit the widths. */
  predicate RowFitsWidths(n: Node, w: Widths)
    requires n.RowNode? && |n.cells| >= 3
  {
    var k := |n.cells| - 3;
    (forall i :: 0 <= i < k ==> n.cells[i].content == " ") &&
    |n.cells[k].content| + 4 * k <= w.param && |n.cells[k + 1].content| <= w.choDef &&
    |n.cells[k + 2].content| <= w.comment
  }

  /** A row that fits renders to the table's full width. */
  lemma RowFits(n: Node, w: Widths)
    requires n.RowNode? && |n.cells| >= 3 && RowFitsWidths(n, w)
    ensures |NodeText(n, w)| == w.param + w.choDef + w.comment + 10
  {
    var k := |n.cells| - 3;
    assert forall i :: 0 <= i < |n.cells[..k]| ==> n.cells[..k][i].content == " ";
  }

  predicate BlockFits(bk: Block, w: Widths)
    requires BlockOk(bk)
  {
    forall k :: 0 <= k < |bk.rows| ==> RowFitsWidths(bk.rows[k], w)
  }

  /**
   * When every block's rows fit, every line of the layout is exactly as
   * long as the table is wide: a spacer's indent is never deeper than the
   * rows beside it.
   */
  lemma {:induction false} LayoutAligned(bs: seq<Block>, w: Widths)
    requires BlocksOk(bs) && forall k :: 0 <= k < |bs| ==> BlockFits(bs[k], w)
    ensures RowsComplete(Layout(bs)) && FullWidth(Layout(bs), w)
  {
    LayoutComplete(bs);
    if bs != [] {
      var l := Layout(bs);
      var rows := bs[0].rows;
      var tail := Layout(bs[1..]);
      var n := |rows|;
      assert l == rows + [RowSpacerNode('-', SpacerLevel(bs, 0))] + tail;
      assert BlockOk(bs[0]) && BlockFits(bs[0], w);
      assert RowFitsWidths(rows[0], w);
      LayoutAligned(bs[1..], w);
      forall j | 0 <= j < |l| ensures |NodeText(l[j], w)| == w.param + w.choDef + w.comment + 10 {
        if j < n {
          assert l[j] == rows[j];
          RowFits(rows[j], w);
        } else if j == n {
          if 1 < |bs| {
            assert BlockOk(bs[1]) && BlockFits(bs[1], w);
            assert RowFitsWidths(bs[1].rows[0], w);
          }
        } else {
          assert l[j] == tail[j - n - 1];
          assert |NodeText(tail[j - n - 1], w)| == w.param + w.choDef + w.comment + 10;
        }
      }
    }
  }

  /**
   * An item's rows fit the widths: its own row by the measuring, when its
   * description is printed as wide as it is measured, and its `required`
   * row, if any.
   */
  predicate ItemFits(w: Widths, it: Item)
  {
    Covers(w, it) && StrDescription(it.spec) && (IsRequired(it.spec) ==> 8 + 4 * it.depth <= w.param)
  }

  lemma ItemRowsFit(it: Item, w: Widths)
    requires ItemFits(w, it) && w.choDef >= 1 && w.comment >= 1
    ensures BlockFits(BlockOf(it), w)
  {
    RowNodesShape(it.name, it.spec, it.depth);
    StrDescriptionMeasure(it.spec);
    var r := RowNodes(it.name, it.spec, it.depth);
    var d := it.depth;
    assert r[0].cells[d] == Cell(it.name, PARAM);
    assert r[0].cells[d + 1] == Cell(ChoicesText(it.spec), CHO_DEF);
    assert r[0].cells[d + 2] == Cell(DescriptionText(it.spec), COMMENT);
    if |r| == 2 {
      assert r[1].cells[d] == Cell("required", PARAM);
      assert r[1].cells[d + 1] == Cell(" ", CHO_DEF);
      assert r[1].cells[d + 2] == Cell(" ", COMMENT);
    }
  }

  /**
   * The table is rectangular when every description starts with a string
   * and every `required` row fits the first column: every line is then
   * `max_param_len + max_cho_def_len + max_comment_len + 10` characters
   * long. The measuring alone guarantees it for every other row.
   */
  lemma TableAligned(w0: Widths, data: Value)
    requires TableInput(data)
    requires var items := TableItems(data);
      forall k :: 0 <= k < |items| ==> StrDescription(items[k].spec)
    requires var items := TableItems(data);
      forall k :: 0 <= k < |items| && IsRequired(items[k].spec) ==>
        8 + 4 * items[k].depth <= Built(w0, data).widths.param
    ensures RowsComplete(Built(w0, data).nodes)
    ensures var b := Built(w0, data); var w := b.widths;
      forall line :: line in Render(b.nodes, w) ==> |line| == w.param + w.choDef + w.comment + 10
  {
    var b := Built(w0, data);
    var w := b.widths;
    var bs := Blocks(TableItems(data));
    BuiltLayout(w0, data);
    HeaderWidths(w0, data);
    BlocksFit(w0, data);
    LayoutAligned(bs, w);
    HeaderAligned(w);
    FullWidthAppend([RowSpacerNode('-', 0), HeaderRow(), RowSpacerNode('=', 0)], Layout(bs), w);
    RenderAligned(b.nodes, w);
  }

  /** Under the conditions on descriptions and `required` rows, every option's rows fit the measured widths. */
  lemma BlocksFit(w0: Widths, data: Value)
    requires TableInput(data)
    requires var items := TableItems(data);
      forall k :: 0 <= k < |items| ==> StrDescription(items[k].spec)
    requires var items := TableItems(data);
      forall k :: 0 <= k < |items| && IsRequired(items[k].spec) ==>
        8 + 4 * items[k].depth <= Built(w0, data).widths.param
    ensures var bs := Blocks(TableItems(data));
      forall k :: 0 <= k < |bs| ==> BlockFits(bs[k], Built(w0, data).widths)
  {
    var w := Built(w0, data).widths;
    var items := TableItems(data);
    var bs := Blocks(items);
    BuiltLayout(w0, data);
    HeaderWidths(w0, data);
    MeasuredCovers(RowWidths(w0, "Parameters", HeadDict, 0), items);
    forall k | 0 <= k < |bs| ensures BlockFits(bs[k], w) {
      assert ItemFits(w, items[k]);
      ItemRowsFit(items[k], w);
    }
  }

  /** The three header lines are as wide as the table once the columns hold the header's titles. */
  lemma HeaderAligned(w: Widths)
    requires w.param >= 10 && w.choDef >= 16 && w.comment >= 7
    ensures RowsComplete([RowSpacerNode('-', 0), HeaderRow(), RowSpacerNode('=', 0)])
    ensures FullWidth([RowSpacerNode('-', 0), HeaderRow(), RowSpacerNode('=', 0)], w)
  {
    HeadDictFields();
    var h := HeaderRow();
    assert h.cells == IndentCells(0) + [Cell("Parameters", PARAM), Cell("Choices/Defaults", CHO_DEF), Cell("Comment", COMMENT)];
    assert IndentCells(0) == [];
    assert |h.cells| == 3;
    RowFits(h, w);
    var ns := [RowSpacerNode('-', 0), h, RowSpacerNode('=', 0)];
    forall j | 0 <= j < |ns| ensures ns[j].RowSpacerNode? || ns[j] == h {
    }
    forall j | 0 <= j < |ns| ensures |NodeText(ns[j], w)| == w.param + w.choDef + w.comment + 10 {
      if j != 1 {
        assert ns[j].RowSpacerNode? && ns[j].level == 0;
      }
    }
  }

  lemma FullWidthAppend(a: seq<Node>, b: seq<Node>, w: Widths)
    requires RowsComplete(a) && RowsComplete(b) && FullWidth(a, w) && FullWidth(b, w)
    ensures RowsComplete(a + b) && FullWidth(a + b, w)
  {
    assert forall j :: 0 <= j < |a + b| ==> (a + b)[j] == if j < |a| then a[j] else b[j - |a|];
  }

  lemma RenderAligned(nodes: seq<Node>, w: Widths)
    requires RowsComplete(nodes) && FullWidth(nodes, w)
    ensures forall line :: line in Render(nodes, w) ==> |line| == w.param + w.choDef + w.comment + 10
  {
    var lines := Render(nodes, w);
    forall line | line in lines ensures |line| == w.param + w.choDef + w.comment + 10 {
      var j :| 0 <= j < |lines| && lines[j] == line;
      assert line == NodeText(nodes[j], w);
    }
  }
}
