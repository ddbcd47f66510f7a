/**
 * What the older table draft promises, stated about the functions that
 * specify its methods: the maxima cover what was measured, the rows follow
 * the options in pre-order, the table has three header lines and two lines
 * per option, spacers differ only in their fill, and a row is as wide as a
 * spacer exactly when its cells fit.
 */
module TableBuilderProps {
  import opened Wrappers
  import opened Text
  import opened PyValue
  import TableGen
  import opened TableBuilder

  // ---------------------------------------------------------------------------
  // The measuring pass
  // ---------------------------------------------------------------------------

  /** Every key of the spec is within the maxima L, recursively through `suboptions`. */
  predicate Covered(L: Lengths, spec: Value)
    decreases spec, 1
  {
    spec.Dict? && forall i :: 0 <= i < |spec.entries| ==> KeyCovered(L, spec.entries[i].key, spec.entries[i].value)
  }

  /**
   * Key k with value v is within L: a description's first paragraph fits
   * the comment column, a choices list's text fits the default column, the
   * options under `suboptions` are covered, and any other key other than
   * `required` fits the parameter column.
   */
  predicate KeyCovered(L: Lengths, k: string, v: Value)
    decreases v, 2
  {
    if Lower(k) == "description" then FirstLen(v).Ok? && FirstLen(v).value <= L.comment
    else if Lower(k) == "choices" then |PyStr(v)| <= L.default
    else if k == "suboptions" then v.Dict? && forall j :: 0 <= j < |v.entries| ==> Covered(L, v.entries[j].value)
    else k == "required" || |k| <= L.param
  }

  lemma {:induction false} CoveredGrows(L: Lengths, L': Lengths, spec: Value)
    requires Covered(L, spec) && LengthsLe(L, L')
    ensures Covered(L', spec)
    decreases spec, 1
  {
    forall i | 0 <= i < |spec.entries|
      ensures KeyCovered(L', spec.entries[i].key, spec.entries[i].value)
    {
      KeyCoveredGrows(L, L', spec.entries[i].key, spec.entries[i].value);
    }
  }

  lemma {:induction false} KeyCoveredGrows(L: Lengths, L': Lengths, k: string, v: Value)
    requires KeyCovered(L, k, v) && LengthsLe(L, L')
    ensures KeyCovered(L', k, v)
    decreases v, 2
  {
    if Lower(k) != "description" && Lower(k) != "choices" && k == "suboptions" {
      forall j | 0 <= j < |v.entries|
        ensures Covered(L', v.entries[j].value)
      {
        CoveredGrows(L, L', v.entries[j].value);
      }
    }
  }

  /** A measuring pass that raises nothing leaves maxima that cover the whole spec. */
  lemma {:induction false} SetLengthsCovers(L: Lengths, spec: Value)
    requires SetLengths(L, spec).err.None?
    ensures Covered(SetLengths(L, spec).lengths, spec)
    decreases spec, 2
  {
    KeyLengthsFromCovers(L, spec, 0);
  }

  lemma {:induction false} KeyLengthsFromCovers(L: Lengths, spec: Value, i: nat)
    requires spec.Dict? && KeyLengthsFrom(L, spec, i).err.None?
    ensures forall j :: i <= j < |spec.entries| ==>
      KeyCovered(KeyLengthsFrom(L, spec, i).lengths, spec.entries[j].key, spec.entries[j].value)
    decreases spec, 1, |spec.entries| - i
  {
    if i < |spec.entries| {
      var e := spec.entries[i];
      var m := KeyLengths(L, e.key, e.value);
      var r := KeyLengthsFrom(L, spec, i);
      KeyLengthsCovers(L, e.key, e.value);
      KeyLengthsFromCovers(m.lengths, spec, i + 1);
      KeyCoveredGrows(m.lengths, r.lengths, e.key, e.value);
    }
  }

  lemma {:induction false} KeyLengthsCovers(L: Lengths, k: string, v: Value)
    requires KeyLengths(L, k, v).err.None?
    ensures KeyCovered(KeyLengths(L, k, v).lengths, k, v)
    decreases v, 3
  {
    if Lower(k) != "description" && Lower(k) != "choices" && k == "suboptions" {
      SubLengthsCovers(L, v, 0);
    }
  }

  lemma {:induction false} SubLengthsCovers(L: Lengths, v: Value, i: nat)
    requires v.Dict? && SubLengths(L, v, i).err.None?
    ensures forall j :: i <= j < |v.entries| ==> Covered(SubLengths(L, v, i).lengths, v.entries[j].value)
    decreases v, 1, |v.entries| - i
  {
    if i < |v.entries| {
      var m := SetLengths(L, v.entries[i].value);
      SetLengthsCovers(L, v.entries[i].value);
      SubLengthsCovers(m.lengths, v, i + 1);
      CoveredGrows(m.lengths, SubLengths(L, v, i).lengths, v.entries[i].value);
    }
  }

  /**
   * After `build_table`'s measuring loop, every top-level option name fits
   * the parameter column and every top-level spec is covered.
   */
  lemma {:induction false} MeasureTableCovers(L: Lengths, data: Value)
    requires MeasureTable(L, data).err.None?
    ensures data.Dict?
    ensures forall i :: 0 <= i < |data.entries| ==>
      |data.entries[i].key| <= MeasureTable(L, data).lengths.param
      && Covered(MeasureTable(L, data).lengths, data.entries[i].value)
  {
    TopLengthsFromCovers(L, data, 0);
  }

  lemma {:induction false} TopLengthsFromCovers(L: Lengths, data: Value, i: nat)
    requires data.Dict? && TopLengthsFrom(L, data, i).err.None?
    ensures forall j :: i <= j < |data.entries| ==>
      |data.entries[j].key| <= TopLengthsFrom(L, data, i).lengths.param
      && Covered(TopLengthsFrom(L, data, i).lengths, data.entries[j].value)
    decreases |data.entries| - i
  {
    if i < |data.entries| {
      var e := data.entries[i];
      var L1 := if |e.key| > L.param then L.(param := |e.key|) else L;
      var m := SetLengths(L1, e.value);
      SetLengthsCovers(L1, e.value);
      TopLengthsFromCovers(m.lengths, data, i + 1);
      CoveredGrows(m.lengths, TopLengthsFrom(L, data, i).lengths, e.value);
    }
  }

  /**
   * A `description` key whose first paragraph does not widen the comment
   * column falls through the chain and is measured as a parameter name.
   */
  lemma DescriptionAsName(L: Lengths, v: Value)
    requires FirstLen(v).Ok? && FirstLen(v).value <= L.comment
    ensures KeyLengths(L, "description", v) == Measuring(L.(param := Max(L.param, 11)), None)
  {
    assert Lower("description") == "description";
  }

  /**
   * Names of nested options are not measured: renaming the options under
   * `suboptions`, keeping their specs and their order, measures the same.
   */
  lemma NestedNamesUnmeasured(L: Lengths, v: Value, w: Value)
    requires v.Dict? && w.Dict? && |v.entries| == |w.entries|
    requires forall j :: 0 <= j < |v.entries| ==> v.entries[j].value == w.entries[j].value
    ensures KeyLengths(L, "suboptions", v) == KeyLengths(L, "suboptions", w)
  {
    assert Lower("suboptions") == "suboptions";
    SubLengthsRenamed(L, v, w, 0);
  }

  lemma {:induction false} SubLengthsRenamed(L: Lengths, v: Value, w: Value, i: nat)
    requires v.Dict? && w.Dict? && |v.entries| == |w.entries|
    requires forall j :: 0 <= j < |v.entries| ==> v.entries[j].value == w.entries[j].value
    ensures SubLengths(L, v, i) == SubLengths(L, w, i)
    decreases |v.entries| - i
  {
    if i < |v.entries| {
      SubLengthsRenamed(SetLengths(L, v.entries[i].value).lengths, v, w, i + 1);
    }
  }

  /**
   * An instance of `NestedNamesUnmeasured`: with the spec below the
   * parameter column ends at 11, the length of `description`, while the
   * nested option's name has 20 characters.
   */
  lemma NestedNameUnmeasured()
    ensures var nested := Dict([Entry("description", List([Str("y")]))]);
      var spec := Dict([Entry("description", List([Str("xx")])),
                        Entry("suboptions", Dict([Entry("a_long_nested_option", nested)]))]);
      var m := MeasureTable(Lengths(0, 0, 0), Dict([Entry("top", spec)]));
      m.err.None? && m.lengths == Lengths(11, 0, 2) && |"a_long_nested_option"| > m.lengths.param
  {
    var nested := Dict([Entry("description", List([Str("y")]))]);
    var sub := Dict([Entry("a_long_nested_option", nested)]);
    var spec := Dict([Entry("description", List([Str("xx")])), Entry("suboptions", sub)]);
    assert Lower("description") == "description";
    assert Lower("suboptions") == "suboptions";
    assert FirstLen(List([Str("xx")])) == Ok(2);
    assert FirstLen(List([Str("y")])) == Ok(1);
    assert SetLengths(Lengths(3, 0, 2), nested) == Measuring(Lengths(11, 0, 2), None);
    assert SubLengths(Lengths(3, 0, 2), sub, 0) == Measuring(Lengths(11, 0, 2), None);
    assert KeyLengths(Lengths(3, 0, 2), "suboptions", sub) == Measuring(Lengths(11, 0, 2), None);
    assert KeyLengthsFrom(Lengths(11, 0, 2), spec, 2) == Measuring(Lengths(11, 0, 2), None);
    assert KeyLengthsFrom(Lengths(3, 0, 2), spec, 1) == Measuring(Lengths(11, 0, 2), None);
    assert KeyLengths(Lengths(3, 0, 0), "description", List([Str("xx")])) == Measuring(Lengths(3, 0, 2), None);
    assert SetLengths(Lengths(3, 0, 0), spec) == Measuring(Lengths(11, 0, 2), None);
  }

  // ---------------------------------------------------------------------------
  // Rows in pre-order
  // ---------------------------------------------------------------------------

  /** Every option of the dict d from i on, each followed by its suboptions, all the way down. */
  function PreOrder(d: Value, i: nat): seq<Entry>
    decreases d, 1, |Options(d)| - i
  {
    if i >= |Options(d)| then []
    else [Options(d)[i]] + Below(Options(d)[i].value) + PreOrder(d, i + 1)
  }

  /** The options nested under a spec, in pre-order. */
  function Below(v: Value): seq<Entry>
    decreases v, 2
  {
    if TableGen.HasSub(v) && TableGen.SubOptions(v).Dict? then PreOrder(TableGen.SubOptions(v), 0) else []
  }

  /** A spec that yields its row: described, and with a dict under a truthy `suboptions`. */
  predicate Renders(v: Value)
  {
    Described(v) && (TableGen.HasSub(v) ==> TableGen.SubOptions(v).Dict?)
  }

  predicate AllRender(es: seq<Entry>)
  {
    forall j :: 0 <= j < |es| ==> Renders(es[j].value)
  }

  lemma {:induction false} AllRenderAppend(a: seq<Entry>, b: seq<Entry>)
    ensures AllRender(a + b) <==> AllRender(a) && AllRender(b)
  {
    if AllRender(a) && AllRender(b) {
      forall j | 0 <= j < |a + b|
        ensures Renders((a + b)[j].value)
      {
        if j >= |a| {
          assert (a + b)[j] == b[j - |a|];
        }
      }
    }
    if AllRender(a + b) {
      assert forall j :: 0 <= j < |a| ==> (a + b)[j] == a[j];
      assert forall j :: 0 <= j < |b| ==> (a + b)[|a| + j] == b[j];
    }
  }

  /** Each option's row, its choices and first paragraph taken from its spec, followed by the spacer. */
  function Expected(es: seq<Entry>): (r: seq<Line>)
    ensures |r| == 2 * |es|
  {
    if es == [] then []
    else [OptionLine(es[0].key, ChoicesOf(es[0].value), FirstParagraph(es[0].value)), RowSpacer] + Expected(es[1..])
  }

  lemma {:induction false} ExpectedAppend(a: seq<Entry>, b: seq<Entry>)
    ensures Expected(a + b) == Expected(a) + Expected(b)
  {
    if a == [] {
      assert a + b == b;
    } else {
      assert (a + b)[1..] == a[1..] + b;
      ExpectedAppend(a[1..], b);
    }
  }

  /** The loop body for option k raises nothing exactly when the option and everything below it render. */
  lemma {:induction false} OptionLinesRender(k: string, v: Value)
    ensures OptionLines(k, v).err.None? <==> AllRender([Entry(k, v)] + Below(v))
    decreases v, 2
  {
    var e := Entry(k, v);
    AllRenderAppend([e], Below(v));
    assert [e][0] == e;
    assert AllRender([e]) <==> Renders(v);
    if OptionRow(k, v).Ok? && TableGen.HasSub(v) && TableGen.SubOptions(v).Dict? {
      OptionsLinesRender(TableGen.SubOptions(v), 0);
    }
  }

  /** `table_builder(d, spacer)` from option i on raises nothing exactly when every option below renders. */
  lemma {:induction false} OptionsLinesRender(d: Value, i: nat)
    ensures OptionsLines(d, i).err.None? <==> AllRender(PreOrder(d, i))
    decreases d, 1, |Options(d)| - i
  {
    if i < |Options(d)| {
      var e := Options(d)[i];
      OptionLinesRender(e.key, e.value);
      AllRenderAppend([e] + Below(e.value), PreOrder(d, i + 1));
      if OptionLines(e.key, e.value).err.None? {
        OptionsLinesRender(d, i + 1);
      }
    }
  }

  /**
   * A loop body for option k that raises nothing appends the rows of the
   * option and everything below it in pre-order, each followed by the spacer.
   */
  lemma {:induction false} OptionLinesOrder(k: string, v: Value)
    requires OptionLines(k, v).err.None?
    ensures OptionLines(k, v).lines == Expected([Entry(k, v)] + Below(v))
    decreases v, 2
  {
    var e := Entry(k, v);
    assert ([e] + Below(v))[1..] == Below(v);
    if TableGen.HasSub(v) {
      OptionsLinesOrder(TableGen.SubOptions(v), 0);
    }
  }

  /** `table_builder(d, spacer)` from option i on, raising nothing, appends the rows in pre-order. */
  lemma {:induction false} OptionsLinesOrder(d: Value, i: nat)
    requires OptionsLines(d, i).err.None?
    ensures OptionsLines(d, i).lines == Expected(PreOrder(d, i))
    decreases d, 1, |Options(d)| - i
  {
    if i < |Options(d)| {
      var e := Options(d)[i];
      OptionLinesOrder(e.key, e.value);
      OptionsLinesOrder(d, i + 1);
      ExpectedAppend([e] + Below(e.value), PreOrder(d, i + 1));
    }
  }

  lemma DrawnAppend(L: Lengths, spacer: string, a: seq<Line>, b: seq<Line>)
    ensures Drawn(L, spacer, a + b) == Drawn(L, spacer, a) + Drawn(L, spacer, b)
  {
    assert forall i :: 0 <= i < |b| ==> (a + b)[|a| + i] == b[i];
  }

  lemma DrawnOnto(t: seq<string>, L: Lengths, spacer: string, a: seq<Line>, b: seq<Line>)
    ensures (t + Drawn(L, spacer, a)) + Drawn(L, spacer, b) == t + Drawn(L, spacer, a + b)
  {
    DrawnAppend(L, spacer, a, b);
  }

  lemma DrawnRow(t: seq<string>, L: Lengths, spacer: string, row: Line)
    ensures t + [Draw(L, spacer, row), spacer] == t + Drawn(L, spacer, [row, RowSpacer])
    ensures t + Drawn(L, spacer, []) == t
  {
  }

  /** The loop body on the list t appends the drawing of `OptionLines`, raising where it raises. */
  lemma {:induction false} OptionRowsDrawn(t: seq<string>, L: Lengths, k: string, v: Value, spacer: string)
    ensures OptionRows(t, L, k, v, spacer) == Rows(t + Drawn(L, spacer, OptionLines(k, v).lines), OptionLines(k, v).err)
    decreases v, 2
  {
    var r := OptionRow(k, v);
    if r.Ok? {
      var head := [r.value, RowSpacer];
      DrawnRow(t, L, spacer, r.value);
      if TableGen.HasSub(v) && TableGen.SubOptions(v).Dict? {
        var sub := TableGen.SubOptions(v);
        OptionsRowsDrawn(t + Drawn(L, spacer, head), L, sub, 0, spacer);
        DrawnOnto(t, L, spacer, head, OptionsLines(sub, 0).lines);
      }
    } else {
      DrawnRow(t, L, spacer, RowSpacer);
    }
  }

  /** `table_builder(d, spacer)` from option i on the list t appends the drawing of `OptionsLines`. */
  lemma {:induction false} OptionsRowsDrawn(t: seq<string>, L: Lengths, d: Value, i: nat, spacer: string)
    ensures OptionsRows(t, L, d, i, spacer) == Rows(t + Drawn(L, spacer, OptionsLines(d, i).lines), OptionsLines(d, i).err)
    decreases d, 0, |Options(d)| - i
  {
    if i < |Options(d)| {
      var e := Options(d)[i];
      var r := OptionLines(e.key, e.value);
      OptionRowsDrawn(t, L, e.key, e.value, spacer);
      if r.err.None? {
        OptionsRowsDrawn(t + Drawn(L, spacer, r.lines), L, d, i + 1, spacer);
        DrawnOnto(t, L, spacer, r.lines, OptionsLines(d, i + 1).lines);
      }
    } else {
      DrawnRow(t, L, spacer, RowSpacer);
    }
  }

  /**
   * `build_table` raises exactly when measuring raises or some option, at
   * any depth, fails to render. When measuring raises, the list is
   * unchanged; when an option fails to render, the list keeps its old lines
   * and gains the header block and the rows drawn so far; without an
   * exception those are the rows of every option in pre-order.
   */
  lemma TableBuiltRows(L0: Lengths, T0: seq<string>, data: Value)
    ensures var o := TableBuilt(L0, T0, data);
      o.result.Ok? <==> MeasureTable(L0, data).err.None? && AllRender(PreOrder(data, 0))
    ensures var o := TableBuilt(L0, T0, data);
      var L := o.lengths;
      LengthsLe(L0, L)
      && (MeasureTable(L0, data).err.Some? ==> o.table == T0)
      && (MeasureTable(L0, data).err.None? ==>
            o.table == T0 + [Spacer('-', L), HeaderRow(L), Spacer('=', L)] + Drawn(L, Spacer('-', L), OptionsLines(data, 0).lines))
      && (o.result.Ok? ==>
            o.result.value == o.table && OptionsLines(data, 0).lines == Expected(PreOrder(data, 0)))
  {
    var m := MeasureTable(L0, data);
    if m.err.None? {
      var L := m.lengths;
      OptionsRowsDrawn(T0 + [Spacer('-', L), HeaderRow(L), Spacer('=', L)], L, data, 0, Spacer('-', L));
      OptionsLinesRender(data, 0);
      if OptionsLines(data, 0).err.None? {
        OptionsLinesOrder(data, 0);
      }
    }
  }

  /**
   * From the state at import, a `build_table` that raises nothing returns
   * the list: a spacer, the header, the header spacer, then two lines for
   * each option in pre-order, nested ones included.
   */
  lemma FreshTable(data: Value)
    requires TableBuilt(Lengths(0, 0, 0), [], data).result.Ok?
    ensures var o := TableBuilt(Lengths(0, 0, 0), [], data);
      var L := o.lengths;
      o.table == [Spacer('-', L), HeaderRow(L), Spacer('=', L)] + Drawn(L, Spacer('-', L), Expected(PreOrder(data, 0)))
      && |o.table| == 3 + 2 * |PreOrder(data, 0)|
  {
    var L := TableBuilt(Lengths(0, 0, 0), [], data).lengths;
    TableBuiltRows(Lengths(0, 0, 0), [], data);
    var h := [Spacer('-', L), HeaderRow(L), Spacer('=', L)];
    assert [] + h == h;
  }

  /** Line 2j of `Expected` is option j's row and line 2j + 1 the spacer. */
  lemma {:induction false} ExpectedAt(es: seq<Entry>, j: nat)
    requires j < |es|
    ensures Expected(es)[2 * j] == OptionLine(es[j].key, ChoicesOf(es[j].value), FirstParagraph(es[j].value))
    ensures Expected(es)[2 * j + 1] == RowSpacer
  {
    if j > 0 {
      ExpectedAt(es[1..], j - 1);
    }
  }

  /**
   * Line i of a drawing is line i drawn: an option's line by `row_builder`,
   * a spacer line as the spacer. With `ExpectedAt`, line 2j of a table is
   * option j's row and line 2j + 1 the row spacer.
   */
  lemma DrawnAt(L: Lengths, spacer: string, lines: seq<Line>, i: nat)
    requires i < |lines|
    ensures lines[i].OptionLine? ==>
      Drawn(L, spacer, lines)[i] == Row(L, lines[i].name, PyStr(lines[i].choices), lines[i].description)
    ensures lines[i].RowSpacer? ==> Drawn(L, spacer, lines)[i] == spacer
  {
  }

  /** A single-option dict is rendered by one run of the loop body, as the nested call relies on. */
  lemma SingleOption(k: string, v: Value)
    ensures OptionsLines(Dict([Entry(k, v)]), 0) == OptionLines(k, v)
  {
    var r := OptionLines(k, v);
    if r.err.None? {
      assert OptionsLines(Dict([Entry(k, v)]), 1) == Lines([], None);
      assert r.lines + [] == r.lines;
    }
  }

  // ---------------------------------------------------------------------------
  // Row and spacer shapes
  // ---------------------------------------------------------------------------

  /** The characters a cell may hold so that its bytes are shown unescaped. */
  predicate Plain(s: string)
  {
    forall i :: 0 <= i < |s| ==> PlainChar(s[i])
  }

  /** How much a column's cell outgrows it: twice the excess, because of the `abs` padding. */
  function Overflow(s: string, width: nat): nat
  {
    if |s| > width then 2 * (|s| - width) else 0
  }

  /** A plain cell is shown as `b'...'` around the padded text. */
  lemma ColumnShape(s: string, width: nat)
    requires Plain(s)
    ensures Column(s, width) == "b'" + Pad(s, width) + "'"
    ensures |Column(s, width)| == width + 3 + Overflow(s, width)
  {
    var p := Pad(s, width);
    forall i | 0 <= i < |p|
      ensures PlainChar(p[i])
    {
      if i < |s| {
        assert p[i] == p[..|s|][i] == s[i];
      }
    }
    PlainRepr(p);
  }

  /**
   * Spacer length: a spacer has three segments of `max + 5` fill characters
   * between four `+`, so its length is P + D + C + 19.
   */
  lemma SpacerShape(fill: char, L: Lengths)
    requires fill != '+'
    ensures |Spacer(fill, L)| == L.param + L.default + L.comment + 19
    ensures forall i :: 0 <= i < |Spacer(fill, L)| ==>
      (Spacer(fill, L)[i] == '+' <==> i in {0, L.param + 6, L.param + L.default + 12, L.param + L.default + L.comment + 18})
    ensures forall i :: 0 <= i < |Spacer(fill, L)| && Spacer(fill, L)[i] != '+' ==> Spacer(fill, L)[i] == fill
  {
    var a := Repeat(fill, L.param + 5);
    var b := Repeat(fill, L.default + 5);
    var c := Repeat(fill, L.comment + 5);
    var s := Spacer(fill, L);
    assert s == "+" + a + "+" + b + "+" + c + "+";
    var p1 := L.param + 6;
    var p2 := p1 + L.default + 6;
    var p3 := p2 + L.comment + 6;
    forall i | 0 <= i < |s|
      ensures s[i] == (if i in {0, p1, p2, p3} then '+' else fill)
    {
      if i == 0 || i == p1 || i == p2 || i == p3 {
      } else if i < p1 {
        assert s[i] == a[i - 1];
      } else if i < p2 {
        assert s[i] == b[i - p1 - 1];
      } else {
        assert s[i] == c[i - p2 - 1];
      }
    }
  }

  /**
   * The header spacer and the row spacer have the same length and their
   * `+` at the same places; they differ only in filling with `=` or `-`.
   */
  lemma SpacersAgree(L: Lengths)
    ensures |Spacer('=', L)| == |Spacer('-', L)|
    ensures forall i :: 0 <= i < |Spacer('-', L)| ==>
      Spacer('=', L)[i] == if Spacer('-', L)[i] == '+' then '+' else '='
  {
    SpacerShape('=', L);
    SpacerShape('-', L);
  }

  /**
   * A row of plain cells is as long as a spacer plus twice each column's
   * excess: exactly as long when every cell fits its column, longer when
   * one does not.
   */
  lemma RowWidth(L: Lengths, col1: string, col2: string, col3: string, fill: char)
    requires Plain(col1) && Plain(col2) && Plain(col3) && fill != '+'
    ensures |Row(L, col1, col2, col3)|
      == |Spacer(fill, L)| + Overflow(col1, L.param) + Overflow(col2, L.default) + Overflow(col3, L.comment)
  {
    ColumnShape(col1, L.param);
    ColumnShape(col2, L.default);
    ColumnShape(col3, L.comment);
    SpacerShape(fill, L);
  }

  /**
   * The header titles are not measured: the header row is as long as the
   * spacers exactly when the columns are at least 10, 16 and 8 wide.
   */
  lemma HeaderWidth(L: Lengths)
    ensures |HeaderRow(L)| == |Spacer('-', L)| <==> L.param >= 10 && L.default >= 16 && L.comment >= 8
  {
    assert Plain("Parameters");
    assert Plain("Choices/Defaults");
    assert Plain("Comments");
    RowWidth(L, "Parameters", "Choices/Defaults", "Comments", '-');
  }
}
