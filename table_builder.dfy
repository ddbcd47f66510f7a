/**
 * The older table draft, `table_builder.py`. A measuring pass fills three
 * module-level maxima; then every option of the tree becomes one row of
 * three `b'...'` cells followed by a fixed spacer string, all appended to a
 * module-level list that is never reset.
 *
 * The class `Globals` holds the module's globals; its methods are the
 * module's functions. Each method is specified by a function on values
 * (`SetLengths`, `OptionsRows`, `TableBuilt`), and the lemmas below state
 * what those functions promise.
 */
module TableBuilder {
  import opened Wrappers
  import opened Text
  import opened PyValue
  import TableGen

  /** `max_col_param`, `max_col_default` and `max_col_comment`. */
  datatype Lengths = Lengths(param: nat, default: nat, comment: nat)

  predicate LengthsLe(a: Lengths, b: Lengths)
  {
    a.param <= b.param && a.default <= b.default && a.comment <= b.comment
  }

  /** The maxima where a measuring pass stopped, and the exception that stopped it, if any. */
  datatype Measuring = Measuring(lengths: Lengths, err: Option<PyError>)

  /** The options of a dict in order (`d.items()`); none for any other value. */
  function Options(d: Value): seq<Entry>
  {
    TableGen.Options(d)
  }

  // ---------------------------------------------------------------------------
  // The measuring pass: _set_table_lengths
  // ---------------------------------------------------------------------------

  /** `len(v[0])`. */
  function FirstLen(v: Value): Result<nat, PyError>
  {
    match Subscript0(v)
    case Err(e) => Err(e)
    case Ok(x) => Len(x)
  }

  /** The last branch of the chain: a key other than `required` and `choices` widens the first column. */
  function KeyWidth(L: Lengths, k: string): Lengths
  {
    if k != "required" && k != "choices" && |k| > L.param then L.(param := |k|) else L
  }

  /**
   * One key of a spec in `_set_table_lengths`: the `if`/`elif` chain. A
   * `description` (in any case) whose first paragraph is no longer than the
   * comment column, and a `choices` whose text is no longer than its
   * column, fall through to the last branch like any other key.
   */
  function KeyLengths(L: Lengths, k: string, v: Value): (r: Measuring)
    ensures LengthsLe(L, r.lengths)
    decreases v, 3
  {
    if Lower(k) == "description" && FirstLen(v).Err? then Measuring(L, Some(FirstLen(v).error))
    else if Lower(k) == "description" && FirstLen(v).value > L.comment then
      Measuring(L.(comment := FirstLen(v).value), None)
    else if Lower(k) == "choices" && |PyStr(v)| > L.default then Measuring(L.(default := |PyStr(v)|), None)
    else if k == "suboptions" then
      if v.Dict? then SubLengths(L, v, 0) else Measuring(L, Some(AttributeError))
    else Measuring(KeyWidth(L, k), None)
  }

  /** `_set_table_lengths(v)`: every key of the spec v, in order, until one raises. */
  function SetLengths(L: Lengths, v: Value): (r: Measuring)
    ensures LengthsLe(L, r.lengths)
    decreases v, 2
  {
    if !v.Dict? then Measuring(L, Some(AttributeError)) else KeyLengthsFrom(L, v, 0)
  }

  /** The loop of `_set_table_lengths` from key i on. */
  function KeyLengthsFrom(L: Lengths, v: Value, i: nat): (r: Measuring)
    ensures LengthsLe(L, r.lengths)
    decreases v, 1, |Options(v)| - i
  {
    if i >= |Options(v)| then Measuring(L, None)
    else
      var m := KeyLengths(L, Options(v)[i].key, Options(v)[i].value);
      if m.err.Some? then m else KeyLengthsFrom(m.lengths, v, i + 1)
  }

  /** The `suboptions` branch from option i on: `_set_table_lengths` of each option's spec. */
  function SubLengths(L: Lengths, v: Value, i: nat): (r: Measuring)
    ensures LengthsLe(L, r.lengths)
    decreases v, 1, |Options(v)| - i
  {
    if i >= |Options(v)| then Measuring(L, None)
    else
      var m := SetLengths(L, Options(v)[i].value);
      if m.err.Some? then m else SubLengths(m.lengths, v, i + 1)
  }

  /** The measuring loop of `build_table` from option i on: the option's name, then its spec. */
  function TopLengthsFrom(L: Lengths, data: Value, i: nat): (r: Measuring)
    ensures LengthsLe(L, r.lengths)
    decreases |Options(data)| - i
  {
    if i >= |Options(data)| then Measuring(L, None)
    else
      var e := Options(data)[i];
      var m := SetLengths(if |e.key| > L.param then L.(param := |e.key|) else L, e.value);
      if m.err.Some? then m else TopLengthsFrom(m.lengths, data, i + 1)
  }

  /** The measuring part of `build_table(data)`. */
  function MeasureTable(L: Lengths, data: Value): (r: Measuring)
    ensures LengthsLe(L, r.lengths)
  {
    if !data.Dict? then Measuring(L, Some(AttributeError)) else TopLengthsFrom(L, data, 0)
  }

  // ---------------------------------------------------------------------------
  // Rows and spacers: row_builder and build_table's fills
  // ---------------------------------------------------------------------------

  /** One column of `row_builder`: the text padded by the `abs` rule, encoded, shown as bytes. */
  function Column(s: string, width: nat): string
  {
    BytesRepr(Encode(Pad(s, width)))
  }

  /** `row_builder(col1, col2, col3)` under the maxima L. */
  function Row(L: Lengths, col1: string, col2: string, col3: string): string
  {
    "| " + Column(col1, L.param) + " | " + Column(col2, L.default) + " | " + Column(col3, L.comment) + " |"
  }

  /** `"+{}+{}+{}+"` with each segment `max + 5` fill characters. */
  function Spacer(fill: char, L: Lengths): string
  {
    "+" + Repeat(fill, L.param + 5) + "+" + Repeat(fill, L.default + 5) + "+" + Repeat(fill, L.comment + 5) + "+"
  }

  /** The header row; its titles are not measured. */
  function HeaderRow(L: Lengths): string
  {
    Row(L, "Parameters", "Choices/Defaults", "Comments")
  }

  // ---------------------------------------------------------------------------
  // The rows: table_builder
  // ---------------------------------------------------------------------------

  /**
   * A line `table_builder` appends: the row of an option, held as its three
   * cells (the choices still as a value, shown with `str` when drawn), or
   * the row spacer.
   */
  datatype Line = OptionLine(name: string, choices: Value, description: string) | RowSpacer

  /** The text of a line under the maxima L, with the given row spacer. */
  function Draw(L: Lengths, spacer: string, line: Line): string
  {
    match line
    case OptionLine(name, choices, description) => Row(L, name, PyStr(choices), description)
    case RowSpacer => spacer
  }

  /** The text of each line in turn. */
  function Drawn(L: Lengths, spacer: string, lines: seq<Line>): (r: seq<string>)
    ensures |r| == |lines|
  {
    seq(|lines|, i requires 0 <= i < |lines| => Draw(L, spacer, lines[i]))
  }

  /** A spec whose description is present and whose first element is a string. */
  predicate Described(v: Value)
  {
    v.Dict? && HasKey(v, "description")
    && Subscript0(PyGet(v, "description")).Ok? && Subscript0(PyGet(v, "description")).value.Str?
  }

  /** `v['description'][0]` of a described spec. */
  function FirstParagraph(v: Value): string
  {
    var first := Subscript0(PyGet(v, "description"));
    if first.Ok? && first.value.Str? then first.value.s else ""
  }

  /** `v.get("choices", " ")` of a dict spec. */
  function ChoicesOf(v: Value): Value
  {
    if HasKey(v, "choices") then PyGet(v, "choices") else Str(" ")
  }

  /**
   * The row `table_builder` builds for option k with spec v: the choices
   * (`" "` when there are none) and the first paragraph of the description,
   * which must be present and a string.
   */
  function OptionRow(k: string, v: Value): (r: Result<Line, PyError>)
    ensures r.Ok? <==> Described(v)
    ensures !v.Dict? ==> r == Err(AttributeError)
    ensures v.Dict? && !HasKey(v, "description") ==> r == Err(KeyError)
    ensures r.Ok? ==> r.value == OptionLine(k, ChoicesOf(v), FirstParagraph(v))
  {
    match GetOr(v, "choices", Str(" "))
    case Err(e) => Err(e)
    case Ok(choices) =>
      match GetItem(v, "description")
      case Err(e) => Err(e)
      case Ok(d) =>
        match Subscript0(d)
        case Err(e) => Err(e)
        case Ok(first) =>
          if first.Str? then Ok(OptionLine(k, choices, first.s)) else Err(TypeError)
  }

  /** The lines a pass appends before it stops, and the exception that stopped it, if any. */
  datatype Lines = Lines(lines: seq<Line>, err: Option<PyError>)

  /**
   * The body of `table_builder`'s loop for option k with spec v: the row and
   * the spacer, then the lines of the suboptions. The nested call
   * `table_builder({option: ...})` runs this body once for that option.
   */
  function OptionLines(k: string, v: Value): (r: Lines)
    decreases v, 2
  {
    match OptionRow(k, v)
    case Err(e) => Lines([], Some(e))
    case Ok(row) =>
      if !TableGen.HasSub(v) then Lines([row, RowSpacer], None)
      else if !TableGen.SubOptions(v).Dict? then Lines([row, RowSpacer], Some(AttributeError))
      else
        var rest := OptionsLines(TableGen.SubOptions(v), 0);
        Lines([row, RowSpacer] + rest.lines, rest.err)
  }

  /** `table_builder(d, spacer)` from option i on. */
  function OptionsLines(d: Value, i: nat): (r: Lines)
    decreases d, 1, |Options(d)| - i
  {
    if i >= |Options(d)| then Lines([], None)
    else
      var r := OptionLines(Options(d)[i].key, Options(d)[i].value);
      if r.err.Some? then r
      else
        var rest := OptionsLines(d, i + 1);
        Lines(r.lines + rest.lines, rest.err)
  }

  /** The list after a pass, and the exception that stopped the pass, if any. */
  datatype Rows = Rows(table: seq<string>, err: Option<PyError>)

  /**
   * `OptionLines` drawn onto the list t as `table_builder` appends them: the
   * state-changing form the methods are specified by.
   */
  function OptionRows(t: seq<string>, L: Lengths, k: string, v: Value, spacer: string): Rows
    decreases v, 2
  {
    match OptionRow(k, v)
    case Err(e) => Rows(t, Some(e))
    case Ok(row) =>
      var t1 := t + [Draw(L, spacer, row), spacer];
      if !TableGen.HasSub(v) then Rows(t1, None)
      else if !TableGen.SubOptions(v).Dict? then Rows(t1, Some(AttributeError))
      else OptionsRows(t1, L, TableGen.SubOptions(v), 0, spacer)
  }

  /** `OptionsLines` drawn onto the list t. */
  function OptionsRows(t: seq<string>, L: Lengths, d: Value, i: nat, spacer: string): Rows
    decreases d, 1, |Options(d)| - i
  {
    if i >= |Options(d)| then Rows(t, None)
    else
      var r := OptionRows(t, L, Options(d)[i].key, Options(d)[i].value, spacer);
      if r.err.Some? then r else OptionsRows(r.table, L, d, i + 1, spacer)
  }

  /** The maxima, the list and the outcome `build_table(data)` leaves, from maxima L0 and list T0. */
  datatype Outcome = Outcome(lengths: Lengths, table: seq<string>, result: Result<seq<string>, PyError>)

  function TableBuilt(L0: Lengths, T0: seq<string>, data: Value): Outcome
  {
    var m := MeasureTable(L0, data);
    if m.err.Some? then Outcome(m.lengths, T0, Err(m.err.value))
    else
      var L := m.lengths;
      var rows := OptionsRows(T0 + [Spacer('-', L), HeaderRow(L), Spacer('=', L)], L, data, 0, Spacer('-', L));
      Outcome(L, rows.table, if rows.err.Some? then Err(rows.err.value) else Ok(rows.table))
  }

  // ---------------------------------------------------------------------------
  // The module's state
  // ---------------------------------------------------------------------------

  /** The module-level `table` and maxima. */
  class Globals {
    var table: seq<string>
    var maxColParam: nat
    var maxColDefault: nat
    var maxColComment: nat

    function Current(): Lengths
      reads this
    {
      Lengths(maxColParam, maxColDefault, maxColComment)
    }

    /** The state at import: an empty list and zero maxima. */
    constructor ()
      ensures table == [] && Current() == Lengths(0, 0, 0)
    {
      table := [];
      maxColParam, maxColDefault, maxColComment := 0, 0, 0;
    }

    /** `_set_table_lengths(dataValue)`; an exception is returned, with the maxima as it leaves them. */
    method SetTableLengths(dataValue: Value) returns (err: Option<PyError>)
      modifies this
      ensures table == old(table)
      ensures Measuring(Current(), err) == SetLengths(old(Current()), dataValue)
      decreases dataValue, 2
    {
      if !dataValue.Dict? {
        return Some(AttributeError);
      }
      var items := dataValue.entries;
      for i := 0 to |items|
        invariant table == old(table)
        invariant KeyLengthsFrom(Current(), dataValue, i) == SetLengths(old(Current()), dataValue)
      {
        var k := items[i].key;
        var v := items[i].value;
        err := SetKeyLengths(k, v);
        if err.Some? {
          return;
        }
      }
      err := None;
    }

    /** One pass of the loop in `_set_table_lengths`: the `if`/`elif` chain for key k. */
    method SetKeyLengths(k: string, v: Value) returns (err: Option<PyError>)
      modifies this
      ensures table == old(table)
      ensures Measuring(Current(), err) == KeyLengths(old(Current()), k, v)
      decreases v, 3
    {
      var isLongDescription := false;
      if Lower(k) == "description" {
        var n := FirstLen(v);
        if n.Err? {
          return Some(n.error);
        }
        isLongDescription := n.value > maxColComment;
      }
      if isLongDescription {
        maxColComment := FirstLen(v).value;
      } else if Lower(k) == "choices" && |PyStr(v)| > maxColDefault {
        maxColDefault := |PyStr(v)|;
      } else if k == "suboptions" {
        if !v.Dict? {
          return Some(AttributeError);
        }
        var options := v.entries;
        for j := 0 to |options|
          invariant table == old(table)
          invariant SubLengths(Current(), v, j) == KeyLengths(old(Current()), k, v)
        {
          err := SetTableLengths(options[j].value);
          if err.Some? {
            return;
          }
        }
      } else if k != "required" && k != "choices" && |k| > maxColParam {
        maxColParam := |k|;
      }
      err := None;
    }

    /** `row_builder(col1, col2, col3)`. */
    method RowBuilder(col1: string, col2: string, col3: string) returns (row: string)
      ensures row == Row(Current(), col1, col2, col3)
    {
      var col1Str := BytesRepr(Encode(col1 + Repeat(' ', Abs(|col1| - maxColParam))));
      var col2Str := BytesRepr(Encode(col2 + Repeat(' ', Abs(|col2| - maxColDefault))));
      var col3Str := BytesRepr(Encode(col3 + Repeat(' ', Abs(|col3| - maxColComment))));
      row := "| " + col1Str + " | " + col2Str + " | " + col3Str + " |";
    }

    /** `table_builder(dataValue, rowSpacer)`: the rows of every option of the dict, in order. */
    method TableBuilder(dataValue: Value, rowSpacer: string) returns (err: Option<PyError>)
      requires dataValue.Dict?
      modifies this
      ensures Current() == old(Current())
      ensures Rows(table, err) == OptionsRows(old(table), Current(), dataValue, 0, rowSpacer)
    {
      var items := dataValue.entries;
      for i := 0 to |items|
        invariant Current() == old(Current())
        invariant OptionsRows(table, Current(), dataValue, i, rowSpacer)
          == OptionsRows(old(table), Current(), dataValue, 0, rowSpacer)
      {
        err := OptionRowsOf(items[i].key, items[i].value, rowSpacer);
        if err.Some? {
          return;
        }
      }
      err := None;
    }

    /** The body of `table_builder`'s loop for option k with spec v. */
    method OptionRowsOf(k: string, v: Value, rowSpacer: string) returns (err: Option<PyError>)
      modifies this
      ensures Current() == old(Current())
      ensures Rows(table, err) == OptionRows(old(table), Current(), k, v, rowSpacer)
      decreases v, 2
    {
      var choices := GetOr(v, "choices", Str(" "));
      if choices.Err? {
        return Some(choices.error);
      }
      var choiceDefault := PyStr(choices.value);
      var description := GetItem(v, "description");
      if description.Err? {
        return Some(description.error);
      }
      var first := Subscript0(description.value);
      if first.Err? {
        return Some(first.error);
      }
      if !first.value.Str? {
        return Some(TypeError);
      }
      var row := RowBuilder(k, choiceDefault, first.value.s);
      assert row == Draw(Current(), rowSpacer, OptionRow(k, v).value);
      table := table + [row];
      table := table + [rowSpacer];
      assert table == old(table) + [row, rowSpacer];
      if TableGen.HasSub(v) {
        var sub := TableGen.SubOptions(v);
        if !sub.Dict? {
          return Some(AttributeError);
        }
        var options := sub.entries;
        for j := 0 to |options|
          invariant Current() == old(Current())
          invariant OptionsRows(table, Current(), sub, j, rowSpacer) == OptionRows(old(table), Current(), k, v, rowSpacer)
        {
          err := OptionRowsOf(options[j].key, options[j].value, rowSpacer);
          if err.Some? {
            return;
          }
        }
      }
      err := None;
    }

    /** The measuring loop of `build_table(data)`: each option's name, then its spec. */
    method MeasureOptions(data: Value) returns (err: Option<PyError>)
      modifies this
      ensures table == old(table)
      ensures Measuring(Current(), err) == MeasureTable(old(Current()), data)
    {
      if !data.Dict? {
        return Some(AttributeError);
      }
      var items := data.entries;
      for i := 0 to |items|
        invariant table == old(table)
        invariant TopLengthsFrom(Current(), data, i) == MeasureTable(old(Current()), data)
      {
        var k := items[i].key;
        if |k| > maxColParam {
          maxColParam := |k|;
        }
        err := SetTableLengths(items[i].value);
        if err.Some? {
          return;
        }
      }
      err := None;
    }

    /** `build_table(data)`: measure, append the header block, then the rows; the list is returned. */
    method BuildTable(data: Value) returns (result: Result<seq<string>, PyError>)
      modifies this
      ensures var o := TableBuilt(old(Current()), old(table), data);
        Current() == o.lengths && table == o.table && result == o.result
    {
      var failure := MeasureOptions(data);
      if failure.Some? {
        return Err(failure.value);
      }
      var headerSpacer := Spacer('=', Current());
      var rowSpacer := Spacer('-', Current());
      table := table + [rowSpacer];
      var header := RowBuilder("Parameters", "Choices/Defaults", "Comments");
      table := table + [header];
      table := table + [headerSpacer];
      ghost var head := table;
      assert head == old(table) + [rowSpacer, header, headerSpacer];
      var err := TableBuilder(data, rowSpacer);
      if err.Some? {
        return Err(err.value);
      }
      return Ok(table);
    }
  }
}
