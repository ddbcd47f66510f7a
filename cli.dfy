/**
 * The normalisation `cli.py` applies to a module's documentation before the
 * template renders it: `ensure_list`, `convert_descriptions`, which wraps
 * every option description of the tree in a list, in place, and the rule
 * that picks the name of the page written for a plugin.
 *
 * `convert_descriptions` is modelled on values: the method returns the tree
 * as the in-place updates leave it, together with the exception that stopped
 * it, if any. It is specified by the function `Convert`; the lemmas relate
 * `Convert` to `Normalized`, a definition of the normalised tree field by field.
 */
module Cli {
  import opened Wrappers
  import opened Text
  import opened PyValue

  // ---------------------------------------------------------------------------
  // ensure_list
  // ---------------------------------------------------------------------------

  /** `ensure_list(value)`: a list as it is, anything else as a one-item list. */
  function EnsureList(v: Value): (r: Value)
    ensures r.List?
    ensures v.List? ==> r == v
    ensures !v.List? ==> r.items == [v]
  {
    if v.List? then v else List([v])
  }

  /** Applying `ensure_list` twice is applying it once. */
  lemma EnsureListIdempotent(v: Value)
    ensures EnsureList(EnsureList(v)) == EnsureList(v)
  {
  }

  // ---------------------------------------------------------------------------
  // convert_descriptions, as a function on values
  // ---------------------------------------------------------------------------

  /** The tree as `convert_descriptions` leaves it, and the exception it raised, if any. */
  datatype Converted = Converted(data: Value, err: Option<PyError>)

  /**
   * `convert_descriptions(data)`. Only a dict has `values()`; on anything
   * else the call raises AttributeError before changing anything.
   */
  function Convert(data: Value): (r: Converted)
    decreases data, 3
    ensures !data.Dict? ==> r == Converted(data, Some(AttributeError))
    ensures data.Dict? ==> r.data.Dict? && Keys(r.data.entries) == Keys(data.entries)
  {
    if !data.Dict? then Converted(data, Some(AttributeError))
    else ConvertFrom(data, 0, data.entries)
  }

  /**
   * The loop over `data.values()` from the i-th definition on, where es holds
   * the entries of data as the earlier rounds left them. A definition is
   * updated in place, so an exception leaves the partly converted definition
   * in the tree.
   */
  function ConvertFrom(data: Value, i: nat, es: seq<Entry>): (r: Converted)
    requires data.Dict? && i <= |data.entries| && Keys(es) == Keys(data.entries)
    decreases data, 2, |data.entries| - i
    ensures r.data.Dict? && Keys(r.data.entries) == Keys(data.entries)
  {
    if i == |data.entries| then Converted(Dict(es), None)
    else
      var c := ConvertDefinition(data.entries[i].value);
      var es1 := es[i := Entry(data.entries[i].key, c.data)];
      assert Keys(es1) == Keys(es) by {
        assert Keys(es1)[i] == data.entries[i].key == Keys(data.entries)[i];
      }
      if c.err.Some? then Converted(Dict(es1), c.err) else ConvertFrom(data, i + 1, es1)
  }

  /**
   * The body of the loop for one definition: its description, if it has
   * one, is wrapped by `ensure_list`, and then its `suboptions` and its
   * `contains` are converted. The membership tests work on any value that
   * supports `in`; subscripting with a string key then fails on all but a dict.
   */
  function ConvertDefinition(def: Value): (r: Converted)
    decreases def, 1
    ensures r.data.Dict? == def.Dict?
    ensures def.Dict? ==> Keys(r.data.entries) == Keys(def.entries)
    ensures !def.Dict? ==> r.data == def
  {
    match Contains(def, "description")
    case Err(e) => Converted(def, Some(e))
    case Ok(described) =>
      var first := if described then Describe(def) else Converted(def, None);
      if first.err.Some? then first
      else
        var second := Descend(first.data, def, "suboptions");
        if second.err.Some? then second else Descend(second.data, def, "contains")
  }

  /**
   * `definition["description"] = ensure_list(definition["description"])`,
   * which only a dict allows.
   */
  function Describe(def: Value): (r: Converted)
    requires Contains(def, "description") == Ok(true)
    ensures r.err.Some? <==> !def.Dict?
    ensures !def.Dict? ==> r == Converted(def, Some(TypeError))
    ensures def.Dict? ==> r.data.Dict? && Keys(r.data.entries) == Keys(def.entries)
    ensures def.Dict? ==> PyGet(r.data, "description") == EnsureList(PyGet(def, "description"))
    ensures def.Dict? ==> forall k :: k != "description" ==> PyGet(r.data, k) == PyGet(def, k)
  {
    match GetItem(def, "description")
    case Err(e) => Converted(def, Some(e))
    case Ok(d) =>
      SetItemReads(def.entries, "description", EnsureList(d));
      Converted(Dict(SetItem(def.entries, "description", EnsureList(d))), None)
  }

  /**
   * What a key of a definition still reads while the definition is being
   * converted: the same as before, since only other keys have been written.
   */
  predicate Unwritten(cur: Value, def: Value, key: string)
  {
    if def.Dict? then
      cur.Dict? && Keys(cur.entries) == Keys(def.entries) && PyGet(cur, key) == PyGet(def, key)
    else cur == def
  }

  /**
   * `if key in definition: convert_descriptions(definition[key])`, where cur
   * is the definition as converted so far and def the definition as it was
   * at the start of the round. The nested dict is updated in place, so its
   * converted form replaces the value under key, also when the nested call raises.
   */
  function Descend(cur: Value, def: Value, key: string): (r: Converted)
    requires Unwritten(cur, def, key)
    decreases def, 0
    ensures r.data.Dict? == def.Dict?
    ensures def.Dict? ==> Keys(r.data.entries) == Keys(def.entries)
    ensures def.Dict? ==> forall k :: k != key ==> PyGet(r.data, k) == PyGet(cur, k)
    ensures !def.Dict? ==> r.data == def
  {
    match Contains(cur, key)
    case Err(e) => Converted(cur, Some(e))
    case Ok(present) =>
      if !present then Converted(cur, None)
      else match GetItem(cur, key)
        case Err(e) => Converted(cur, Some(e))
        case Ok(_) =>
          var sub := Convert(Child(def, key));
          SetItemReads(cur.entries, key, sub.data);
          Converted(Dict(SetItem(cur.entries, key, sub.data)), sub.err)
  }

  // ---------------------------------------------------------------------------
  // convert_descriptions, the recursive loop
  // ---------------------------------------------------------------------------

  /** `convert_descriptions(data)`: the tree it leaves behind and the exception it raised. */
  method ConvertDescriptions(data: Value) returns (out: Value, err: Option<PyError>)
    ensures Converted(out, err) == Convert(data)
    decreases data, 1
  {
    if !data.Dict? {
      return data, Some(AttributeError);
    }
    var entries := data.entries;
    for i := 0 to |data.entries|
      invariant Keys(entries) == Keys(data.entries)
      invariant ConvertFrom(data, i, entries) == Convert(data)
    {
      var definition;
      definition, err := ConvertOneDefinition(data.entries[i].value);
      var entries1 := entries[i := Entry(data.entries[i].key, definition)];
      assert Keys(entries1)[i] == Keys(data.entries)[i];
      entries := entries1;
      if err.Some? {
        return Dict(entries), err;
      }
    }
    return Dict(entries), None;
  }

  /** One round of the loop of `convert_descriptions`, on the definition it visits. */
  method ConvertOneDefinition(original: Value) returns (definition: Value, err: Option<PyError>)
    ensures Converted(definition, err) == ConvertDefinition(original)
    decreases original, 1
  {
    definition, err := original, None;
    var described := Contains(definition, "description");
    if described.Err? {
      return definition, Some(described.error);
    }
    if described.value {
      var d := GetItem(definition, "description");
      if d.Err? {
        return definition, Some(d.error);
      }
      definition := Dict(SetItem(definition.entries, "description", EnsureList(d.value)));
      assert Converted(definition, err) == Describe(original);
    }
    definition, err := ConvertNested(definition, original, "suboptions");
    if err.None? {
      definition, err := ConvertNested(definition, original, "contains");
    }
  }

  /** `if key in definition: convert_descriptions(definition[key])`. */
  method ConvertNested(definition: Value, original: Value, key: string) returns (updated: Value, err: Option<PyError>)
    requires Unwritten(definition, original, key)
    ensures Converted(updated, err) == Descend(definition, original, key)
    decreases original, 0
  {
    updated, err := definition, None;
    var present := Contains(definition, key);
    if present.Err? {
      err := Some(present.error);
    } else if present.value {
      var sub := GetItem(definition, key);
      if sub.Err? {
        err := Some(sub.error);
      } else {
        var converted;
        converted, err := ConvertDescriptions(Child(original, key));
        updated := Dict(SetItem(definition.entries, key, converted));
      }
    }
  }

  // ---------------------------------------------------------------------------
  // The name rule of render_module_docs
  // ---------------------------------------------------------------------------

  /** `s.split(".")`: the pieces between the dots, in order. */
  function Split(s: string): (parts: seq<string>)
    ensures |parts| >= 1
    ensures forall j :: 0 <= j < |parts| ==> '.' !in parts[j]
    ensures Join(".", parts) == s
  {
    if s == [] then [""]
    else
      var rest := Split(s[1..]);
      if s[0] == '.' then
        assert s == "." + s[1..];
        [""] + rest
      else
        var head := [s[0]] + rest[0];
        assert '.' !in head;
        if |rest| == 1 then
          assert s == [s[0]] + s[1..];
          [head]
        else
          assert Join(".", rest) == rest[0] + "." + Join(".", rest[1..]);
          assert s == [s[0]] + s[1..];
          [head] + rest[1..]
  }

  /** The page name a plugin is written under, and its doc as the rule leaves it. */
  datatype Naming = Naming(name: Value, doc: seq<Entry>)

  /**
   * A doc that names its module is written under that name and marked as a
   * module; any other plugin is written under the last dotted part of its
   * `name`, which becomes its `module`. A missing `name` raises KeyError,
   * and one that is no string has no `split`.
   */
  function SelectName(doc: seq<Entry>): (r: Result<Naming, PyError>)
    ensures HasKey(Dict(doc), "module") ==>
      r.Ok? && r.value.name == PyGet(Dict(doc), "module") &&
      PyGet(Dict(r.value.doc), "plugin_type") == Str("module")
    ensures !HasKey(Dict(doc), "module") ==>
      (r.Ok? <==> HasKey(Dict(doc), "name") && PyGet(Dict(doc), "name").Str?) &&
      (!HasKey(Dict(doc), "name") ==> r == Err(KeyError)) &&
      (HasKey(Dict(doc), "name") && !PyGet(Dict(doc), "name").Str? ==> r == Err(AttributeError))
    ensures !HasKey(Dict(doc), "module") && r.Ok? ==>
      r.value.name.Str? && PyGet(Dict(r.value.doc), "module") == r.value.name &&
      r.value.name.s == Last(Split(PyGet(Dict(doc), "name").s))
    ensures r.Ok? ==> Keys(doc) <= Keys(r.value.doc)
    ensures r.Ok? ==> forall k :: k != (if HasKey(Dict(doc), "module") then "plugin_type" else "module") ==>
      PyGet(Dict(r.value.doc), k) == PyGet(Dict(doc), k)
  {
    if HasKey(Dict(doc), "module") then
      SetItemReads(doc, "plugin_type", Str("module"));
      Ok(Naming(PyGet(Dict(doc), "module"), SetItem(doc, "plugin_type", Str("module"))))
    else
      match GetItem(Dict(doc), "name")
      case Err(e) => Err(e)
      case Ok(n) =>
        if !n.Str? then Err(AttributeError)
        else
          var name := Str(Last(Split(n.s)));
          SetItemReads(doc, "module", name);
          Ok(Naming(name, SetItem(doc, "module", name)))
  }

  /** `parts[-1]`. */
  function Last(parts: seq<string>): string
    requires parts != []
  {
    parts[|parts| - 1]
  }
}
