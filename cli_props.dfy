/**
 * What `convert_descriptions` and the name rule of `cli.py` promise.
 *
 * `Normalized` defines the converted tree field by field: every definition
 * keeps its keys, their order and every other field, its description is
 * passed through `ensure_list` and its `suboptions` and `contains` are
 * normalised in turn. `Convertible` says exactly when the conversion runs
 * through without raising. On a well-formed tree (distinct keys in every
 * dict, as Python dicts have) a conversion that does not raise yields
 * `Normalized`, whose descriptions are all lists and which a second
 * conversion leaves as it is.
 */
module CliProps {
  import opened Wrappers
  import opened Text
  import opened PyValue
  import opened Cli

  // ---------------------------------------------------------------------------
  // The normalised tree
  // ---------------------------------------------------------------------------

  /** An options dict with each of its definitions normalised; any other value as it is. */
  function Normalized(data: Value): (r: Value)
    decreases data, 1
    ensures r.Dict? == data.Dict?
    ensures data.Dict? ==> Keys(r.entries) == Keys(data.entries)
  {
    if !data.Dict? then data
    else
      var r := Dict(seq(|data.entries|, j requires 0 <= j < |data.entries| =>
        Entry(data.entries[j].key, NormalDefinition(data.entries[j].value))));
      assert Keys(r.entries) == Keys(data.entries);
      r
  }

  /** A definition dict with each of its fields normalised; any other value as it is. */
  function NormalDefinition(def: Value): (r: Value)
    decreases def, 0
    ensures r.Dict? == def.Dict?
    ensures def.Dict? ==> Keys(r.entries) == Keys(def.entries)
    ensures !def.Dict? ==> r == def
  {
    if !def.Dict? then def
    else
      var r := Dict(seq(|def.entries|, j requires 0 <= j < |def.entries| =>
        Entry(def.entries[j].key, NormalField(def.entries[j].key, def.entries[j].value))));
      assert Keys(r.entries) == Keys(def.entries);
      r
  }

  /** A description becomes a list, nested options are normalised, every other field stays. */
  function NormalField(key: string, v: Value): Value
    decreases v, 2
  {
    if key == "description" then EnsureList(v)
    else if key == "suboptions" || key == "contains" then Normalized(v)
    else v
  }

  /** Every description in the tree, through `suboptions` and `contains` at any depth, is a list. */
  predicate Listed(data: Value)
    decreases data, 1
  {
    data.Dict? ==> forall j :: 0 <= j < |data.entries| ==> DefinitionListed(data.entries[j].value)
  }

  predicate DefinitionListed(def: Value)
    decreases def, 0
  {
    def.Dict? ==> forall j :: 0 <= j < |def.entries| ==> FieldListed(def.entries[j].key, def.entries[j].value)
  }

  predicate FieldListed(key: string, v: Value)
    decreases v, 2
  {
    (key == "description" ==> v.List?) &&
    (key == "suboptions" || key == "contains" ==> Listed(v))
  }

  // ---------------------------------------------------------------------------
  // The normal form: normalised trees are listed, listed trees are normalised
  // ---------------------------------------------------------------------------

  lemma {:induction false} NormalizedListed(data: Value)
    decreases data, 1
    ensures Listed(Normalized(data))
  {
    if data.Dict? {
      var n := Normalized(data);
      forall j | 0 <= j < |n.entries|
        ensures DefinitionListed(n.entries[j].value)
      {
        NormalDefinitionListed(data.entries[j].value);
      }
    }
  }

  lemma {:induction false} NormalDefinitionListed(def: Value)
    decreases def, 0
    ensures DefinitionListed(NormalDefinition(def))
  {
    if def.Dict? {
      var n := NormalDefinition(def);
      forall j | 0 <= j < |n.entries|
        ensures FieldListed(n.entries[j].key, n.entries[j].value)
      {
        NormalFieldListed(def.entries[j].key, def.entries[j].value);
      }
    }
  }

  lemma {:induction false} NormalFieldListed(key: string, v: Value)
    decreases v, 2
    ensures FieldListed(key, NormalField(key, v))
  {
    if key != "description" && (key == "suboptions" || key == "contains") {
      NormalizedListed(v);
    }
  }

  /** A tree whose descriptions are already lists is its own normal form. */
  lemma {:induction false} ListedFixed(data: Value)
    requires Listed(data)
    decreases data, 1
    ensures Normalized(data) == data
  {
    if data.Dict? {
      var n := Normalized(data);
      forall j | 0 <= j < |data.entries|
        ensures n.entries[j] == data.entries[j]
      {
        DefinitionListedFixed(data.entries[j].value);
      }
    }
  }

  lemma {:induction false} DefinitionListedFixed(def: Value)
    requires DefinitionListed(def)
    decreases def, 0
    ensures NormalDefinition(def) == def
  {
    if def.Dict? {
      var n := NormalDefinition(def);
      forall j | 0 <= j < |def.entries|
        ensures n.entries[j] == def.entries[j]
      {
        FieldListedFixed(def.entries[j].key, def.entries[j].value);
      }
    }
  }

  lemma {:induction false} FieldListedFixed(key: string, v: Value)
    requires FieldListed(key, v)
    decreases v, 2
    ensures NormalField(key, v) == v
  {
    if key != "description" && (key == "suboptions" || key == "contains") {
      ListedFixed(v);
    }
  }

  /** A tree is in normal form exactly when all its descriptions are lists. */
  lemma ListedIffNormal(data: Value)
    ensures Listed(data) <==> Normalized(data) == data
    ensures Normalized(Normalized(data)) == Normalized(data)
  {
    NormalizedListed(data);
    if Listed(data) {
      ListedFixed(data);
    }
    ListedFixed(Normalized(data));
  }

  // ---------------------------------------------------------------------------
  // When the conversion raises
  // ---------------------------------------------------------------------------

  /**
   * The trees `convert_descriptions` runs through without raising: a dict
   * whose every definition is a dict with convertible `suboptions` and
   * `contains`, if it has them, or a string or list that mentions none of
   * the three keys the loop looks up.
   */
  predicate Convertible(data: Value)
    decreases data, 1
  {
    data.Dict? && forall j :: 0 <= j < |data.entries| ==> DefinitionConvertible(data.entries[j].value)
  }

  predicate DefinitionConvertible(def: Value)
    decreases def, 0
  {
    if def.Dict? then
      (HasKey(def, "suboptions") ==> Convertible(Child(def, "suboptions"))) &&
      (HasKey(def, "contains") ==> Convertible(Child(def, "contains")))
    else
      Contains(def, "description") == Ok(false) &&
      Contains(def, "suboptions") == Ok(false) &&
      Contains(def, "contains") == Ok(false)
  }

  lemma {:induction false} ConvertSucceeds(data: Value)
    decreases data, 3
    ensures Convert(data).err.None? <==> Convertible(data)
  {
    if data.Dict? {
      ConvertFromSucceeds(data, 0, data.entries);
    }
  }

  lemma {:induction false} ConvertFromSucceeds(data: Value, i: nat, es: seq<Entry>)
    requires data.Dict? && i <= |data.entries| && Keys(es) == Keys(data.entries)
    decreases data, 2, |data.entries| - i
    ensures ConvertFrom(data, i, es).err.None? <==>
      forall j :: i <= j < |data.entries| ==> DefinitionConvertible(data.entries[j].value)
  {
    if i < |data.entries| {
      var c := ConvertDefinition(data.entries[i].value);
      DefinitionSucceeds(data.entries[i].value);
      if c.err.None? {
        var es1 := es[i := Entry(data.entries[i].key, c.data)];
        assert Keys(es1)[i] == Keys(data.entries)[i];
        ConvertFromSucceeds(data, i + 1, es1);
      }
    }
  }

  lemma {:induction false} DefinitionSucceeds(def: Value)
    decreases def, 1
    ensures ConvertDefinition(def).err.None? <==> DefinitionConvertible(def)
  {
    var described := Contains(def, "description");
    if described.Ok? {
      var first := if described.value then Describe(def) else Converted(def, None);
      if first.err.None? {
        DescendSucceeds(first.data, def, "suboptions");
        var second := Descend(first.data, def, "suboptions");
        if second.err.None? {
          DescendSucceeds(second.data, def, "contains");
        }
      }
    }
  }

  lemma {:induction false} DescendSucceeds(cur: Value, def: Value, key: string)
    requires Unwritten(cur, def, key)
    decreases def, 0
    ensures Descend(cur, def, key).err.None? <==>
      if def.Dict? then HasKey(def, key) ==> Convertible(Child(def, key))
      else Contains(def, key) == Ok(false)
  {
    if def.Dict? && HasKey(def, key) {
      ConvertSucceeds(Child(def, key));
    }
  }

  // ---------------------------------------------------------------------------
  // A conversion that does not raise normalises the tree
  // ---------------------------------------------------------------------------

  /** A definition dict whose fields under the keys in done are normalised and the rest as they were. */
  function Staged(def: Value, done: set<string>): (r: Value)
    requires def.Dict?
    ensures r.Dict? && Keys(r.entries) == Keys(def.entries)
  {
    var r := Dict(seq(|def.entries|, j requires 0 <= j < |def.entries| =>
      if def.entries[j].key in done
      then Entry(def.entries[j].key, NormalField(def.entries[j].key, def.entries[j].value))
      else def.entries[j]));
    assert Keys(r.entries) == Keys(def.entries);
    r
  }

  /** Normalising the field under one more key, in place. */
  lemma StagedStep(def: Value, done: set<string>, key: string, x: Value)
    requires def.Dict? && UniqueKeys(def.entries) && HasKey(def, key)
    requires x == NormalField(key, Child(def, key))
    ensures Dict(SetItem(Staged(def, done).entries, key, x)) == Staged(def, done + {key})
  {
    var es := def.entries;
    var st := Staged(def, done).entries;
    FindFirst(es, key);
    var j := Find(es, key).value;
    FindUnique(es, j);
    FindByKeys(st, es, key);
    assert SetItem(st, key, x) == st[j := Entry(key, x)];
    var after := Staged(def, done + {key}).entries;
    forall m | 0 <= m < |es|
      ensures st[j := Entry(key, x)][m] == after[m]
    {
      if m < j {
        assert es[m].key != es[j].key;
      } else if m > j {
        assert es[j].key != es[m].key;
      }
    }
    assert st[j := Entry(key, x)] == after;
  }

  /** A key the definition lacks has nothing to normalise. */
  lemma StagedSkip(def: Value, done: set<string>, key: string)
    requires def.Dict? && !HasKey(def, key)
    ensures Staged(def, done + {key}) == Staged(def, done)
  {
    forall m | 0 <= m < |def.entries|
      ensures def.entries[m].key != key
    {
      assert def.entries[m].key == Keys(def.entries)[m];
    }
  }

  lemma {:induction false} ConvertNormalizes(data: Value)
    requires WellFormed(data)
    decreases data, 3
    ensures Convert(data).err.None? ==> Convert(data).data == Normalized(data)
  {
    if data.Dict? {
      assert Partial(data, 0) == data.entries;
      ConvertFromNormalizes(data, 0, data.entries);
    }
  }

  /** The entries of an options dict whose first i definitions are normalised. */
  function Partial(data: Value, i: nat): (es: seq<Entry>)
    requires data.Dict?
    ensures Keys(es) == Keys(data.entries)
  {
    var es := seq(|data.entries|, j requires 0 <= j < |data.entries| =>
      if j < i then Entry(data.entries[j].key, NormalDefinition(data.entries[j].value))
      else data.entries[j]);
    assert Keys(es) == Keys(data.entries);
    es
  }

  lemma {:induction false} ConvertFromNormalizes(data: Value, i: nat, es: seq<Entry>)
    requires data.Dict? && WellFormed(data) && i <= |data.entries| && es == Partial(data, i)
    decreases data, 2, |data.entries| - i
    ensures ConvertFrom(data, i, es).err.None? ==> ConvertFrom(data, i, es).data == Normalized(data)
  {
    if i == |data.entries| {
      assert Dict(es) == Normalized(data);
    } else {
      var c := ConvertDefinition(data.entries[i].value);
      DefinitionNormalizes(data.entries[i].value);
      if c.err.None? {
        var es1 := es[i := Entry(data.entries[i].key, c.data)];
        assert es1 == Partial(data, i + 1);
        ConvertFromNormalizes(data, i + 1, es1);
      }
    }
  }

  lemma {:induction false} DefinitionNormalizes(def: Value)
    requires WellFormed(def)
    decreases def, 1
    ensures ConvertDefinition(def).err.None? ==> ConvertDefinition(def).data == NormalDefinition(def)
  {
    if def.Dict? {
      var first := DescribedStaged(def);
      var second := DescendNormalizes(first.data, def, "suboptions", {"description"});
      assert {"description"} + {"suboptions"} == {"description", "suboptions"};
      if second.err.None? {
        var third := DescendNormalizes(second.data, def, "contains", {"description", "suboptions"});
        assert {"description", "suboptions"} + {"contains"} == {"description", "suboptions", "contains"};
        StagedAll(def);
      }
    }
  }

  /** The description step of a round normalises the description field and nothing else. */
  lemma DescribedStaged(def: Value) returns (first: Converted)
    requires def.Dict? && UniqueKeys(def.entries)
    ensures first == if HasKey(def, "description") then Describe(def) else Converted(def, None)
    ensures first.err.None? && first.data == Staged(def, {"description"})
  {
    first := if HasKey(def, "description") then Describe(def) else Converted(def, None);
    assert Staged(def, {}) == def;
    assert {} + {"description"} == {"description"};
    if HasKey(def, "description") {
      StagedStep(def, {}, "description", EnsureList(Child(def, "description")));
    } else {
      StagedSkip(def, {}, "description");
    }
  }

  /** Normalising the three fields the loop looks at normalises the definition. */
  lemma StagedAll(def: Value)
    requires def.Dict?
    ensures Staged(def, {"description", "suboptions", "contains"}) == NormalDefinition(def)
  {
  }

  /** A field not yet normalised reads as it did. */
  lemma StagedUnwritten(def: Value, done: set<string>, key: string)
    requires def.Dict? && key !in done
    ensures Unwritten(Staged(def, done), def, key)
  {
    var st := Staged(def, done);
    FindByKeys(st.entries, def.entries, key);
  }

  /** Converting the nested options under key normalises that field, when it does not raise. */
  lemma {:induction false} DescendNormalizes(cur: Value, def: Value, key: string, done: set<string>)
    returns (r: Converted)
    requires def.Dict? && WellFormed(def) && key !in done && (key == "suboptions" || key == "contains")
    requires cur == Staged(def, done)
    decreases def, 0
    ensures Unwritten(cur, def, key) && r == Descend(cur, def, key)
    ensures r.err.None? ==> r.data == Staged(def, done + {key})
  {
    StagedUnwritten(def, done, key);
    r := Descend(cur, def, key);
    if HasKey(def, key) {
      var sub := Child(def, key);
      FindFirst(def.entries, key);
      assert WellFormed(sub);
      ConvertNormalizes(sub);
      if Convert(sub).err.None? {
        StagedStep(def, done, key, Convert(sub).data);
      }
    } else {
      StagedSkip(def, done, key);
    }
  }

  // ---------------------------------------------------------------------------
  // Idempotence
  // ---------------------------------------------------------------------------

  lemma {:induction false} NormalizedWellFormed(data: Value)
    requires WellFormed(data)
    decreases data, 1
    ensures WellFormed(Normalized(data))
  {
    if data.Dict? {
      var n := Normalized(data);
      forall j | 0 <= j < |n.entries|
        ensures WellFormed(n.entries[j].value)
      {
        NormalDefinitionWellFormed(data.entries[j].value);
      }
      assert forall j :: 0 <= j < |n.entries| ==> n.entries[j].key == data.entries[j].key;
    }
  }

  lemma {:induction false} NormalDefinitionWellFormed(def: Value)
    requires WellFormed(def)
    decreases def, 0
    ensures WellFormed(NormalDefinition(def))
  {
    if def.Dict? {
      var n := NormalDefinition(def);
      forall j | 0 <= j < |n.entries|
        ensures WellFormed(n.entries[j].value)
      {
        NormalFieldWellFormed(def.entries[j].key, def.entries[j].value);
      }
      assert forall j :: 0 <= j < |n.entries| ==> n.entries[j].key == def.entries[j].key;
    }
  }

  lemma {:induction false} NormalFieldWellFormed(key: string, v: Value)
    requires WellFormed(v)
    decreases v, 2
    ensures WellFormed(NormalField(key, v))
  {
    if key == "description" {
      if !v.List? {
        assert EnsureList(v).items == [v];
      }
    } else if key == "suboptions" || key == "contains" {
      NormalizedWellFormed(v);
    }
  }

  /** The nested options of a normalised definition are the normalised nested options. */
  lemma ChildNormal(def: Value, key: string)
    requires HasKey(def, key)
    ensures HasKey(NormalDefinition(def), key)
    ensures Child(NormalDefinition(def), key) == NormalField(key, Child(def, key))
  {
    var n := NormalDefinition(def);
    FindByKeys(n.entries, def.entries, key);
    FindFirst(def.entries, key);
  }

  lemma {:induction false} NormalizedConvertible(data: Value)
    requires Convertible(data)
    decreases data, 1
    ensures Convertible(Normalized(data))
  {
    var n := Normalized(data);
    forall j | 0 <= j < |n.entries|
      ensures DefinitionConvertible(n.entries[j].value)
    {
      NormalDefinitionConvertible(data.entries[j].value);
    }
  }

  lemma {:induction false} NormalDefinitionConvertible(def: Value)
    requires DefinitionConvertible(def)
    decreases def, 0
    ensures DefinitionConvertible(NormalDefinition(def))
  {
    if def.Dict? {
      if HasKey(def, "suboptions") {
        ChildNormal(def, "suboptions");
        NormalizedConvertible(Child(def, "suboptions"));
      }
      if HasKey(def, "contains") {
        ChildNormal(def, "contains");
        NormalizedConvertible(Child(def, "contains"));
      }
    }
  }

  /** Converting a converted tree again changes nothing and raises nothing. */
  lemma ConvertIdempotent(data: Value)
    requires WellFormed(data) && Convert(data).err.None?
    ensures Convert(Convert(data).data) == Convert(data)
  {
    var n := Normalized(data);
    ConvertNormalizes(data);
    ConvertSucceeds(data);
    NormalizedConvertible(data);
    ConvertSucceeds(n);
    NormalizedWellFormed(data);
    ConvertNormalizes(n);
    ListedIffNormal(data);
  }

  // ---------------------------------------------------------------------------
  // The name rule
  // ---------------------------------------------------------------------------

  lemma {:induction false} JoinLast(sep: string, parts: seq<string>)
    requires |parts| >= 2
    ensures Join(sep, parts) == Join(sep, parts[..|parts| - 1]) + sep + Last(parts)
  {
    if |parts| > 2 {
      JoinLast(sep, parts[1..]);
      assert parts[1..][..|parts| - 2] == parts[..|parts| - 1][1..];
    }
  }

  /**
   * `s.split(".")[-1]` is the text after the last dot of s, or all of s
   * when it has no dot.
   */
  lemma LastPart(s: string)
    ensures '.' !in Last(Split(s))
    ensures |Last(Split(s))| <= |s| && s[|s| - |Last(Split(s))|..] == Last(Split(s))
    ensures |Last(Split(s))| < |s| ==> s[|s| - |Last(Split(s))| - 1] == '.'
    ensures '.' !in s ==> Last(Split(s)) == s
  {
    var parts := Split(s);
    if |parts| >= 2 {
      JoinLast(".", parts);
      var front := Join(".", parts[..|parts| - 1]);
      assert s == front + "." + Last(parts);
      assert s[|front|] == '.';
    }
  }

  /** The rule names a doc it has already named the same way again. */
  lemma SelectNameStable(doc: seq<Entry>)
    requires SelectName(doc).Ok?
    ensures SelectName(SelectName(doc).value.doc).Ok?
    ensures SelectName(SelectName(doc).value.doc).value.name == SelectName(doc).value.name
  {
    var named := SelectName(doc).value;
    if HasKey(Dict(doc), "module") {
      SetItemReads(doc, "plugin_type", Str("module"));
    }
    assert HasKey(Dict(named.doc), "module");
  }
}
