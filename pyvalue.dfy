/**
 * The Python values the documentation tree is made of, as the YAML loader
 * hands them to the extractor: None, booleans, integers, strings, lists and
 * dicts. A dict is the ordered sequence of its entries, in insertion order,
 * which is the order Python iterates it in; its keys are strings.
 */
module PyValue {
  import opened Wrappers
  import opened Text

  datatype Value =
    | Null
    | Bool(b: bool)
    | Int(i: int)
    | Str(s: string)
    | List(items: seq<Value>)
    | Dict(entries: seq<Entry>)

  datatype Entry = Entry(key: string, value: Value)

  /** The Python exceptions the modelled code can raise. */
  datatype PyError = KeyError | IndexError | TypeError | AttributeError

  /** Python's truth value: None, False, 0 and empty containers are false. */
  predicate Truthy(v: Value)
  {
    match v
    case Null => false
    case Bool(b) => b
    case Int(i) => i != 0
    case Str(s) => s != ""
    case List(items) => items != []
    case Dict(entries) => entries != []
  }

  /** `v == True` in Python, where `1 == True` holds as well. */
  predicate EqualsTrue(v: Value)
  {
    v == Bool(true) || v == Int(1)
  }

  function Keys(es: seq<Entry>): (ks: seq<string>)
    ensures |ks| == |es|
  {
    seq(|es|, j requires 0 <= j < |es| => es[j].key)
  }

  /** The position of key k in a dict, if it has that key. */
  function Find(es: seq<Entry>, k: string): (r: Option<nat>)
    ensures r.Some? ==> r.value < |es| && es[r.value].key == k
  {
    if es == [] then None
    else if es[0].key == k then Some(0)
    else match Find(es[1..], k)
      case None => None
      case Some(j) => Some(j + 1)
  }

  /** `Find` gives the first position of k, and nothing exactly when k is not a key. */
  lemma {:induction false} FindFirst(es: seq<Entry>, k: string)
    ensures Find(es, k).Some? ==> forall j :: 0 <= j < Find(es, k).value ==> es[j].key != k
    ensures Find(es, k).None? <==> k !in Keys(es)
  {
    if es != [] {
      FindFirst(es[1..], k);
      assert Keys(es) == [es[0].key] + Keys(es[1..]);
    }
  }

  /** `d.get(k)` on a dict; `None` here when the key is missing. */
  function Get(es: seq<Entry>, k: string): (r: Option<Value>)
    ensures r.Some? ==> Entry(k, r.value) in es
  {
    match Find(es, k)
    case None => None
    case Some(j) => Some(es[j].value)
  }

  /** `d.get(k)` in Python: the value under k, or None when d is no dict with that key. */
  function PyGet(v: Value, k: string): Value
  {
    if !v.Dict? then Null
    else match Find(v.entries, k)
      case Some(j) => v.entries[j].value
      case None => Null
  }

  /**
   * `d[k]` on a dict known to hold k; the value is part of the dict, which
   * the recursive walks over the tree use to terminate.
   */
  function Child(v: Value, k: string): (r: Value)
    requires HasKey(v, k)
    ensures v decreases to r
    ensures r == PyGet(v, k)
  {
    FindFirst(v.entries, k);
    v.entries[Find(v.entries, k).value].value
  }

  /** No key occurs twice in the entries, as in every Python dict. */
  predicate UniqueKeys(es: seq<Entry>)
  {
    forall i, j :: 0 <= i < j < |es| ==> es[i].key != es[j].key
  }

  /** A value whose dicts, at every depth, have distinct keys. */
  predicate WellFormed(v: Value)
  {
    match v
    case List(items) => forall i :: 0 <= i < |items| ==> WellFormed(items[i])
    case Dict(es) => UniqueKeys(es) && forall i :: 0 <= i < |es| ==> WellFormed(es[i].value)
    case _ => true
  }

  /** With distinct keys, k sits exactly where an entry has key k. */
  lemma FindUnique(es: seq<Entry>, j: nat)
    requires UniqueKeys(es) && j < |es|
    ensures Find(es, es[j].key) == Some(j)
  {
    FindFirst(es, es[j].key);
    assert es[j].key == Keys(es)[j];
  }

  /** Writing `d[k] = x` leaves what every other key reads unchanged. */
  lemma SetItemReads(es: seq<Entry>, k: string, x: Value)
    ensures PyGet(Dict(SetItem(es, k, x)), k) == x
    ensures forall k' :: k' != k ==> PyGet(Dict(SetItem(es, k, x)), k') == PyGet(Dict(es), k')
  {
    forall k' | k' != k
      ensures PyGet(Dict(SetItem(es, k, x)), k') == PyGet(Dict(es), k')
    {
      assert Get(SetItem(es, k, x), k') == Get(es, k');
    }
  }

  /** `k in d` on a dict. */
  predicate HasKey(v: Value, k: string)
  {
    v.Dict? && k in Keys(v.entries)
  }

  /** A missing key reads as None. */
  lemma PyGetMissing(v: Value, k: string)
    requires !HasKey(v, k)
    ensures PyGet(v, k) == Null
  {
    if v.Dict? {
      FindFirst(v.entries, k);
    }
  }

  /**
   * `d[k] = v` on a dict: an existing key keeps its position and gets the new
   * value, a new key is appended at the end.
   */
  function SetItem(es: seq<Entry>, k: string, v: Value): (r: seq<Entry>)
    ensures Get(r, k) == Some(v)
    ensures forall k' :: k' != k ==> Get(r, k') == Get(es, k')
    ensures Keys(r) == if k in Keys(es) then Keys(es) else Keys(es) + [k]
  {
    FindFirst(es, k);
    match Find(es, k)
    case Some(j) =>
      var r := es[j := Entry(k, v)];
      assert Keys(r) == Keys(es);
      FindByKeys(r, es, k);
      forall k' ensures Get(r, k') == Get(es, k') || k' == k {
        FindByKeys(r, es, k');
      }
      r
    case None =>
      var r := es + [Entry(k, v)];
      assert r[|es|].key == k;
      assert forall j :: 0 <= j < |es| ==> r[j] == es[j];
      assert Keys(r) == Keys(es) + [k];
      FindAppend(es, k, v);
      forall k' | k' != k ensures Get(r, k') == Get(es, k') {
        FindAppendOther(es, Entry(k, v), k');
      }
      r
  }

  lemma {:induction false} FindAppend(es: seq<Entry>, k: string, v: Value)
    requires Find(es, k).None?
    ensures Find(es + [Entry(k, v)], k) == Some(|es|)
  {
    if es != [] {
      assert (es + [Entry(k, v)])[1..] == es[1..] + [Entry(k, v)];
      FindAppend(es[1..], k, v);
    }
  }

  lemma {:induction false} FindAppendOther(es: seq<Entry>, e: Entry, k: string)
    requires e.key != k
    ensures Find(es + [e], k) == Find(es, k)
  {
    if es == [] {
      assert Find([e][1..], k) == None;
    } else {
      assert (es + [e])[1..] == es[1..] + [e];
      FindAppendOther(es[1..], e, k);
    }
  }

  /** Where a key sits depends on the keys alone. */
  lemma {:induction false} FindByKeys(a: seq<Entry>, b: seq<Entry>, k: string)
    requires Keys(a) == Keys(b)
    ensures Find(a, k) == Find(b, k)
  {
    if a != [] {
      assert a[0].key == Keys(a)[0] == Keys(b)[0] == b[0].key;
      assert Keys(a[1..]) == Keys(a)[1..] == Keys(b)[1..] == Keys(b[1..]);
      FindByKeys(a[1..], b[1..], k);
    }
  }

  /**
   * `d[k]` with a string key: the value under k, a KeyError when a dict
   * lacks k, and a TypeError on anything else (a list or string takes only
   * integer indices; None, booleans and integers take none).
   */
  function GetItem(v: Value, k: string): (r: Result<Value, PyError>)
    ensures r.Ok? <==> HasKey(v, k)
    ensures r.Ok? ==> r.value == PyGet(v, k)
    ensures r.Err? ==> r.error == if v.Dict? then KeyError else TypeError
  {
    if !v.Dict? then Err(TypeError)
    else
      FindFirst(v.entries, k);
      match Find(v.entries, k)
      case Some(j) => Ok(v.entries[j].value)
      case None => Err(KeyError)
  }

  /** `d.get(k, default)`: the value under k or the default; only a dict has `get`. */
  function GetOr(v: Value, k: string, default: Value): (r: Result<Value, PyError>)
    ensures r.Err? <==> !v.Dict?
    ensures v.Dict? && HasKey(v, k) ==> r == Ok(PyGet(v, k))
    ensures v.Dict? && !HasKey(v, k) ==> r == Ok(default)
  {
    if !v.Dict? then Err(AttributeError)
    else
      FindFirst(v.entries, k);
      match Find(v.entries, k)
      case Some(j) => Ok(v.entries[j].value)
      case None => Ok(default)
  }

  /**
   * `v[0]`: the first item of a list or the first character of a string,
   * an IndexError when either is empty, a KeyError on a dict (whose keys
   * are strings) and a TypeError on None, booleans and integers.
   */
  function Subscript0(v: Value): (r: Result<Value, PyError>)
    ensures r.Ok? <==> (v.List? && v.items != []) || (v.Str? && v.s != "")
  {
    match v
    case List(items) => if items == [] then Err(IndexError) else Ok(items[0])
    case Str(s) => if s == "" then Err(IndexError) else Ok(Str(s[..1]))
    case Dict(_) => Err(KeyError)
    case _ => Err(TypeError)
  }

  /** `len(v)`: the size of a string, list or dict; a TypeError on anything else. */
  function Len(v: Value): (r: Result<nat, PyError>)
    ensures r.Ok? <==> v.Str? || v.List? || v.Dict?
  {
    match v
    case Str(s) => Ok(|s|)
    case List(items) => Ok(|items|)
    case Dict(es) => Ok(|es|)
    case _ => Err(TypeError)
  }

  /**
   * `k in v` for a string k: a key of a dict, an item of a list, a
   * substring of a string; None, booleans and integers are not iterable.
   */
  function Contains(v: Value, k: string): (r: Result<bool, PyError>)
    ensures v.Dict? ==> r == Ok(HasKey(v, k))
    ensures v.List? ==> r == Ok(Str(k) in v.items)
    ensures v.Str? ==> r == Ok(IsSubstring(k, v.s))
    ensures r.Err? <==> v.Null? || v.Bool? || v.Int?
  {
    match v
    case Dict(es) => Ok(k in Keys(es))
    case List(items) => Ok(Str(k) in items)
    case Str(s) => Ok(IsSubstring(k, s))
    case _ => Err(TypeError)
  }

  /** Python's `str(v)`: a string is itself, anything else is its `repr`. */
  function PyStr(v: Value): string
  {
    if v.Str? then v.s else Repr(v)
  }

  /**
   * Python's `repr(v)`. Strings are quoted with single quotes; the escaping
   * and the switch to double quotes that CPython applies to some strings are
   * not modelled.
   */
  function Repr(v: Value): string
    decreases v, 1
  {
    match v
    case Null => "None"
    case Bool(b) => if b then "True" else "False"
    case Int(i) => if i < 0 then "-" + Digits(-i) else Digits(i)
    case Str(s) => "'" + s + "'"
    case List(items) => "[" + ReprItems(v, 0) + "]"
    case Dict(es) => "{" + ReprEntries(v, 0) + "}"
  }

  /** A list or a dict is shown with more characters than it has items. */
  lemma ReprLonger(v: Value)
    ensures v.List? ==> |Repr(v)| > |v.items|
    ensures v.Dict? ==> |Repr(v)| > |v.entries|
  {
    if v.List? && v.items != [] {
      ReprItemsLength(v, 0);
    } else if v.Dict? {
      ReprEntriesLength(v, 0);
    }
  }

  lemma {:induction false} ReprItemsLength(v: Value, i: nat)
    requires v.List? && i < |v.items|
    ensures |ReprItems(v, i)| >= 2 * (|v.items| - 1 - i)
    decreases |v.items| - i
  {
    if i < |v.items| - 1 {
      ReprItemsLength(v, i + 1);
    }
  }

  lemma {:induction false} ReprEntriesLength(v: Value, i: nat)
    requires v.Dict? && i <= |v.entries|
    ensures |ReprEntries(v, i)| >= |v.entries| - i
    decreases |v.entries| - i
  {
    if i < |v.entries| {
      ReprEntriesLength(v, i + 1);
    }
  }

  /** The items of a list from i on, each shown by `repr`, separated by `, `. */
  function ReprItems(v: Value, i: nat): string
    requires v.List?
    decreases v, 0, |v.items| - i
  {
    if i >= |v.items| then ""
    else if i == |v.items| - 1 then Repr(v.items[i])
    else Repr(v.items[i]) + ", " + ReprItems(v, i + 1)
  }

  /** The entries of a dict from i on, each shown as `'key': repr`, separated by `, `. */
  function ReprEntries(v: Value, i: nat): string
    requires v.Dict?
    decreases v, 0, |v.entries| - i
  {
    if i >= |v.entries| then ""
    else
      var shown := "'" + v.entries[i].key + "': " + Repr(v.entries[i].value);
      if i == |v.entries| - 1 then shown else shown + ", " + ReprEntries(v, i + 1)
  }

  /** The decimal digits of n. */
  function Digits(n: nat): string
  {
    if n < 10 then ["0123456789"[n]] else Digits(n / 10) + ["0123456789"[n % 10]]
  }

  /** The UTF-8 bytes of one character. */
  function Utf8(c: char): (r: seq<int>)
    ensures 1 <= |r| <= 4
    ensures c as int < 0x80 <==> r == [c as int]
    ensures forall i :: 0 <= i < |r| ==> 0 <= r[i] < 256
  {
    var n := c as int;
    if n < 0x80 then [n]
    else if n < 0x800 then [0xC0 + n / 64, 0x80 + n % 64]
    else if n < 0x10000 then [0xE0 + n / 4096, 0x80 + (n / 64) % 64, 0x80 + n % 64]
    else [0xF0 + (n / 262144) % 8, 0x80 + (n / 4096) % 64, 0x80 + (n / 64) % 64, 0x80 + n % 64]
  }

  /** `s.encode('UTF-8')`. */
  function Encode(s: string): (r: seq<int>)
    ensures forall i :: 0 <= i < |r| ==> 0 <= r[i] < 256
  {
    if s == [] then [] else Utf8(s[0]) + Encode(s[1..])
  }

  /** A character Python shows as itself inside `b'...'`: printable ASCII other than a quote or backslash. */
  predicate PlainChar(c: char)
  {
    ' ' <= c <= '~' && c != '\'' && c != '\\'
  }

  /** One byte as Python's `repr` of a bytes value shows it, within the given quotes. */
  function EscapeByte(b: int, quote: char): string
  {
    if b == quote as int || b == '\\' as int then ['\\', b as char]
    else if b == 9 then "\\t"
    else if b == 10 then "\\n"
    else if b == 13 then "\\r"
    else if b < 32 || b >= 127 then "\\x" + ["0123456789abcdef"[(b / 16) % 16], "0123456789abcdef"[b % 16]]
    else [b as char]
  }

  function EscapeBytes(bs: seq<int>, quote: char): string
  {
    if bs == [] then "" else EscapeByte(bs[0], quote) + EscapeBytes(bs[1..], quote)
  }

  /**
   * Python's `repr` of a bytes value, which `"{}".format(b)` produces: `b`,
   * then single quotes, or double quotes when the bytes hold a single quote
   * and no double quote, around the escaped bytes.
   */
  function BytesRepr(bs: seq<int>): string
  {
    var quote := if '\'' as int in bs && '"' as int !in bs then '"' else '\'';
    "b" + [quote] + EscapeBytes(bs, quote) + [quote]
  }

  /** A string of plain characters encodes to its own characters and shows between `b'` and `'`. */
  lemma {:induction false} PlainRepr(s: string)
    requires forall i :: 0 <= i < |s| ==> PlainChar(s[i])
    ensures BytesRepr(Encode(s)) == "b'" + s + "'"
  {
    PlainEscape(s);
    PlainEncode(s);
  }

  lemma {:induction false} PlainEncode(s: string)
    requires forall i :: 0 <= i < |s| ==> PlainChar(s[i])
    ensures |Encode(s)| == |s| && forall i :: 0 <= i < |s| ==> Encode(s)[i] == s[i] as int
  {
    if s != [] {
      PlainEncode(s[1..]);
    }
  }

  lemma {:induction false} PlainEscape(s: string)
    requires forall i :: 0 <= i < |s| ==> PlainChar(s[i])
    ensures EscapeBytes(Encode(s), '\'') == s
  {
    if s != [] {
      PlainEscape(s[1..]);
      assert Encode(s) == [s[0] as int] + Encode(s[1..]);
      assert Encode(s)[1..] == Encode(s[1..]);
    }
  }

  /** `s.lower()` for ASCII letters; other characters are left alone. */
  function Lower(s: string): (r: string)
    ensures |r| == |s|
  {
    seq(|s|, j requires 0 <= j < |s| => if 'A' <= s[j] <= 'Z' then (s[j] as int + 32) as char else s[j])
  }

  /** `needle in hay` on two strings. */
  predicate IsSubstring(needle: string, hay: string)
  {
    exists j :: 0 <= j <= |hay| && needle <= hay[j..]
  }
}
