/**
 * JSON values as the scripts receive them from `json.load` / `yaml.safe_load`,
 * and the few Python operations the scripts apply to such values without
 * checking their type first (truthiness, `in`, iteration, `str()`).
 */
module Json {
  import opened OrderedDict
  import opened Text

  /**
   * A JSON value. Objects keep insertion order. A number is carried as the text
   * Python's `str()` prints for it; the scripts copy numbers and never compute
   * with them.
   */
  datatype Json =
    | JNull
    | JBool(b: bool)
    | JNum(repr: string)
    | JStr(s: string)
    | JArr(items: seq<Json>)
    | JObj(fields: seq<Entry<Json>>)

  /** A JSON object: a Python `dict` with string keys. */
  type Object = seq<Entry<Json>>

  /** Python truthiness; a number is false exactly when it is zero. */
  predicate Truthy(j: Json) {
    match j
    case JNull => false
    case JBool(b) => b
    case JNum(r) => r != "0" && r != "0.0" && r != "-0.0"
    case JStr(s) => s != []
    case JArr(items) => items != []
    case JObj(fs) => fs != []
  }

  /**
   * Python's `needle in container` for a string `needle`: list membership,
   * dictionary key, or substring; `None` where Python raises TypeError.
   */
  function Contains(container: Json, needle: string): (r: Option<bool>)
    ensures r.Some? <==> container.JArr? || container.JObj? || container.JStr?
    ensures container.JArr? ==> r == Some(JStr(needle) in container.items)
    ensures container.JObj? ==> r == Some(Get(container.fields, needle).Some?)
  {
    match container
    case JArr(items) => Some(JStr(needle) in items)
    case JObj(fs) => Some(Get(fs, needle).Some?)
    case JStr(s) => Some(IsSubstring(needle, s))
    case _ => None
  }

  /** Lists and dictionaries are unhashable: `x in some_dict` raises TypeError for them. */
  predicate Unhashable(j: Json) {
    j.JArr? || j.JObj?
  }

  /** `for x in j`: the items of a list, the characters of a string, the keys of a dictionary. */
  function Iterate(j: Json): (r: Option<seq<Json>>)
    ensures r.Some? <==> j.JArr? || j.JStr? || j.JObj?
    ensures j.JArr? ==> r == Some(j.items)
  {
    match j
    case JArr(items) => Some(items)
    case JStr(s) => Some(seq(|s|, i requires 0 <= i < |s| => JStr([s[i]])))
    case JObj(fs) => Some(seq(|fs|, i requires 0 <= i < |fs| => JStr(fs[i].key)))
    case _ => None
  }

  /**
   * `str(j)`, as an f-string prints a value: a string is itself, the other
   * scalars print as Python prints them. Lists and dictionaries print as their
   * Python repr, which is not part of this model: they print here as the empty
   * string.
   */
  function Str(j: Json): string {
    match j
    case JStr(s) => s
    case JNull => "None"
    case JBool(b) => if b then "True" else "False"
    case JNum(r) => r
    case _ => ""
  }

  /** `d.get(k, default)` on a dictionary. */
  function Field(d: Object, k: string, default: Json): (r: Json)
    ensures Get(d, k).None? ==> r == default
    ensures Get(d, k).Some? ==> Get(d, k) == Some(r)
  {
    Get(d, k).GetOr(default)
  }

  /** `s[k] = v` when `c` holds; `s` unchanged otherwise. */
  function PutIf(s: Object, c: bool, k: string, v: Json): (r: Object)
    ensures Get(r, k) == if c then Some(v) else Get(s, k)
    ensures forall k' :: k' != k ==> Get(r, k') == Get(s, k')
  {
    if c then Put(s, k, v) else s
  }

  /** `s[to] = d[from]` when `d` has the key `from`; `s` unchanged otherwise. */
  function CopyField(s: Object, d: Object, from: string, to: string): (r: Object)
    ensures Get(r, to) == if Get(d, from).Some? then Get(d, from) else Get(s, to)
    ensures forall k :: k != to ==> Get(r, k) == Get(s, k)
  {
    match Get(d, from)
    case Some(v) => Put(s, to, v)
    case None => s
  }

  /** The strings of a sequence of strings, as JSON strings. */
  function Strings(ss: seq<string>): (r: seq<Json>)
    ensures |r| == |ss|
    ensures forall i :: 0 <= i < |ss| ==> r[i] == JStr(ss[i])
  {
    seq(|ss|, i requires 0 <= i < |ss| => JStr(ss[i]))
  }
}
