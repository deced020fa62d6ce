/**
 * The OCPP JSON-Schema to OpenAPI converter (scripts/convert_ocpp_json_to_openapi.py),
 * schema by schema: conversion of one JSON-Schema definition and the recursive
 * `$ref` rewriting. The definitions as a whole are in module OcppDefinitions.
 */
module OcppToOpenApi {
  import opened OrderedDict
  import opened Text
  import opened Json
  import Shapes

  const DefinitionsPrefix := "#/definitions/"

  /** The keys copied before `properties`, in the order the converter copies them. */
  const HeadKeys: seq<string> := ["type", "description", "enum", "additionalProperties", "required"]

  /** The keys copied after `items`, in the order the converter copies them. */
  const TailKeys: seq<string> := ["minItems", "maxItems", "minLength", "maxLength", "minimum", "maximum", "format", "default", "nullable"]

  /** A vendor extension key: kept whatever its value. */
  predicate IsExtension(k: string) {
    StartsWith(k, "x-")
  }

  /**
   * The keys the converter knows: `head` is copied before `properties`, `tail`
   * after `items`, `ref` names a reference and `definitions` the draft's
   * definitions.
   */
  datatype CopyTable = CopyTable(head: seq<string>, tail: seq<string>, properties: string, items: string, ref: string, definitions: string)

  /** Lines 32-78 and 116-119: the converter's keys. */
  const OcppTable := CopyTable(HeadKeys, TailKeys, "properties", "items", "$ref", "definitions")

  /** The keys the converter treats specially are distinct, and none is an extension. */
  predicate SpecialKeys(t: CopyTable) {
    t.properties != t.items && t.properties != t.ref && t.items != t.ref && t.definitions != t.ref &&
    !IsExtension(t.properties) && !IsExtension(t.items) && !IsExtension(t.ref)
  }

  /**
   * No copied key is special or an extension, and the two halves of the table
   * do not overlap.
   */
  predicate Separate(t: CopyTable) {
    SpecialKeys(t) &&
    (forall k :: k in t.head ==> k != t.properties && k != t.items && k != t.ref && !IsExtension(k) && k !in t.tail) &&
    (forall k :: k in t.tail ==> k != t.properties && k != t.items && k != t.ref && !IsExtension(k))
  }

  /** The keys a converted schema can carry. */
  predicate AllowedKey(t: CopyTable, k: string) {
    k in t.head || k == t.properties || k == t.items || k in t.tail || k == t.ref || IsExtension(k)
  }

  /**
   * Lines 71-78: a reference into the draft `#/definitions/` becomes a
   * component reference to the schema named by its last segment; any other
   * reference is kept.
   */
  function RewriteRef(ref: string): (r: string)
    ensures !StartsWith(r, DefinitionsPrefix)
    ensures StartsWith(ref, DefinitionsPrefix) ==> StartsWith(r, Shapes.ComponentsPrefix) && Shapes.RefName(r) == LastSegment(ref, '/')
    ensures StartsWith(ref, DefinitionsPrefix) && '/' !in ref[|DefinitionsPrefix|..] ==>
      r == Shapes.ComponentsPrefix + ref[|DefinitionsPrefix|..]
    ensures !StartsWith(ref, DefinitionsPrefix) ==> r == ref
  {
    if StartsWith(ref, DefinitionsPrefix) then
      DraftRefRewritten(ref);
      Shapes.ComponentsPrefix + LastSegment(ref, '/')
    else ref
  }

  lemma DraftRefRewritten(ref: string)
    requires StartsWith(ref, DefinitionsPrefix)
    ensures var r := Shapes.ComponentsPrefix + LastSegment(ref, '/');
      !StartsWith(r, DefinitionsPrefix) && StartsWith(r, Shapes.ComponentsPrefix) && Shapes.RefName(r) == LastSegment(ref, '/') &&
      ('/' !in ref[|DefinitionsPrefix|..] ==> r == Shapes.ComponentsPrefix + ref[|DefinitionsPrefix|..])
  {
    var name := LastSegment(ref, '/');
    ComponentRefIsNotDraft(name);
    ComponentRefNamesSchema(name);
    if '/' !in ref[|DefinitionsPrefix|..] {
      DraftRefName(ref);
    }
  }

  lemma ComponentRefIsNotDraft(name: string)
    ensures !StartsWith(Shapes.ComponentsPrefix + name, DefinitionsPrefix)
  {
    var r := Shapes.ComponentsPrefix + name;
    assert r[2] == Shapes.ComponentsPrefix[2] == 'c';
  }

  lemma ComponentRefNamesSchema(name: string)
    requires '/' !in name
    ensures StartsWith(Shapes.ComponentsPrefix + name, Shapes.ComponentsPrefix)
    ensures Shapes.RefName(Shapes.ComponentsPrefix + name) == name
  {
    StartsWithAppend(Shapes.ComponentsPrefix, name, Shapes.ComponentsPrefix);
    assert (Shapes.ComponentsPrefix + name)[|Shapes.ComponentsPrefix|..] == name;
  }

  lemma DraftRefName(ref: string)
    requires StartsWith(ref, DefinitionsPrefix) && '/' !in ref[|DefinitionsPrefix|..]
    ensures LastSegment(ref, '/') == ref[|DefinitionsPrefix|..]
  {
    assert ref == DefinitionsPrefix + ref[|DefinitionsPrefix|..];
    Shapes.LastSegmentAfter(DefinitionsPrefix, ref[|DefinitionsPrefix|..]);
  }

  /** `s[k] = d[k]` for each key of `ks` that `d` has, in the order of `ks`. */
  function CopyKeys(s: Object, d: Object, ks: seq<string>): (r: Object)
    ensures forall k :: Get(r, k) == if k in ks && Get(d, k).Some? then Get(d, k) else Get(s, k)
    decreases ks
  {
    if ks == [] then s else CopyKeys(CopyField(s, d, ks[0], ks[0]), d, ks[1..])
  }

  /** Lines 86-88: `s[k] = v` for each entry of `d` whose key starts with `x-`, in the order of `d`. */
  function CopyExtensions(s: Object, d: Object): (r: Object)
    ensures forall k :: !IsExtension(k) ==> Get(r, k) == Get(s, k)
    ensures forall k :: Get(r, k).Some? ==> Get(s, k).Some? || k in Keys(d)
    decreases d
  {
    if d == [] then s
    else
      var s1 := PutIf(s, IsExtension(d[0].key), d[0].key, d[0].value);
      var r := CopyExtensions(s1, d[1..]);
      assert Keys(d) == [d[0].key] + Keys(d[1..]);
      r
  }

  /**
   * On a dictionary whose keys are distinct (what a JSON parser produces), the
   * extensions are copied with their values.
   */
  lemma {:induction false} CopyExtensionsValues(s: Object, d: Object, k: string)
    requires DistinctKeys(d) && IsExtension(k)
    ensures Get(CopyExtensions(s, d), k) == if Get(d, k).Some? then Get(d, k) else Get(s, k)
    decreases d
  {
    if d != [] {
      var s1 := PutIf(s, IsExtension(d[0].key), d[0].key, d[0].value);
      CopyExtensionsValues(s1, d[1..], k);
      if d[0].key == k {
        GetKeys(d[1..], k);
      }
    }
  }

  /** What one optional, recursively converted part of a schema comes to. */
  datatype Part = Absent | Raised | Value(value: Json)

  function PutPart(s: Object, k: string, p: Part): (r: Object)
    ensures Get(r, k) == if p.Value? then Some(p.value) else Get(s, k)
    ensures forall k' :: k' != k ==> Get(r, k') == Get(s, k')
  {
    if p.Value? then Put(s, k, p.value) else s
  }

  /** Lines 71-78: the converted `$ref`; a reference that is not a string raises. */
  function RefPart(t: CopyTable, d: Object): (p: Part)
    ensures Get(d, t.ref).None? <==> p.Absent?
    ensures p.Raised? <==> Get(d, t.ref).Some? && !Get(d, t.ref).value.JStr?
    ensures p.Value? ==> p.value == JStr(RewriteRef(Get(d, t.ref).value.s))
  {
    match Get(d, t.ref)
    case None => Absent
    case Some(ref) => if ref.JStr? then Value(JStr(RewriteRef(ref.s))) else Raised
  }

  /** A key that is not an extension, told by its first character. */
  lemma NotExtension(k: string)
    requires |k| >= 2 && k[0] != 'x'
    ensures !IsExtension(k)
  {
    assert k[..2][0] == k[0];
  }

  lemma TableKeys(k: string)
    requires k in HeadKeys || k in TailKeys
    ensures k != "properties" && k != "items" && k != "$ref" && !IsExtension(k)
    ensures k in HeadKeys ==> k !in TailKeys
  {
    NotExtension(k);
  }

  /** The converter's table is separate. */
  lemma OcppTableSeparate()
    ensures Separate(OcppTable)
  {
    forall k | k in HeadKeys || k in TailKeys {
      TableKeys(k);
    }
    NotExtension("properties");
    NotExtension("items");
    NotExtension("$ref");
  }

  /** Lines 29-68: the keys before `$ref`: the head of the table, `properties`, `items`, the tail of the table. */
  function Copied(t: CopyTable, d: Object, props: Part, items: Part): (r: Object)
  {
    CopyKeys(PutPart(PutPart(CopyKeys([], d, t.head), t.properties, props), t.items, items), d, t.tail)
  }

  lemma CopyKeysOther(s: Object, d: Object, ks: seq<string>, k: string)
    requires k !in ks
    ensures Get(CopyKeys(s, d, ks), k) == Get(s, k)
  {
  }

  lemma CopyKeysCopied(s: Object, d: Object, ks: seq<string>, k: string)
    requires k in ks
    ensures Get(CopyKeys(s, d, ks), k) == if Get(d, k).Some? then Get(d, k) else Get(s, k)
  {
  }

  lemma CopiedTableKey(t: CopyTable, d: Object, props: Part, items: Part, k: string)
    requires Separate(t) && (k in t.head || k in t.tail)
    ensures Get(Copied(t, d, props, items), k) == Get(d, k)
  {
    var s1 := CopyKeys([], d, t.head);
    var s3 := PutPart(PutPart(s1, t.properties, props), t.items, items);
    if k in t.head {
      CopyKeysCopied([], d, t.head, k);
      CopyKeysOther(s3, d, t.tail, k);
    } else {
      CopyKeysOther([], d, t.head, k);
      CopyKeysCopied(s3, d, t.tail, k);
    }
  }

  lemma CopiedProperties(t: CopyTable, d: Object, props: Part, items: Part)
    requires Separate(t)
    ensures Get(Copied(t, d, props, items), t.properties) == if props.Value? then Some(props.value) else None
  {
    var s1 := CopyKeys([], d, t.head);
    CopyKeysOther([], d, t.head, t.properties);
    CopyKeysOther(PutPart(PutPart(s1, t.properties, props), t.items, items), d, t.tail, t.properties);
  }

  lemma CopiedItems(t: CopyTable, d: Object, props: Part, items: Part)
    requires Separate(t)
    ensures Get(Copied(t, d, props, items), t.items) == if items.Value? then Some(items.value) else None
  {
    var s1 := CopyKeys([], d, t.head);
    CopyKeysOther(PutPart(PutPart(s1, t.properties, props), t.items, items), d, t.tail, t.items);
  }

  lemma CopiedNoRef(t: CopyTable, d: Object, props: Part, items: Part)
    requires Separate(t)
    ensures Get(Copied(t, d, props, items), t.ref).None?
  {
    var s1 := CopyKeys([], d, t.head);
    CopyKeysOther([], d, t.head, t.ref);
    CopyKeysOther(PutPart(PutPart(s1, t.properties, props), t.items, items), d, t.tail, t.ref);
  }

  lemma CopiedKeys(t: CopyTable, d: Object, props: Part, items: Part, k: string)
    requires Get(Copied(t, d, props, items), k).Some?
    ensures k in t.head || k == t.properties || k == t.items || k in t.tail
  {
    var s1 := CopyKeys([], d, t.head);
    var s3 := PutPart(PutPart(s1, t.properties, props), t.items, items);
    if k !in t.tail && k != t.properties && k != t.items {
      CopyKeysOther(s3, d, t.tail, k);
      if k !in t.head {
        CopyKeysOther([], d, t.head, k);
      }
    }
  }

  /**
   * Lines 29-88: the converted schema, once its parts have converted: the head
   * of the table, `properties`, `items`, the tail of the table, `$ref`, then the
   * extensions.
   */
  function Assemble(t: CopyTable, d: Object, props: Part, items: Part, ref: Part): (r: Object)
    requires Separate(t)
    ensures forall k :: k in t.head || k in t.tail ==> Get(r, k) == Get(d, k)
    ensures Get(r, t.properties) == if props.Value? then Some(props.value) else None
    ensures Get(r, t.items) == if items.Value? then Some(items.value) else None
    ensures Get(r, t.ref) == if ref.Value? then Some(ref.value) else None
    ensures forall k :: Get(r, k).Some? ==> AllowedKey(t, k)
  {
    var s4 := Copied(t, d, props, items);
    var s5 := PutPart(s4, t.ref, ref);
    forall k | k in t.head || k in t.tail ensures Get(s5, k) == Get(d, k) {
      CopiedTableKey(t, d, props, items, k);
    }
    CopiedProperties(t, d, props, items);
    CopiedItems(t, d, props, items);
    CopiedNoRef(t, d, props, items);
    forall k | Get(s5, k).Some? && k != t.ref ensures AllowedKey(t, k) {
      CopiedKeys(t, d, props, items, k);
    }
    CopyExtensions(s5, d)
  }

  /**
   * `convert_json_schema_to_openapi_schema`: the table keys copied in order, the
   * `properties` and a dictionary `items` converted recursively, the `$ref`
   * rewritten, then the `x-` extensions. `None` where Python raises: the schema
   * or its `properties` is not a dictionary, a nested conversion raises, or the
   * `$ref` is not a string.
   */
  function ConvertJsonSchema(t: CopyTable, j: Json): (r: Option<Object>)
    requires Separate(t)
    ensures r.Some? ==> j.JObj?
    decreases j
  {
    match j
    case JObj(d) =>
      var props: Part :=
        match KeyIndex(d, t.properties)
        case None => Absent
        case Some(i) =>
          var pv := d[i].value;
          if !pv.JObj? then Raised
          else
            var cs := seq(|pv.fields|, k requires 0 <= k < |pv.fields| => ConvertJsonSchema(t, pv.fields[k].value));
            if exists k :: 0 <= k < |cs| && cs[k].None? then Raised
            else Value(JObj(seq(|cs|, k requires 0 <= k < |cs| => Entry(pv.fields[k].key, JObj(cs[k].value)))));
      var items: Part :=
        match KeyIndex(d, t.items)
        case None => Absent
        case Some(i) =>
          var iv := d[i].value;
          if !iv.JObj? then Value(iv)
          else match ConvertJsonSchema(t, iv)
            case None => Raised
            case Some(c) => Value(JObj(c));
      var ref := RefPart(t, d);
      if props.Raised? || items.Raised? || ref.Raised? then None
      else Some(Assemble(t, d, props, items, ref))
    case _ => None
  }

  /** The conversion of a schema fails exactly where Python raises. */
  lemma ConvertFails(t: CopyTable, j: Json)
    requires Separate(t)
    ensures ConvertJsonSchema(t, j).None? <==>
      !j.JObj? ||
      (var ref := Get(j.fields, t.ref); ref.Some? && !ref.value.JStr?) ||
      (var ps := Get(j.fields, t.properties);
       ps.Some? && (!ps.value.JObj? || exists i :: 0 <= i < |ps.value.fields| && ConvertJsonSchema(t, ps.value.fields[i].value).None?)) ||
      (var it := Get(j.fields, t.items); it.Some? && it.value.JObj? && ConvertJsonSchema(t, it.value).None?)
  {
    if j.JObj? {
      var d := j.fields;
      var ki := KeyIndex(d, t.properties);
      if ki.Some? && d[ki.value].value.JObj? {
        var pv := d[ki.value].value;
        var cs := seq(|pv.fields|, k requires 0 <= k < |pv.fields| => ConvertJsonSchema(t, pv.fields[k].value));
        if exists i :: 0 <= i < |pv.fields| && ConvertJsonSchema(t, pv.fields[i].value).None? {
          var i :| 0 <= i < |pv.fields| && ConvertJsonSchema(t, pv.fields[i].value).None?;
          assert cs[i].None?;
        }
      }
    }
  }

  /**
   * Lines 29-90: a converted schema carries only table keys, `properties`,
   * `items`, `$ref` and extensions; table keys are copied unchanged, the
   * reference is rewritten, a dictionary `items` is converted and any other
   * `items` copied.
   */
  lemma ConvertedSchema(t: CopyTable, j: Json)
    requires Separate(t) && ConvertJsonSchema(t, j).Some?
    ensures var r := ConvertJsonSchema(t, j).value;
      (forall k :: Get(r, k).Some? ==> AllowedKey(t, k)) &&
      (forall k :: k in t.head || k in t.tail ==> Get(r, k) == Get(j.fields, k))
    ensures var r := ConvertJsonSchema(t, j).value;
      var ref := Get(j.fields, t.ref);
      Get(r, t.ref) == if ref.Some? then Some(JStr(RewriteRef(ref.value.s))) else None
    ensures var r := ConvertJsonSchema(t, j).value;
      var it := Get(j.fields, t.items);
      (it.None? ==> Get(r, t.items).None?) &&
      (it.Some? && !it.value.JObj? ==> Get(r, t.items) == it) &&
      (it.Some? && it.value.JObj? ==> ConvertJsonSchema(t, it.value).Some? && Get(r, t.items) == Some(JObj(ConvertJsonSchema(t, it.value).value)))
  {
  }

  /**
   * Lines 42-45: the properties of a converted schema are the converted
   * properties, under the same names and in the same order.
   */
  lemma ConvertedProperties(t: CopyTable, j: Json)
    requires Separate(t) && ConvertJsonSchema(t, j).Some?
    ensures var r := ConvertJsonSchema(t, j).value;
      var ps := Get(j.fields, t.properties);
      (ps.None? ==> Get(r, t.properties).None?) &&
      (ps.Some? ==>
        ps.value.JObj? && Get(r, t.properties).Some? && Get(r, t.properties).value.JObj? &&
        var cs := Get(r, t.properties).value.fields;
        Keys(cs) == Keys(ps.value.fields) &&
        forall i :: 0 <= i < |cs| ==>
          ConvertJsonSchema(t, ps.value.fields[i].value).Some? && cs[i].value == JObj(ConvertJsonSchema(t, ps.value.fields[i].value).value))
  {
  }

  /** An entry that `convert_refs_in_schema` rewrites outright: a reference into the draft's definitions. */
  predicate IsDraftRef(t: CopyTable, key: string, value: Json) {
    key == t.ref && value.JStr? && StartsWith(value.s, DefinitionsPrefix)
  }

  /** Lines 119-121: the entries other than `definitions`, in order. */
  function DropDefinitions(t: CopyTable, es: Object): (r: Object)
    ensures |r| <= |es|
    ensures forall e :: e in r <==> e in es && e.key != t.definitions
    ensures (forall i :: 0 <= i < |es| ==> es[i].key != t.definitions) ==> r == es
  {
    if es == [] then []
    else
      var rest := DropDefinitions(t, es[1..]);
      assert es == [es[0]] + es[1..];
      if es[0].key == t.definitions then rest else [es[0]] + rest
  }

  /** The entries of a dictionary once each has been through `convert_refs_in_schema`. */
  function RefEntries(t: CopyTable, fs: Object, converted: seq<Json>): (r: Object)
    requires |converted| == |fs|
    ensures |r| == |fs|
    ensures forall i :: 0 <= i < |fs| ==> r[i].key == fs[i].key
    ensures forall i :: 0 <= i < |fs| ==>
      r[i].value == if IsDraftRef(t, fs[i].key, fs[i].value) then JStr(RewriteRef(fs[i].value.s)) else converted[i]
  {
    seq(|fs|, i requires 0 <= i < |fs| =>
      Entry(fs[i].key, if IsDraftRef(t, fs[i].key, fs[i].value) then JStr(RewriteRef(fs[i].value.s)) else converted[i]))
  }

  /**
   * `convert_refs_in_schema`: draft references rewritten and `definitions`
   * dropped at every depth of dictionaries and lists; every other value kept.
   */
  function ConvertRefs(t: CopyTable, j: Json): (r: Json)
    ensures !j.JObj? && !j.JArr? ==> r == j
    ensures j.JObj? <==> r.JObj?
    ensures j.JArr? <==> r.JArr?
    ensures j.JArr? ==> |r.items| == |j.items| && forall i :: 0 <= i < |j.items| ==> r.items[i] == ConvertRefs(t, j.items[i])
    decreases j
  {
    match j
    case JObj(fs) =>
      JObj(DropDefinitions(t, RefEntries(t, fs, seq(|fs|, i requires 0 <= i < |fs| => ConvertRefs(t, fs[i].value)))))
    case JArr(items) => JArr(seq(|items|, i requires 0 <= i < |items| => ConvertRefs(t, items[i])))
    case _ => j
  }

  /** No dictionary at any depth has a `definitions` key. */
  predicate NoDefinitions(t: CopyTable, j: Json)
    decreases j
  {
    match j
    case JObj(fs) => forall i :: 0 <= i < |fs| ==> fs[i].key != t.definitions && NoDefinitions(t, fs[i].value)
    case JArr(items) => forall i :: 0 <= i < |items| ==> NoDefinitions(t, items[i])
    case _ => true
  }

  /** No reference at any depth points into the draft's definitions. */
  predicate NoDraftRefs(t: CopyTable, j: Json)
    decreases j
  {
    match j
    case JObj(fs) => forall i :: 0 <= i < |fs| ==> !IsDraftRef(t, fs[i].key, fs[i].value) && NoDraftRefs(t, fs[i].value)
    case JArr(items) => forall i :: 0 <= i < |items| ==> NoDraftRefs(t, items[i])
    case _ => true
  }

  /** An entry of a converted dictionary comes from an entry of the original with the same key. */
  lemma RefEntryOrigin(t: CopyTable, fs: Object, e: Entry<Json>) returns (i: nat)
    requires e in ConvertRefs(t, JObj(fs)).fields
    ensures i < |fs| && e.key == fs[i].key && e.key != t.definitions
    ensures e.value == if IsDraftRef(t, fs[i].key, fs[i].value) then JStr(RewriteRef(fs[i].value.s)) else ConvertRefs(t, fs[i].value)
  {
    var cs := RefEntries(t, fs, seq(|fs|, k requires 0 <= k < |fs| => ConvertRefs(t, fs[k].value)));
    assert e in cs;
    i :| 0 <= i < |cs| && cs[i] == e;
  }

  /** Lines 119-121: no `definitions` key survives, at any depth. */
  lemma {:induction false} RefsDropDefinitions(t: CopyTable, j: Json)
    ensures NoDefinitions(t, ConvertRefs(t, j))
    decreases j
  {
    match j
    case JObj(fs) =>
      var r := ConvertRefs(t, j).fields;
      forall k | 0 <= k < |r| ensures r[k].key != t.definitions && NoDefinitions(t, r[k].value) {
        var i := RefEntryOrigin(t, fs, r[k]);
        if !IsDraftRef(t, fs[i].key, fs[i].value) {
          RefsDropDefinitions(t, fs[i].value);
        }
      }
    case JArr(items) =>
      forall k | 0 <= k < |items| ensures NoDefinitions(t, ConvertRefs(t, items[k])) {
        RefsDropDefinitions(t, items[k]);
      }
    case _ =>
  }

  /** Lines 116-118: every reference into the draft's definitions is rewritten, at any depth. */
  lemma {:induction false} RefsRewritten(t: CopyTable, j: Json)
    ensures NoDraftRefs(t, ConvertRefs(t, j))
    decreases j
  {
    match j
    case JObj(fs) =>
      var r := ConvertRefs(t, j).fields;
      forall k | 0 <= k < |r| ensures !IsDraftRef(t, r[k].key, r[k].value) && NoDraftRefs(t, r[k].value) {
        var i := RefEntryOrigin(t, fs, r[k]);
        if !IsDraftRef(t, fs[i].key, fs[i].value) {
          RefsRewritten(t, fs[i].value);
        }
      }
    case JArr(items) =>
      forall k | 0 <= k < |items| ensures NoDraftRefs(t, ConvertRefs(t, items[k])) {
        RefsRewritten(t, items[k]);
      }
    case _ =>
  }

  /** Rewriting the references of a rewritten schema changes nothing. */
  lemma {:induction false} RefsIdempotent(t: CopyTable, j: Json)
    ensures ConvertRefs(t, ConvertRefs(t, j)) == ConvertRefs(t, j)
    decreases j
  {
    match j
    case JObj(fs) =>
      var es := ConvertRefs(t, j).fields;
      var cs := seq(|es|, k requires 0 <= k < |es| => ConvertRefs(t, es[k].value));
      var again := RefEntries(t, es, cs);
      forall k | 0 <= k < |es| ensures again[k] == es[k] && es[k].key != t.definitions {
        var i := RefEntryOrigin(t, fs, es[k]);
        if !IsDraftRef(t, fs[i].key, fs[i].value) {
          RefsIdempotent(t, fs[i].value);
        }
      }
      assert again == es;
    case JArr(items) =>
      var r := ConvertRefs(t, j).items;
      forall k | 0 <= k < |items| ensures ConvertRefs(t, r[k]) == r[k] {
        RefsIdempotent(t, items[k]);
      }
      assert ConvertRefs(t, ConvertRefs(t, j)).items == r;
    case _ =>
  }
}
