/**
 * SHACL shape generation for the `attributes.yaml` file of a schema folder
 * (scripts/generate_shacl_for_schemas.py): keys are `sh:` CURIEs, or full
 * SHACL IRIs in full-IRI mode, and IRIs are expanded against the folder's
 * context.
 */
module ShaclForSchemas {
  import opened OrderedDict
  import opened Text
  import opened Json
  import opened Iri
  import opened Shapes

  const XsdNs := "http://www.w3.org/2001/XMLSchema#"

  /** `type_map[t]` for a hashable `t` in the table: a full XML Schema datatype IRI. */
  function XsdType(t: Json): (r: Option<string>)
    ensures r.Some? ==> t.JStr? && StartsWith(r.value, XsdNs)
    ensures t.JStr? ==> (r.Some? <==> XsdLocalName(t.s).Some?)
  {
    if t.JStr? && XsdLocalName(t.s).Some? then
      StartsWithAppend(XsdNs, XsdLocalName(t.s).value, XsdNs);
      Some(XsdNs + XsdLocalName(t.s).value)
    else None
  }

  /**
   * `expand_iri` on a string: the empty string and absolute IRIs stay as they
   * are; a `prefix:local` (not `urn:`) whose prefix is bound to a string joins
   * the binding, without its trailing separators, to `local`; an unbound
   * `vocab:` prefix and everything else fall back to the vocabulary base.
   */
  function ExpandIri(iri: string, vocabBase: string, ctx: Object): (r: string)
    ensures iri == "" ==> r == ""
    ensures IsAbsolute(iri) ==> r == iri
  {
    if iri == "" || IsAbsolute(iri) then iri
    else if ':' in iri && !StartsWith(iri, "urn:") then
      var parts := SplitOnce(iri, ':');
      match StringBinding(ctx, parts.0)
      case Some(base) => ExpandBinding(base, parts.1)
      case None => if parts.0 == "vocab" then vocabBase + parts.1 else vocabBase + iri
    else vocabBase + iri
  }

  /** The relative cases of `expand_iri`: a bound prefix, the `vocab` prefix, anything else. */
  lemma ExpandIriRelative(iri: string, vocabBase: string, ctx: Object)
    requires iri != "" && !IsAbsolute(iri)
    ensures ':' in iri && !StartsWith(iri, "urn:") ==>
      var parts := SplitOnce(iri, ':');
      var b := StringBinding(ctx, parts.0);
      ExpandIri(iri, vocabBase, ctx) ==
        if b.Some? then RStrip(b.value, Separators) + "/" + parts.1
        else if parts.0 == "vocab" then vocabBase + parts.1
        else vocabBase + iri
    ensures ':' !in iri || StartsWith(iri, "urn:") ==> ExpandIri(iri, vocabBase, ctx) == vocabBase + iri
  {
  }

  /** Every string binding of the context is absolute once its trailing separators are stripped. */
  ghost predicate BindingsAbsolute(ctx: Object) {
    forall k :: StringBinding(ctx, k).Some? ==> IsAbsolute(RStrip(StringBinding(ctx, k).value, Separators))
  }

  /** Over an absolute vocabulary base and absolute bindings, expansion gives an absolute IRI. */
  lemma ExpandIriIsAbsolute(iri: string, vocabBase: string, ctx: Object)
    requires iri != "" && IsAbsolute(vocabBase) && BindingsAbsolute(ctx)
    ensures IsAbsolute(ExpandIri(iri, vocabBase, ctx))
  {
    AbsoluteAppend(vocabBase, iri);
    if !IsAbsolute(iri) && ':' in iri && !StartsWith(iri, "urn:") {
      var parts := SplitOnce(iri, ':');
      AbsoluteAppend(vocabBase, parts.1);
      var b := StringBinding(ctx, parts.0);
      if b.Some? {
        AbsoluteAppend(RStrip(b.value, Separators), "/" + parts.1);
        assert RStrip(b.value, Separators) + "/" + parts.1 == RStrip(b.value, Separators) + ("/" + parts.1);
      }
    }
  }

  /** ... and expanding the result again leaves it unchanged. */
  lemma ExpandIriIdempotent(iri: string, vocabBase: string, ctx: Object)
    requires IsAbsolute(vocabBase) && BindingsAbsolute(ctx)
    ensures ExpandIri(ExpandIri(iri, vocabBase, ctx), vocabBase, ctx) == ExpandIri(iri, vocabBase, ctx)
  {
    if iri != "" {
      ExpandIriIsAbsolute(iri, vocabBase, ctx);
    }
  }

  /** The context of the two lemmas below: `p` bound to a scheme and nothing more. */
  const SchemeOnlyContext: Object := [Entry("p", JStr("https://"))]

  /**
   * A binding that starts with `https://` but is nothing more expands `p:x` to
   * `https:/x`, which is not absolute: the strip of trailing separators is why
   * the hypothesis above is about the stripped binding.
   */
  lemma SchemeOnlyBindingLosesHost()
    ensures ExpandIri("p:x", "https://example.org/", SchemeOnlyContext) == "https:/x"
    ensures !IsAbsolute("https:/x")
  {
    SplitPX();
    assert StringBinding(SchemeOnlyContext, "p") == Some("https://");
    SchemeOnlyStripped();
    assert "https:" + "/" + "x" == "https:/x";
    HostlessIriIsRelative();
  }

  /** `https:/x` is not absolute. */
  lemma HostlessIriIsRelative()
    ensures !IsAbsolute("https:/x")
  {
    var y := "https:/x";
    assert !StartsWith(y, "http://") by { assert y[..7][4] != "http://"[4]; }
    assert !StartsWith(y, "https://") by { assert y[..8][7] != "https://"[7]; }
  }

  /** `https:/x` has a colon, is no URN, and splits into `https` and `/x`. */
  lemma HostlessIriSplits()
    ensures ':' in "https:/x" && !StartsWith("https:/x", "urn:")
    ensures SplitOnce("https:/x", ':') == ("https", "/x")
  {
    var y := "https:/x";
    assert !StartsWith(y, "urn:") by { assert y[..4][0] != 'u'; }
    assert y[..5] == "https" && y[6..] == "/x";
    SplitOnceAt(y, ':', 5);
  }

  /** ... and expanding `https:/x` once more treats `https` as an unknown prefix. */
  lemma SchemeOnlyBindingNotIdempotent()
    ensures ExpandIri("https:/x", "https://example.org/", SchemeOnlyContext) == "https://example.org/https:/x"
  {
    HostlessIriIsRelative();
    HostlessIriSplits();
    assert StringBinding(SchemeOnlyContext, "https").None?;
    assert "https" != "vocab" by { assert "https"[0] != "vocab"[0]; }
    ExpandIriRelative("https:/x", "https://example.org/", SchemeOnlyContext);
  }

  /** `expand_iri` on any JSON value: a falsy value is returned as it is, a truthy non-string raises. */
  function ExpandValue(j: Json, vocabBase: string, ctx: Object): (r: Option<Json>)
    ensures r.None? <==> Truthy(j) && !j.JStr?
    ensures j.JStr? ==> r == Some(JStr(ExpandIri(j.s, vocabBase, ctx)))
    ensures !Truthy(j) ==> r == Some(j)
  {
    if !Truthy(j) then Some(j)
    else if j.JStr? then Some(JStr(ExpandIri(j.s, vocabBase, ctx)))
    else None
  }

  /**
   * `get_property_iri`: `vocab_base + name` for a term the context does not
   * define; otherwise the context's IRI for it (an expanded term definition
   * without `@id` stands for `vocab_base + name`), expanded. `None` where
   * Python raises.
   */
  function PropertyIri(name: string, vocabBase: string, ctx: Object): (r: Option<Json>)
    ensures Get(ctx, name).None? ==> r == Some(JStr(vocabBase + name))
    ensures Get(ctx, name).Some? && Get(ctx, name).value.JStr? ==>
      r == Some(JStr(ExpandIri(Get(ctx, name).value.s, vocabBase, ctx)))
    ensures Get(ctx, name).Some? && Get(ctx, name).value.JObj? && Get(Get(ctx, name).value.fields, "@id").None? ==>
      r == Some(JStr(ExpandIri(vocabBase + name, vocabBase, ctx)))
    ensures Get(ctx, name).Some? && Get(ctx, name).value.JObj? && Get(Get(ctx, name).value.fields, "@id").Some? ==>
      r == ExpandValue(Get(Get(ctx, name).value.fields, "@id").value, vocabBase, ctx)
    ensures Get(ctx, name).Some? && !Get(ctx, name).value.JStr? && !Get(ctx, name).value.JObj? ==>
      r == ExpandValue(Get(ctx, name).value, vocabBase, ctx)
  {
    match Lookup(ctx, name)
    case None => Some(JStr(vocabBase + name))
    case Some(d) =>
      var iri := match d
        case Term(s) => JStr(s)
        case Node(id) => id.GetOr(JStr(vocabBase + name))
        case Other(v) => v;
      ExpandValue(iri, vocabBase, ctx)
  }

  /** The class a component reference names: `vocab_base + name`, expanded in full-IRI mode only. */
  function RefClassIri(refName: string, vocabBase: string, ctx: Object, full: bool): (r: string)
    ensures !full ==> r == vocabBase + refName
    ensures full ==> r == ExpandIri(vocabBase + refName, vocabBase, ctx)
  {
    var iri := vocabBase + refName;
    if full then ExpandIri(iri, vocabBase, ctx) else iri
  }

  /** With an absolute vocabulary base, both vocabularies name the same class. */
  lemma RefClassIriSameInBothStyles(refName: string, vocabBase: string, ctx: Object)
    requires IsAbsolute(vocabBase)
    ensures RefClassIri(refName, vocabBase, ctx, true) == RefClassIri(refName, vocabBase, ctx, false)
  {
    AbsoluteAppend(vocabBase, refName);
  }

  /**
   * Lines 122-130: a `$ref` property gets only `sh:class`, the vocabulary IRI of
   * the referenced name: the referenced schema is not looked at. `None` where
   * Python raises.
   */
  function RefConstraints(s: Object, ref: Json, vocabBase: string, ctx: Object, v: Vocabulary): (r: Option<Object>)
    ensures r.None? <==> !ref.JStr?
    ensures r.Some? ==> forall k :: k != v.classKey ==> Get(r.value, k) == Get(s, k)
    ensures ref.JStr? && StartsWith(ref.s, ComponentsPrefix) ==>
      Get(r.value, v.classKey) == Some(JStr(RefClassIri(RefName(ref.s), vocabBase, ctx, v.full)))
    ensures ref.JStr? && !StartsWith(ref.s, ComponentsPrefix) ==> r == Some(s)
  {
    if !ref.JStr? then None
    else if !StartsWith(ref.s, ComponentsPrefix) then Some(s)
    else Some(Put(s, v.classKey, JStr(RefClassIri(RefName(ref.s), vocabBase, ctx, v.full))))
  }

  /** Lines 149-152 and 162-165: a known type gives the datatype, else `object` gives the node kind. */
  function KindOrDatatype(s: Object, ty: Json, v: Vocabulary): (r: Object)
    requires Distinct(v)
    ensures Get(r, v.datatypeKey) == if XsdType(ty).Some? then Some(JStr(XsdType(ty).value)) else Get(s, v.datatypeKey)
    ensures Get(r, v.nodeKindKey) == if XsdType(ty).None? && ty == JStr("object") then Some(IriOrLiteralKind(v)) else Get(s, v.nodeKindKey)
    ensures forall k :: k != v.datatypeKey && k != v.nodeKindKey ==> Get(r, k) == Get(s, k)
  {
    if XsdType(ty).Some? then Put(s, v.datatypeKey, JStr(XsdType(ty).value))
    else if ty == JStr("object") then Put(s, v.nodeKindKey, IriOrLiteralKind(v))
    else s
  }

  /**
   * Lines 136-153: an array property is constrained by its `items`: a component
   * reference gives node kind IRI-or-literal and `sh:class`; otherwise the item
   * type gives the datatype or node kind. `None` where Python raises.
   */
  function ArrayConstraints(s: Object, items: Json, vocabBase: string, ctx: Object, v: Vocabulary): (r: Option<Object>)
    requires Distinct(v)
    ensures r.Some? ==> forall k :: k != v.nodeKindKey && k != v.classKey && k != v.datatypeKey ==>
      Get(r.value, k) == Get(s, k)
    ensures !items.JObj? ==> r.None?
    ensures items.JObj? && Get(items.fields, "$ref").Some? ==>
      var ref := Get(items.fields, "$ref").value;
      (r.None? <==> !ref.JStr?) &&
      (ref.JStr? && StartsWith(ref.s, ComponentsPrefix) ==>
        Get(r.value, v.classKey) == Some(JStr(RefClassIri(RefName(ref.s), vocabBase, ctx, v.full))) &&
        Get(r.value, v.nodeKindKey) == Some(IriOrLiteralKind(v))) &&
      (ref.JStr? && !StartsWith(ref.s, ComponentsPrefix) ==> r == Some(s))
    ensures items.JObj? && Get(items.fields, "$ref").None? ==>
      var ty := Field(items.fields, "type", JNull);
      (r.None? <==> Unhashable(ty)) &&
      (r.Some? ==> r.value == KindOrDatatype(s, ty, v))
  {
    if !items.JObj? then None
    else match Get(items.fields, "$ref")
      case Some(ref) =>
        if !ref.JStr? then None
        else if !StartsWith(ref.s, ComponentsPrefix) then Some(s)
        else
          var s1 := Put(s, v.nodeKindKey, IriOrLiteralKind(v));
          Some(Put(s1, v.classKey, JStr(RefClassIri(RefName(ref.s), vocabBase, ctx, v.full))))
      case None =>
        var ty := Field(items.fields, "type", JNull);
        if Unhashable(ty) then None else Some(KindOrDatatype(s, ty, v))
  }

  /**
   * Lines 156-165: the datatype of a scalar property. A known `format` wins
   * over the `type`; a property with a `format` never gets a node kind.
   * `None` where Python raises.
   */
  function TypedShape(s: Object, def: Object, v: Vocabulary): (r: Option<Object>)
    requires Distinct(v)
    ensures r.Some? ==> forall k :: k != v.datatypeKey && k != v.nodeKindKey ==> Get(r.value, k) == Get(s, k)
    ensures !Unhashable(Field(def, "type", JNull)) && !Unhashable(Field(def, "format", JNull)) ==> r.Some?
    ensures Get(def, "format").Some? && XsdType(Get(def, "format").value).Some? ==>
      r.Some? && Get(r.value, v.datatypeKey) == Some(JStr(XsdType(Get(def, "format").value).value))
    ensures Get(def, "format").Some? && r.Some? ==>
      Get(r.value, v.nodeKindKey) == Get(s, v.nodeKindKey)
    ensures Get(def, "format").None? ==>
      (r.None? <==> Unhashable(Field(def, "type", JNull))) &&
      (r.Some? ==> r.value == KindOrDatatype(s, Field(def, "type", JNull), v))
  {
    var ty := Field(def, "type", JNull);
    match Get(def, "format")
    case Some(format) =>
      if Unhashable(format) then None
      else if XsdType(format).Some? then Some(Put(s, v.datatypeKey, JStr(XsdType(format).value)))
      else if Unhashable(ty) then None
      else Some(PutIf(s, XsdType(ty).Some?, v.datatypeKey, JStr(XsdType(ty).GetOr(""))))
    case None =>
      if Unhashable(ty) then None else Some(KindOrDatatype(s, ty, v))
  }

  /** Lines 168-177: the inline enumeration and the bounds, each copied unchanged. */
  function ValueConstraints(s: Object, def: Object, v: Vocabulary): (r: Object)
    requires Distinct(v)
    ensures forall k :: k != v.inKey && k != v.minInclusiveKey && k != v.maxInclusiveKey ==> Get(r, k) == Get(s, k)
    ensures Get(r, v.inKey) == if Get(def, "enum").Some? then Get(def, "enum") else Get(s, v.inKey)
    ensures Get(r, v.minInclusiveKey) == if Get(def, "minimum").Some? then Get(def, "minimum") else Get(s, v.minInclusiveKey)
    ensures Get(r, v.maxInclusiveKey) == if Get(def, "maximum").Some? then Get(def, "maximum") else Get(s, v.maxInclusiveKey)
  {
    var s1 := CopyField(s, def, "enum", v.inKey);
    var s2 := CopyField(s1, def, "minimum", v.minInclusiveKey);
    CopyField(s2, def, "maximum", v.maxInclusiveKey)
  }

  /** `r` and `s` agree on the keys every property shape starts with. */
  predicate SameHeader(v: Vocabulary, r: Object, s: Object) {
    Get(r, v.pathKey) == Get(s, v.pathKey) && Get(r, v.nameKey) == Get(s, v.nameKey) &&
    Get(r, v.minCountKey) == Get(s, v.minCountKey) && Get(r, v.maxCountKey) == Get(s, v.maxCountKey)
  }

  /** Lines 156-177: a scalar property gets its datatype or node kind, then its value constraints. */
  function ScalarConstraints(s: Object, def: Object, v: Vocabulary): (r: Option<Object>)
    requires Distinct(v)
    ensures r.Some? <==> TypedShape(s, def, v).Some?
    ensures r.Some? ==> r.value == ValueConstraints(TypedShape(s, def, v).value, def, v)
    ensures r.Some? ==> SameHeader(v, r.value, s)
  {
    match TypedShape(s, def, v)
    case None => None
    case Some(s1) => Some(ValueConstraints(s1, def, v))
  }

  /** Lines 83-119: the path, the name and the two cardinalities, keyed in the vocabulary. */
  function ShapeHeader(v: Vocabulary, name: string, def: Object, required: Json, path: Json): (s: Object)
    requires Distinct(v)
    ensures Get(s, v.pathKey) == Some(path)
    ensures Get(s, v.nameKey) == Some(JStr(name))
    ensures Get(s, v.minCountKey) == if Contains(required, name) == Some(true) then Some(JNum("1")) else None
    ensures Get(s, v.maxCountKey) == if Truthy(Field(def, "nullable", JBool(false))) then Some(JNum("1")) else None
    ensures forall k :: k != v.pathKey && k != v.nameKey && k != v.minCountKey && k != v.maxCountKey ==>
      Get(s, k).None?
  {
    var s0 := Put(Put([], v.pathKey, path), v.nameKey, JStr(name));
    var s1 := PutIf(s0, Contains(required, name) == Some(true), v.minCountKey, JNum("1"));
    PutIf(s1, Truthy(Field(def, "nullable", JBool(false))), v.maxCountKey, JNum("1"))
  }

  /** Lines 121-179: the constraints a property definition adds; a `$ref` is handled before, and instead of, the type. */
  function Constraints(s: Object, def: Object, vocabBase: string, ctx: Object, v: Vocabulary): (r: Option<Object>)
    requires Distinct(v)
    ensures r.Some? ==> SameHeader(v, r.value, s)
    ensures Get(def, "$ref").Some? ==> r == RefConstraints(s, Get(def, "$ref").value, vocabBase, ctx, v)
    ensures Get(def, "$ref").None? && Field(def, "type", JNull) == JStr("array") ==>
      r == ArrayConstraints(s, Field(def, "items", JObj([])), vocabBase, ctx, v)
    ensures Get(def, "$ref").None? && Field(def, "type", JNull) != JStr("array") ==> r == ScalarConstraints(s, def, v)
  {
    match Get(def, "$ref")
    case Some(ref) => RefConstraints(s, ref, vocabBase, ctx, v)
    case None =>
      if Field(def, "type", JNull) == JStr("array") then ArrayConstraints(s, Field(def, "items", JObj([])), vocabBase, ctx, v)
      else ScalarConstraints(s, def, v)
  }

  /**
   * `convert_property`: the property shape of one property in the given
   * vocabulary, or `None` where Python raises (the property is then skipped).
   */
  function ConvertProperty(name: string, def: Json, required: Json, vocabBase: string, ctx: Object, v: Vocabulary): (r: Option<Object>)
    requires Distinct(v)
    ensures r.Some? ==> def.JObj? && Contains(required, name).Some? && PropertyIri(name, vocabBase, ctx).Some?
    ensures r.Some? ==> Get(r.value, v.pathKey) == PropertyIri(name, vocabBase, ctx)
    ensures r.Some? ==> Get(r.value, v.nameKey) == Some(JStr(name))
    ensures r.Some? ==> SameHeader(v, r.value, ShapeHeader(v, name, def.fields, required, PropertyIri(name, vocabBase, ctx).value))
  {
    match PropertyIri(name, vocabBase, ctx)
    case None => None
    case Some(path) =>
      if !def.JObj? || Contains(required, name).None? then None
      else Constraints(ShapeHeader(v, name, def.fields, required, path), def.fields, vocabBase, ctx, v)
  }

  /** A required property gets `minCount 1` and a nullable one `maxCount 1`, and no other property does. */
  lemma Cardinalities(name: string, def: Json, required: Json, vocabBase: string, ctx: Object, v: Vocabulary)
    requires Distinct(v)
    requires ConvertProperty(name, def, required, vocabBase, ctx, v).Some?
    ensures var shape := ConvertProperty(name, def, required, vocabBase, ctx, v).value;
      (Get(shape, v.minCountKey).Some? <==> Contains(required, name) == Some(true)) &&
      (Get(shape, v.maxCountKey).Some? <==> Truthy(Field(def.fields, "nullable", JBool(false))))
  {
  }

  /** A component reference gives exactly the class `vocab_base + name` (expanded in full-IRI mode), whatever the target. */
  lemma ReferenceClass(name: string, def: Json, required: Json, vocabBase: string, ctx: Object, v: Vocabulary)
    requires Distinct(v)
    requires def.JObj? && Get(def.fields, "$ref").Some?
    requires Get(def.fields, "$ref").value.JStr? && StartsWith(Get(def.fields, "$ref").value.s, ComponentsPrefix)
    requires ConvertProperty(name, def, required, vocabBase, ctx, v).Some?
    ensures var shape := ConvertProperty(name, def, required, vocabBase, ctx, v).value;
      var refName := RefName(Get(def.fields, "$ref").value.s);
      Get(shape, v.classKey) == Some(JStr(RefClassIri(refName, vocabBase, ctx, v.full))) &&
      Get(shape, v.inKey).None? && Get(shape, v.datatypeKey).None?
  {
    var path := PropertyIri(name, vocabBase, ctx).value;
    var s := ShapeHeader(v, name, def.fields, required, path);
    assert Get(s, v.inKey).None? && Get(s, v.datatypeKey).None?;
  }

  /** The conversion of each property of `props`, in order. */
  function ConvertProperties(props: Object, required: Json, vocabBase: string, ctx: Object, v: Vocabulary): (rs: seq<Option<Object>>)
    requires Distinct(v)
    ensures |rs| == |props|
    ensures forall i :: 0 <= i < |props| ==> rs[i] == ConvertProperty(props[i].key, props[i].value, required, vocabBase, ctx, v)
  {
    seq(|props|, i requires 0 <= i < |props| => ConvertProperty(props[i].key, props[i].value, required, vocabBase, ctx, v))
  }

  /** Lines 217-225: the property shapes of `props`, in their order, skipping the ones that raise. */
  function PropertyShapes(props: Object, required: Json, vocabBase: string, ctx: Object, v: Vocabulary): (ps: seq<Json>)
    requires Distinct(v)
    ensures |ps| <= |props|
  {
    Converted(ConvertProperties(props, required, vocabBase, ctx, v))
  }

  /** When no property fails to convert, there is one property shape per property, in declaration order. */
  lemma PropertyShapesInOrder(props: Object, required: Json, vocabBase: string, ctx: Object, v: Vocabulary)
    requires Distinct(v)
    requires forall i :: 0 <= i < |props| ==> ConvertProperty(props[i].key, props[i].value, required, vocabBase, ctx, v).Some?
    ensures var ps := PropertyShapes(props, required, vocabBase, ctx, v);
      |ps| == |props| &&
      forall i :: 0 <= i < |props| ==>
        ps[i] == JObj(ConvertProperty(props[i].key, props[i].value, required, vocabBase, ctx, v).value) &&
        Get(ps[i].fields, v.nameKey) == Some(JStr(props[i].key))
  {
    ConvertedAll(ConvertProperties(props, required, vocabBase, ctx, v));
  }

  /**
   * Lines 184-196: the identifier of a schema's shape: `vocab_base + name`,
   * unless the context gives the term a string (used as it is, even the
   * keyword `@id`) or an expanded definition with an `@id`; expanded in
   * full-IRI mode only. `None` where Python raises.
   */
  function ShapeIri(name: string, vocabBase: string, ctx: Object, full: bool): (r: Option<Json>)
    ensures !full ==> r.Some?
    ensures !full && Get(ctx, name).None? ==> r == Some(JStr(vocabBase + name))
    ensures !full && Get(ctx, name).Some? && Get(ctx, name).value.JStr? ==> r == Get(ctx, name)
    ensures full && Get(ctx, name).None? ==> r == Some(JStr(ExpandIri(vocabBase + name, vocabBase, ctx)))
    ensures full && Get(ctx, name).Some? && Get(ctx, name).value.JStr? ==>
      r == Some(JStr(ExpandIri(Get(ctx, name).value.s, vocabBase, ctx)))
    ensures var e := Get(ctx, name);
      e.Some? && e.value.JObj? && Get(e.value.fields, "@id").Some? ==>
        r == if full then ExpandValue(Get(e.value.fields, "@id").value, vocabBase, ctx)
             else Get(e.value.fields, "@id")
    ensures var e := Get(ctx, name);
      e.Some? && !e.value.JStr? && !(e.value.JObj? && Get(e.value.fields, "@id").Some?) ==>
        r == if full then Some(JStr(ExpandIri(vocabBase + name, vocabBase, ctx))) else Some(JStr(vocabBase + name))
  {
    var default := JStr(vocabBase + name);
    var iri := match Lookup(ctx, name)
      case Some(Term(s)) => JStr(s)
      case Some(Node(id)) => id.GetOr(default)
      case _ => default;
    if full then ExpandValue(iri, vocabBase, ctx) else Some(iri)
  }

  /** In compact mode a context entry that is the keyword `@id` becomes the shape's identifier as it is. */
  lemma IdKeywordBecomesShapeId(name: string, vocabBase: string)
    ensures ShapeIri(name, vocabBase, [Entry(name, JStr("@id"))], false) == Some(JStr("@id"))
  {
  }

  /** Lines 197-211: the entries every node shape starts with, keyed in the vocabulary. */
  function NodeShapeHeader(v: Vocabulary, name: string, iri: Json): (s: Object)
    requires Distinct(v)
    ensures Get(s, "@id") == Some(iri) && Get(s, v.targetClassKey) == Some(iri)
    ensures Get(s, "@type") == Some(JStr(v.nodeShapeType))
    ensures Get(s, v.nameKey) == Some(JStr(name))
    ensures Get(s, v.propertyKey).None?
  {
    var s0 := Put(Put([], "@id", iri), "@type", JStr(v.nodeShapeType));
    Put(Put(s0, v.targetClassKey, iri), v.nameKey, JStr(name))
  }

  /**
   * `convert_schema`: the node shape of a schema, or `None` where Python raises
   * (a non-string identifier to expand, or `properties` that is not a
   * dictionary). Its identifier is also its target class; the property list
   * is present exactly when some property converted.
   */
  function SchemaShape(name: string, def: Object, vocabBase: string, ctx: Object, v: Vocabulary): (r: Option<Object>)
    requires Distinct(v)
    ensures r.Some? <==> ShapeIri(name, vocabBase, ctx, v.full).Some? && Field(def, "properties", JObj([])).JObj?
    ensures r.Some? ==>
      var iri := ShapeIri(name, vocabBase, ctx, v.full).value;
      Get(r.value, "@id") == Some(iri) && Get(r.value, v.targetClassKey) == Some(iri) &&
      Get(r.value, v.nameKey) == Some(JStr(name))
    ensures r.Some? ==>
      var ps := PropertyShapes(Field(def, "properties", JObj([])).fields, Field(def, "required", JArr([])), vocabBase, ctx, v);
      Get(r.value, v.propertyKey) == if ps == [] then None else Some(JArr(ps))
  {
    match ShapeIri(name, vocabBase, ctx, v.full)
    case None => None
    case Some(iri) =>
      var props := Field(def, "properties", JObj([]));
      if !props.JObj? then None
      else
        var ps := PropertyShapes(props.fields, Field(def, "required", JArr([])), vocabBase, ctx, v);
        Some(PutIf(NodeShapeHeader(v, name, iri), ps != [], v.propertyKey, JArr(ps)))
  }

  /** Lines 216-225: the property shapes of `fields`, converted one at a time; a property that raises is skipped. */
  method CollectPropertyShapes(fields: Object, required: Json, vocabBase: string, ctx: Object, v: Vocabulary) returns (properties: seq<Json>)
    requires Distinct(v)
    ensures properties == PropertyShapes(fields, required, vocabBase, ctx, v)
  {
    properties := [];
    ghost var rs := ConvertProperties(fields, required, vocabBase, ctx, v);
    var i := 0;
    while i < |fields|
      invariant 0 <= i <= |fields|
      invariant properties == Converted(rs[..i])
    {
      var p := ConvertProperty(fields[i].key, fields[i].value, required, vocabBase, ctx, v);
      assert p == rs[i];
      ConvertedSnoc(rs, i);
      if p.Some? {
        properties := properties + [JObj(p.value)];
      }
      i := i + 1;
    }
    assert rs[..i] == rs;
  }

  /** `convert_schema`. */
  method ConvertSchema(name: string, def: Object, vocabBase: string, ctx: Object, v: Vocabulary) returns (shape: Option<Object>)
    requires Distinct(v)
    ensures shape == SchemaShape(name, def, vocabBase, ctx, v)
  {
    var iri := ShapeIri(name, vocabBase, ctx, v.full);
    if iri.None? {
      return None;
    }
    var header := NodeShapeHeader(v, name, iri.value);
    var required := Field(def, "required", JArr([]));
    var props := Field(def, "properties", JObj([]));
    if !props.JObj? {
      return None;
    }
    var properties := CollectPropertyShapes(props.fields, required, vocabBase, ctx, v);
    shape := Some(PutIf(header, properties != [], v.propertyKey, JArr(properties)));
  }

  /**
   * `get_vocab_base_from_context` on a readable context: its `@vocab` as it
   * is, else a string `beckn` binding without its trailing separators plus `/`.
   */
  function ContextVocabBase(ctx: Object): (r: Option<Json>)
    ensures Get(ctx, "@vocab").Some? ==> r == Get(ctx, "@vocab")
    ensures Get(ctx, "@vocab").None? && StringBinding(ctx, "beckn").Some? ==>
      r == Some(JStr(RStrip(StringBinding(ctx, "beckn").value, Separators) + "/"))
    ensures Get(ctx, "@vocab").None? && StringBinding(ctx, "beckn").None? ==> r.None?
  {
    match Get(ctx, "@vocab")
    case Some(v) => Some(v)
    case None =>
      match StringBinding(ctx, "beckn")
      case Some(b) => Some(JStr(RStrip(b, Separators) + "/"))
      case None => None
  }

  /** Lines 283-296: the base named by the first family folder, lower-cased, else the beckn root. */
  function FallbackBase(parts: seq<string>): (r: string)
    ensures FirstFamily(parts).Some? ==> r == BecknSchemas + Lower(FirstFamily(parts).value) + "/"
    ensures FirstFamily(parts).None? ==> r == BecknSchemas
  {
    match FirstFamily(parts)
    case Some(name) => BecknSchemas + Lower(name) + "/"
    case None => BecknSchemas
  }

  /** The folder fallback, scanning for the index of the first family folder. */
  method FallbackVocabBase(parts: seq<string>) returns (vocabBase: string)
    ensures vocabBase == FallbackBase(parts)
  {
    var schemaIdx := -1;
    var i := 0;
    while i < |parts|
      invariant 0 <= i <= |parts|
      invariant FirstFamily(parts) == FirstFamily(parts[i..])
    {
      assert parts[i..] == [parts[i]] + parts[i + 1..];
      if IsFamily(parts[i]) {
        schemaIdx := i;
        break;
      }
      i := i + 1;
    }
    if schemaIdx >= 0 {
      vocabBase := BecknSchemas + Lower(parts[schemaIdx]) + "/";
    } else {
      assert parts[i..] == [];
      vocabBase := BecknSchemas;
    }
  }

  /**
   * Lines 282-296: the vocabulary base of a folder: the context's choice when
   * it is truthy (printed as Python prints it), else the folder fallback.
   */
  function VocabBase(context: Option<Object>, parts: seq<string>): (r: string)
    ensures context.Some? && Get(context.value, "@vocab").Some? && Get(context.value, "@vocab").value.JStr? &&
            Get(context.value, "@vocab").value.s != "" ==>
              r == Get(context.value, "@vocab").value.s
    ensures (context.None? || ContextVocabBase(context.value).None?) ==> r == FallbackBase(parts)
    ensures context.Some? && Get(context.value, "@vocab").Some? ==>
      r == if Truthy(Get(context.value, "@vocab").value) then Str(Get(context.value, "@vocab").value) else FallbackBase(parts)
    ensures context.Some? && Get(context.value, "@vocab").None? && StringBinding(context.value, "beckn").Some? ==>
      r == RStrip(StringBinding(context.value, "beckn").value, Separators) + "/"
    ensures context.Some? && Get(context.value, "@vocab").None? && StringBinding(context.value, "beckn").None? ==>
      r == FallbackBase(parts)
  {
    var v := if context.Some? then ContextVocabBase(context.value) else None;
    if v.Some? && Truthy(v.value) then Str(v.value) else FallbackBase(parts)
  }

  /** Lines 279-296: the vocabulary base of a folder, computed as the script does. */
  method GetVocabBase(context: Option<Object>, parts: seq<string>) returns (vocabBase: string)
    ensures vocabBase == VocabBase(context, parts)
  {
    var fromContext := if context.Some? then ContextVocabBase(context.value) else None;
    if fromContext.Some? && Truthy(fromContext.value) {
      vocabBase := Str(fromContext.value);
    } else {
      vocabBase := FallbackVocabBase(parts);
    }
  }

  /** An empty `@vocab` still hides the `beckn` binding: the folder fallback decides. */
  lemma EmptyVocabHidesBeckn(parts: seq<string>)
    ensures VocabBase(Some([Entry("@vocab", JStr("")), Entry("beckn", JStr("https://example.org/"))]), parts) == FallbackBase(parts)
  {
  }

  /**
   * Lines 322-330: the node shapes of the object schemas among `defs`, in
   * order; `None` where Python raises out of the loop (a definition that is
   * not a dictionary).
   */
  function NodeShapes(defs: Object, vocabBase: string, ctx: Object, v: Vocabulary): (r: Option<seq<Json>>)
    requires Distinct(v)
    ensures r.Some? <==> AllObjects(defs)
    ensures r.Some? ==> |r.value| <= |defs|
  {
    if defs == [] then Some([])
    else
      var init := NodeShapes(defs[..|defs| - 1], vocabBase, ctx, v);
      var last := defs[|defs| - 1];
      if init.None? || !last.value.JObj? then None
      else if !IsObjectSchema(last.value) then init
      else match SchemaShape(last.key, last.value.fields, vocabBase, ctx, v)
        case None => init
        case Some(shape) => Some(init.value + [JObj(shape)])
  }

  /** One more schema object adds its node shape, when it yields one, to the shapes so far. */
  lemma NodeShapesSnoc(schemas: Object, i: nat, vocabBase: string, ctx: Object, v: Vocabulary)
    requires Distinct(v)
    requires i < |schemas| && NodeShapes(schemas[..i], vocabBase, ctx, v).Some? && schemas[i].value.JObj?
    ensures var e := schemas[i];
      var shape := SchemaShape(e.key, e.value.fields, vocabBase, ctx, v);
      NodeShapes(schemas[..i + 1], vocabBase, ctx, v) ==
        if !IsObjectSchema(e.value) || shape.None? then NodeShapes(schemas[..i], vocabBase, ctx, v)
        else Some(NodeShapes(schemas[..i], vocabBase, ctx, v).value + [JObj(shape.value)])
  {
    assert schemas[..i + 1][..i] == schemas[..i];
  }

  /**
   * Lines 282-334: the outcome for the `components.schemas` of an
   * `attributes.yaml`, given the folder's context (`None` when missing or
   * unreadable) and the folders of its path.
   */
  function ShaclRun(context: Option<Object>, parts: seq<string>, schemas: Object, useFullIris: bool): (r: ShaclOutcome)
    ensures r.NoSchemas? <==> schemas == []
    ensures r.Raised? <==> schemas != [] && !AllObjects(schemas)
    ensures r.Generated? ==> r.shapes != [] && r.vocabBase == VocabBase(context, parts)
    ensures r.Generated? ==> r.shapes == NodeShapes(schemas, VocabBase(context, parts), context.GetOr([]), VocabularyFor(useFullIris)).value
    ensures schemas != [] && AllObjects(schemas) ==>
      (r.Generated? <==> NodeShapes(schemas, VocabBase(context, parts), context.GetOr([]), VocabularyFor(useFullIris)).value != [])
    ensures r.NoShapes? <==>
      (schemas != [] && AllObjects(schemas) &&
       NodeShapes(schemas, VocabBase(context, parts), context.GetOr([]), VocabularyFor(useFullIris)).value == [])
  {
    var v := VocabularyFor(useFullIris);
    if schemas == [] then NoSchemas
    else
      var vocabBase := VocabBase(context, parts);
      match NodeShapes(schemas, vocabBase, context.GetOr([]), v)
      case None => Raised
      case Some(shapes) => if shapes == [] then NoShapes else Generated(vocabBase, shapes)
  }

  /** `generate_shacl_for_file`, schema by schema. */
  method GenerateShaclForFile(context: Option<Object>, parts: seq<string>, schemas: Object, useFullIris: bool) returns (outcome: ShaclOutcome)
    ensures outcome == ShaclRun(context, parts, schemas, useFullIris)
  {
    var v := VocabularyFor(useFullIris);
    var vocabBase := GetVocabBase(context, parts);
    var ctx := context.GetOr([]);
    if schemas == [] {
      return NoSchemas;
    }
    var shapes: seq<Json> := [];
    var i := 0;
    while i < |schemas|
      invariant 0 <= i <= |schemas|
      invariant NodeShapes(schemas[..i], vocabBase, ctx, v) == Some(shapes)
    {
      var def := schemas[i].value;
      if !def.JObj? {
        assert !AllObjects(schemas);
        return Raised;
      }
      NodeShapesSnoc(schemas, i, vocabBase, ctx, v);
      if Field(def.fields, "type", JNull) == JStr("object") {
        var shape := ConvertSchema(schemas[i].key, def.fields, vocabBase, ctx, v);
        if shape.Some? {
          shapes := shapes + [JObj(shape.value)];
        }
      }
      i := i + 1;
    }
    assert schemas[..i] == schemas;
    if shapes == [] {
      return NoShapes;
    }
    return Generated(vocabBase, shapes);
  }
}
