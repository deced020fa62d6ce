/**
 * SHACL shape generation from an OpenAPI document (scripts/generate_shacl.py):
 * one `sh:NodeShape` per object schema, one property shape per property, with
 * cardinalities, datatypes, enumerations, ranges and class references, keyed
 * by `sh:` CURIEs.
 */
module Shacl {
  import opened OrderedDict
  import opened Text
  import opened Json
  import opened Iri
  import opened Shapes

  /** `type_map[t]` for a hashable `t` in the table: an `xsd:` datatype CURIE. */
  function XsdType(t: Json): (r: Option<string>)
    ensures r.Some? ==> t.JStr? && StartsWith(r.value, "xsd:")
    ensures t.JStr? ==> (r.Some? <==> XsdLocalName(t.s).Some?)
  {
    if t.JStr? && XsdLocalName(t.s).Some? then Some("xsd:" + XsdLocalName(t.s).value) else None
  }

  /**
   * A `prefix:local` IRI whose prefix the context binds to a string: a relative
   * binding and a non-absolute binding stand for the vocabulary base, an
   * absolute binding is joined to `local` with one `/`.
   */
  function ExpandCurie(iri: string, vocabBase: string, ctx: Object): (r: Option<string>)
    ensures r.Some? <==> ':' in iri && !StartsWith(iri, "http") && StringBinding(ctx, SplitOnce(iri, ':').0).Some?
    ensures r.Some? ==>
      var local := SplitOnce(iri, ':').1;
      var binding := StringBinding(ctx, SplitOnce(iri, ':').0).value;
      r.value == if IsAbsolute(binding) && !StartsWith(binding, "./") then RStrip(binding, Separators) + "/" + local
                 else vocabBase + local
  {
    if ':' in iri && !StartsWith(iri, "http") then
      var parts := SplitOnce(iri, ':');
      match StringBinding(ctx, parts.0)
      case None => None
      case Some(base) =>
        if StartsWith(base, "./") then Some(vocabBase + parts.1)
        else if IsAbsolute(base) then Some(ExpandBinding(base, parts.1))
        else Some(vocabBase + parts.1)
    else None
  }

  /**
   * The absolute form of the IRI string a context gives a term: `@id` and
   * relative paths stand for the vocabulary base plus the term, compact IRIs
   * are expanded, other non-absolute strings fall back to the vocabulary base.
   */
  function AbsoluteIri(iri: string, name: string, vocabBase: string, ctx: Object): (r: string)
    ensures iri == "@id" || StartsWith(iri, "./") ==> r == vocabBase + name
    ensures IsAbsolute(iri) ==> r == iri
    ensures r == iri || r == vocabBase + name || ExpandCurie(iri, vocabBase, ctx) == Some(r)
  {
    AbsoluteIsNotRelative(iri);
    if iri == "@id" || StartsWith(iri, "./") then vocabBase + name
    else match ExpandCurie(iri, vocabBase, ctx)
      case Some(x) => x
      case None => if IsAbsolute(iri) then iri else vocabBase + name
  }

  /** Every absolute string binding of the context still names a scheme once its trailing separators are stripped. */
  ghost predicate BindingsKeepScheme(ctx: Object) {
    forall k :: StringBinding(ctx, k).Some? && IsAbsolute(StringBinding(ctx, k).value) ==>
      IsAbsolute(RStrip(StringBinding(ctx, k).value, Separators))
  }

  /** The full-IRI form is absolute whenever the vocabulary base and the context's absolute bindings are. */
  lemma AbsoluteIriIsAbsolute(iri: string, name: string, vocabBase: string, ctx: Object)
    requires IsAbsolute(vocabBase) && BindingsKeepScheme(ctx)
    ensures IsAbsolute(AbsoluteIri(iri, name, vocabBase, ctx))
  {
    AbsoluteAppend(vocabBase, name);
    if ':' in iri && !StartsWith(iri, "http") {
      var parts := SplitOnce(iri, ':');
      AbsoluteAppend(vocabBase, parts.1);
      var b := StringBinding(ctx, parts.0);
      if b.Some? && IsAbsolute(b.value) && !StartsWith(b.value, "./") {
        AbsoluteAppend(RStrip(b.value, Separators), "/" + parts.1);
        assert RStrip(b.value, Separators) + "/" + parts.1 == RStrip(b.value, Separators) + ("/" + parts.1);
      }
    }
  }

  /** A binding of `https://` alone expands `p:x` to `https:/x`, which names no host. */
  lemma SchemeOnlyBindingLosesHost()
    ensures AbsoluteIri("p:x", "x", "https://example.org/", [Entry("p", JStr("https://"))]) == "https:/x"
  {
    var ctx := [Entry("p", JStr("https://"))];
    assert StringBinding(ctx, "p") == Some("https://");
    SplitPX();
    SchemeOnlyStripped();
  }

  /** `get_schema_iri`: the identifier of the shape and class for a schema. */
  function SchemaIri(name: string, vocabBase: string, ctx: Object, useCurie: bool): (r: Json)
    ensures useCurie ==> r == JStr(Curie("vocab", name))
    ensures !useCurie && Get(ctx, name).None? ==> r == JStr(vocabBase + name)
    ensures !useCurie && Get(ctx, name).Some? && Get(ctx, name).value.JStr? ==>
      r == JStr(AbsoluteIri(Get(ctx, name).value.s, name, vocabBase, ctx))
    ensures !useCurie && Get(ctx, name).Some? && Get(ctx, name).value.JObj? ==>
      var id := Get(Get(ctx, name).value.fields, "@id");
      r == if id.None? || id == Some(JStr("@id")) || (id.value.JStr? && StartsWith(id.value.s, "./"))
           then JStr(vocabBase + name) else id.value
    ensures !useCurie && Get(ctx, name).Some? && !Get(ctx, name).value.JStr? && !Get(ctx, name).value.JObj? ==>
      r == JStr(vocabBase + name)
  {
    if useCurie then JStr(Curie("vocab", name))
    else match Lookup(ctx, name)
      case None => JStr(vocabBase + name)
      case Some(Term(raw)) => JStr(AbsoluteIri(raw, name, vocabBase, ctx))
      case Some(Node(id)) =>
        var iri := id.GetOr(JStr(vocabBase + name));
        if iri == JStr("@id") || (iri.JStr? && StartsWith(iri.s, "./")) then JStr(vocabBase + name) else iri
      case Some(Other(_)) => JStr(vocabBase + name)
  }

  /** The IRI string a context entry gives a property in compact mode: the entry itself or its `@id`. */
  function CompactDescriptorIri(d: Descriptor): Option<string> {
    match d
    case Term(s) => Some(s)
    case Node(Some(JStr(s))) => Some(s)
    case _ => None
  }

  /** A compact IRI: `prefix:local` that does not start with `http`. */
  predicate IsCompact(iri: string) {
    ':' in iri && !StartsWith(iri, "http")
  }

  /** The context binds `beckn` to a relative path, marking `beckn:` terms as terms of this vocabulary. */
  predicate BecknIsRelative(ctx: Object) {
    StringBinding(ctx, "beckn").Some? && StartsWith(StringBinding(ctx, "beckn").value, "./")
  }

  /** `get_property_iri`: the path of a property shape. */
  function PropertyIri(name: string, vocabBase: string, ctx: Object, useCurie: bool): (r: Json)
    ensures useCurie ==> r.JStr?
    ensures useCurie && Get(ctx, name).None? ==> r == JStr(Curie("vocab", name))
    ensures useCurie && r != JStr(Curie("vocab", name)) ==>
      Get(ctx, name).Some? && CompactDescriptorIri(Lookup(ctx, name).value) == Some(r.s)
    ensures useCurie && Get(ctx, name).Some? ==>
      var d := CompactDescriptorIri(Lookup(ctx, name).value);
      (d.Some? && IsCompact(d.value) && !(SplitOnce(d.value, ':').0 == "beckn" && BecknIsRelative(ctx)) ==> r == JStr(d.value)) &&
      (d.Some? && IsCompact(d.value) && SplitOnce(d.value, ':').0 == "beckn" && BecknIsRelative(ctx) ==> r == JStr(Curie("vocab", name))) &&
      (d.Some? && IsAbsolute(d.value) ==> r == JStr(d.value)) &&
      (d.None? || (!IsCompact(d.value) && !IsAbsolute(d.value)) ==> r == JStr(Curie("vocab", name)))
    ensures !useCurie && Get(ctx, name).None? ==> r == JStr(vocabBase + name)
    ensures !useCurie && Get(ctx, name).Some? && Get(ctx, name).value.JStr? ==>
      r == JStr(AbsoluteIri(Get(ctx, name).value.s, name, vocabBase, ctx))
    ensures !useCurie && Get(ctx, name).Some? && Get(ctx, name).value.JObj? ==>
      var id := Get(Get(ctx, name).value.fields, "@id");
      (id.None? ==> r == JStr(AbsoluteIri(vocabBase + name, name, vocabBase, ctx))) &&
      (id.Some? && id.value.JStr? ==> r == JStr(AbsoluteIri(id.value.s, name, vocabBase, ctx))) &&
      (id.Some? && !id.value.JStr? ==> r == id.value)
    ensures !useCurie && Get(ctx, name).Some? && !Get(ctx, name).value.JStr? && !Get(ctx, name).value.JObj? ==>
      r == Get(ctx, name).value
  {
    match Lookup(ctx, name)
    case None => if useCurie then JStr(Curie("vocab", name)) else JStr(vocabBase + name)
    case Some(d) =>
      if useCurie then
        match CompactDescriptorIri(d)
        case Some(iri) =>
          AbsoluteIsNotRelative(iri);
          if IsCompact(iri) then
            if SplitOnce(iri, ':').0 == "beckn" && BecknIsRelative(ctx)
            then JStr(Curie("vocab", name)) else JStr(iri)
          else if IsAbsolute(iri) then JStr(iri)
          else JStr(Curie("vocab", name))
        case None => JStr(Curie("vocab", name))
      else
        var iri := match d
          case Term(s) => JStr(s)
          case Node(id) => id.GetOr(JStr(vocabBase + name))
          case Other(v) => v;
        if iri.JStr? then JStr(AbsoluteIri(iri.s, name, vocabBase, ctx)) else iri
  }

  /**
   * In full-IRI mode every property path that is a string is absolute, when the
   * vocabulary base and the context's absolute bindings are.
   */
  lemma PropertyIriIsAbsolute(name: string, vocabBase: string, ctx: Object)
    requires IsAbsolute(vocabBase) && BindingsKeepScheme(ctx)
    ensures var r := PropertyIri(name, vocabBase, ctx, false); r.JStr? ==> IsAbsolute(r.s)
  {
    AbsoluteAppend(vocabBase, name);
    var r := PropertyIri(name, vocabBase, ctx, false);
    if Get(ctx, name).Some? && r.JStr? {
      var iri := match Lookup(ctx, name).value
        case Term(s) => JStr(s)
        case Node(id) => id.GetOr(JStr(vocabBase + name))
        case Other(v) => v;
      AbsoluteIriIsAbsolute(iri.s, name, vocabBase, ctx);
    }
  }


  /** The keys a `$ref` property can add to its shape. */
  predicate RefKey(v: Vocabulary, k: string) {
    k == v.inKey || k == v.datatypeKey || k == v.classKey
  }

  /**
   * Lines 194-209: what a referenced schema of the document contributes: its
   * enumeration as `sh:in`, its type as `sh:datatype`, and the reference as
   * `sh:class` only when it is an object schema. `None` where Python raises (an
   * unhashable type).
   */
  function TargetConstraints(v: Vocabulary, s: Object, target: Object, refIri: Json): (r: Option<Object>)
    requires Distinct(v)
    ensures r.None? <==> Unhashable(Field(target, "type", JNull))
    ensures r.Some? ==> forall k :: !RefKey(v, k) ==> Get(r.value, k) == Get(s, k)
    ensures r.Some? ==> Get(r.value, v.inKey) == if Get(target, "enum").Some? then Get(target, "enum") else Get(s, v.inKey)
    ensures r.Some? ==>
      var ty := Field(target, "type", JNull);
      Get(r.value, v.datatypeKey) == (if XsdType(ty).Some? then Some(JStr(XsdType(ty).value)) else Get(s, v.datatypeKey)) &&
      Get(r.value, v.classKey) == (if ty == JStr("object") then Some(refIri) else Get(s, v.classKey))
  {
    var ty := Field(target, "type", JNull);
    if Unhashable(ty) then None
    else
      var s1 := CopyField(s, target, "enum", v.inKey);
      var s2 := PutIf(s1, XsdType(ty).Some?, v.datatypeKey, JStr(XsdType(ty).GetOr("")));
      Some(PutIf(s2, ty == JStr("object"), v.classKey, refIri))
  }

  /**
   * Lines 187-213: a property that references a schema. Only references into
   * `#/components/schemas/` constrain the shape; a reference to a schema the
   * document does not define becomes `sh:class`. `None` where Python raises.
   */
  function RefConstraints(v: Vocabulary, s: Object, ref: Json, schemas: Object, vocabBase: string, ctx: Object, useCurie: bool): (r: Option<Object>)
    requires Distinct(v)
    ensures r.Some? ==> forall k :: !RefKey(v, k) ==> Get(r.value, k) == Get(s, k)
    ensures !ref.JStr? ==> r.None?
    ensures ref.JStr? && !StartsWith(ref.s, ComponentsPrefix) ==> r == Some(s)
    ensures ref.JStr? && StartsWith(ref.s, ComponentsPrefix) ==>
      var target := Get(schemas, RefName(ref.s));
      var refIri := SchemaIri(RefName(ref.s), vocabBase, ctx, useCurie);
      (target.None? ==> r.Some? && Get(r.value, v.classKey) == Some(refIri) && Get(r.value, v.inKey) == Get(s, v.inKey)) &&
      (target.Some? && !target.value.JObj? ==> r.None?) &&
      (target.Some? && target.value.JObj? ==> r == TargetConstraints(v, s, target.value.fields, refIri))
  {
    if !ref.JStr? then None
    else if !StartsWith(ref.s, ComponentsPrefix) then Some(s)
    else
      var refName := RefName(ref.s);
      var refIri := SchemaIri(refName, vocabBase, ctx, useCurie);
      match Get(schemas, refName)
      case None => Some(Put(s, v.classKey, refIri))
      case Some(target) =>
        if target.JObj? then TargetConstraints(v, s, target.fields, refIri) else None
  }

  /**
   * Lines 229-233 and 243-246: a known type gives `sh:datatype`; otherwise the
   * type `object` gives node kind IRI-or-literal.
   */
  function KindOrDatatype(v: Vocabulary, s: Object, ty: Json): (r: Object)
    requires Distinct(v)
    ensures Get(r, v.datatypeKey) == if XsdType(ty).Some? then Some(JStr(XsdType(ty).value)) else Get(s, v.datatypeKey)
    ensures Get(r, v.nodeKindKey) == if XsdType(ty).None? && ty == JStr("object") then Some(IriOrLiteralKind(v)) else Get(s, v.nodeKindKey)
    ensures forall k :: k != v.datatypeKey && k != v.nodeKindKey ==> Get(r, k) == Get(s, k)
  {
    if XsdType(ty).Some? then Put(s, v.datatypeKey, JStr(XsdType(ty).value))
    else if ty == JStr("object") then Put(s, v.nodeKindKey, IriOrLiteralKind(v))
    else s
  }

  /** The keys an array property can add to its shape. */
  predicate ArrayKey(v: Vocabulary, k: string) {
    k == v.nodeKindKey || k == v.classKey || k == v.datatypeKey
  }

  /**
   * Lines 219-234: an array property is constrained by its `items`: a component
   * reference gives `sh:class` with node kind IRI-or-literal, otherwise the
   * item type gives the datatype or node kind. `None` where Python raises.
   */
  function ArrayConstraints(v: Vocabulary, s: Object, items: Json, vocabBase: string, ctx: Object, useCurie: bool): (r: Option<Object>)
    requires Distinct(v)
    ensures r.Some? ==> forall k :: !ArrayKey(v, k) ==> Get(r.value, k) == Get(s, k)
    ensures !items.JObj? ==> r.None?
    ensures items.JObj? && Get(items.fields, "$ref").Some? ==>
      var ref := Get(items.fields, "$ref").value;
      (r.None? <==> !ref.JStr?) &&
      (ref.JStr? && StartsWith(ref.s, ComponentsPrefix) ==>
        Get(r.value, v.classKey) == Some(SchemaIri(RefName(ref.s), vocabBase, ctx, useCurie)) &&
        Get(r.value, v.nodeKindKey) == Some(IriOrLiteralKind(v))) &&
      (ref.JStr? && !StartsWith(ref.s, ComponentsPrefix) ==> r == Some(s))
    ensures items.JObj? && Get(items.fields, "$ref").None? ==>
      var ty := Field(items.fields, "type", JNull);
      (r.None? <==> Unhashable(ty)) &&
      (r.Some? ==> r.value == KindOrDatatype(v, s, ty))
  {
    if !items.JObj? then None
    else match Get(items.fields, "$ref")
      case Some(ref) =>
        if !ref.JStr? then None
        else if !StartsWith(ref.s, ComponentsPrefix) then Some(s)
        else Some(Put(Put(s, v.nodeKindKey, IriOrLiteralKind(v)), v.classKey, SchemaIri(RefName(ref.s), vocabBase, ctx, useCurie)))
      case None =>
        var ty := Field(items.fields, "type", JNull);
        if Unhashable(ty) then None else Some(KindOrDatatype(v, s, ty))
  }

  /** The keys a scalar property can add to its shape. */
  predicate ScalarKey(v: Vocabulary, k: string) {
    k == v.datatypeKey || k == v.nodeKindKey || k == v.inKey || k == v.minInclusiveKey || k == v.maxInclusiveKey
  }

  /**
   * Lines 237-246: the datatype of a scalar property. A known `format` wins
   * over the `type`; a property with a `format` never gets a node kind.
   * `None` where Python raises (an unhashable type or format it looks up).
   */
  function TypedShape(v: Vocabulary, s: Object, def: Object): (r: Option<Object>)
    requires Distinct(v)
    ensures r.Some? ==> forall k :: k != v.datatypeKey && k != v.nodeKindKey ==> Get(r.value, k) == Get(s, k)
    ensures !Unhashable(Field(def, "type", JNull)) && !Unhashable(Field(def, "format", JNull)) ==> r.Some?
    ensures Get(def, "format").Some? && XsdType(Get(def, "format").value).Some? ==>
      r.Some? && Get(r.value, v.datatypeKey) == Some(JStr(XsdType(Get(def, "format").value).value))
    ensures Get(def, "format").Some? && r.Some? ==>
      Get(r.value, v.nodeKindKey) == Get(s, v.nodeKindKey)
    ensures Get(def, "format").Some? && XsdType(Get(def, "format").value).None? && r.Some? ==>
      var ty := Field(def, "type", JNull);
      Get(r.value, v.datatypeKey) == if XsdType(ty).Some? then Some(JStr(XsdType(ty).value)) else Get(s, v.datatypeKey)
    ensures Get(def, "format").None? ==>
      (r.None? <==> Unhashable(Field(def, "type", JNull))) &&
      (r.Some? ==> r.value == KindOrDatatype(v, s, Field(def, "type", JNull)))
  {
    var ty := Field(def, "type", JNull);
    match Get(def, "format")
    case Some(format) =>
      if Unhashable(format) then None
      else if XsdType(format).Some? then Some(Put(s, v.datatypeKey, JStr(XsdType(format).value)))
      else if Unhashable(ty) then None
      else Some(PutIf(s, XsdType(ty).Some?, v.datatypeKey, JStr(XsdType(ty).GetOr(""))))
    case None =>
      if Unhashable(ty) then None else Some(KindOrDatatype(v, s, ty))
  }

  /**
   * Lines 249-257: the inline enumeration becomes `sh:in` and `minimum` and
   * `maximum` become inclusive bounds, each copied unchanged.
   */
  function ValueConstraints(v: Vocabulary, s: Object, def: Object): (r: Object)
    requires Distinct(v)
    ensures forall k :: k != v.inKey && k != v.minInclusiveKey && k != v.maxInclusiveKey ==> Get(r, k) == Get(s, k)
    ensures Get(r, v.inKey) == if Get(def, "enum").Some? then Get(def, "enum") else Get(s, v.inKey)
    ensures Get(r, v.minInclusiveKey) == if Get(def, "minimum").Some? then Get(def, "minimum") else Get(s, v.minInclusiveKey)
    ensures Get(r, v.maxInclusiveKey) == if Get(def, "maximum").Some? then Get(def, "maximum") else Get(s, v.maxInclusiveKey)
  {
    var s1 := CopyField(s, def, "enum", v.inKey);
    var s2 := CopyField(s1, def, "minimum", v.minInclusiveKey);
    CopyField(s2, def, "maximum", v.maxInclusiveKey)
  }

  /** Lines 237-257: a scalar property gets its datatype or node kind, then its value constraints. */
  function ScalarConstraints(v: Vocabulary, s: Object, def: Object): (r: Option<Object>)
    requires Distinct(v)
    ensures r.Some? <==> TypedShape(v, s, def).Some?
    ensures r.Some? ==> r.value == ValueConstraints(v, TypedShape(v, s, def).value, def)
    ensures r.Some? ==> forall k :: !ScalarKey(v, k) ==> Get(r.value, k) == Get(s, k)
  {
    match TypedShape(v, s, def)
    case None => None
    case Some(s1) => Some(ValueConstraints(v, s1, def))
  }

  /** The keys every property shape starts with. */
  predicate HeaderKey(v: Vocabulary, k: string) {
    k == v.pathKey || k == v.nameKey || k == v.minCountKey || k == v.maxCountKey
  }

  /** Lines 171-184: the path, the name and the two cardinalities every property shape starts with. */
  function ShapeHeader(v: Vocabulary, name: string, def: Object, required: Json, vocabBase: string, ctx: Object, useCurie: bool): (s: Object)
    requires Distinct(v)
    ensures Get(s, v.pathKey) == Some(PropertyIri(name, vocabBase, ctx, useCurie))
    ensures Get(s, v.nameKey) == Some(JStr(name))
    ensures Get(s, v.minCountKey) == if Contains(required, name) == Some(true) then Some(JNum("1")) else None
    ensures Get(s, v.maxCountKey) == if Truthy(Field(def, "nullable", JBool(false))) then Some(JNum("1")) else None
    ensures forall k :: !HeaderKey(v, k) ==> Get(s, k).None?
  {
    var s0 := Put(Put([], v.pathKey, PropertyIri(name, vocabBase, ctx, useCurie)), v.nameKey, JStr(name));
    var s1 := PutIf(s0, Contains(required, name) == Some(true), v.minCountKey, JNum("1"));
    PutIf(s1, Truthy(Field(def, "nullable", JBool(false))), v.maxCountKey, JNum("1"))
  }

  /**
   * Lines 186-257: the constraints a property definition adds to its shape. A
   * `$ref` is handled before, and instead of, the type, and adds no node kind
   * and no bounds; no branch touches the header.
   */
  function Constraints(v: Vocabulary, s: Object, def: Object, schemas: Object, vocabBase: string, ctx: Object, useCurie: bool): (r: Option<Object>)
    requires Distinct(v)
    ensures r.Some? ==> forall k :: HeaderKey(v, k) ==> Get(r.value, k) == Get(s, k)
    ensures Get(def, "$ref").Some? ==> r == RefConstraints(v, s, Get(def, "$ref").value, schemas, vocabBase, ctx, useCurie)
    ensures Get(def, "$ref").Some? && r.Some? ==>
      Get(r.value, v.nodeKindKey) == Get(s, v.nodeKindKey) &&
      Get(r.value, v.minInclusiveKey) == Get(s, v.minInclusiveKey) &&
      Get(r.value, v.maxInclusiveKey) == Get(s, v.maxInclusiveKey)
    ensures Get(def, "$ref").None? && Field(def, "type", JNull) == JStr("array") ==>
      r == ArrayConstraints(v, s, Field(def, "items", JObj([])), vocabBase, ctx, useCurie)
    ensures Get(def, "$ref").None? && Field(def, "type", JNull) != JStr("array") ==> r == ScalarConstraints(v, s, def)
  {
    match Get(def, "$ref")
    case Some(ref) => RefConstraints(v, s, ref, schemas, vocabBase, ctx, useCurie)
    case None =>
      if Field(def, "type", JNull) == JStr("array") then ArrayConstraints(v, s, Field(def, "items", JObj([])), vocabBase, ctx, useCurie)
      else ScalarConstraints(v, s, def)
  }

  /**
   * `convert_property`: the property shape of one property, or `None` where
   * Python raises (the caller then skips the property). A required property
   * gets `sh:minCount 1`, a nullable one `sh:maxCount 1`.
   */
  function ConvertProperty(v: Vocabulary, name: string, def: Json, required: Json, schemas: Object, vocabBase: string, ctx: Object, useCurie: bool): (r: Option<Object>)
    requires Distinct(v)
    ensures r.Some? ==> def.JObj? && Contains(required, name).Some?
    ensures r.Some? ==> Get(r.value, v.pathKey) == Some(PropertyIri(name, vocabBase, ctx, useCurie))
    ensures r.Some? ==> Get(r.value, v.nameKey) == Some(JStr(name))
    ensures r.Some? ==> forall k :: HeaderKey(v, k) ==> Get(r.value, k) == Get(ShapeHeader(v, name, def.fields, required, vocabBase, ctx, useCurie), k)
    ensures r.Some? && Get(def.fields, "$ref").Some? ==>
      Get(r.value, v.nodeKindKey).None? && Get(r.value, v.minInclusiveKey).None? && Get(r.value, v.maxInclusiveKey).None?
  {
    if !def.JObj? || Contains(required, name).None? then None
    else Constraints(v, ShapeHeader(v, name, def.fields, required, vocabBase, ctx, useCurie), def.fields, schemas, vocabBase, ctx, useCurie)
  }

  /** A required property gets `sh:minCount 1` and a nullable one `sh:maxCount 1`, and no other property does. */
  lemma Cardinalities(v: Vocabulary, name: string, def: Json, required: Json, schemas: Object, vocabBase: string, ctx: Object, useCurie: bool)
    requires Distinct(v)
    requires ConvertProperty(v, name, def, required, schemas, vocabBase, ctx, useCurie).Some?
    ensures var shape := ConvertProperty(v, name, def, required, schemas, vocabBase, ctx, useCurie).value;
      (Get(shape, v.minCountKey) == Some(JNum("1")) <==> Contains(required, name) == Some(true)) &&
      (Get(shape, v.minCountKey).Some? <==> Contains(required, name) == Some(true)) &&
      (Get(shape, v.maxCountKey) == Some(JNum("1")) <==> Truthy(Field(def.fields, "nullable", JBool(false)))) &&
      (Get(shape, v.maxCountKey).Some? <==> Truthy(Field(def.fields, "nullable", JBool(false))))
  {
    assert HeaderKey(v, v.minCountKey) && HeaderKey(v, v.maxCountKey);
  }

  /**
   * A component reference names its target as `sh:class` exactly when the
   * document does not define the target or defines it as an object schema; a
   * defined target's enumeration, if any, becomes `sh:in`.
   */
  lemma ReferenceClass(v: Vocabulary, name: string, def: Json, required: Json, schemas: Object, vocabBase: string, ctx: Object, useCurie: bool)
    requires Distinct(v)
    requires def.JObj? && Get(def.fields, "$ref").Some?
    requires Get(def.fields, "$ref").value.JStr? && StartsWith(Get(def.fields, "$ref").value.s, ComponentsPrefix)
    requires ConvertProperty(v, name, def, required, schemas, vocabBase, ctx, useCurie).Some?
    ensures var shape := ConvertProperty(v, name, def, required, schemas, vocabBase, ctx, useCurie).value;
      var target := Get(schemas, RefName(Get(def.fields, "$ref").value.s));
      (Get(shape, v.classKey).Some? <==> target.None? || Field(target.value.fields, "type", JNull) == JStr("object")) &&
      (target.Some? ==> Get(shape, v.inKey) == Get(target.value.fields, "enum"))
  {
    var s := ShapeHeader(v, name, def.fields, required, vocabBase, ctx, useCurie);
    assert !HeaderKey(v, v.classKey) && !HeaderKey(v, v.inKey);
    assert Get(s, v.classKey).None? && Get(s, v.inKey).None?;
  }

  /** Lines 264-271: the entries every node shape starts with. */
  function NodeShapeHeader(v: Vocabulary, name: string, iri: Json): (s: Object)
    requires Distinct(v)
    ensures Get(s, "@id") == Some(iri) && Get(s, v.targetClassKey) == Some(iri)
    ensures Get(s, "@type") == Some(JStr(v.nodeShapeType))
    ensures Get(s, v.nameKey) == Some(JStr(name))
    ensures Get(s, v.propertyKey).None?
  {
    Put(Put(Put(Put([], "@id", iri), "@type", JStr(v.nodeShapeType)), v.targetClassKey, iri), v.nameKey, JStr(name))
  }

  /** The conversion of each property of `props`, in order. */
  function ConvertProperties(v: Vocabulary, props: Object, required: Json, schemas: Object, vocabBase: string, ctx: Object, useCurie: bool): (rs: seq<Option<Object>>)
    requires Distinct(v)
    ensures |rs| == |props|
    ensures forall i :: 0 <= i < |props| ==> rs[i] == ConvertProperty(v, props[i].key, props[i].value, required, schemas, vocabBase, ctx, useCurie)
  {
    seq(|props|, i requires 0 <= i < |props| => ConvertProperty(v, props[i].key, props[i].value, required, schemas, vocabBase, ctx, useCurie))
  }

  /** Lines 277-285: the property shapes of the properties `props`, in their order. */
  function PropertyShapes(v: Vocabulary, props: Object, required: Json, schemas: Object, vocabBase: string, ctx: Object, useCurie: bool): (ps: seq<Json>)
    requires Distinct(v)
    ensures |ps| <= |props|
  {
    Converted(ConvertProperties(v, props, required, schemas, vocabBase, ctx, useCurie))
  }

  /**
   * When no property fails to convert, there is one property shape per
   * property, in declaration order, each named after its property.
   */
  lemma PropertyShapesInOrder(v: Vocabulary, props: Object, required: Json, schemas: Object, vocabBase: string, ctx: Object, useCurie: bool)
    requires Distinct(v)
    requires forall i :: 0 <= i < |props| ==> ConvertProperty(v, props[i].key, props[i].value, required, schemas, vocabBase, ctx, useCurie).Some?
    ensures var ps := PropertyShapes(v, props, required, schemas, vocabBase, ctx, useCurie);
      |ps| == |props| &&
      forall i :: 0 <= i < |props| ==>
        ps[i] == JObj(ConvertProperty(v, props[i].key, props[i].value, required, schemas, vocabBase, ctx, useCurie).value) &&
        Get(ps[i].fields, v.nameKey) == Some(JStr(props[i].key))
  {
    ConvertedAll(ConvertProperties(v, props, required, schemas, vocabBase, ctx, useCurie));
  }

  /**
   * `convert_schema`: the node shape of a schema, or `None` where Python raises
   * (its `properties` is not a dictionary). Its identifier is also its target
   * class; `sh:property` is present exactly when some property converted.
   */
  function SchemaShape(v: Vocabulary, name: string, def: Object, schemas: Object, vocabBase: string, ctx: Object, useCurie: bool): (r: Option<Object>)
    requires Distinct(v)
    ensures r.Some? <==> Field(def, "properties", JObj([])).JObj?
    ensures r.Some? ==>
      var iri := SchemaIri(name, vocabBase, ctx, useCurie);
      Get(r.value, "@id") == Some(iri) && Get(r.value, v.targetClassKey) == Some(iri) &&
      Get(r.value, "@type") == Some(JStr(v.nodeShapeType)) && Get(r.value, v.nameKey) == Some(JStr(name))
    ensures r.Some? ==>
      var ps := PropertyShapes(v, Field(def, "properties", JObj([])).fields, Field(def, "required", JArr([])), schemas, vocabBase, ctx, useCurie);
      Get(r.value, v.propertyKey) == if ps == [] then None else Some(JArr(ps))
  {
    var props := Field(def, "properties", JObj([]));
    if !props.JObj? then None
    else
      var ps := PropertyShapes(v, props.fields, Field(def, "required", JArr([])), schemas, vocabBase, ctx, useCurie);
      Some(PutIf(NodeShapeHeader(v, name, SchemaIri(name, vocabBase, ctx, useCurie)), ps != [], v.propertyKey, JArr(ps)))
  }

  /** `convert_schema`, property by property. */
  method ConvertSchema(v: Vocabulary, name: string, def: Object, schemas: Object, vocabBase: string, ctx: Object, useCurie: bool) returns (shape: Option<Object>)
    requires Distinct(v)
    ensures shape == SchemaShape(v, name, def, schemas, vocabBase, ctx, useCurie)
  {
    var iri := SchemaIri(name, vocabBase, ctx, useCurie);
    var header := NodeShapeHeader(v, name, iri);
    var required := Field(def, "required", JArr([]));
    var props := Field(def, "properties", JObj([]));
    if !props.JObj? {
      return None;
    }
    var properties := CollectPropertyShapes(v, props.fields, required, schemas, vocabBase, ctx, useCurie);
    shape := Some(PutIf(header, properties != [], v.propertyKey, JArr(properties)));
  }

  /** Lines 277-285: the property shapes of `fields`, converted one at a time; a property that raises is skipped. */
  method CollectPropertyShapes(v: Vocabulary, fields: Object, required: Json, schemas: Object, vocabBase: string, ctx: Object, useCurie: bool)
    returns (properties: seq<Json>)
    requires Distinct(v)
    ensures properties == PropertyShapes(v, fields, required, schemas, vocabBase, ctx, useCurie)
  {
    properties := [];
    ghost var rs := ConvertProperties(v, fields, required, schemas, vocabBase, ctx, useCurie);
    var i := 0;
    while i < |fields|
      invariant 0 <= i <= |fields|
      invariant properties == Converted(rs[..i])
    {
      var p := ConvertProperty(v, fields[i].key, fields[i].value, required, schemas, vocabBase, ctx, useCurie);
      assert p == rs[i];
      ConvertedSnoc(rs, i);
      if p.Some? {
        properties := properties + [JObj(p.value)];
      }
      i := i + 1;
    }
    assert rs[..i] == rs;
  }

  /**
   * Lines 404-412: the node shapes of the object schemas among `defs`, in
   * order; `None` where Python raises out of the loop (a definition that is
   * not a dictionary).
   */
  function NodeShapes(v: Vocabulary, defs: Object, schemas: Object, vocabBase: string, ctx: Object): (r: Option<seq<Json>>)
    requires Distinct(v)
    ensures r.Some? <==> AllObjects(defs)
    ensures r.Some? ==> |r.value| <= |defs|
  {
    if defs == [] then Some([])
    else
      var init := NodeShapes(v, defs[..|defs| - 1], schemas, vocabBase, ctx);
      var last := defs[|defs| - 1];
      if init.None? || !last.value.JObj? then None
      else if !IsObjectSchema(last.value) then init
      else match SchemaShape(v, last.key, last.value.fields, schemas, vocabBase, ctx, true)
        case None => init
        case Some(shape) => Some(init.value + [JObj(shape)])
  }

  /**
   * When every object schema has a dictionary of properties, there is exactly
   * one node shape per object schema, in declaration order, named after it.
   */
  lemma {:induction false} OneShapePerObjectSchema(v: Vocabulary, defs: Object, schemas: Object, vocabBase: string, ctx: Object)
    requires Distinct(v)
    requires AllObjects(defs)
    requires forall i :: 0 <= i < |defs| && IsObjectSchema(defs[i].value) ==> Field(defs[i].value.fields, "properties", JObj([])).JObj?
    ensures var shapes := NodeShapes(v, defs, schemas, vocabBase, ctx).value;
      var names := ObjectSchemaNames(defs);
      |shapes| == |names| &&
      forall j :: 0 <= j < |shapes| ==> shapes[j].JObj? && Get(shapes[j].fields, v.nameKey) == Some(JStr(names[j]))
  {
    if defs != [] {
      var init := defs[..|defs| - 1];
      assert forall i :: 0 <= i < |init| ==> init[i] == defs[i];
      OneShapePerObjectSchema(v, init, schemas, vocabBase, ctx);
    }
  }

  /** Lines 321-332 and 349-357: the beckn base named by the last family folder and the last version folder. */
  function FolderFamilyBase(parts: seq<string>): (r: Option<string>)
    ensures r.Some? <==> LastFamily(parts).Some?
    ensures r.Some? ==> r.value == FamilyBase(LastFamily(parts).value, LastVersion(parts))
  {
    match LastFamily(parts)
    case None => None
    case Some(name) => Some(FamilyBase(name, LastVersion(parts)))
  }

  /** Lines 344-348: the first `ocpi*` or `ocpp*` folder decides the protocol's base. */
  function ProtocolBase(parts: seq<string>): (r: Option<string>)
    ensures r.Some? ==> r.value == OcpiBase || r.value == OcppBase
    ensures r.None? <==> forall i :: 0 <= i < |parts| ==> !StartsWith(parts[i], "ocpi") && !StartsWith(parts[i], "ocpp")
  {
    if parts == [] then None
    else if StartsWith(parts[0], "ocpi") then Some(OcpiBase)
    else if StartsWith(parts[0], "ocpp") then Some(OcppBase)
    else
      var r := ProtocolBase(parts[1..]);
      assert forall i :: 0 < i < |parts| ==> parts[i] == parts[1..][i - 1];
      r
  }

  /** When `parts[i]` is the first `ocpi*` or `ocpp*` folder, it decides the base. */
  lemma {:induction false} ProtocolBaseAt(parts: seq<string>, i: nat)
    requires i < |parts| && (StartsWith(parts[i], "ocpi") || StartsWith(parts[i], "ocpp"))
    requires forall j :: 0 <= j < i ==> !StartsWith(parts[j], "ocpi") && !StartsWith(parts[j], "ocpp")
    ensures ProtocolBase(parts) == Some(if StartsWith(parts[i], "ocpi") then OcpiBase else OcppBase)
    decreases |parts|
  {
    if i > 0 {
      assert parts[1..][i - 1] == parts[i];
      ProtocolBaseAt(parts[1..], i - 1);
    }
  }

  /** Lines 340-361: the base inferred from the folders alone. */
  function InferredBase(parts: seq<string>): (r: string)
    ensures ProtocolBase(parts).Some? ==> r == ProtocolBase(parts).value
    ensures ProtocolBase(parts).None? && LastFamily(parts).Some? ==> r == FamilyBase(LastFamily(parts).value, LastVersion(parts))
    ensures ProtocolBase(parts).None? && LastFamily(parts).None? ==> r == BecknSchemas + FolderName(parts) + "/"
  {
    match ProtocolBase(parts)
    case Some(b) => b
    case None =>
      match FolderFamilyBase(parts)
      case Some(b) => b
      case None => BecknSchemas + FolderName(parts) + "/"
  }

  /**
   * Lines 302-336: the base a readable context gives: an absolute `@vocab`,
   * else a relative `beckn` binding resolved through the family folders, else
   * an absolute `beckn` binding without its trailing separators.
   */
  function ContextBase(ctx: Object, parts: seq<string>): (r: Option<string>)
    ensures var v := Get(ctx, "@vocab"); v.Some? && v.value.JStr? && IsAbsolute(v.value.s) ==> r == Some(WithSlash(v.value.s))
    ensures var v := Get(ctx, "@vocab"); !(v.Some? && v.value.JStr? && IsAbsolute(v.value.s)) ==>
      var b := StringBinding(ctx, "beckn");
      r == if b.None? then None
           else if StartsWith(b.value, "./") then FolderFamilyBase(parts)
           else if IsAbsolute(b.value) then Some(RStrip(b.value, Separators) + "/")
           else None
  {
    var v := Get(ctx, "@vocab");
    if v.Some? && v.value.JStr? && IsAbsolute(v.value.s) then Some(WithSlash(v.value.s))
    else match StringBinding(ctx, "beckn")
      case None => None
      case Some(b) =>
        if StartsWith(b, "./") then FolderFamilyBase(parts)
        else if IsAbsolute(b) then Some(WithSlash(RStrip(b, Separators)))
        else None
  }

  /**
   * `get_vocab_base`: an absolute `base_iri` wins, then the context file (when
   * it exists and reads as a dictionary), then the folders. The base always ends
   * with `/`.
   */
  function VocabBase(baseIri: Option<string>, context: Option<Object>, parts: seq<string>): (r: string)
    ensures EndsWith(r, "/")
    ensures baseIri.Some? && IsAbsolute(baseIri.value) ==> r == WithSlash(baseIri.value)
    ensures !(baseIri.Some? && IsAbsolute(baseIri.value)) && context.Some? && ContextBase(context.value, parts).Some? ==>
      r == ContextBase(context.value, parts).value
    ensures !(baseIri.Some? && IsAbsolute(baseIri.value)) && (context.None? || ContextBase(context.value, parts).None?) ==>
      r == InferredBase(parts)
  {
    if baseIri.Some? && IsAbsolute(baseIri.value) then WithSlash(baseIri.value)
    else if context.Some? && ContextBase(context.value, parts).Some? then
      var b := ContextBase(context.value, parts).value;
      assert EndsWith(b, "/");
      b
    else
      var b := InferredBase(parts);
      assert EndsWith(b, "/") by {
        assert EndsWith(OcpiBase, "/") && EndsWith(OcppBase, "/");
        assert EndsWith(BecknSchemas + FolderName(parts) + "/", "/");
      }
      b
  }

  /** The context's `beckn` binding, when absolute, still names a scheme once its trailing separators are stripped. */
  predicate BecknKeepsScheme(ctx: Object) {
    var b := StringBinding(ctx, "beckn");
    b.Some? && IsAbsolute(b.value) ==> IsAbsolute(RStrip(b.value, Separators))
  }

  /**
   * The vocabulary base is absolute, as the docstring promises, whenever an
   * absolute `beckn` binding keeps its scheme.
   */
  lemma VocabBaseIsAbsolute(baseIri: Option<string>, context: Option<Object>, parts: seq<string>)
    requires context.Some? ==> BecknKeepsScheme(context.value)
    ensures IsAbsolute(VocabBase(baseIri, context, parts))
  {
    if baseIri.Some? && IsAbsolute(baseIri.value) {
      WithSlashAbsolute(baseIri.value);
    } else if context.Some? && ContextBase(context.value, parts).Some? {
      ContextBaseIsAbsolute(context.value, parts);
    } else {
      FolderBaseIsAbsolute(parts);
    }
  }

  /** The base a context gives is absolute when its `beckn` binding keeps its scheme. */
  lemma ContextBaseIsAbsolute(ctx: Object, parts: seq<string>)
    requires BecknKeepsScheme(ctx) && ContextBase(ctx, parts).Some?
    ensures IsAbsolute(ContextBase(ctx, parts).value)
  {
    var v := Get(ctx, "@vocab");
    if v.Some? && v.value.JStr? && IsAbsolute(v.value.s) {
      WithSlashAbsolute(v.value.s);
    } else {
      var b := StringBinding(ctx, "beckn").value;
      if StartsWith(b, "./") {
        var base := FolderFamilyBase(parts).value;
        StartsWithTransitive(base, BecknSchemas, "https://");
      } else {
        AbsoluteAppend(RStrip(b, Separators), "/");
      }
    }
  }

  /** The base inferred from the folders is always absolute. */
  lemma FolderBaseIsAbsolute(parts: seq<string>)
    ensures IsAbsolute(InferredBase(parts))
  {
    ConstantBasesAbsolute();
    match ProtocolBase(parts)
    case Some(b) =>
    case None =>
      match FolderFamilyBase(parts)
      case Some(b) =>
        StartsWithTransitive(b, BecknSchemas, "https://");
      case None =>
        AbsoluteAppend(BecknSchemas, FolderName(parts) + "/");
        assert BecknSchemas + FolderName(parts) + "/" == BecknSchemas + (FolderName(parts) + "/");
  }

  /** Stripping the separators from `https://` leaves `https:`, and the slash put back gives `https:/`, which is not absolute. */
  lemma SchemeOnlyStrip()
    ensures IsAbsolute("https://") && !StartsWith("https://", "./")
    ensures WithSlash(RStrip("https://", Separators)) == "https:/"
    ensures !IsAbsolute("https:/")
  {
    var s := "https://";
    assert s[..8] == "https://";
    assert s[0] == 'h';
    SchemeOnlyStripped();
    assert "https:"[5] == ':';
    assert !EndsWith("https:", "/");
  }

  /** The context's base when `beckn` is bound to `https://` alone and `@vocab` is absent. */
  lemma SchemeOnlyContextBase(ctx: Object, parts: seq<string>)
    requires Get(ctx, "@vocab").None? && Get(ctx, "beckn") == Some(JStr("https://"))
    ensures ContextBase(ctx, parts) == Some("https:/")
  {
    assert StringBinding(ctx, "beckn") == Some("https://");
    SchemeOnlyStrip();
  }

  /** Without an absolute `@vocab`, a `beckn` binding of `https://` alone gives the base `https:/`, which is not absolute. */
  lemma SchemeOnlyBecknBinding(ctx: Object, parts: seq<string>)
    requires Get(ctx, "@vocab").None? && Get(ctx, "beckn") == Some(JStr("https://"))
    ensures VocabBase(None, Some(ctx), parts) == "https:/"
    ensures !IsAbsolute(VocabBase(None, Some(ctx), parts))
  {
    SchemeOnlyContextBase(ctx, parts);
    SchemeOnlyStrip();
  }

  /** Lines 302-338: the base the context file gives, if any. */
  method ContextVocabBase(ctx: Object, parts: seq<string>) returns (base: Option<string>)
    ensures base == ContextBase(ctx, parts)
  {
    var vocab := Get(ctx, "@vocab");
    if vocab.Some? && vocab.value.JStr? && IsAbsolute(vocab.value.s) {
      return Some(WithSlash(vocab.value.s));
    }
    var beckn := StringBinding(ctx, "beckn");
    if beckn.Some? {
      if StartsWith(beckn.value, "./") {
        var schemaName, version := ScanFamilyFolders(parts);
        if schemaName.Some? {
          return Some(FamilyBase(schemaName.value, version));
        }
      } else if IsAbsolute(beckn.value) {
        return Some(WithSlash(RStrip(beckn.value, Separators)));
      }
    }
    return None;
  }

  /** `get_vocab_base`: the given base, then the context file, then the folders. */
  method GetVocabBase(baseIri: Option<string>, context: Option<Object>, parts: seq<string>) returns (vocabBase: string)
    ensures vocabBase == VocabBase(baseIri, context, parts)
  {
    if baseIri.Some? && IsAbsolute(baseIri.value) {
      return WithSlash(baseIri.value);
    }
    if context.Some? {
      var fromContext := ContextVocabBase(context.value, parts);
      if fromContext.Some? {
        return fromContext.value;
      }
    }
    vocabBase := FolderBase(parts);
  }

  /** Lines 340-361: the base inferred from the folders, folder by folder. */
  method FolderBase(parts: seq<string>) returns (base: string)
    ensures base == InferredBase(parts)
  {
    var schemaName: Option<string> := None;
    var version: Option<string> := None;
    var i := 0;
    while i < |parts|
      invariant 0 <= i <= |parts|
      invariant ProtocolBase(parts) == ProtocolBase(parts[i..])
      invariant schemaName == LastFamily(parts[..i]) && version == LastVersion(parts[..i])
    {
      var part := parts[i];
      assert parts[i..] == [part] + parts[i + 1..];
      assert parts[..i + 1][..i] == parts[..i];
      if StartsWith(part, "ocpi") {
        return OcpiBase;
      } else if StartsWith(part, "ocpp") {
        return OcppBase;
      } else if IsFamily(part) {
        assert !IsVersion(part) by { FamilyIsNotVersion(part); }
        schemaName := Some(part);
      } else if IsVersion(part) {
        version := Some(part);
      }
      i := i + 1;
    }
    assert parts[..i] == parts;
    if schemaName.Some? {
      return FamilyBase(schemaName.value, version);
    }
    return BecknSchemas + FolderName(parts) + "/";
  }

  /** Lines 321-328: the last family folder and the last version folder. */
  method ScanFamilyFolders(parts: seq<string>) returns (schemaName: Option<string>, version: Option<string>)
    ensures schemaName == LastFamily(parts) && version == LastVersion(parts)
  {
    schemaName, version := None, None;
    var i := 0;
    while i < |parts|
      invariant 0 <= i <= |parts|
      invariant schemaName == LastFamily(parts[..i]) && version == LastVersion(parts[..i])
    {
      var part := parts[i];
      assert parts[..i + 1][..i] == parts[..i];
      if IsFamily(part) {
        FamilyIsNotVersion(part);
        schemaName := Some(part);
      } else if IsVersion(part) {
        version := Some(part);
      }
      i := i + 1;
    }
    assert parts[..i] == parts;
  }

  /**
   * Lines 363-416: the outcome for the `components.schemas` of a document,
   * given the optional `--base-iri`, the context's `@context` (`None` when the
   * file is missing or unreadable) and the folders of the document's path.
   */
  function ShaclRun(baseIri: Option<string>, context: Option<Object>, parts: seq<string>, schemas: Object): (r: ShaclOutcome)
    ensures r.NoSchemas? <==> schemas == []
    ensures r.Raised? <==> schemas != [] && !AllObjects(schemas)
    ensures r.Generated? ==> r.shapes != [] && r.vocabBase == VocabBase(baseIri, context, parts)
    ensures r.Generated? ==> r.shapes == NodeShapes(Sh, schemas, schemas, VocabBase(baseIri, context, parts), context.GetOr([])).value
    ensures schemas != [] && AllObjects(schemas) ==>
      (r.Generated? <==> NodeShapes(Sh, schemas, schemas, VocabBase(baseIri, context, parts), context.GetOr([])).value != [])
    ensures r.NoShapes? <==>
      (schemas != [] && AllObjects(schemas) &&
       NodeShapes(Sh, schemas, schemas, VocabBase(baseIri, context, parts), context.GetOr([])).value == [])
  {
    if schemas == [] then NoSchemas
    else
      var vocabBase := VocabBase(baseIri, context, parts);
      match NodeShapes(Sh, schemas, schemas, vocabBase, context.GetOr([]))
      case None => Raised
      case Some(shapes) => if shapes == [] then NoShapes else Generated(vocabBase, shapes)
  }

  /** Lines 432-442: the SHACL document: the prefixes, with `vocab` bound to the vocabulary base, and the shapes. */
  function ShaclDocument(vocabBase: string, shapes: seq<Json>): (doc: Json)
    ensures doc.JObj? && Get(doc.fields, "@graph") == Some(JArr(shapes))
    ensures Get(doc.fields, "@context").Some? && Get(doc.fields, "@context").value.JObj?
    ensures Get(Get(doc.fields, "@context").value.fields, "vocab") == Some(JStr(vocabBase))
  {
    var ctx := [Entry("@version", JNum("1.1")),
                Entry("sh", JStr("http://www.w3.org/ns/shacl#")),
                Entry("rdf", JStr("http://www.w3.org/1999/02/22-rdf-syntax-ns#")),
                Entry("rdfs", JStr("http://www.w3.org/2000/01/rdf-schema#")),
                Entry("xsd", JStr("http://www.w3.org/2001/XMLSchema#"))];
    JObj(Put(Put([], "@context", JObj(Put(ctx, "vocab", JStr(vocabBase)))), "@graph", JArr(shapes)))
  }

  /** Lines 403-412: the node shapes of the object schemas, schema by schema; nothing once a schema is not a dictionary. */
  method CollectNodeShapes(v: Vocabulary, schemas: Object, vocabBase: string, ctx: Object) returns (shapes: Option<seq<Json>>)
    requires Distinct(v)
    ensures shapes == NodeShapes(v, schemas, schemas, vocabBase, ctx)
  {
    var acc: seq<Json> := [];
    var i := 0;
    while i < |schemas|
      invariant 0 <= i <= |schemas|
      invariant NodeShapes(v, schemas[..i], schemas, vocabBase, ctx) == Some(acc)
    {
      var def := schemas[i].value;
      if !def.JObj? {
        assert !AllObjects(schemas);
        return None;
      }
      NodeShapesSnoc(v, schemas, i, vocabBase, ctx);
      if Field(def.fields, "type", JNull) == JStr("object") {
        var shape := ConvertSchema(v, schemas[i].key, def.fields, schemas, vocabBase, ctx, true);
        if shape.Some? {
          acc := acc + [JObj(shape.value)];
        }
      }
      i := i + 1;
    }
    assert schemas[..i] == schemas;
    return Some(acc);
  }

  /** `generate_shacl`: the base, then the shapes; no document without schemas, without shapes, or when a schema raises. */
  method GenerateShacl(baseIri: Option<string>, context: Option<Object>, parts: seq<string>, schemas: Object) returns (outcome: ShaclOutcome)
    ensures outcome == ShaclRun(baseIri, context, parts, schemas)
  {
    var vocabBase := GetVocabBase(baseIri, context, parts);
    var ctx := context.GetOr([]);
    if schemas == [] {
      return NoSchemas;
    }
    var shapes := CollectNodeShapes(Sh, schemas, vocabBase, ctx);
    if shapes.None? {
      return Raised;
    }
    if shapes.value == [] {
      return NoShapes;
    }
    return Generated(vocabBase, shapes.value);
  }

  /** One more schema object adds its node shape, when it yields one, to the shapes so far. */
  lemma NodeShapesSnoc(v: Vocabulary, schemas: Object, i: nat, vocabBase: string, ctx: Object)
    requires Distinct(v)
    requires i < |schemas| && NodeShapes(v, schemas[..i], schemas, vocabBase, ctx).Some? && schemas[i].value.JObj?
    ensures var e := schemas[i];
      var shape := SchemaShape(v, e.key, e.value.fields, schemas, vocabBase, ctx, true);
      NodeShapes(v, schemas[..i + 1], schemas, vocabBase, ctx) ==
        if !IsObjectSchema(e.value) || shape.None? then NodeShapes(v, schemas[..i], schemas, vocabBase, ctx)
        else Some(NodeShapes(v, schemas[..i], schemas, vocabBase, ctx).value + [JObj(shape.value)])
  {
    assert schemas[..i + 1][..i] == schemas[..i];
  }
}
