/**
 * What the two SHACL generators share: component references, the bookkeeping
 * of skipped items, and the outcome of a run.
 */
module Shapes {
  import opened OrderedDict
  import opened Text
  import opened Json

  const ComponentsPrefix := "#/components/schemas/"

  /** `ref.split('/')[-1]`: the schema name a component reference points to. */
  function RefName(ref: string): (r: string)
    ensures '/' !in r
    ensures StartsWith(ref, ComponentsPrefix) && '/' !in ref[|ComponentsPrefix|..] ==> r == ref[|ComponentsPrefix|..]
  {
    ComponentRefName(ref);
    LastSegment(ref, '/')
  }

  lemma ComponentRefName(ref: string)
    ensures StartsWith(ref, ComponentsPrefix) && '/' !in ref[|ComponentsPrefix|..] ==>
      LastSegment(ref, '/') == ref[|ComponentsPrefix|..]
  {
    if StartsWith(ref, ComponentsPrefix) && '/' !in ref[|ComponentsPrefix|..] {
      assert ref == ComponentsPrefix + ref[|ComponentsPrefix|..];
      LastSegmentAfter(ComponentsPrefix, ref[|ComponentsPrefix|..]);
    }
  }

  lemma {:induction false} LastSegmentAfter(p: string, s: string)
    requires EndsWith(p, "/") && '/' !in s
    ensures LastSegment(p + s, '/') == s
  {
    if s == [] {
      assert p + s == p;
    } else {
      var init := s[..|s| - 1];
      LastSegmentAfter(p, init);
      assert (p + s)[..|p + s| - 1] == p + init;
      assert s == init + [s[|s| - 1]];
    }
  }

  /** The shapes that converted, in order: a property whose conversion raised is skipped. */
  function Converted(rs: seq<Option<Object>>): (ps: seq<Json>)
    ensures |ps| <= |rs|
  {
    if rs == [] then []
    else
      var init := Converted(rs[..|rs| - 1]);
      match rs[|rs| - 1]
      case None => init
      case Some(p) => init + [JObj(p)]
  }

  /** One more conversion: kept when it succeeded, skipped when it raised. */
  lemma ConvertedSnoc(rs: seq<Option<Object>>, i: nat)
    requires i < |rs|
    ensures Converted(rs[..i + 1]) == if rs[i].Some? then Converted(rs[..i]) + [JObj(rs[i].value)] else Converted(rs[..i])
  {
    assert rs[..i + 1][..i] == rs[..i];
  }

  /** When nothing is skipped, every conversion is kept, in order. */
  lemma {:induction false} ConvertedAll(rs: seq<Option<Object>>)
    requires forall i :: 0 <= i < |rs| ==> rs[i].Some?
    ensures |Converted(rs)| == |rs|
    ensures forall i :: 0 <= i < |rs| ==> Converted(rs)[i] == JObj(rs[i].value)
  {
    if rs != [] {
      ConvertedAll(rs[..|rs| - 1]);
    }
  }

  /** Every schema definition is a dictionary. */
  predicate AllObjects(defs: Object) {
    forall i :: 0 <= i < |defs| ==> defs[i].value.JObj?
  }

  /** The schema is declared with type `object`. */
  predicate IsObjectSchema(def: Json) {
    def.JObj? && Field(def.fields, "type", JNull) == JStr("object")
  }

  /** The names of the object schemas among `defs`, in order. */
  function ObjectSchemaNames(defs: Object): (names: seq<string>)
    ensures |names| <= |defs|
  {
    if defs == [] then []
    else
      var init := ObjectSchemaNames(defs[..|defs| - 1]);
      if IsObjectSchema(defs[|defs| - 1].value) then init + [defs[|defs| - 1].key] else init
  }

  /** What `generate_shacl` ends with. */
  datatype ShaclOutcome =
    | NoSchemas                                   // no schemas: returns False
    | Raised                                      // a schema definition is not a dictionary: the exception escapes
    | NoShapes                                    // no object schema gave a shape: returns False
    | Generated(vocabBase: string, shapes: seq<Json>)  // the document is written

  const ShaclNs := "http://www.w3.org/ns/shacl#"

  /**
   * The keys a generator writes into shapes, and the two SHACL IRIs it writes
   * as values: all `sh:` CURIEs, or all full IRIs in the SHACL namespace when
   * `full` is set (scripts/generate_shacl_for_schemas.py:83-111 and 194-211).
   */
  datatype Vocabulary = Vocabulary(
    full: bool,
    pathKey: string,
    nameKey: string,
    minCountKey: string,
    maxCountKey: string,
    classKey: string,
    nodeKindKey: string,
    datatypeKey: string,
    inKey: string,
    minInclusiveKey: string,
    maxInclusiveKey: string,
    targetClassKey: string,
    propertyKey: string,
    nodeShapeType: string,
    nodeKindValue: string)

  /** The vocabulary that writes every SHACL term as `prefix` followed by its local name. */
  function Prefixed(full: bool, prefix: string): (v: Vocabulary)
    ensures v.full == full
  {
    Vocabulary(
      full,
      prefix + "path",
      prefix + "name",
      prefix + "minCount",
      prefix + "maxCount",
      prefix + "class",
      prefix + "nodeKind",
      prefix + "datatype",
      prefix + "in",
      prefix + "minInclusive",
      prefix + "maxInclusive",
      prefix + "targetClass",
      prefix + "property",
      prefix + "NodeShape",
      prefix + "IRIOrLiteral")
  }

  /**
   * The keys of a property shape are pairwise distinct, and so are the keys
   * of a node shape, which are none of `@id` and `@type`.
   */
  predicate Distinct(v: Vocabulary) {
    v.pathKey != v.nameKey && v.pathKey != v.minCountKey && v.pathKey != v.maxCountKey &&
    v.pathKey != v.classKey && v.pathKey != v.nodeKindKey && v.pathKey != v.datatypeKey &&
    v.pathKey != v.inKey && v.pathKey != v.minInclusiveKey && v.pathKey != v.maxInclusiveKey &&
    v.nameKey != v.minCountKey && v.nameKey != v.maxCountKey && v.nameKey != v.classKey &&
    v.nameKey != v.nodeKindKey && v.nameKey != v.datatypeKey && v.nameKey != v.inKey &&
    v.nameKey != v.minInclusiveKey && v.nameKey != v.maxInclusiveKey && v.minCountKey != v.maxCountKey &&
    v.minCountKey != v.classKey && v.minCountKey != v.nodeKindKey && v.minCountKey != v.datatypeKey &&
    v.minCountKey != v.inKey && v.minCountKey != v.minInclusiveKey && v.minCountKey != v.maxInclusiveKey &&
    v.maxCountKey != v.classKey && v.maxCountKey != v.nodeKindKey && v.maxCountKey != v.datatypeKey &&
    v.maxCountKey != v.inKey && v.maxCountKey != v.minInclusiveKey && v.maxCountKey != v.maxInclusiveKey &&
    v.classKey != v.nodeKindKey && v.classKey != v.datatypeKey && v.classKey != v.inKey &&
    v.classKey != v.minInclusiveKey && v.classKey != v.maxInclusiveKey && v.nodeKindKey != v.datatypeKey &&
    v.nodeKindKey != v.inKey && v.nodeKindKey != v.minInclusiveKey && v.nodeKindKey != v.maxInclusiveKey &&
    v.datatypeKey != v.inKey && v.datatypeKey != v.minInclusiveKey && v.datatypeKey != v.maxInclusiveKey &&
    v.inKey != v.minInclusiveKey && v.inKey != v.maxInclusiveKey && v.minInclusiveKey != v.maxInclusiveKey &&
    v.targetClassKey != v.nameKey && v.targetClassKey != v.propertyKey && v.nameKey != v.propertyKey &&
    v.targetClassKey != "@id" && v.targetClassKey != "@type" && v.nameKey != "@id" && v.nameKey != "@type" &&
    v.propertyKey != "@id" && v.propertyKey != "@type"
  }

  /** What follows the prefix of `prefix + a` is `a`: distinct names give distinct keys. */
  lemma DropPrefix(prefix: string, a: string)
    ensures (prefix + a)[|prefix|..] == a
  {
  }

  lemma PrefixedNotKeyword(prefix: string, a: string)
    requires |prefix| > 0 && prefix[0] != '@'
    ensures prefix + a != "@id" && prefix + a != "@type"
  {
    assert (prefix + a)[0] == prefix[0];
  }

  /** A prefix that is not a keyword's first character keeps every pair of terms apart. */
  lemma PrefixedIsDistinct(full: bool, prefix: string)
    requires |prefix| > 0 && prefix[0] != '@'
    ensures Distinct(Prefixed(full, prefix))
  {
    DropPrefix(prefix, "path");
    DropPrefix(prefix, "name");
    DropPrefix(prefix, "minCount");
    DropPrefix(prefix, "maxCount");
    DropPrefix(prefix, "class");
    DropPrefix(prefix, "nodeKind");
    DropPrefix(prefix, "datatype");
    DropPrefix(prefix, "in");
    DropPrefix(prefix, "minInclusive");
    DropPrefix(prefix, "maxInclusive");
    DropPrefix(prefix, "targetClass");
    DropPrefix(prefix, "property");
    PrefixedNotKeyword(prefix, "targetClass");
    PrefixedNotKeyword(prefix, "name");
    PrefixedNotKeyword(prefix, "property");
  }

  /** The vocabulary the `--full-iris` flag selects. */
  function VocabularyFor(useFullIris: bool): (v: Vocabulary)
    ensures v.full == useFullIris
    ensures Distinct(v)
  {
    var prefix := if useFullIris then ShaclNs else "sh:";
    PrefixedIsDistinct(useFullIris, prefix);
    Prefixed(useFullIris, prefix)
  }

  /** The node kind IRI-or-literal. */
  function IriOrLiteralKind(v: Vocabulary): Json {
    JStr(v.nodeKindValue)
  }

  /** The `sh:` vocabulary: what scripts/generate_shacl.py always writes. */
  const Sh: Vocabulary := VocabularyFor(false)
}
