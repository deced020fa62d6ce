# beckn protocol-specifications generator scripts, modelled in Dafny

The beckn protocol-specifications repository ships Python scripts that derive
linked-data artefacts from OpenAPI and JSON Schema descriptions of a schema
family. This project models five of them and proves properties of the model:

- `scripts/generate_shacl.py` turns the `components.schemas` of an OpenAPI
  document into SHACL node shapes. Each object schema becomes a
  `sh:NodeShape`, each of its properties a property shape with path,
  cardinalities, class, datatype, node kind, `sh:in` and bounds. IRIs are
  resolved through the folder's JSON-LD context. The vocabulary base comes
  from an explicit base IRI, the context, or the folder path
  (`shacl.dfy`, module `Shacl`).
- `scripts/generate_shacl_for_schemas.py` does the same for an
  `attributes.yaml`. It can write compact `sh:` keys or full SHACL
  namespace IRIs, and it uses its own IRI expansion and vocabulary-base rules
  (`shacl_for_schemas.dfy`, module `ShaclForSchemas`).
- `scripts/convert_ocpp_json_to_openapi.py` converts the OCPP JSON Schema
  messages into one OpenAPI 3.1 document:
  - it converts the schemas and merges duplicate definitions;
  - it takes enumerations from the appendix CSV tables;
  - it rewrites every `#/definitions/` reference to `#/components/schemas/`;
  - it builds one tag per message.

  See `openapi.dfy` (module `OcppToOpenApi`, the schema conversion) and
  `openapi_defs.dfy` (module `OcppDefinitions`, the definitions pipeline).
- `scripts/generate_vocab.py` builds the JSON-LD vocabulary of a
  specification:
  - the base IRI and prefix come from the folder path;
  - one pass collects enumerations, from top-level schemas and from inline
    enum properties;
  - one pass emits the schemas;
  - one pass emits the enumerations recorded from properties.

  See `vocab.dfy`, module `Vocab`.
- `scripts/generate_context.py` builds a JSON-LD context: `@version`, an
  `@vocab` root, and one `"@id"` term per schema in sorted order
  (`context.dfy`, module `ContextGen`).

Shared modules:

- `Json` (`json.dfy`): parsed JSON values and Python truthiness.
- `OrderedDict` (`odict.dfy`): Python dictionaries as insertion-ordered
  entry sequences.
- `Text` (`text.dfy`): the string functions the scripts use, such as
  `split`, `rstrip`, `lower`, `capitalize` and `sorted`.
- `Iri` (`iri.dfy`): the fixed roots and folder-name tests.
- `Shapes` (`shapes.dfy`): what both SHACL generators share, including the
  key vocabulary of compact and full SHACL output.

Loops that build a list or dictionary step by step are methods with loop
invariants. Each is proved equal to a specification function: for example
`Shacl.CollectPropertyShapes`, `Vocab.EmitSchemas`,
`OcppDefinitions.MergeDefinitions` and `ContextGen.GenerateContext`. Where the
source updates a dictionary in place across calls, the model uses a class:
`OcppDefinitions.DefinitionTable` holds the definitions that the CSV
enhancement updates.

A Python exception that an enclosing `try` turns into "skip this item" is
modelled as `None`, and so is a call that raises. Such exceptions come from:

- `x in y` on an unhashable value;
- `.get` on a non-dictionary;
- iterating a non-iterable.

Schema names, JSON keys and IRIs are Dafny strings.

## Model

| member | source | states |
|---|---|---|
| Shacl.XsdType | scripts/generate_shacl.py:30-41 | a JSON type or format maps to an `xsd:` datatype exactly when it is one of the nine mapped names |
| Shacl.ExpandCurie | scripts/generate_shacl.py:69-83 | a compact IRI expands exactly when it has a colon, is not `http…`, and its prefix has a string binding. The result is the stripped absolute binding plus `/` plus the local part, or the vocabulary base plus the local part for a relative binding |
| Shacl.AbsoluteIri | scripts/generate_shacl.py:63-87 | `"@id"` and `./…` resolve to the vocabulary base plus the name; an absolute IRI is kept; otherwise the result is the compact expansion, the base plus the name, or the value itself |
| Shacl.AbsoluteIriIsAbsolute | scripts/generate_shacl.py:63-87 | over an absolute base, and a context whose absolute bindings keep their scheme once stripped, the full IRI of a schema is absolute |
| Shacl.SchemeOnlyBindingLosesHost | scripts/generate_shacl.py:78-81 | a prefix bound to `https://` expands `p:x` to `https:/x`, so the scheme-keeping assumption above is needed |
| Shacl.SchemaIri | scripts/generate_shacl.py:51-94 | CURIE mode always gives `vocab:<name>`. In full mode an unknown name, or an entry that is neither a string nor a dictionary, gives the base plus the name. A string entry gives its absolute form (`AbsoluteIri`). A dictionary entry gives its `@id` as it is, except that a missing `@id`, an `@id` of `"@id"` or a `./` path gives the base plus the name |
| Shacl.PropertyIri | scripts/generate_shacl.py:96-166 | CURIE mode always gives a string. With no entry, or an entry whose string (or `@id` string) is neither compact nor absolute, it is `vocab:<name>`. A compact IRI is kept as it is, unless its prefix is `beckn` and the context binds `beckn` to a `./` path; then it is `vocab:<name>`. An absolute IRI is kept. Full mode: an unknown name gives the base plus the name. A string entry, or a dictionary's string `@id`, gives its absolute form (`AbsoluteIri`), and a dictionary without `@id` the absolute form of the base plus the name. A non-string `@id`, and an entry that is neither a string nor a dictionary, are returned as they are |
| Shacl.PropertyIriIsAbsolute | scripts/generate_shacl.py:126-166 | in full mode a string property IRI is absolute under the same assumptions as the schema IRI |
| Shacl.TargetConstraints | scripts/generate_shacl.py:194-212 | a reference to a known schema copies its `enum` into `sh:in`, its mapped type into `sh:datatype`, and sets `sh:class` only for an object type. It raises exactly when the target's type is unhashable, and leaves every other key alone |
| Shacl.RefConstraints | scripts/generate_shacl.py:186-213 | a non-string `$ref` raises; a foreign reference adds nothing. A component reference to an unknown schema adds `sh:class`; to a non-dictionary it raises; otherwise the target's constraints apply |
| Shacl.KindOrDatatype | scripts/generate_shacl.py:243-246 | a mapped type sets `sh:datatype`; otherwise `object` sets `sh:nodeKind` to `sh:IRIOrLiteral`; nothing else changes |
| Shacl.ArrayConstraints | scripts/generate_shacl.py:218-234 | non-dictionary items raise. A component `$ref` in the items sets `sh:class` and the node kind. Otherwise the item type decides datatype or node kind, raising exactly for an unhashable type |
| Shacl.TypedShape | scripts/generate_shacl.py:236-246 | a mapped format wins. Otherwise a present format falls back to the mapped type, and an absent one to datatype-or-node-kind of the type. It raises only for unhashable type or format |
| Shacl.ValueConstraints | scripts/generate_shacl.py:248-257 | `enum`, `minimum` and `maximum`, when present, become `sh:in`, `sh:minInclusive` and `sh:maxInclusive`; every other key is unchanged |
| Shacl.ScalarConstraints | scripts/generate_shacl.py:236-257 | a scalar property fails exactly when its typing fails; otherwise it is typed and then value-constrained, and the header keys are untouched |
| Shacl.ShapeHeader | scripts/generate_shacl.py:171-184 | a property shape starts with path and name. `sh:minCount` 1 appears exactly when the property is required, `sh:maxCount` 1 exactly when it is nullable, and there is no other key |
| Shacl.Constraints | scripts/generate_shacl.py:186-257 | `$ref` takes precedence and returns before type handling; then `array`; then scalars. The header keys are never changed |
| Shacl.ConvertProperty | scripts/generate_shacl.py:168-259 | a converted property is a dictionary definition with a hashable-membership `required`. It carries the property's path and name and the header of its cardinalities. A `$ref` property has no node kind and no bounds |
| Shacl.Cardinalities | scripts/generate_shacl.py:178-184 | in both directions: `sh:minCount` is present (and 1) iff the property is required; `sh:maxCount` iff it is nullable |
| Shacl.ReferenceClass | scripts/generate_shacl.py:186-213 | a component reference yields `sh:class` iff its target is unknown or an object schema, and copies a known target's `enum` |
| Shacl.NodeShapeHeader | scripts/generate_shacl.py:264-271 | a node shape carries its IRI as `@id` and target class, type `sh:NodeShape`, its name, and no properties yet |
| Shacl.ConvertProperties | scripts/generate_shacl.py:277-285 | one conversion outcome per property, in property order |
| Shacl.PropertyShapesInOrder | scripts/generate_shacl.py:277-285 | when every property converts, the shapes are exactly the converted properties, in order, each named after its property |
| Shacl.SchemaShape | scripts/generate_shacl.py:261-290 | a schema yields a shape iff its `properties` is a dictionary. The shape has the schema IRI, type and name, and `sh:property` holds the converted properties unless there are none |
| Shacl.ConvertSchema | scripts/generate_shacl.py:261-290 | the loop-based conversion equals `SchemaShape` |
| Shacl.CollectPropertyShapes | scripts/generate_shacl.py:273-285 | the property loop skips failing properties and keeps the order; it equals `PropertyShapes` |
| Shacl.OneShapePerObjectSchema | scripts/generate_shacl.py:404-412 | when every object schema has dictionary properties, there is exactly one node shape per object schema, in order, named after it |
| Shacl.NodeShapesSnoc | scripts/generate_shacl.py:405-412 | one more schema adds its node shape exactly when it is an object schema whose shape converts |
| Shacl.CollectNodeShapes | scripts/generate_shacl.py:404-412 | the schema loop equals `NodeShapes`, whose result exists iff every definition is a dictionary |
| Shacl.FolderFamilyBase | scripts/generate_shacl.py:321-332 | a family folder (`Energy…`/`EvCharging…`) gives the beckn base of the last such folder, with the last version folder |
| Shacl.ProtocolBase | scripts/generate_shacl.py:344-348 | the OCPI or the OCPP root; none iff no folder starts `ocpi` or `ocpp` |
| Shacl.ProtocolBaseAt | scripts/generate_shacl.py:344-348 | the first folder starting `ocpi` or `ocpp` decides: the OCPI root for `ocpi`, the OCPP root for `ocpp` |
| Shacl.InferredBase | scripts/generate_shacl.py:340-361 | the folder rule: protocol root, else family base, else `https://schemas.beckn.org/<folder>/` |
| Shacl.ContextBase | scripts/generate_shacl.py:309-336 | an absolute string `@vocab` wins, with a slash. Otherwise a relative `beckn` binding uses the family folders, an absolute one is stripped and given a slash, and anything else gives nothing |
| Shacl.VocabBase | scripts/generate_shacl.py:292-361 | the base always ends in `/`. An absolute base IRI wins. Without one, a context that yields a base (`ContextBase`) decides. Without either, the folder rule applies |
| Shacl.VocabBaseIsAbsolute | scripts/generate_shacl.py:292-295 | the "always absolute" promise holds whenever the context's `beckn` binding keeps a scheme once stripped |
| Shacl.ContextBaseIsAbsolute | scripts/generate_shacl.py:309-336 | a base taken from such a context is absolute |
| Shacl.FolderBaseIsAbsolute | scripts/generate_shacl.py:340-361 | the folder rule always gives an absolute IRI |
| Shacl.SchemeOnlyStrip | scripts/generate_shacl.py:334-336 | `https://` passes the absoluteness test but strips to `https:/`, which does not |
| Shacl.SchemeOnlyContextBase | scripts/generate_shacl.py:315-336 | a context whose `beckn` is `https://` and has no `@vocab` yields the base `https:/` |
| Shacl.SchemeOnlyBecknBinding | scripts/generate_shacl.py:292-336 | with such a context and no base IRI, `get_vocab_base` returns the non-absolute `https:/` |
| Shacl.ContextVocabBase | scripts/generate_shacl.py:309-336 | the context scan equals `ContextBase` |
| Shacl.GetVocabBase | scripts/generate_shacl.py:292-361 | the procedure equals `VocabBase` |
| Shacl.FolderBase | scripts/generate_shacl.py:340-361 | the folder loop, with its early returns, equals `InferredBase` |
| Shacl.ScanFamilyFolders | scripts/generate_shacl.py:341-352 | the scan records the last family folder and the last version folder |
| Shacl.ShaclRun | scripts/generate_shacl.py:378-416 | no schemas is reported as such. The run raises iff some schema is not a dictionary. Otherwise shapes are generated iff the node shapes over the computed vocabulary base are non-empty, and they are those node shapes; no shapes is reported iff they are empty |
| Shacl.ShaclDocument | scripts/generate_shacl.py:432-442 | the document's `@graph` is the shapes and its `@context` binds `vocab` to the base |
| Shacl.GenerateShacl | scripts/generate_shacl.py:363-416 | the generator's outcome equals `ShaclRun` |
| ShaclForSchemas.XsdType | scripts/generate_shacl_for_schemas.py:19-30 | mapped exactly for the nine names, to full `xsd` namespace IRIs |
| ShaclForSchemas.ExpandIri | scripts/generate_shacl_for_schemas.py:36-63 | the empty IRI and absolute IRIs are returned unchanged |
| ShaclForSchemas.ExpandIriRelative | scripts/generate_shacl_for_schemas.py:45-63 | a relative IRI uses the string binding of its prefix. Failing that, `vocab:` uses the base plus the local part; otherwise the base is prepended to the whole IRI |
| ShaclForSchemas.ExpandIriIsAbsolute | scripts/generate_shacl_for_schemas.py:36-63 | over an absolute base and bindings that stay absolute once stripped, every non-empty IRI expands to an absolute one |
| ShaclForSchemas.ExpandIriIdempotent | scripts/generate_shacl_for_schemas.py:36-63 | under the same assumptions, expanding twice is expanding once |
| ShaclForSchemas.SchemeOnlyBindingLosesHost | scripts/generate_shacl_for_schemas.py:51-56 | a prefix bound to `https://` expands `p:x` to the non-absolute `https:/x` |
| ShaclForSchemas.SchemeOnlyBindingNotIdempotent | scripts/generate_shacl_for_schemas.py:36-63 | in that context, expanding `https:/x` again prepends the base, so expansion is not idempotent without the assumption |
| ShaclForSchemas.ExpandValue | scripts/generate_shacl_for_schemas.py:68-75 | a context value raises iff it is truthy and not a string; strings are expanded and falsy values returned as they are |
| ShaclForSchemas.PropertyIri | scripts/generate_shacl_for_schemas.py:65-76 | an unknown property gets the base plus its name. A string entry is expanded. A dictionary entry without `@id` expands the base plus the name, and one with an `@id` gives `ExpandValue` of that `@id`. Any other entry gives `ExpandValue` of the entry, which raises when it is truthy |
| ShaclForSchemas.RefClassIri | scripts/generate_shacl_for_schemas.py:124-128 | a referenced class is the base plus the name, expanded in full-IRI mode |
| ShaclForSchemas.RefClassIriSameInBothStyles | scripts/generate_shacl_for_schemas.py:124-128 | over an absolute base both output styles give the same class IRI |
| ShaclForSchemas.RefConstraints | scripts/generate_shacl_for_schemas.py:121-130 | a non-string `$ref` raises. A component reference sets only `sh:class`; any other reference adds nothing |
| ShaclForSchemas.KindOrDatatype | scripts/generate_shacl_for_schemas.py:160-165 | a mapped type sets the datatype; otherwise `object` sets the node kind; nothing else changes |
| ShaclForSchemas.ArrayConstraints | scripts/generate_shacl_for_schemas.py:135-153 | non-dictionary items raise; a component `$ref` sets class and node kind; otherwise the item type decides, raising exactly for an unhashable type |
| ShaclForSchemas.TypedShape | scripts/generate_shacl_for_schemas.py:155-165 | a mapped format wins; only unhashable type or format makes it raise |
| ShaclForSchemas.ValueConstraints | scripts/generate_shacl_for_schemas.py:167-177 | `enum`, `minimum` and `maximum` become `in`, `minInclusive` and `maxInclusive`; nothing else changes |
| ShaclForSchemas.ScalarConstraints | scripts/generate_shacl_for_schemas.py:155-177 | it fails exactly when typing fails; the header is untouched |
| ShaclForSchemas.ShapeHeader | scripts/generate_shacl_for_schemas.py:83-119 | path, name, `minCount` iff required, `maxCount` iff nullable, and nothing else, under the chosen key style |
| ShaclForSchemas.Constraints | scripts/generate_shacl_for_schemas.py:121-177 | `$ref` first, then `array`, then scalars; the header is never changed |
| ShaclForSchemas.ConvertProperty | scripts/generate_shacl_for_schemas.py:78-179 | a converted property has a dictionary definition and a resolvable property IRI. It carries that IRI as path, its name, and its cardinality header |
| ShaclForSchemas.Cardinalities | scripts/generate_shacl_for_schemas.py:113-119 | `minCount` is present iff required, `maxCount` iff nullable |
| ShaclForSchemas.ReferenceClass | scripts/generate_shacl_for_schemas.py:121-130 | a component-reference property gets the referenced class and neither `in` nor a datatype |
| ShaclForSchemas.ConvertProperties | scripts/generate_shacl_for_schemas.py:217-225 | one conversion outcome per property, in order |
| ShaclForSchemas.PropertyShapesInOrder | scripts/generate_shacl_for_schemas.py:217-225 | when all properties convert, the shapes are those conversions in order, each named after its property |
| ShaclForSchemas.ShapeIri | scripts/generate_shacl_for_schemas.py:184-196 | the base plus the name, unless the context gives a string (used as it is) or a dictionary with an `@id` (that `@id`); a dictionary without `@id` or any other entry keeps the base plus the name. Full mode expands the chosen value, failing for a truthy non-string `@id` |
| ShaclForSchemas.IdKeywordBecomesShapeId | scripts/generate_shacl_for_schemas.py:186-190 | a schema mapped to `"@id"` in the context gets the literal shape id `"@id"` in compact mode |
| ShaclForSchemas.NodeShapeHeader | scripts/generate_shacl_for_schemas.py:194-211 | `@id` and target class are the shape IRI, with the node-shape type and the name, and no properties yet |
| ShaclForSchemas.SchemaShape | scripts/generate_shacl_for_schemas.py:181-233 | a shape exists iff its IRI resolves and `properties` is a dictionary. It has the IRI, the name, and the converted properties unless there are none |
| ShaclForSchemas.CollectPropertyShapes | scripts/generate_shacl_for_schemas.py:213-225 | the property loop equals `PropertyShapes` |
| ShaclForSchemas.ConvertSchema | scripts/generate_shacl_for_schemas.py:181-233 | the procedure equals `SchemaShape` |
| ShaclForSchemas.ContextVocabBase | scripts/generate_shacl_for_schemas.py:244-257 | a present `@vocab` is returned as it is; else a string `beckn` binding stripped plus `/`; else nothing |
| ShaclForSchemas.FallbackBase | scripts/generate_shacl_for_schemas.py:283-296 | the first family folder, lower-cased, under the beckn root; else the beckn root |
| ShaclForSchemas.FallbackVocabBase | scripts/generate_shacl_for_schemas.py:283-296 | the folder loop with its `break` equals `FallbackBase` |
| ShaclForSchemas.VocabBase | scripts/generate_shacl_for_schemas.py:282-296 | a present `@vocab` decides: if truthy, its printed form (`Json.Str`) is the base, otherwise the folder fallback. With no `@vocab`, a string `beckn` binding stripped of trailing `#` and `/` plus `/` is the base. With neither, or without a context, the folder fallback applies |
| ShaclForSchemas.GetVocabBase | scripts/generate_shacl_for_schemas.py:282-296 | the procedure equals `VocabBase` |
| ShaclForSchemas.EmptyVocabHidesBeckn | scripts/generate_shacl_for_schemas.py:246-247 | an empty `@vocab` is returned before `beckn` is consulted, so the folder fallback is used even though `beckn` is bound |
| ShaclForSchemas.NodeShapesSnoc | scripts/generate_shacl_for_schemas.py:323-330 | one more schema adds its shape exactly when it is an object schema whose shape converts |
| ShaclForSchemas.ShaclRun | scripts/generate_shacl_for_schemas.py:282-334 | no schemas is reported as such. The run raises iff some schema is not a dictionary. Otherwise shapes are generated iff the node shapes over `VocabBase` in the chosen style are non-empty, and they are those node shapes; no shapes is reported iff they are empty |
| ShaclForSchemas.GenerateShaclForFile | scripts/generate_shacl_for_schemas.py:262-334 | the generator's outcome equals `ShaclRun` |
| Shapes.RefName | scripts/generate_shacl.py:189-190 | the referenced name has no `/` and is the part after `#/components/schemas/` for a one-segment reference |
| Shapes.ComponentRefName | scripts/generate_shacl.py:189-190 | for such a reference, `split('/')[-1]` is that part |
| Shapes.ConvertedSnoc | scripts/generate_shacl.py:277-285 | one more outcome appends its shape exactly when it is not an exception |
| Shapes.ConvertedAll | scripts/generate_shacl.py:277-285 | with no exception, every outcome is kept, in order |
| Shapes.PrefixedIsDistinct | scripts/generate_shacl_for_schemas.py:83-111 | the property-shape keys built from a prefix that does not start with `@` are pairwise distinct. The node-shape keys (target class, name, property) are distinct from each other and from `@id` and `@type` |
| Shapes.VocabularyFor | scripts/generate_shacl_for_schemas.py:83-111 | both key styles (`sh:` and the full SHACL namespace) give distinct keys and record their style |
| OcppToOpenApi.RewriteRef | scripts/convert_ocpp_json_to_openapi.py:71-78 | a rewritten reference never points into `#/definitions/`. A draft reference becomes a component reference naming its last segment (the suffix, for a one-segment reference); anything else is unchanged |
| OcppToOpenApi.DraftRefRewritten | scripts/convert_ocpp_json_to_openapi.py:73-76 | the component reference built from a draft reference names the draft's last segment and is no longer a draft reference |
| OcppToOpenApi.ComponentRefNamesSchema | scripts/convert_ocpp_json_to_openapi.py:75-76 | `#/components/schemas/<name>` names `<name>` for a slash-free name |
| OcppToOpenApi.DraftRefName | scripts/convert_ocpp_json_to_openapi.py:75 | for a one-segment draft reference, the last segment is the suffix after `#/definitions/` |
| OcppToOpenApi.CopyKeys | scripts/convert_ocpp_json_to_openapi.py:31-68 | every listed key present in the source is copied; every other key is left as it was |
| OcppToOpenApi.CopyExtensions | scripts/convert_ocpp_json_to_openapi.py:85-88 | only `x-` keys are added, and only keys of the source |
| OcppToOpenApi.CopyExtensionsValues | scripts/convert_ocpp_json_to_openapi.py:85-88 | every `x-` key of the source is copied with its value |
| OcppToOpenApi.PutPart | scripts/convert_ocpp_json_to_openapi.py:42-50 | a converted part is stored under its key; an absent one changes nothing |
| OcppToOpenApi.RefPart | scripts/convert_ocpp_json_to_openapi.py:71-78 | no `$ref` gives nothing; a non-string `$ref` raises; a string is rewritten |
| OcppToOpenApi.TableKeys | scripts/convert_ocpp_json_to_openapi.py:31-68 | the copied keys are none of `properties`, `items` and `$ref`, no extension, and appear in one half of the table only |
| OcppToOpenApi.OcppTableSeparate | scripts/convert_ocpp_json_to_openapi.py:31-68 | the script's key table satisfies these separation conditions |
| OcppToOpenApi.CopiedTableKey | scripts/convert_ocpp_json_to_openapi.py:31-68 | every basic key of the table ends up with the source's value or absent with it |
| OcppToOpenApi.CopiedProperties | scripts/convert_ocpp_json_to_openapi.py:42-45 | `properties` holds exactly the converted properties |
| OcppToOpenApi.CopiedItems | scripts/convert_ocpp_json_to_openapi.py:46-50 | `items` holds exactly the converted items |
| OcppToOpenApi.CopiedNoRef | scripts/convert_ocpp_json_to_openapi.py:71 | `$ref` is not set before the reference step |
| OcppToOpenApi.CopiedKeys | scripts/convert_ocpp_json_to_openapi.py:31-68 | before the reference and extension steps, only table keys are present |
| OcppToOpenApi.Assemble | scripts/convert_ocpp_json_to_openapi.py:27-90 | the converted schema copies the basic keys and holds the converted `properties`, `items` and `$ref`. Its keys are table keys, `$ref` or extensions |
| OcppToOpenApi.ConvertJsonSchema | scripts/convert_ocpp_json_to_openapi.py:27-90 | a conversion succeeds only for a dictionary |
| OcppToOpenApi.ConvertFails | scripts/convert_ocpp_json_to_openapi.py:27-90 | conversion raises iff the input is not a dictionary, its `$ref` is not a string, `properties` is not a dictionary or has a property that fails, or dictionary `items` fail |
| OcppToOpenApi.ConvertedSchema | scripts/convert_ocpp_json_to_openapi.py:27-90 | a converted schema has only allowed keys and copies the basic ones. Its `$ref` is the rewritten reference. Its `items` are absent, copied, or converted recursively, following the source |
| OcppToOpenApi.ConvertedProperties | scripts/convert_ocpp_json_to_openapi.py:42-45 | converted properties have the same names in the same order, each the recursive conversion of its source |
| OcppToOpenApi.DropDefinitions | scripts/convert_ocpp_json_to_openapi.py:119-121 | exactly the entries other than `definitions` remain, in order; nothing changes when there is none |
| OcppToOpenApi.RefEntries | scripts/convert_ocpp_json_to_openapi.py:115-123 | each entry keeps its key. A draft reference is rewritten; any other value is converted |
| OcppToOpenApi.ConvertRefs | scripts/convert_ocpp_json_to_openapi.py:111-128 | scalars are unchanged, dictionaries stay dictionaries, and lists stay lists of the same length, converted item by item |
| OcppToOpenApi.RefEntryOrigin | scripts/convert_ocpp_json_to_openapi.py:113-124 | every entry of a converted dictionary comes from a non-`definitions` entry of the source, rewritten or converted |
| OcppToOpenApi.RefsDropDefinitions | scripts/convert_ocpp_json_to_openapi.py:119-121 | after conversion no dictionary at any depth has a `definitions` key |
| OcppToOpenApi.RefsRewritten | scripts/convert_ocpp_json_to_openapi.py:116-118 | after conversion no reference at any depth points into `#/definitions/` |
| OcppToOpenApi.RefsIdempotent | scripts/convert_ocpp_json_to_openapi.py:111-128 | converting references twice is converting once |
| OcppDefinitions.MergeOne | scripts/convert_ocpp_json_to_openapi.py:96-107 | a new name is appended. A known name keeps its place and is replaced only by a richer definition (`Richer`: more keys, or a description the existing one lacks). Other names are untouched, and distinct keys stay distinct |
| OcppDefinitions.MergedNames | scripts/convert_ocpp_json_to_openapi.py:92-109 | the merge (`Merged`, one `MergeOne` per definition) has distinct names, exactly the names of its input |
| OcppDefinitions.MergedOrder | scripts/convert_ocpp_json_to_openapi.py:94-107 | the merged names come in the order of their first occurrence |
| OcppDefinitions.MergedDistinct | scripts/convert_ocpp_json_to_openapi.py:96-107 | merging definitions that have no duplicates changes nothing |
| OcppDefinitions.MergeDefinitions | scripts/convert_ocpp_json_to_openapi.py:92-109 | the merge loop equals `Merged` |
| OcppDefinitions.ConvertedDefinitionsPrefix | scripts/convert_ocpp_json_to_openapi.py:246-253 | a file contributes its definitions converted, in order, up to the first one that raises. That one is the first failing definition |
| OcppDefinitions.FileDefinitions | scripts/convert_ocpp_json_to_openapi.py:246-250 | a non-dictionary file contributes nothing; a dictionary `definitions` contributes its converted prefix |
| OcppDefinitions.PerFile | scripts/convert_ocpp_json_to_openapi.py:236-250 | one definition list per file, in file order |
| OcppDefinitions.Stems | scripts/convert_ocpp_json_to_openapi.py:241-243 | the message types are the file stems, in file order |
| OcppDefinitions.PutAll | scripts/convert_ocpp_json_to_openapi.py:247-250 | assigning definitions into a dictionary keeps its names distinct |
| OcppDefinitions.CollectLastWins | scripts/convert_ocpp_json_to_openapi.py:233-250 | the script's collection holds each name once |
| OcppDefinitions.CollectAllContents | scripts/convert_ocpp_json_to_openapi.py:92-109 | the corrected collection (`CollectAll`) keeps every definition of every file, duplicates included, and nothing else |
| OcppDefinitions.LatestDefined | scripts/convert_ocpp_json_to_openapi.py:250 | a list gives a name a last definition (`Latest`) exactly when the name is among its keys |
| OcppDefinitions.PutAllGet | scripts/convert_ocpp_json_to_openapi.py:250 | assigning definitions in order leaves each name with the last definition the list gives it, and other names untouched |
| OcppDefinitions.LatestAppend | scripts/convert_ocpp_json_to_openapi.py:236-250 | across two lists in turn, the second list's last definition of a name wins |
| OcppDefinitions.CollectLastWinsGet | scripts/convert_ocpp_json_to_openapi.py:236-250 | as written, each name holds the last definition any file gives it, taking the files in order |
| OcppDefinitions.MergeIsIdentityAsWritten | scripts/convert_ocpp_json_to_openapi.py:250-256 | so `merge_definitions` returns its input unchanged: its duplicate rule never fires |
| OcppDefinitions.LastFileWinsAsWritten | scripts/convert_ocpp_json_to_openapi.py:250 | a definition in a later file replaces an earlier one whatever their contents |
| OcppDefinitions.CorrectedMergeKeepsRicher | scripts/convert_ocpp_json_to_openapi.py:96-105 | when every occurrence is handed to the merge, a later duplicate replaces the kept one exactly when it is richer |
| OcppDefinitions.DescribedLostAsWritten | scripts/convert_ocpp_json_to_openapi.py:250 | a described `A` followed by a bare `A` ends up bare |
| OcppDefinitions.DescribedKeptCorrected | scripts/convert_ocpp_json_to_openapi.py:96-105 | with every occurrence merged, the described `A` is kept |
| OcppDefinitions.FinalDefinitions | scripts/convert_ocpp_json_to_openapi.py:262-264 | the final definitions have the same names in the same order, each with its references converted |
| OcppDefinitions.FinalDefinitionsClean | scripts/convert_ocpp_json_to_openapi.py:261-264 | no final definition holds `definitions` or a draft reference at any depth |
| OcppDefinitions.ProcessJsonSchemas | scripts/convert_ocpp_json_to_openapi.py:231-266 | the message types are the file stems. The definitions are the as-written collection (last file wins, which `Merged` leaves as it is), enhanced from the CSV files, with references rewritten. No definition holds `definitions` or a draft reference |
| OcppDefinitions.FinalDefinitionsGet | scripts/convert_ocpp_json_to_openapi.py:260-264 | a name's final definition is its definition with references rewritten, and absent names stay absent |
| OcppDefinitions.ProcessedDefinition | scripts/convert_ocpp_json_to_openapi.py:231-266 | without appendices, the output defines exactly the names some file defines, each as the last file defining it gives it, references rewritten |
| OcppDefinitions.Cell | scripts/convert_ocpp_json_to_openapi.py:169 | a row contributes its cell exactly when the column is present and non-empty |
| OcppDefinitions.ColumnValues | scripts/convert_ocpp_json_to_openapi.py:169 | at most one value per row, none of them empty |
| OcppDefinitions.ColumnValuesFromColumn | scripts/convert_ocpp_json_to_openapi.py:169 | every value is the cell of some row in that column |
| OcppDefinitions.ColumnValuesAppend | scripts/convert_ocpp_json_to_openapi.py:169 | values of concatenated rows are the concatenated values |
| OcppDefinitions.ChooseColumn | scripts/convert_ocpp_json_to_openapi.py:157-180 | a chosen column exists in the table it is read from. A given column present in the semicolon table is used; otherwise `Value`, or the first column of that table. The comma table is used only for a given column missing from the semicolon table. No column exactly in the two empty-header cases |
| OcppDefinitions.CsvValues | scripts/convert_ocpp_json_to_openapi.py:150-180 | no column gives no values; otherwise the non-empty cells of the chosen column of the chosen table |
| OcppDefinitions.Stem | scripts/convert_ocpp_json_to_openapi.py:144 | the stem is a prefix of the name, and the whole name when it has no dot |
| OcppDefinitions.EnumTypeName | scripts/convert_ocpp_json_to_openapi.py:141-148 | an override is used as given. Otherwise the title-cased stem, which gets the `EnumType` suffix exactly when it lacks it |
| Text.TitleWords | scripts/convert_ocpp_json_to_openapi.py:146 | a name without `_` is a single word and is just capitalised |
| OcppDefinitions.SingleWordEnumTypeName | scripts/convert_ocpp_json_to_openapi.py:144-148 | such a stem yields `Capitalize(stem) + "EnumType"` |
| OcppDefinitions.ConnectorStemName | scripts/convert_ocpp_json_to_openapi.py:144-148 | the stem `connectorenumtype` does not become `ConnectorEnumType`, contrary to the comment at line 145 |
| OcppDefinitions.LoadEnumFromCsv | scripts/convert_ocpp_json_to_openapi.py:130-184 | an override names the enumeration, and the values are those of the chosen column |
| OcppDefinitions.WithCsvEnum | scripts/convert_ocpp_json_to_openapi.py:213-227 | no values changes nothing. Otherwise a new name is appended with a string enumeration described by its file. A known definition gets only its `enum` replaced. No other name changes |
| OcppDefinitions.EnumDefinition | scripts/convert_ocpp_json_to_openapi.py:220-225 | a new enumeration is a string type without additional properties whose `enum` is the CSV values and whose description names the file, in that key order |
| OcppDefinitions.EnhanceOne | scripts/convert_ocpp_json_to_openapi.py:207-227 | an unmapped file, compared case-insensitively, changes nothing; a mapped one applies its type name and value column |
| OcppDefinitions.EnhanceAll | scripts/convert_ocpp_json_to_openapi.py:186-190 | without an appendix folder the definitions are returned as they are |
| OcppDefinitions.EnhanceKeepsNames | scripts/convert_ocpp_json_to_openapi.py:207-227 | enhancement file by file (`EnhanceFiles`) keeps every existing name in place and only appends |
| OcppDefinitions.DefinitionTable.ApplyCsvEnum | scripts/convert_ocpp_json_to_openapi.py:213-227 | updating the table in place yields `WithCsvEnum` of the old table |
| OcppDefinitions.DefinitionTable.ApplyCsvFile | scripts/convert_ocpp_json_to_openapi.py:207-227 | one CSV file updates the table to `EnhanceOne` of the old table |
| OcppDefinitions.DefinitionTable.EnhanceFromCsv | scripts/convert_ocpp_json_to_openapi.py:207-228 | the file loop updates the table to `EnhanceFiles` of the old table |
| OcppDefinitions.DefinitionTable.EnhanceDefinitionsFromCsv | scripts/convert_ocpp_json_to_openapi.py:186-229 | the whole enhancement updates the table to `EnhanceAll` of the old table |
| OcppDefinitions.TagFor | scripts/convert_ocpp_json_to_openapi.py:274-279 | the tag name is the message type lower-cased. The display name is its `_`-separated words, each capitalised, joined. The description is a `SchemaDefinition` reference to `#/components/schemas/<message type>` |
| OcppDefinitions.CreateOpenApiSpec | scripts/convert_ocpp_json_to_openapi.py:268-295 | an OpenAPI 3.1.0 document titled "OCPP JSON Schemas" with the given version and the definitions as schemas, and one tag per message type in sorted order |
| Vocab.OcppVersionOf | scripts/generate_vocab.py:50-54 | a version folder names a non-empty version: without its `v` for `v…`, as it is for `2.`/`1.` |
| Vocab.OcppVersion | scripts/generate_vocab.py:49-54 | a non-empty version; none iff no folder is version-like; a version-like last folder gives its own version |
| Vocab.OcppVersionAt | scripts/generate_vocab.py:49-54 | the last version-like folder wins: its version is the result |
| Vocab.OcppRoot | scripts/generate_vocab.py:55-57 | the OCPP root carries the version found, or is the 2.0.1 root; it ends in `/` |
| Vocab.ProtocolRoot | scripts/generate_vocab.py:44-57 | the OCPI root or the OCPP root; none iff no folder starts `ocpi` or `ocpp` |
| Vocab.ProtocolRootAt | scripts/generate_vocab.py:44-57 | the first folder starting `ocpi` or `ocpp` decides: the OCPI root for `ocpi`, `OcppRoot` for `ocpp` |
| Vocab.BaseIri | scripts/generate_vocab.py:32-70 | an absolute base IRI wins, with a slash. Otherwise the rule is protocol root, then family base, then `https://schemas.<folder>/`. It always ends in `/` |
| Vocab.BaseIriIsAbsolute | scripts/generate_vocab.py:32-70 | the base is absolute whenever a given base IRI is |
| Vocab.RootsAreAbsolute | scripts/generate_vocab.py:46-57 | the fixed OCPI, OCPP and beckn roots are absolute |
| Vocab.ScanOcppVersion | scripts/generate_vocab.py:49-54 | the inner version loop finds `OcppVersion`, keeping the earlier version when there is none |
| Vocab.LastVersionIsOcppVersion | scripts/generate_vocab.py:49-61 | a version folder seen by the family scan is also seen by the OCPP scan |
| Vocab.VersionSeenIsOcppVersion | scripts/generate_vocab.py:49-61 | the same holds for a version seen before the `ocpp` folder |
| Vocab.OcppFolderBase | scripts/generate_vocab.py:47-57 | on an `ocpp` folder the function returns `OcppRoot` |
| Vocab.GetBaseIri | scripts/generate_vocab.py:32-70 | the procedure with its early returns equals `BaseIri` |
| Vocab.Prefix | scripts/generate_vocab.py:81-91 | the prefix is one of `ocpi`, `ocpp`, `beckn` and `vocab`. It is `vocab` iff no folder is protocol or family |
| Vocab.PrefixAt | scripts/generate_vocab.py:81-91 | the first folder that names a prefix (`FolderPrefix`: `ocpi`, `ocpp`, or `beckn` for a family) decides it |
| Vocab.GetPrefix | scripts/generate_vocab.py:81-91 | the procedure equals `Prefix` |
| Vocab.PrefixAndBaseDisagree | scripts/generate_vocab.py:81-91 | a family folder above an `ocpp` folder makes the prefix `beckn` but the base the OCPP root |
| Vocab.SchemaId | scripts/generate_vocab.py:97-99 | a schema id is `<prefix>:<name>` |
| Vocab.EnumValueId | scripts/generate_vocab.py:93-95 | an enumeration value's id ignores the enumeration and is the schema id of the value |
| Vocab.SchemaIdSplits | scripts/generate_vocab.py:93-99 | for a colon-free prefix the id splits back into prefix and name |
| Vocab.SanitizeEnumValue | scripts/generate_vocab.py:72-79 | same length. `.`, `-`, `/` and space become `_`, and no such character remains |
| Vocab.SanitizeIdempotent | scripts/generate_vocab.py:72-79 | sanitising twice is sanitising once |
| Vocab.SanitizeCollides | scripts/generate_vocab.py:72-79 | distinct values can sanitise to the same identifier |
| Vocab.Comment | scripts/generate_vocab.py:178-179 | a comment is emitted exactly for a truthy description (`Json.Truthy`, Python truthiness), and is that description |
| Vocab.InlineEnumName | scripts/generate_vocab.py:146 | an inline enumeration is named by the title-cased property name followed by `EnumType` |
| Vocab.TopLevelEnumsContent | scripts/generate_vocab.py:130-137 | the first pass (`TopLevelEnums`) records exactly the string schemas with an `enum`, with their values and description (default empty) |
| Vocab.AddInlineEnum | scripts/generate_vocab.py:144-157 | recorded names are never overwritten. Only the property's enumeration name may be added. It is present after a string enum property; a new entry holds its values and its description, by default "Enumeration for <prop>" |
| Vocab.AddInlineEnums | scripts/generate_vocab.py:143-157 | scanning properties never changes a recorded enumeration |
| Vocab.InlineEnums | scripts/generate_vocab.py:141-157 | scanning schemas never changes a recorded enumeration |
| Vocab.ScannedProperties | scripts/generate_vocab.py:141-143 | the properties the inline scan visits are all dictionaries |
| Vocab.ScannedPropertiesContains | scripts/generate_vocab.py:141-143 | every property of a scanned object schema is visited |
| Vocab.InlineEnumsFlat | scripts/generate_vocab.py:141-157 | the nested scan equals the scan of the visited properties as one run |
| Vocab.AddInlineEnumsRecords | scripts/generate_vocab.py:143-157 | every string-enumeration property has its derived name recorded; the first property deriving a name the table lacks gives the entry its values and description |
| Vocab.AddInlineEnumsUntouched | scripts/generate_vocab.py:143-157 | a name no property derives and the table lacks stays absent |
| Vocab.InlineEnumRecorded | scripts/generate_vocab.py:141-157 | in `CollectEnums`, every visited string-enumeration property has its derived name recorded; unless a top-level enumeration owns the name or an earlier property derives it, the entry holds this property's values and description (`Enumeration for <name>` by default) |
| Vocab.CollectEnumsNothingElse | scripts/generate_vocab.py:129-157 | a name that is neither a top-level enumeration nor derived by a visited property is not recorded |
| Vocab.TopLevelEnumsWin | scripts/generate_vocab.py:149-157 | a top-level enumeration keeps its own values and description in the recorded table (`CollectEnums`) after the inline scan |
| Vocab.MemberIds | scripts/generate_vocab.py:182-185 | one member id per value, in order |
| Vocab.EnumNodes | scripts/generate_vocab.py:171-206 | an enumeration yields its class node followed by one member node per value. The class has its id, name, comment and member list; each member refers back to the class |
| Vocab.SchemaNodes | scripts/generate_vocab.py:160-221 | a string schema with an `enum` yields its enumeration nodes. Any other schema whose type is absent or `object` yields exactly one class node with its id, name and comment. Every other schema yields nothing |
| Vocab.SecondPassPrefix | scripts/generate_vocab.py:160-221 | the second pass over a prefix of the schemas is a prefix of the whole pass |
| Vocab.SecondPassEmits | scripts/generate_vocab.py:160-221 | every node a schema yields appears in the second pass (`SecondPass`) |
| Vocab.MemberIdsIgnoreEnumeration | scripts/generate_vocab.py:93-95 | member ids do not depend on the enumeration's name, so equal values in two enumerations share ids |
| Vocab.ThirdPassSkipsSchemas | scripts/generate_vocab.py:224-227 | the third pass emits no enumeration that is also a schema |
| Vocab.ThirdPassPrefix | scripts/generate_vocab.py:224-268 | the third pass over a prefix of the table is a prefix of the whole pass |
| Vocab.ThirdPassEmits | scripts/generate_vocab.py:224-268 | every node of a recorded non-schema enumeration appears in the third pass (`ThirdPass`) |
| Vocab.EnumNodesPrefixed | scripts/generate_vocab.py:171-206 | every node of an enumeration has an id under the prefix |
| Vocab.SecondPassPrefixed | scripts/generate_vocab.py:159-221 | every second-pass node has an id under the prefix |
| Vocab.ThirdPassPrefixed | scripts/generate_vocab.py:223-268 | every third-pass node has an id under the prefix |
| Vocab.VocabGraph | scripts/generate_vocab.py:129-268 | a graph exists exactly when the schemas do not make the script raise (`InputOk`: every schema a dictionary, every enumeration iterable) |
| Vocab.CollectMemberIds | scripts/generate_vocab.py:182-185 | the member loop equals `MemberIds` |
| Vocab.AppendEnumeration | scripts/generate_vocab.py:171-206 | appending an enumeration adds exactly `EnumNodes` to the graph |
| Vocab.ScanProperties | scripts/generate_vocab.py:143-157 | the property loop equals `AddInlineEnums` |
| Vocab.CollectEnumTypes | scripts/generate_vocab.py:129-157 | both collection loops together equal `CollectEnums` |
| Vocab.EmitSchemas | scripts/generate_vocab.py:159-221 | the second-pass loop equals `SecondPass` |
| Vocab.EmitRecordedEnums | scripts/generate_vocab.py:223-268 | the third-pass loop appends exactly `ThirdPass` |
| Vocab.EmitRecordedEnum | scripts/generate_vocab.py:226-268 | one recorded enumeration extends the third pass by its entries unless a schema has its name |
| Vocab.GenerateVocab | scripts/generate_vocab.py:101-268 | the generator's graph equals `VocabGraph` |
| Vocab.GraphPrefixed | scripts/generate_vocab.py:159-268 | every node of the graph has an id under the prefix |
| Vocab.BuildVocabulary | scripts/generate_vocab.py:119-281 | a document exists iff the input does not make the script raise. Its prefix and base follow the path rules, and its graph is `VocabGraph`, every id under the prefix |
| ContextGen.ContextBase | scripts/generate_context.py:27-36 | a given base is used as it is. Otherwise an `ocpi`/`ocpp` folder picks its root, and any other folder `https://schemas.<folder>/` |
| ContextGen.InferredBaseIsAbsolute | scripts/generate_context.py:27-36 | an inferred base is absolute and ends in `/` |
| ContextGen.BaseAgreesWithVocabulary | scripts/generate_context.py:29-36 | for a lone non-family folder the context and vocabulary generators choose the same base |
| ContextGen.Header | scripts/generate_context.py:38-44 | the context starts with `@version` and `@vocab`, the latter bound to the base |
| ContextGen.PutIdsGet | scripts/generate_context.py:46-48 | after the loop (`PutIds`) a schema name maps to `"@id"`; every other key keeps its entry |
| ContextGen.NamesMapToId | scripts/generate_context.py:46-48 | every schema name maps to `"@id"` |
| ContextGen.VocabIsBase | scripts/generate_context.py:39-48 | `@vocab` is the base unless a schema is named `@vocab` |
| ContextGen.PutIdsKeys | scripts/generate_context.py:46-48 | the loop (`PutIds`) appends distinct new names in order |
| ContextGen.ContextKeys | scripts/generate_context.py:38-48 | for distinct names other than the header keys, the keys of the context (`ContextOf`) are the header followed by the names |
| ContextGen.ContextTerms | scripts/generate_context.py:46-48 | for distinct schema names other than the header keys, the terms of the context (`Context`) follow the header, one per schema, in sorted order |
| ContextGen.GenerateContext | scripts/generate_context.py:8-48 | the procedure's context equals `Context` over `ContextBase` |
| Iri.WithSlash | scripts/generate_shacl.py:298-299 | the result ends in `/`, extends its input, and is the input when it already ends in `/` |
| Iri.ExpandBinding | scripts/generate_shacl.py:80-81 | a binding is stripped of trailing `#`/`/`, then `/` and the local part are added |
| Iri.XsdLocalName | scripts/generate_shacl.py:30-41 | exactly the nine JSON Schema types and formats of the type map have an `xsd` name |
| Iri.Describe | scripts/generate_shacl.py:100-105 | a string context entry is a term, a dictionary a node whose id is its `@id` |
| Iri.Lookup | scripts/generate_shacl.py:100-101 | a term is described iff the context has it |
| Iri.StringBinding | scripts/generate_shacl.py:72-74 | a prefix has a binding iff the context maps it to a string, and the binding is that string |
| Iri.FolderName | scripts/generate_shacl.py:360 | the last path part, empty for an empty path |
| Iri.LastFamily | scripts/generate_shacl.py:349-350 | a family folder of the path; none iff there is no family folder |
| Iri.LastFamilyAt | scripts/generate_shacl.py:349-350 | the last family folder is the result |
| Iri.LastVersion | scripts/generate_shacl.py:351-352 | a version folder of the path; none iff there is none |
| Iri.LastVersionAt | scripts/generate_shacl.py:351-352 | the last version folder is the result |
| Iri.FirstFamily | scripts/generate_shacl_for_schemas.py:286-290 | a family folder of the path; none iff there is none |
| Iri.FirstFamilyAt | scripts/generate_shacl_for_schemas.py:286-290 | the first family folder is the result |
| Iri.FamilyBase | scripts/generate_shacl.py:354-357 | a family base lies under `https://schemas.beckn.org/` and ends in `/` |
| Iri.FamilyIsNotVersion | scripts/generate_shacl.py:349-352 | no folder is both a family and a version, so the order of the two tests does not matter |
| Json.Contains | scripts/generate_shacl.py:179 | `name in x` answers for lists, dictionaries and strings, and raises otherwise. Lists test membership of the string; dictionaries test keys |
| Json.Iterate | scripts/generate_vocab.py:183 | lists, strings and dictionaries can be iterated, and a list yields its items |
| Json.Field | scripts/generate_shacl.py:183 | `.get` returns the value when present and the default otherwise |
| Json.PutIf | scripts/convert_ocpp_json_to_openapi.py:32-33 | a conditional assignment sets only its key |
| Json.CopyField | scripts/convert_ocpp_json_to_openapi.py:32-33 | a present source key is copied; nothing else changes |
| Json.Strings | scripts/convert_ocpp_json_to_openapi.py:224 | CSV values become JSON strings, one per value, in order |
| OrderedDict.Keys | scripts/generate_context.py:47 | the keys of a dictionary, in insertion order |
| OrderedDict.GetKeys | scripts/generate_context.py:47 | a lookup succeeds iff the key is among the keys |
| OrderedDict.Put | scripts/generate_context.py:48 | after an assignment the key holds the new value, and every other key is unchanged |
| OrderedDict.PutKeys | scripts/generate_context.py:48 | assigning an existing key keeps the key order; a new key is appended; keys stay distinct |
| Text.SplitOnce | scripts/generate_shacl.py:70 | `split(':', 1)` gives a colon-free head and the rest, which rejoin to the input |
| Text.LastSegment | scripts/convert_ocpp_json_to_openapi.py:75 | `split('/')[-1]` is a separator-free suffix that follows the last separator |
| Text.RStrip | scripts/generate_shacl.py:80 | `rstrip('#/')` removes exactly the trailing run of separators |
| Text.Lower | scripts/convert_ocpp_json_to_openapi.py:208 | lower-casing works character by character and keeps the length |
| Text.Split | scripts/convert_ocpp_json_to_openapi.py:146 | `split('_')` gives at least one part, none containing `_` |
| Text.JoinSplit | scripts/convert_ocpp_json_to_openapi.py:146 | joining the parts with `_` gives back the input |
| Text.CapitalizeAll | scripts/convert_ocpp_json_to_openapi.py:146 | every part is capitalised, in order |
| Text.Capitalize | scripts/generate_vocab.py:146 | same length; the first character upper-cased and every other one lower-cased |
| Text.Replace | scripts/generate_vocab.py:75-78 | one character replaced by another everywhere, nothing else changed |
| Text.Sort | scripts/generate_context.py:47 | `sorted` gives an ordered permutation of its input |

## Left out

- Reading and writing files is left out, and so are file existence checks,
  globbing, YAML and JSON parsing, command-line handling, the dry-run,
  pretty and output-path options, and every `print` diagnostic.
- The model receives parsed documents instead:
  - the `components.schemas` object;
  - the `@context` object, or `None` when there is none;
  - the folder names of the path;
  - the OCPP schema files in sorted order.
- A context document whose `@context` is not a dictionary is not part of this
  model. The context is given as its `@context` entries.
- OCPP schema files that fail to parse are not part of this model. Their stems
  would be missing from the message types, and they contribute no definitions.
- CSV parsing: appendix files arrive as pre-parsed semicolon and comma tables
  (header plus rows). An I/O error while reading, which the script catches,
  is not modelled.
- `Text.Lower` and `Text.Capitalize` map ASCII letters only. Python's full
  Unicode case mapping is not modelled.
- Numbers are kept as the text Python prints for them. `@version` is the float
  `1.1`, carried as that text, and `Json.Truthy` treats `0`, `0.0` and `-0.0`
  as false.
- `Str` (an f-string on an enumeration value) renders strings, `None`,
  booleans and numbers as Python does. Lists and dictionaries render as the
  empty string, so ids built from them are not exact.
- The fixed namespace entries of the output `@context` are not modelled:
  - `sh`, `rdf`, `rdfs` and `xsd`;
  - the vocabulary's `schema` binding.

  Neither are the fixed JSON-LD keys of vocabulary entries (`@type` values,
  `schema:identifier`). Vocabulary entries are modelled as `Node` records:
  - an enumeration holds its id, name, comment and member ids;
  - a member holds its id, its enumeration's id and its value;
  - a class holds its id, name and comment.
- `Vocab.GenerateVocab` decides up front whether the input makes the script
  raise, and then returns `None`. The script raises part-way, but writes
  nothing in that case, so the observable outcome is the same.
- `Vocab.SanitizeEnumValue` models `sanitize_enum_value`, which the script
  defines but never calls. Ids are built from the raw values.
- `ContextGen.ContextTerms` assumes distinct schema names that differ from
  `@version` and `@vocab`. YAML mappings have distinct keys. A schema named
  `@vocab` overwrites the root, which `ContextGen.VocabIsBase` states.
- `Shacl.VocabBaseIsAbsolute` is weaker than the docstring's "always returns an
  absolute IRI". It needs the context's `beckn` binding to keep its scheme once
  stripped, because a binding of exactly `https://` yields `https:/`
  (`Shacl.SchemeOnlyBecknBinding`).
- `Shacl.NodeShapes` and `ShaclForSchemas.NodeShapes` state only when a result
  exists and a length bound. Their content is given by
  `Shacl.OneShapePerObjectSchema` and the `NodeShapesSnoc` lemmas.
- `Shacl.PropertyShapes` and `ShaclForSchemas.PropertyShapes` state only a
  length bound. Their content is given by the `PropertyShapesInOrder` lemmas
  and `Shapes.ConvertedSnoc`.
- `Shapes.Converted` and `Shapes.ObjectSchemaNames` state only length bounds;
  `Shapes.ConvertedSnoc` and `Shapes.ConvertedAll` give the content.
- `OcppDefinitions.ConvertedDefinitions` states only a length bound here;
  `OcppDefinitions.ConvertedDefinitionsPrefix` gives its content.
- `OcppDefinitions.EnhanceAll` states only the no-appendix case itself. The
  rest is given by `EnhanceOne`, `WithCsvEnum` and `EnhanceKeepsNames`.
- `ShaclForSchemas.EmptyVocabHidesBeckn` is a concrete instance that Dafny
  proves without help. The general rule is stated by
  `ShaclForSchemas.VocabBase`.
- The key vocabulary of SHACL output (`sh:path`, `sh:class`, …) is passed as a
  `Shapes.Vocabulary` record with pairwise distinct keys rather than as
  literals. Compact and full-IRI output differ only in that record.

## Findings

| source | as written | input that shows it | evidently intended | confidence | as-written member | corrected member |
|---|---|---|---|---|---|---|
| scripts/convert_ocpp_json_to_openapi.py:250 | `all_definitions[def_name] = openapi_def` collapses duplicate definitions across files as they are read, last file wins. `merge_definitions` then never sees a duplicate, and its "prefer the more complete definition" rule is dead code | two files both defining `A`, the first as `{"description": "a"}`, the second as `{}` (`OcppDefinitions.DescribedA`): the bare second one is kept | every occurrence reaches `merge_definitions`, which keeps the richer definition (more keys, or a description the other lacks) | not executed; follows from the code path | OcppDefinitions.CollectLastWins, OcppDefinitions.LastFileWinsAsWritten, OcppDefinitions.DescribedLostAsWritten | OcppDefinitions.CollectAll, OcppDefinitions.CorrectedMergeKeepsRicher, OcppDefinitions.DescribedKeptCorrected |

`OcppDefinitions.ProcessJsonSchemas` models the script as written, over
`CollectLastWins`; `OcppDefinitions.ProcessedDefinition` states which
definition each name ends with. The corrected collection, `CollectAll`, is
what `CorrectedMergeKeepsRicher` and `DescribedKeptCorrected` are about.
