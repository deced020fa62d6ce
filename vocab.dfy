/**
 * The vocabulary generator (scripts/generate_vocab.py): the base IRI and the
 * prefix it infers from the folders of the specification, the identifiers of
 * schemas and enumeration values, and the three passes that turn the component
 * schemas into the vocabulary graph.
 */
module Vocab {
  import opened OrderedDict
  import opened Text
  import opened Json
  import opened Iri
  import Shapes

  /*
   * The base IRI (`get_base_iri`).
   */

  /** A folder naming an OCPP version: `v<...>` with a dot, or one starting `2.` or `1.`. */
  predicate IsOcppVersion(part: string) {
    IsVersion(part) || StartsWith(part, "2.") || StartsWith(part, "1.")
  }

  /** Lines 50-54: the version such a folder names, a leading `v` stripped. */
  function OcppVersionOf(part: string): (r: string)
    requires IsOcppVersion(part)
    ensures r != []
    ensures IsVersion(part) ==> part == "v" + r
    ensures !IsVersion(part) ==> r == part
  {
    if IsVersion(part) then
      assert part == [part[0]] + part[1..];
      part[1..]
    else part
  }

  /** Lines 49-54: the version named by the last version folder. */
  function OcppVersion(parts: seq<string>): (r: Option<string>)
    ensures r.None? <==> forall i :: 0 <= i < |parts| ==> !IsOcppVersion(parts[i])
    ensures r.Some? ==> r.value != []
    ensures parts != [] && IsOcppVersion(parts[|parts| - 1]) ==> r == Some(OcppVersionOf(parts[|parts| - 1]))
    decreases |parts|
  {
    if parts == [] then None
    else if IsOcppVersion(parts[|parts| - 1]) then Some(OcppVersionOf(parts[|parts| - 1]))
    else OcppVersion(parts[..|parts| - 1])
  }

  /** When `parts[i]` is the last version folder, the version it names is the one `OcppVersion` returns. */
  lemma {:induction false} OcppVersionAt(parts: seq<string>, i: nat)
    requires i < |parts| && IsOcppVersion(parts[i])
    requires forall j :: i < j < |parts| ==> !IsOcppVersion(parts[j])
    ensures OcppVersion(parts) == Some(OcppVersionOf(parts[i]))
    decreases |parts|
  {
    if i < |parts| - 1 {
      var init := parts[..|parts| - 1];
      assert init[i] == parts[i];
      OcppVersionAt(init, i);
    }
  }

  const OcppSchemas := "https://schemas.ocpp.org/"

  /** Lines 55-57: the OCPP root, versioned when a folder names the version. */
  function OcppRoot(parts: seq<string>): (r: string)
    ensures StartsWith(r, OcppSchemas) && EndsWith(r, "/")
    ensures OcppVersion(parts).None? ==> r == OcppBase
    ensures OcppVersion(parts).Some? ==> r == OcppSchemas + OcppVersion(parts).value + "/"
  {
    match OcppVersion(parts)
    case None =>
      assert OcppBase == OcppSchemas + "2.0.1/";
      OcppBase
    case Some(v) =>
      assert (OcppSchemas + v + "/")[..|OcppSchemas|] == OcppSchemas;
      OcppSchemas + v + "/"
  }

  /** Lines 44-57: the first `ocpi*` or `ocpp*` folder among `parts` decides the protocol's root. */
  function ProtocolRoot(parts: seq<string>, all: seq<string>): (r: Option<string>)
    ensures r.None? <==> forall i :: 0 <= i < |parts| ==> !StartsWith(parts[i], "ocpi") && !StartsWith(parts[i], "ocpp")
    ensures r.Some? ==> r.value == OcpiBase || r.value == OcppRoot(all)
  {
    if parts == [] then None
    else if StartsWith(parts[0], "ocpi") then Some(OcpiBase)
    else if StartsWith(parts[0], "ocpp") then Some(OcppRoot(all))
    else
      var r := ProtocolRoot(parts[1..], all);
      assert forall i :: 0 < i < |parts| ==> parts[i] == parts[1..][i - 1];
      r
  }

  /** When `parts[i]` is the first `ocpi*` or `ocpp*` folder, it decides the root. */
  lemma {:induction false} ProtocolRootAt(parts: seq<string>, all: seq<string>, i: nat)
    requires i < |parts| && (StartsWith(parts[i], "ocpi") || StartsWith(parts[i], "ocpp"))
    requires forall j :: 0 <= j < i ==> !StartsWith(parts[j], "ocpi") && !StartsWith(parts[j], "ocpp")
    ensures ProtocolRoot(parts, all) == Some(if StartsWith(parts[i], "ocpi") then OcpiBase else OcppRoot(all))
    decreases |parts|
  {
    if i > 0 {
      assert parts[1..][i - 1] == parts[i];
      ProtocolRootAt(parts[1..], all, i - 1);
    }
  }

  /** `f"https://schemas.{folder}/"`: the fallback root. */
  function FolderRoot(folder: string): string {
    "https://schemas." + folder + "/"
  }

  /**
   * `get_base_iri`: an explicit absolute base with a `/` ensured; else the
   * protocol root; else the beckn root of the last family folder, versioned by
   * the last version folder; else the fallback named after the folder.
   */
  function BaseIri(baseIri: Option<string>, parts: seq<string>): (r: string)
    ensures baseIri.Some? && IsAbsolute(baseIri.value) ==> r == WithSlash(baseIri.value)
    ensures !(baseIri.Some? && IsAbsolute(baseIri.value)) ==>
      r == if ProtocolRoot(parts, parts).Some? then ProtocolRoot(parts, parts).value
           else if LastFamily(parts).Some? then FamilyBase(LastFamily(parts).value, LastVersion(parts))
           else FolderRoot(FolderName(parts))
    ensures EndsWith(r, "/")
  {
    if baseIri.Some? && IsAbsolute(baseIri.value) then WithSlash(baseIri.value)
    else match ProtocolRoot(parts, parts)
      case Some(b) =>
        assert EndsWith(OcpiBase, "/");
        b
      case None =>
        match LastFamily(parts)
        case Some(name) => FamilyBase(name, LastVersion(parts))
        case None =>
          assert EndsWith(FolderRoot(FolderName(parts)), "/");
          FolderRoot(FolderName(parts))
  }

  /** A string that extends an absolute IRI is absolute. */
  lemma ExtendsAbsolute(s: string, root: string)
    requires StartsWith(s, root) && IsAbsolute(root)
    ensures IsAbsolute(s)
  {
    if StartsWith(root, "http://") {
      StartsWithTransitive(s, root, "http://");
    } else {
      StartsWithTransitive(s, root, "https://");
    }
  }

  /** The fixed roots, the OCPP one included, are absolute. */
  lemma RootsAreAbsolute()
    ensures IsAbsolute(OcpiBase) && IsAbsolute(OcppSchemas) && IsAbsolute(BecknSchemas)
  {
    ConstantBasesAbsolute();
    assert OcppSchemas[..8] == "https://";
  }

  /** The inferred base is absolute whenever the given one is absent or absolute. */
  lemma BaseIriIsAbsolute(baseIri: Option<string>, parts: seq<string>)
    requires baseIri.Some? ==> IsAbsolute(baseIri.value)
    ensures IsAbsolute(BaseIri(baseIri, parts))
  {
    if baseIri.Some? {
      WithSlashAbsolute(baseIri.value);
    } else {
      RootsAreAbsolute();
      var r := BaseIri(baseIri, parts);
      if ProtocolRoot(parts, parts).Some? {
        ExtendsAbsolute(OcppRoot(parts), OcppSchemas);
      } else if LastFamily(parts).Some? {
        ExtendsAbsolute(r, BecknSchemas);
      } else {
        assert r[..8] == "https://";
      }
    }
  }

  /**
   * Lines 49-54: the version scan of an `ocpp*` path, on the `version` variable
   * the outer scan may already have set.
   */
  method ScanOcppVersion(parts: seq<string>, version0: Option<string>) returns (version: Option<string>)
    ensures version == if OcppVersion(parts).Some? then OcppVersion(parts) else version0
  {
    version := version0;
    var i := 0;
    while i < |parts|
      invariant 0 <= i <= |parts|
      invariant version == if OcppVersion(parts[..i]).Some? then OcppVersion(parts[..i]) else version0
    {
      var p := parts[i];
      assert parts[..i + 1][..i] == parts[..i];
      if StartsWith(p, "v") && '.' in p {
        version := Some(if StartsWith(p, "v") then p[1..] else p);
      } else if StartsWith(p, "2.") || StartsWith(p, "1.") {
        version := Some(p);
      }
      i := i + 1;
    }
    assert parts[..i] == parts;
  }

  /** A version folder is also an OCPP version folder, so the inner scan always finds one when the outer did. */
  lemma LastVersionIsOcppVersion(parts: seq<string>)
    requires LastVersion(parts).Some?
    ensures OcppVersion(parts).Some?
  {
    var v := LastVersion(parts).value;
    var i :| 0 <= i < |parts| && parts[i] == v;
    assert IsOcppVersion(parts[i]);
  }

  /** A version folder among the first `i` folders is a version folder of the whole path. */
  lemma VersionSeenIsOcppVersion(parts: seq<string>, i: nat)
    requires i <= |parts| && LastVersion(parts[..i]).Some?
    ensures OcppVersion(parts).Some?
  {
    LastVersionIsOcppVersion(parts[..i]);
    var k :| 0 <= k < i && IsOcppVersion(parts[..i][k]);
    assert parts[k] == parts[..i][k];
  }

  /** Lines 47-57: the `ocpp*` branch, on the version the outer scan has found so far. */
  method OcppFolderBase(parts: seq<string>, version0: Option<string>) returns (base: string)
    requires version0.Some? ==> OcppVersion(parts).Some?
    ensures base == OcppRoot(parts)
  {
    var version := ScanOcppVersion(parts, version0);
    if version.Some? && version.value != [] {
      return OcppSchemas + version.value + "/";
    }
    return OcppBase;
  }

  /** `get_base_iri`: the early-return scan of the folders. */
  method GetBaseIri(baseIri: Option<string>, parts: seq<string>) returns (base: string)
    ensures base == BaseIri(baseIri, parts)
  {
    if baseIri.Some? && baseIri.value != [] {
      if IsAbsolute(baseIri.value) {
        return if EndsWith(baseIri.value, "/") then baseIri.value else baseIri.value + "/";
      }
    }
    var schemaName: Option<string> := None;
    var version: Option<string> := None;
    var i := 0;
    while i < |parts|
      invariant 0 <= i <= |parts|
      invariant ProtocolRoot(parts, parts) == ProtocolRoot(parts[i..], parts)
      invariant schemaName == LastFamily(parts[..i]) && version == LastVersion(parts[..i])
    {
      var part := parts[i];
      assert parts[i..] == [part] + parts[i + 1..];
      FamilyVersionStep(parts, i);
      if StartsWith(part, "ocpi") {
        return OcpiBase;
      } else if StartsWith(part, "ocpp") {
        if version.Some? {
          VersionSeenIsOcppVersion(parts, i);
        }
        base := OcppFolderBase(parts, version);
        return;
      } else if IsFamily(part) {
        assert !IsVersion(part) by { FamilyIsNotVersion(part); }
        schemaName := Some(part);
      } else if IsVersion(part) {
        version := Some(part);
      }
      i := i + 1;
    }
    assert parts[..i] == parts;
    if schemaName.Some? {
      return FamilyBase(schemaName.value, version);
    }
    return FolderRoot(FolderName(parts));
  }

  /*
   * The prefix and the identifiers (`get_prefix`, `get_schema_id`, `get_enum_value_id`).
   */

  /** Lines 81-91: the first `ocpi*`, `ocpp*` or family folder decides the prefix; `vocab` otherwise. */
  function Prefix(parts: seq<string>): (r: string)
    ensures r == "ocpi" || r == "ocpp" || r == "beckn" || r == "vocab"
    ensures r == "vocab" <==> forall i :: 0 <= i < |parts| ==>
      !StartsWith(parts[i], "ocpi") && !StartsWith(parts[i], "ocpp") && !IsFamily(parts[i])
    ensures parts != [] && StartsWith(parts[0], "ocpi") ==> r == "ocpi"
    ensures parts != [] && StartsWith(parts[0], "ocpp") ==> r == "ocpp"
  {
    if parts == [] then "vocab"
    else if StartsWith(parts[0], "ocpi") then "ocpi"
    else if StartsWith(parts[0], "ocpp") then "ocpp"
    else if IsFamily(parts[0]) then "beckn"
    else
      var r := Prefix(parts[1..]);
      assert forall i :: 0 < i < |parts| ==> parts[i] == parts[1..][i - 1];
      r
  }

  /** The prefix a folder names, if any: `ocpi`, `ocpp`, `beckn` for a family folder, else `vocab`. */
  function FolderPrefix(part: string): string {
    if StartsWith(part, "ocpi") then "ocpi"
    else if StartsWith(part, "ocpp") then "ocpp"
    else if IsFamily(part) then "beckn"
    else "vocab"
  }

  /** When `parts[i]` is the first folder naming a prefix, it decides the prefix. */
  lemma {:induction false} PrefixAt(parts: seq<string>, i: nat)
    requires i < |parts| && FolderPrefix(parts[i]) != "vocab"
    requires forall j :: 0 <= j < i ==> FolderPrefix(parts[j]) == "vocab"
    ensures Prefix(parts) == FolderPrefix(parts[i])
    decreases |parts|
  {
    if i > 0 {
      assert parts[1..][i - 1] == parts[i];
      PrefixAt(parts[1..], i - 1);
    }
  }

  /** `get_prefix`: the early-return scan of the folders. */
  method GetPrefix(parts: seq<string>) returns (prefix: string)
    ensures prefix == Prefix(parts)
  {
    var i := 0;
    while i < |parts|
      invariant 0 <= i <= |parts|
      invariant Prefix(parts) == Prefix(parts[i..])
    {
      var part := parts[i];
      assert parts[i..] == [part] + parts[i + 1..];
      if StartsWith(part, "ocpi") {
        return "ocpi";
      } else if StartsWith(part, "ocpp") {
        return "ocpp";
      } else if IsFamily(part) {
        return "beckn";
      }
      i := i + 1;
    }
    return "vocab";
  }

  /**
   * The prefix and the base are decided by different rules: a family folder
   * above an `ocpp` folder gives the `beckn` prefix bound to the OCPP root.
   */
  lemma PrefixAndBaseDisagree()
    ensures Prefix(["EnergyTrade", "ocpp"]) == "beckn"
    ensures BaseIri(None, ["EnergyTrade", "ocpp"]) == OcppBase
  {
    var parts := ["EnergyTrade", "ocpp"];
    assert StartsWith(parts[0], "Energy");
    assert !StartsWith(parts[0], "ocpi") && !StartsWith(parts[0], "ocpp") by {
      assert parts[0][0] == 'E';
    }
    assert StartsWith(parts[1], "ocpp");
    assert !StartsWith(parts[1], "ocpi") by {
      assert parts[1][3] == 'p';
    }
    assert !IsOcppVersion(parts[0]) && !IsOcppVersion(parts[1]) by {
      assert parts[0][0] == 'E' && parts[1][0] == 'o';
    }
  }

  /** `get_schema_id`: `prefix:name`. */
  function SchemaId(name: string, prefix: string): (r: string)
    ensures |r| == |prefix| + 1 + |name|
    ensures StartsWith(r, prefix + ":") && r[|prefix| + 1..] == name
  {
    var r := Curie(prefix, name);
    assert r[..|prefix| + 1] == prefix + ":";
    r
  }

  /** `get_enum_value_id`: `prefix:value`; the enumeration's own name takes no part. */
  function EnumValueId(enumTypeName: string, value: string, prefix: string): (r: string)
    ensures r == SchemaId(value, prefix)
  {
    Curie(prefix, value)
  }

  /** An identifier gives back its prefix and its name when the prefix has no `:`. */
  lemma SchemaIdSplits(name: string, prefix: string)
    requires ':' !in prefix
    ensures SplitOnce(SchemaId(name, prefix), ':') == (prefix, name)
  {
    var id := SchemaId(name, prefix);
    assert id[..|prefix|] == prefix;
    assert id[|prefix| + 1..] == name;
    SplitOnceAt(id, ':', |prefix|);
  }

  /*
   * The enumeration-value sanitiser (`sanitize_enum_value`), which no code path calls.
   */

  /** The characters the sanitiser replaces. */
  predicate Unsafe(c: char) {
    c == '.' || c == '-' || c == '/' || c == ' '
  }

  /** Lines 72-79: `.`, `-`, `/` and space become `_`. */
  function SanitizeEnumValue(value: string): (r: string)
    ensures |r| == |value|
    ensures forall i :: 0 <= i < |r| ==> !Unsafe(r[i])
    ensures forall i :: 0 <= i < |r| ==> r[i] == if Unsafe(value[i]) then '_' else value[i]
  {
    Replace(Replace(Replace(Replace(value, '.', '_'), '-', '_'), '/', '_'), ' ', '_')
  }

  /** Sanitising twice is sanitising once. */
  lemma SanitizeIdempotent(value: string)
    ensures SanitizeEnumValue(SanitizeEnumValue(value)) == SanitizeEnumValue(value)
  {
    var r := SanitizeEnumValue(value);
    assert forall i :: 0 <= i < |r| ==> SanitizeEnumValue(r)[i] == r[i];
  }

  /** The sanitiser is not injective: distinct values can share an identifier. */
  lemma SanitizeCollides()
    ensures "a.b" != "a-b" && SanitizeEnumValue("a.b") == SanitizeEnumValue("a-b")
  {
    assert SanitizeEnumValue("a.b") == "a_b";
    assert SanitizeEnumValue("a-b") == "a_b";
  }

  /*
   * The graph (`generate_vocab`).
   */

  /** One entry of the vocabulary graph; the JSON-LD keys of each kind are fixed. */
  datatype Node =
    | Enumeration(id: string, name: string, comment: Option<Json>, members: seq<string>)
    | Member(id: string, enumType: string, value: Json)
    | Class(id: string, name: string, comment: Option<Json>)

  /** What the first pass records of an enumeration: its values and its description. */
  datatype EnumInfo = EnumInfo(values: Json, description: Json)

  /** The `enum_types` dictionary. */
  type EnumTable = seq<Entry<EnumInfo>>

  /** `def.get('type') == 'string' and 'enum' in def`. */
  predicate IsStringEnum(def: Object) {
    Get(def, "type") == Some(JStr("string")) && Get(def, "enum").Some?
  }

  /** Line 142: a schema whose properties the inline-enumeration scan visits; its type must be given. */
  predicate ScansProperties(def: Object) {
    Get(def, "type") == Some(JStr("object")) && Get(def, "properties").Some?
  }

  /** Lines 164 and 208: type `object`, or no type at all. */
  predicate IsClassSchema(def: Object) {
    Field(def, "type", JStr("object")) == JStr("object")
  }

  /** `rdfs:comment` is written only for a truthy description. */
  function Comment(description: Json): (r: Option<Json>)
    ensures r.Some? <==> Truthy(description)
    ensures r.Some? ==> r.value == description
  {
    if Truthy(description) then Some(description) else None
  }

  /** Line 146: the name an inline enumeration gets from its property. */
  function InlineEnumName(prop: string): (r: string)
    ensures EndsWith(r, "EnumType") && StartsWith(r, TitleWords(prop))
  {
    var r := TitleWords(prop) + "EnumType";
    assert r[..|TitleWords(prop)|] == TitleWords(prop);
    assert r[|r| - 8..] == "EnumType";
    r
  }

  /** Lines 130-137: the top-level string enumerations, recorded under their schema names. */
  function TopLevelEnums(schemas: Object): (r: EnumTable)
    requires Shapes.AllObjects(schemas)
    decreases |schemas|
  {
    if schemas == [] then []
    else
      var e := schemas[|schemas| - 1];
      var t := TopLevelEnums(schemas[..|schemas| - 1]);
      if IsStringEnum(e.value.fields) then
        Put(t, e.key, EnumInfo(Get(e.value.fields, "enum").value, Field(e.value.fields, "description", JStr(""))))
      else t
  }

  /** Every top-level string enumeration is recorded with its own values and description, and nothing else is. */
  lemma {:induction false} TopLevelEnumsContent(schemas: Object, k: string)
    requires Shapes.AllObjects(schemas) && DistinctKeys(schemas)
    ensures Get(TopLevelEnums(schemas), k).Some? <==>
      Get(schemas, k).Some? && Get(schemas, k).value.JObj? && IsStringEnum(Get(schemas, k).value.fields)
    ensures Get(TopLevelEnums(schemas), k).Some? ==>
      var d := Get(schemas, k).value.fields;
      Get(TopLevelEnums(schemas), k) == Some(EnumInfo(Get(d, "enum").value, Field(d, "description", JStr(""))))
    decreases |schemas|
  {
    if schemas != [] {
      var init := schemas[..|schemas| - 1];
      var e := schemas[|schemas| - 1];
      assert schemas == init + [e];
      DistinctKeysSnoc(init, e);
      TopLevelEnumsContent(init, k);
      GetSnoc(init, e, k);
      GetKeys(init, e.key);
    }
  }

  /** Lines 143-157 for one property: a string enumeration is recorded under its derived name unless that name is taken. */
  function AddInlineEnum(table: EnumTable, prop: Entry<Json>): (r: EnumTable)
    requires prop.value.JObj?
    ensures forall k :: Get(table, k).Some? ==> Get(r, k) == Get(table, k)
    ensures forall k :: k != InlineEnumName(prop.key) ==> Get(r, k) == Get(table, k)
    ensures IsStringEnum(prop.value.fields) ==> Get(r, InlineEnumName(prop.key)).Some?
    ensures IsStringEnum(prop.value.fields) && Get(table, InlineEnumName(prop.key)).None? ==>
      Get(r, InlineEnumName(prop.key)) ==
        Some(EnumInfo(Get(prop.value.fields, "enum").value, Field(prop.value.fields, "description", JStr("Enumeration for " + prop.key))))
  {
    var fs := prop.value.fields;
    var name := InlineEnumName(prop.key);
    if IsStringEnum(fs) && Get(table, name).None? then
      Put(table, name, EnumInfo(Get(fs, "enum").value, Field(fs, "description", JStr("Enumeration for " + prop.key))))
    else table
  }

  /** Every property definition is a dictionary. */
  predicate AllProperties(props: Object) {
    forall i :: 0 <= i < |props| ==> props[i].value.JObj?
  }

  /** Lines 143-157: the properties of one schema, in order. */
  function AddInlineEnums(table: EnumTable, props: Object): (r: EnumTable)
    requires AllProperties(props)
    ensures forall k :: Get(table, k).Some? ==> Get(r, k) == Get(table, k)
    decreases |props|
  {
    if props == [] then table
    else AddInlineEnum(AddInlineEnums(table, props[..|props| - 1]), props[|props| - 1])
  }

  /** Every schema is a dictionary, and so is every property definition the inline scan visits. */
  predicate SchemasOk(schemas: Object) {
    Shapes.AllObjects(schemas) &&
    forall i :: 0 <= i < |schemas| && ScansProperties(schemas[i].value.fields) ==>
      var props := Get(schemas[i].value.fields, "properties").value;
      props.JObj? && AllProperties(props.fields)
  }

  /** Lines 141-157: the inline enumerations of every scanned schema, in order. */
  function InlineEnums(table: EnumTable, schemas: Object): (r: EnumTable)
    requires SchemasOk(schemas)
    ensures forall k :: Get(table, k).Some? ==> Get(r, k) == Get(table, k)
    decreases |schemas|
  {
    if schemas == [] then table
    else
      var e := schemas[|schemas| - 1];
      var t := InlineEnums(table, schemas[..|schemas| - 1]);
      if ScansProperties(e.value.fields) then AddInlineEnums(t, Get(e.value.fields, "properties").value.fields) else t
  }

  /** Lines 129-157: the top-level enumerations first, then the inline ones. */
  function CollectEnums(schemas: Object): EnumTable
    requires SchemasOk(schemas)
  {
    InlineEnums(TopLevelEnums(schemas), schemas)
  }

  /** A top-level enumeration keeps its own values even when an inline one derives the same name. */
  lemma TopLevelEnumsWin(schemas: Object, k: string)
    requires SchemasOk(schemas) && DistinctKeys(schemas)
    requires Get(schemas, k).Some? && Get(schemas, k).value.JObj? && IsStringEnum(Get(schemas, k).value.fields)
    ensures var d := Get(schemas, k).value.fields;
      Get(CollectEnums(schemas), k) == Some(EnumInfo(Get(d, "enum").value, Field(d, "description", JStr(""))))
  {
    TopLevelEnumsContent(schemas, k);
  }

  /** What the inline scan records for a string-enumeration property. */
  function InlineInfo(prop: Entry<Json>): EnumInfo
    requires prop.value.JObj? && IsStringEnum(prop.value.fields)
  {
    EnumInfo(Get(prop.value.fields, "enum").value, Field(prop.value.fields, "description", JStr("Enumeration for " + prop.key)))
  }

  /** A property that the inline scan records under the name `k`. */
  predicate DerivesName(prop: Entry<Json>, k: string) {
    prop.value.JObj? && IsStringEnum(prop.value.fields) && InlineEnumName(prop.key) == k
  }

  /** A name no property derives and the table lacks stays absent. */
  lemma {:induction false} AddInlineEnumsUntouched(table: EnumTable, props: Object, k: string)
    requires AllProperties(props)
    requires Get(table, k).None? && forall j :: 0 <= j < |props| ==> !DerivesName(props[j], k)
    ensures Get(AddInlineEnums(table, props), k).None?
    decreases |props|
  {
    if props != [] {
      var init := props[..|props| - 1];
      assert forall j :: 0 <= j < |init| ==> init[j] == props[j];
      AddInlineEnumsUntouched(table, init, k);
    }
  }

  /**
   * Lines 143-157 over a run of properties: every string-enumeration property
   * has its derived name recorded; the first property deriving a name the
   * table lacks gives that entry its values and description.
   */
  lemma {:induction false} AddInlineEnumsRecords(table: EnumTable, props: Object, i: nat)
    requires AllProperties(props) && i < |props| && IsStringEnum(props[i].value.fields)
    ensures Get(AddInlineEnums(table, props), InlineEnumName(props[i].key)).Some?
    ensures var k := InlineEnumName(props[i].key);
      Get(table, k).None? && (forall j :: 0 <= j < i ==> !DerivesName(props[j], k)) ==>
        Get(AddInlineEnums(table, props), k) == Some(InlineInfo(props[i]))
    decreases |props|
  {
    var k := InlineEnumName(props[i].key);
    var init := props[..|props| - 1];
    assert forall j :: 0 <= j < |init| ==> init[j] == props[j];
    if i == |props| - 1 {
      if Get(table, k).None? && (forall j :: 0 <= j < i ==> !DerivesName(props[j], k)) {
        AddInlineEnumsUntouched(table, init, k);
      }
    } else {
      AddInlineEnumsRecords(table, init, i);
    }
  }

  /** Running the scan over two runs of properties is running it over their concatenation. */
  lemma {:induction false} AddInlineEnumsAppend(table: EnumTable, a: Object, b: Object)
    requires AllProperties(a) && AllProperties(b)
    ensures AllProperties(a + b)
    ensures AddInlineEnums(table, a + b) == AddInlineEnums(AddInlineEnums(table, a), b)
    decreases |b|
  {
    assert forall j :: 0 <= j < |a + b| ==> (a + b)[j] == if j < |a| then a[j] else b[j - |a|];
    if b != [] {
      var init := b[..|b| - 1];
      assert (a + b)[..|a + b| - 1] == a + init;
      AddInlineEnumsAppend(table, a, init);
    } else {
      assert a + b == a;
    }
  }

  /** Lines 141-143: the properties the inline scan visits, schema by schema, in order. */
  function ScannedProperties(schemas: Object): (r: Object)
    requires SchemasOk(schemas)
    ensures AllProperties(r)
    decreases |schemas|
  {
    if schemas == [] then []
    else
      var e := schemas[|schemas| - 1];
      var init := ScannedProperties(schemas[..|schemas| - 1]);
      if ScansProperties(e.value.fields) then
        var props := Get(e.value.fields, "properties").value.fields;
        AddInlineEnumsAppend([], init, props);
        init + props
      else init
  }

  /** Every property of a scanned schema is visited. */
  lemma {:induction false} ScannedPropertiesContains(schemas: Object, s: nat, p: nat)
    requires SchemasOk(schemas) && s < |schemas| && ScansProperties(schemas[s].value.fields)
    requires p < |Get(schemas[s].value.fields, "properties").value.fields|
    ensures Get(schemas[s].value.fields, "properties").value.fields[p] in ScannedProperties(schemas)
    decreases |schemas|
  {
    var init := schemas[..|schemas| - 1];
    if s < |schemas| - 1 {
      assert init[s] == schemas[s];
      ScannedPropertiesContains(init, s, p);
    }
  }

  /** The nested scan of lines 141-157 is the scan of the visited properties as one run. */
  lemma {:induction false} InlineEnumsFlat(table: EnumTable, schemas: Object)
    requires SchemasOk(schemas)
    ensures InlineEnums(table, schemas) == AddInlineEnums(table, ScannedProperties(schemas))
    decreases |schemas|
  {
    if schemas != [] {
      var e := schemas[|schemas| - 1];
      InlineEnumsFlat(table, schemas[..|schemas| - 1]);
      if ScansProperties(e.value.fields) {
        AddInlineEnumsAppend(table, ScannedProperties(schemas[..|schemas| - 1]), Get(e.value.fields, "properties").value.fields);
      }
    }
  }

  /** Top-level string enumerations are recorded under their schema names. */
  predicate TopLevelEnum(schemas: Object, k: string) {
    Get(schemas, k).Some? && Get(schemas, k).value.JObj? && IsStringEnum(Get(schemas, k).value.fields)
  }

  /**
   * Lines 141-157: the `i`-th visited property, when a string enumeration, has
   * its derived name recorded; unless a top-level enumeration owns that name
   * or an earlier visited property derives it, the entry holds this property's
   * values and description (`Enumeration for <name>` by default).
   */
  lemma InlineEnumRecorded(schemas: Object, i: nat)
    requires SchemasOk(schemas) && DistinctKeys(schemas)
    requires i < |ScannedProperties(schemas)| && IsStringEnum(ScannedProperties(schemas)[i].value.fields)
    ensures Get(CollectEnums(schemas), InlineEnumName(ScannedProperties(schemas)[i].key)).Some?
    ensures var props := ScannedProperties(schemas);
      var k := InlineEnumName(props[i].key);
      !TopLevelEnum(schemas, k) && (forall j :: 0 <= j < i ==> !DerivesName(props[j], k)) ==>
        Get(CollectEnums(schemas), k) == Some(InlineInfo(props[i]))
  {
    var k := InlineEnumName(ScannedProperties(schemas)[i].key);
    TopLevelEnumsContent(schemas, k);
    InlineEnumsFlat(TopLevelEnums(schemas), schemas);
    AddInlineEnumsRecords(TopLevelEnums(schemas), ScannedProperties(schemas), i);
  }

  /** Lines 129-157: nothing but top-level enumerations and derived names is recorded. */
  lemma CollectEnumsNothingElse(schemas: Object, k: string)
    requires SchemasOk(schemas) && DistinctKeys(schemas)
    ensures !TopLevelEnum(schemas, k) && (forall j :: 0 <= j < |ScannedProperties(schemas)| ==> !DerivesName(ScannedProperties(schemas)[j], k)) ==>
      Get(CollectEnums(schemas), k).None?
  {
    if !TopLevelEnum(schemas, k) && (forall j :: 0 <= j < |ScannedProperties(schemas)| ==> !DerivesName(ScannedProperties(schemas)[j], k)) {
      TopLevelEnumsContent(schemas, k);
      InlineEnumsFlat(TopLevelEnums(schemas), schemas);
      AddInlineEnumsUntouched(TopLevelEnums(schemas), ScannedProperties(schemas), k);
    }
  }

  /** The ids of the members of an enumeration, in value order. */
  function MemberIds(prefix: string, typeName: string, values: seq<Json>): (r: seq<string>)
    ensures |r| == |values|
    ensures forall i :: 0 <= i < |values| ==> r[i] == EnumValueId(typeName, Str(values[i]), prefix)
  {
    seq(|values|, i requires 0 <= i < |values| => EnumValueId(typeName, Str(values[i]), prefix))
  }

  /**
   * Lines 166-206 and 233-268: one `schema:Enumeration` entry listing `prefix:v`
   * for every value `v` in order, then one member entry per value, in order.
   */
  function EnumNodes(prefix: string, name: string, values: seq<Json>, description: Json): (r: seq<Node>)
    ensures |r| == |values| + 1
    ensures r[0].Enumeration? && r[0].id == SchemaId(name, prefix) && r[0].name == name
    ensures r[0].comment == Comment(description) && r[0].members == MemberIds(prefix, name, values)
    ensures forall i :: 0 <= i < |values| ==> r[i + 1] == Member(r[0].members[i], r[0].id, values[i])
  {
    var id := SchemaId(name, prefix);
    var ids := MemberIds(prefix, name, values);
    [Enumeration(id, name, Comment(description), ids)] + seq(|values|, i requires 0 <= i < |values| => Member(ids[i], id, values[i]))
  }

  /** A top-level enumeration's `enum` can be iterated. */
  predicate EnumIterable(def: Object) {
    IsStringEnum(def) ==> Iterate(Get(def, "enum").value).Some?
  }

  /** Lines 160-221: the entries of one schema: an enumeration with its members, a class, or nothing. */
  function SchemaNodes(prefix: string, name: string, def: Object): (r: seq<Node>)
    requires EnumIterable(def)
    ensures IsStringEnum(def) ==>
      r == EnumNodes(prefix, name, Iterate(Get(def, "enum").value).value, Field(def, "description", JStr("")))
    ensures !IsStringEnum(def) && (Get(def, "type").None? || Get(def, "type") == Some(JStr("object"))) ==>
      r == [Class(SchemaId(name, prefix), name, Comment(Field(def, "description", JStr(""))))]
    ensures !IsStringEnum(def) && Get(def, "type").Some? && Get(def, "type") != Some(JStr("object")) ==> r == []
  {
    if IsStringEnum(def) then EnumNodes(prefix, name, Iterate(Get(def, "enum").value).value, Field(def, "description", JStr("")))
    else if IsClassSchema(def) then [Class(SchemaId(name, prefix), name, Comment(Field(def, "description", JStr(""))))]
    else []
  }

  /** Every schema a dictionary whose enumeration, if any, can be iterated. */
  predicate SecondPassOk(schemas: Object) {
    forall i :: 0 <= i < |schemas| ==> schemas[i].value.JObj? && EnumIterable(schemas[i].value.fields)
  }

  /** Lines 160-221: the second pass, schema by schema. */
  function SecondPass(prefix: string, schemas: Object): seq<Node>
    requires SecondPassOk(schemas)
    decreases |schemas|
  {
    if schemas == [] then []
    else
      var e := schemas[|schemas| - 1];
      SecondPass(prefix, schemas[..|schemas| - 1]) + SchemaNodes(prefix, e.key, e.value.fields)
  }

  /** The second pass keeps schema order: the entries of the first schemas come first, as they would on their own. */
  lemma {:induction false} SecondPassPrefix(prefix: string, schemas: Object, i: nat)
    requires SecondPassOk(schemas) && i <= |schemas|
    ensures SecondPassOk(schemas[..i])
    ensures SecondPass(prefix, schemas[..i]) <= SecondPass(prefix, schemas)
    decreases |schemas| - i
  {
    if i < |schemas| {
      var init := schemas[..|schemas| - 1];
      assert init[..i] == schemas[..i];
      SecondPassPrefix(prefix, init, i);
    } else {
      assert schemas[..i] == schemas;
    }
  }

  /** Every entry a schema yields is in the second pass's output. */
  lemma SecondPassEmits(prefix: string, schemas: Object, i: nat, n: Node)
    requires SecondPassOk(schemas) && i < |schemas|
    requires n in SchemaNodes(prefix, schemas[i].key, schemas[i].value.fields)
    ensures n in SecondPass(prefix, schemas)
  {
    SecondPassPrefix(prefix, schemas, i);
    SecondPassPrefix(prefix, schemas, i + 1);
    var upto := schemas[..i + 1];
    assert upto[..i] == schemas[..i];
    ghost var through := SecondPass(prefix, upto);
    assert through == SecondPass(prefix, schemas[..i]) + SchemaNodes(prefix, schemas[i].key, schemas[i].value.fields);
    assert n in through;
  }

  /**
   * Line 95: a member's id is built from its value alone, so two enumerations
   * that share a value give their members the same id.
   */
  lemma MemberIdsIgnoreEnumeration(prefix: string, a: string, b: string, values: seq<Json>)
    ensures MemberIds(prefix, a, values) == MemberIds(prefix, b, values)
  {
  }

  /** The enumerations the third pass emits can be iterated. */
  predicate TableOk(table: EnumTable, schemas: Object) {
    forall i :: 0 <= i < |table| && Get(schemas, table[i].key).None? ==> Iterate(table[i].value.values).Some?
  }

  /** Lines 224-268: the recorded enumerations that are not schemas themselves, in recording order. */
  function ThirdPass(prefix: string, table: EnumTable, schemas: Object): seq<Node>
    requires TableOk(table, schemas)
    decreases |table|
  {
    if table == [] then []
    else
      var e := table[|table| - 1];
      var init := ThirdPass(prefix, table[..|table| - 1], schemas);
      if Get(schemas, e.key).Some? then init
      else init + EnumNodes(prefix, e.key, Iterate(e.value.values).value, e.value.description)
  }

  /** One more recorded enumeration adds its entries unless a schema has its name. */
  lemma ThirdPassStep(prefix: string, table: EnumTable, schemas: Object, j: nat)
    requires TableOk(table, schemas) && j < |table|
    ensures TableOk(table[..j], schemas) && TableOk(table[..j + 1], schemas)
    ensures Get(schemas, table[j].key).None? ==> Iterate(table[j].value.values).Some?
    ensures ThirdPass(prefix, table[..j + 1], schemas) ==
      if Get(schemas, table[j].key).Some? then ThirdPass(prefix, table[..j], schemas)
      else (ThirdPass(prefix, table[..j], schemas) +
            EnumNodes(prefix, table[j].key, Iterate(table[j].value.values).value, table[j].value.description))
  {
    assert table[..j + 1][..j] == table[..j];
  }

  /** Lines 226-227: no enumeration named like a schema is emitted by the third pass, whatever that schema is. */
  lemma {:induction false} ThirdPassSkipsSchemas(prefix: string, table: EnumTable, schemas: Object)
    requires TableOk(table, schemas)
    ensures forall i :: 0 <= i < |ThirdPass(prefix, table, schemas)| && ThirdPass(prefix, table, schemas)[i].Enumeration? ==>
      Get(schemas, ThirdPass(prefix, table, schemas)[i].name).None?
    decreases |table|
  {
    if table != [] {
      var e := table[|table| - 1];
      var init := table[..|table| - 1];
      ThirdPassSkipsSchemas(prefix, init, schemas);
    }
  }

  /** The third pass keeps recording order: the entries of the first enumerations come first. */
  lemma {:induction false} ThirdPassPrefix(prefix: string, table: EnumTable, schemas: Object, i: nat)
    requires TableOk(table, schemas) && i <= |table|
    ensures TableOk(table[..i], schemas)
    ensures ThirdPass(prefix, table[..i], schemas) <= ThirdPass(prefix, table, schemas)
    decreases |table| - i
  {
    if i < |table| {
      var init := table[..|table| - 1];
      assert init[..i] == table[..i];
      ThirdPassPrefix(prefix, init, schemas, i);
    } else {
      assert table[..i] == table;
    }
  }

  /** Every recorded enumeration not named like a schema is emitted, with its members. */
  lemma ThirdPassEmits(prefix: string, table: EnumTable, schemas: Object, i: nat, n: Node)
    requires TableOk(table, schemas) && i < |table| && Get(schemas, table[i].key).None?
    requires n in EnumNodes(prefix, table[i].key, Iterate(table[i].value.values).value, table[i].value.description)
    ensures n in ThirdPass(prefix, table, schemas)
  {
    ThirdPassPrefix(prefix, table, schemas, i);
    ThirdPassPrefix(prefix, table, schemas, i + 1);
    var upto := table[..i + 1];
    assert upto[..i] == table[..i];
    ghost var through := ThirdPass(prefix, upto, schemas);
    assert through == ThirdPass(prefix, table[..i], schemas) +
      EnumNodes(prefix, table[i].key, Iterate(table[i].value.values).value, table[i].value.description);
    assert n in through;
  }

  /** Every entry's id is a compact IRI under the prefix. */
  predicate AllPrefixed(prefix: string, ns: seq<Node>) {
    forall i :: 0 <= i < |ns| ==> StartsWith(ns[i].id, prefix + ":")
  }

  /** The class of an enumeration and each of its members get ids under the prefix. */
  lemma EnumNodesPrefixed(prefix: string, name: string, values: seq<Json>, description: Json)
    ensures AllPrefixed(prefix, EnumNodes(prefix, name, values, description))
  {
    var ns := EnumNodes(prefix, name, values, description);
    forall i | 0 < i < |ns| ensures StartsWith(ns[i].id, prefix + ":") {
      assert ns[i].id == SchemaId(Str(values[i - 1]), prefix);
    }
  }

  /** Joining two graphs of prefixed ids gives a graph of prefixed ids. */
  lemma PrefixedAppend(prefix: string, a: seq<Node>, b: seq<Node>)
    requires AllPrefixed(prefix, a) && AllPrefixed(prefix, b)
    ensures AllPrefixed(prefix, a + b)
  {
    forall i | 0 <= i < |a + b| ensures StartsWith((a + b)[i].id, prefix + ":") {
      if i >= |a| {
        assert (a + b)[i] == b[i - |a|];
      }
    }
  }

  /** Every node of the second pass has an id under the prefix. */
  lemma {:induction false} SecondPassPrefixed(prefix: string, schemas: Object)
    requires SecondPassOk(schemas)
    ensures AllPrefixed(prefix, SecondPass(prefix, schemas))
    decreases |schemas|
  {
    if schemas != [] {
      var e := schemas[|schemas| - 1];
      SecondPassPrefixed(prefix, schemas[..|schemas| - 1]);
      if IsStringEnum(e.value.fields) {
        EnumNodesPrefixed(prefix, e.key, Iterate(Get(e.value.fields, "enum").value).value, Field(e.value.fields, "description", JStr("")));
      }
      PrefixedAppend(prefix, SecondPass(prefix, schemas[..|schemas| - 1]), SchemaNodes(prefix, e.key, e.value.fields));
    }
  }

  /** Every node of the third pass has an id under the prefix. */
  lemma {:induction false} ThirdPassPrefixed(prefix: string, table: EnumTable, schemas: Object)
    requires TableOk(table, schemas)
    ensures AllPrefixed(prefix, ThirdPass(prefix, table, schemas))
    decreases |table|
  {
    if table != [] {
      var e := table[|table| - 1];
      ThirdPassPrefixed(prefix, table[..|table| - 1], schemas);
      if Get(schemas, e.key).None? {
        var ns := EnumNodes(prefix, e.key, Iterate(e.value.values).value, e.value.description);
        EnumNodesPrefixed(prefix, e.key, Iterate(e.value.values).value, e.value.description);
        PrefixedAppend(prefix, ThirdPass(prefix, table[..|table| - 1], schemas), ns);
      }
    }
  }

  /** Lines 112-157 and the iterations of lines 183-255: what makes `generate_vocab` run without raising. */
  predicate InputOk(schemas: Object) {
    SchemasOk(schemas) && SecondPassOk(schemas) && TableOk(CollectEnums(schemas), schemas)
  }

  /** `generate_vocab`'s graph: the second pass, then the third; nothing when the input makes it raise. */
  function VocabGraph(prefix: string, schemas: Object): (r: Option<seq<Node>>)
    ensures r.Some? <==> InputOk(schemas)
  {
    if InputOk(schemas) then Some(SecondPass(prefix, schemas) + ThirdPass(prefix, CollectEnums(schemas), schemas)) else None
  }

  /** Lines 181-185 and 235-239: the member ids of an enumeration, one per value, in order. */
  method CollectMemberIds(prefix: string, name: string, values: seq<Json>) returns (members: seq<string>)
    ensures members == MemberIds(prefix, name, values)
  {
    members := [];
    for j := 0 to |values|
      invariant |members| == j
      invariant forall k :: 0 <= k < j ==> members[k] == EnumValueId(name, Str(values[k]), prefix)
    {
      members := members + [EnumValueId(name, Str(values[j]), prefix)];
    }
  }

  /** Lines 170-205: the entries of one enumeration appended to the graph, the type first and then its members. */
  method AppendEnumeration(graph: seq<Node>, prefix: string, name: string, values: seq<Json>, description: Json)
    returns (r: seq<Node>)
    ensures r == graph + EnumNodes(prefix, name, values, description)
  {
    ghost var ns := EnumNodes(prefix, name, values, description);
    var id := SchemaId(name, prefix);
    var members := CollectMemberIds(prefix, name, values);
    r := graph + [Enumeration(id, name, Comment(description), members)];
    assert ns[..1] == [ns[0]];
    for j := 0 to |values|
      invariant r == graph + ns[..j + 1]
    {
      assert ns[..j + 2] == ns[..j + 1] + [ns[j + 1]];
      r := r + [Member(members[j], id, values[j])];
    }
    assert ns[..|values| + 1] == ns;
  }

  /** Lines 141-157 for one schema: scan its properties in order. */
  method ScanProperties(table: EnumTable, props: Object) returns (r: EnumTable)
    requires AllProperties(props)
    ensures r == AddInlineEnums(table, props)
  {
    r := table;
    for j := 0 to |props|
      invariant r == AddInlineEnums(table, props[..j])
    {
      assert props[..j + 1][..j] == props[..j];
      var fs := props[j].value.fields;
      if IsStringEnum(fs) {
        var name := TitleWords(props[j].key) + "EnumType";
        if Get(r, name).None? {
          r := Put(r, name, EnumInfo(Get(fs, "enum").value, Field(fs, "description", JStr("Enumeration for " + props[j].key))));
        }
      }
    }
    assert props[..|props|] == props;
  }

  /** Lines 129-157: the first pass over the schemas, then the inline scan. */
  method CollectEnumTypes(schemas: Object) returns (enumTypes: EnumTable)
    requires SchemasOk(schemas)
    ensures enumTypes == CollectEnums(schemas)
  {
    enumTypes := [];
    for i := 0 to |schemas|
      invariant enumTypes == TopLevelEnums(schemas[..i])
    {
      assert schemas[..i + 1][..i] == schemas[..i];
      var def := schemas[i].value.fields;
      if IsStringEnum(def) {
        enumTypes := Put(enumTypes, schemas[i].key, EnumInfo(Get(def, "enum").value, Field(def, "description", JStr(""))));
      }
    }
    assert schemas[..|schemas|] == schemas;
    for i := 0 to |schemas|
      invariant enumTypes == InlineEnums(TopLevelEnums(schemas), schemas[..i])
    {
      assert schemas[..i + 1][..i] == schemas[..i];
      var def := schemas[i].value.fields;
      if ScansProperties(def) {
        enumTypes := ScanProperties(enumTypes, Get(def, "properties").value.fields);
      }
    }
    assert schemas[..|schemas|] == schemas;
  }

  /** Lines 159-221: the second pass, appending the entries of each schema in order. */
  method EmitSchemas(prefix: string, schemas: Object) returns (nodes: seq<Node>)
    requires SecondPassOk(schemas)
    ensures nodes == SecondPass(prefix, schemas)
  {
    nodes := [];
    for i := 0 to |schemas|
      invariant nodes == SecondPass(prefix, schemas[..i])
    {
      assert schemas[..i + 1][..i] == schemas[..i];
      var name := schemas[i].key;
      var def := schemas[i].value.fields;
      if IsStringEnum(def) {
        nodes := AppendEnumeration(nodes, prefix, name, Iterate(Get(def, "enum").value).value, Field(def, "description", JStr("")));
      } else if IsClassSchema(def) {
        nodes := nodes + [Class(SchemaId(name, prefix), name, Comment(Field(def, "description", JStr(""))))];
      }
    }
    assert schemas[..|schemas|] == schemas;
  }

  /** Lines 226-268 for one recorded enumeration: its entries are appended unless a schema has its name. */
  method EmitRecordedEnum(graph: seq<Node>, nodes: seq<Node>, prefix: string, enumTypes: EnumTable, schemas: Object, j: nat)
    returns (r: seq<Node>)
    requires TableOk(enumTypes, schemas) && j < |enumTypes|
    requires TableOk(enumTypes[..j], schemas) && nodes == graph + ThirdPass(prefix, enumTypes[..j], schemas)
    ensures TableOk(enumTypes[..j + 1], schemas) && r == graph + ThirdPass(prefix, enumTypes[..j + 1], schemas)
  {
    ThirdPassStep(prefix, enumTypes, schemas, j);
    var e := enumTypes[j];
    r := nodes;
    if Get(schemas, e.key).None? {
      var added := EnumNodes(prefix, e.key, Iterate(e.value.values).value, e.value.description);
      r := AppendEnumeration(nodes, prefix, e.key, Iterate(e.value.values).value, e.value.description);
      AppendNodesAssoc(graph, ThirdPass(prefix, enumTypes[..j], schemas), added);
    }
  }

  /** Appending node lists is associative. */
  lemma AppendNodesAssoc(a: seq<Node>, b: seq<Node>, c: seq<Node>)
    ensures (a + b) + c == a + (b + c)
  {
  }

  /** Lines 223-268: the third pass, appending the recorded enumerations that are not schemas. */
  method EmitRecordedEnums(graph: seq<Node>, prefix: string, enumTypes: EnumTable, schemas: Object) returns (nodes: seq<Node>)
    requires TableOk(enumTypes, schemas)
    ensures nodes == graph + ThirdPass(prefix, enumTypes, schemas)
  {
    nodes := graph;
    for j := 0 to |enumTypes|
      invariant nodes == graph + ThirdPass(prefix, enumTypes[..j], schemas)
    {
      nodes := EmitRecordedEnum(graph, nodes, prefix, enumTypes, schemas, j);
    }
    assert enumTypes[..|enumTypes|] == enumTypes;
  }

  /** Lines 125-268: `generate_vocab`'s graph, pass by pass; nothing when the input makes it raise. */
  method GenerateVocab(prefix: string, schemas: Object) returns (graph: Option<seq<Node>>)
    ensures graph == VocabGraph(prefix, schemas)
  {
    if !InputOk(schemas) {
      return None;
    }
    var enumTypes := CollectEnumTypes(schemas);
    var nodes := EmitSchemas(prefix, schemas);
    nodes := EmitRecordedEnums(nodes, prefix, enumTypes, schemas);
    graph := Some(nodes);
  }

  /** Lines 270-280: the parts of the vocabulary document that vary: the prefix, the IRI it is bound to, and the graph. */
  datatype VocabDocument = VocabDocument(prefix: string, base: string, graph: seq<Node>)

  /** Every id in a generated graph is a compact IRI under the document's prefix. */
  lemma GraphPrefixed(prefix: string, schemas: Object)
    requires InputOk(schemas)
    ensures AllPrefixed(prefix, VocabGraph(prefix, schemas).value)
  {
    SecondPassPrefixed(prefix, schemas);
    ThirdPassPrefixed(prefix, CollectEnums(schemas), schemas);
    PrefixedAppend(prefix, SecondPass(prefix, schemas), ThirdPass(prefix, CollectEnums(schemas), schemas));
  }

  /**
   * Lines 101-280: the base and the prefix from the folders above the
   * specification, then the graph; nothing when the input makes it raise.
   */
  method BuildVocabulary(baseIri: Option<string>, parts: seq<string>, schemas: Object) returns (doc: Option<VocabDocument>)
    ensures doc.Some? <==> InputOk(schemas)
    ensures doc.Some? ==> doc.value.prefix == Prefix(parts) && doc.value.base == BaseIri(baseIri, parts)
    ensures doc.Some? ==> VocabGraph(doc.value.prefix, schemas) == Some(doc.value.graph)
    ensures doc.Some? ==> AllPrefixed(doc.value.prefix, doc.value.graph)
  {
    var base := GetBaseIri(baseIri, parts);
    var prefix := GetPrefix(parts);
    var graph := GenerateVocab(prefix, schemas);
    if graph.None? {
      return None;
    }
    GraphPrefixed(prefix, schemas);
    doc := Some(VocabDocument(prefix, base, graph.value));
  }
}
