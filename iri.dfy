/**
 * IRI conventions shared by the generators: absolute IRIs, JSON-LD context
 * term descriptors, compact-IRI expansion against a prefix binding, and the
 * folder names (`Energy*`, `EvCharging*`, `v<version>`) that name a schema
 * family.
 */
module Iri {
  import opened OrderedDict
  import opened Text
  import opened Json

  /** Starts with an `http://` or `https://` scheme. */
  predicate IsAbsolute(s: string) {
    StartsWith(s, "http://") || StartsWith(s, "https://")
  }

  /** The separators `rstrip('#/')` removes from a prefix binding. */
  const Separators: set<char> := {'#', '/'}

  /** `base` with one trailing `/` added when it does not already end in one. */
  function WithSlash(base: string): (r: string)
    ensures EndsWith(r, "/")
    ensures EndsWith(base, "/") ==> r == base
    ensures StartsWith(r, base)
  {
    if EndsWith(base, "/") then base else base + "/"
  }

  /**
   * The expansion of `prefix:local` when `prefix` is bound to the absolute IRI
   * `binding`: the binding without its trailing separators, a `/`, then `local`.
   */
  function ExpandBinding(binding: string, local: string): (r: string)
    ensures r == RStrip(binding, Separators) + "/" + local
  {
    var base := RStrip(binding, Separators);
    if EndsWith(base, "/") then base + local else base + "/" + local
  }

  /**
   * The local name of the XML Schema datatype an OpenAPI type or format maps
   * to, for the nine types and formats the generators know.
   */
  function XsdLocalName(t: string): (r: Option<string>)
    ensures r.Some? <==> t in {"string", "integer", "int32", "int64", "number", "float", "boolean", "date-time", "date"}
  {
    if t == "string" then Some("string")
    else if t == "integer" then Some("integer")
    else if t == "int32" then Some("int")
    else if t == "int64" then Some("long")
    else if t == "number" then Some("double")
    else if t == "float" then Some("float")
    else if t == "boolean" then Some("boolean")
    else if t == "date-time" then Some("dateTime")
    else if t == "date" then Some("date")
    else None
  }

  /** `f"{prefix}:{name}"`. */
  function Curie(prefix: string, name: string): string {
    prefix + ":" + name
  }

  /** How a context describes a term: an IRI string, an expanded term definition, or anything else. */
  datatype Descriptor = Term(iri: string) | Node(id: Option<Json>) | Other(value: Json)

  function Describe(j: Json): (d: Descriptor)
    ensures j.JStr? <==> d.Term?
    ensures j.JObj? <==> d.Node?
    ensures d.Node? ==> d.id == Get(j.fields, "@id")
  {
    match j
    case JStr(s) => Term(s)
    case JObj(fs) => Node(Get(fs, "@id"))
    case _ => Other(j)
  }

  /** The descriptor a context gives `term`, if it defines it. */
  function Lookup(ctx: Object, term: string): (r: Option<Descriptor>)
    ensures r.Some? <==> Get(ctx, term).Some?
  {
    match Get(ctx, term)
    case None => None
    case Some(j) => Some(Describe(j))
  }

  /** The string `prefix` is bound to, when the context binds it to a string. */
  function StringBinding(ctx: Object, prefix: string): (r: Option<string>)
    ensures r.Some? <==> Get(ctx, prefix).Some? && Get(ctx, prefix).value.JStr?
    ensures r.Some? ==> Get(ctx, prefix) == Some(JStr(r.value))
  {
    var v := Get(ctx, prefix);
    if v.Some? && v.value.JStr? then Some(v.value.s) else None
  }

  /** A folder named after a schema family. */
  predicate IsFamily(part: string) {
    StartsWith(part, "Energy") || StartsWith(part, "EvCharging")
  }

  /** A folder naming a version, such as `v2.0`. */
  predicate IsVersion(part: string) {
    StartsWith(part, "v") && '.' in part
  }

  /**
   * The name of the last folder of a path given as its parts (`Path.name`):
   * empty for an empty path and for the root.
   */
  function FolderName(parts: seq<string>): (r: string)
    ensures parts == [] ==> r == ""
    ensures parts != [] && parts[|parts| - 1] != "/" ==> r == parts[|parts| - 1]
  {
    if parts == [] || parts[|parts| - 1] == "/" then "" else parts[|parts| - 1]
  }

  /** The last part that names a schema family. */
  function LastFamily(parts: seq<string>): (r: Option<string>)
    ensures r.Some? ==> r.value in parts && IsFamily(r.value)
    ensures r.None? <==> forall i :: 0 <= i < |parts| ==> !IsFamily(parts[i])
  {
    if parts == [] then None
    else if IsFamily(parts[|parts| - 1]) then Some(parts[|parts| - 1])
    else LastFamily(parts[..|parts| - 1])
  }

  /** The last part that names a version. */
  function LastVersion(parts: seq<string>): (r: Option<string>)
    ensures r.Some? ==> r.value in parts && IsVersion(r.value)
    ensures r.None? <==> forall i :: 0 <= i < |parts| ==> !IsVersion(parts[i])
  {
    if parts == [] then None
    else if IsVersion(parts[|parts| - 1]) then Some(parts[|parts| - 1])
    else LastVersion(parts[..|parts| - 1])
  }

  /** The first part that names a schema family. */
  function FirstFamily(parts: seq<string>): (r: Option<string>)
    ensures r.Some? ==> r.value in parts && IsFamily(r.value)
    ensures r.None? <==> forall i :: 0 <= i < |parts| ==> !IsFamily(parts[i])
  {
    if parts == [] then None
    else if IsFamily(parts[0]) then Some(parts[0])
    else FirstFamily(parts[1..])
  }

  /** One more folder updates the last family folder and the last version folder. */
  lemma FamilyVersionStep(parts: seq<string>, i: nat)
    requires i < |parts|
    ensures LastFamily(parts[..i + 1]) == if IsFamily(parts[i]) then Some(parts[i]) else LastFamily(parts[..i])
    ensures LastVersion(parts[..i + 1]) == if IsVersion(parts[i]) then Some(parts[i]) else LastVersion(parts[..i])
  {
    assert parts[..i + 1][..i] == parts[..i];
  }

  /** When `parts[i]` is the last family folder, it is the one `LastFamily` returns. */
  lemma {:induction false} LastFamilyAt(parts: seq<string>, i: nat)
    requires i < |parts| && IsFamily(parts[i])
    requires forall j :: i < j < |parts| ==> !IsFamily(parts[j])
    ensures LastFamily(parts) == Some(parts[i])
    decreases |parts|
  {
    if i < |parts| - 1 {
      var init := parts[..|parts| - 1];
      assert init[i] == parts[i];
      LastFamilyAt(init, i);
    }
  }

  /** When `parts[i]` is the last version folder, it is the one `LastVersion` returns. */
  lemma {:induction false} LastVersionAt(parts: seq<string>, i: nat)
    requires i < |parts| && IsVersion(parts[i])
    requires forall j :: i < j < |parts| ==> !IsVersion(parts[j])
    ensures LastVersion(parts) == Some(parts[i])
    decreases |parts|
  {
    if i < |parts| - 1 {
      var init := parts[..|parts| - 1];
      assert init[i] == parts[i];
      LastVersionAt(init, i);
    }
  }

  /** When `parts[i]` is the first family folder, it is the one `FirstFamily` returns. */
  lemma {:induction false} FirstFamilyAt(parts: seq<string>, i: nat)
    requires i < |parts| && IsFamily(parts[i])
    requires forall j :: 0 <= j < i ==> !IsFamily(parts[j])
    ensures FirstFamily(parts) == Some(parts[i])
    decreases |parts|
  {
    if i > 0 {
      assert parts[1..][i - 1] == parts[i];
      FirstFamilyAt(parts[1..], i - 1);
    }
  }

  const BecknSchemas := "https://schemas.beckn.org/"

  const OcpiBase := "https://schemas.ocpi.org/2.2/"

  const OcppBase := "https://schemas.ocpp.org/2.0.1/"

  /** `f"https://schemas.beckn.org/{name}/"`, or with `{version}/` appended. */
  function FamilyBase(name: string, version: Option<string>): (r: string)
    ensures StartsWith(r, BecknSchemas) && EndsWith(r, "/")
  {
    var r := BecknSchemas + name + "/" + (if version.Some? then version.value + "/" else "");
    StartsWithAppend(BecknSchemas, name + "/" + (if version.Some? then version.value + "/" else ""), BecknSchemas);
    assert r == BecknSchemas + (name + "/" + (if version.Some? then version.value + "/" else ""));
    r
  }

  /** A binding of a scheme alone: stripping its separators leaves the scheme and its colon. */
  lemma SchemeOnlyStripped()
    ensures RStrip("https://", Separators) == "https:"
  {
    var s := "https://";
    assert s[..|s| - 1] == "https:/";
    assert "https:/"[..6] == "https:";
    assert RStrip(s, Separators) == RStrip("https:", Separators);
    assert "https:"[5] == ':';
  }

  /** The compact IRI `p:x` splits into the prefix `p` and the name `x`. */
  lemma SplitPX()
    ensures SplitOnce("p:x", ':') == ("p", "x")
  {
    assert "p:x"[..1] == "p" && "p:x"[2..] == "x";
    SplitOnceAt("p:x", ':', 1);
  }

  /** The fixed roots are absolute. */
  lemma ConstantBasesAbsolute()
    ensures IsAbsolute(OcpiBase) && IsAbsolute(OcppBase) && IsAbsolute(BecknSchemas)
  {
    assert OcpiBase[..8] == "https://";
    assert OcppBase[..8] == "https://";
    assert BecknSchemas[..8] == "https://";
  }

  lemma AbsoluteIsNotRelative(iri: string)
    ensures IsAbsolute(iri) ==> iri != "@id" && !StartsWith(iri, "./") && StartsWith(iri, "http")
  {
    if StartsWith(iri, "http://") {
      StartsWithTransitive(iri, "http://", "http");
      assert iri[0] == "http://"[0];
    } else if StartsWith(iri, "https://") {
      StartsWithTransitive(iri, "https://", "http");
      assert iri[0] == "https://"[0];
    }
  }

  lemma AbsoluteAppend(base: string, s: string)
    requires IsAbsolute(base)
    ensures IsAbsolute(base + s)
  {
    if StartsWith(base, "http://") {
      StartsWithAppend(base, s, "http://");
    } else {
      StartsWithAppend(base, s, "https://");
    }
  }

  lemma WithSlashAbsolute(s: string)
    requires IsAbsolute(s)
    ensures IsAbsolute(WithSlash(s))
  {
    if !EndsWith(s, "/") {
      AbsoluteAppend(s, "/");
    }
  }

  lemma FamilyIsNotVersion(part: string)
    ensures IsFamily(part) ==> !IsVersion(part)
  {
    if StartsWith(part, "Energy") {
      assert part[0] == "Energy"[0];
    } else if StartsWith(part, "EvCharging") {
      assert part[0] == "EvCharging"[0];
    }
  }
}
