/**
 * The JSON-LD context generator (scripts/generate_context.py): a `@vocab`
 * root chosen from the folder of the specification, and one term per
 * component schema, in sorted name order, each mapped to `"@id"` so that it
 * resolves to the root followed by the schema's name.
 */
module ContextGen {
  import opened OrderedDict
  import opened Text
  import opened Json
  import opened Iri
  import Vocab

  const VersionKey := "@version"
  const VocabKey := "@vocab"

  /** The `@version` entry; the float 1.1 is carried as the text it prints as. */
  const JsonLdVersion := JNum("1.1")

  /** What every schema term is mapped to. */
  const IdMarker := JStr("@id")

  /**
   * Lines 27-36: a given base is used as it is, even an empty or relative one;
   * otherwise the folder holding the specification decides.
   */
  function ContextBase(baseIri: Option<string>, folder: string): (r: string)
    ensures baseIri.Some? ==> r == baseIri.value
    ensures baseIri.None? && StartsWith(folder, "ocpi") ==> r == OcpiBase
    ensures baseIri.None? && StartsWith(folder, "ocpp") ==> r == OcppBase
    ensures baseIri.None? && !StartsWith(folder, "ocpi") && !StartsWith(folder, "ocpp") ==>
      r == Vocab.FolderRoot(folder)
  {
    match baseIri
    case Some(b) => b
    case None =>
      if StartsWith(folder, "ocpi") then OcpiBase
      else if StartsWith(folder, "ocpp") then
        assert !StartsWith(folder, "ocpi") by { assert folder[3] == 'p'; }
        OcppBase
      else Vocab.FolderRoot(folder)
  }

  /** An inferred base is an absolute IRI ending in `/`, so every term resolves under it. */
  lemma InferredBaseIsAbsolute(folder: string)
    ensures IsAbsolute(ContextBase(None, folder)) && EndsWith(ContextBase(None, folder), "/")
  {
    var r := ContextBase(None, folder);
    assert OcpiBase[..8] == "https://";
    assert OcppBase[..8] == "https://";
    assert r[..8] == "https://";
    assert r[|r| - 1..] == "/";
  }

  /**
   * For a lone folder outside any schema family, the context and the
   * vocabulary generator choose the same base.
   */
  lemma BaseAgreesWithVocabulary(folder: string)
    requires folder != "/" && !IsFamily(folder)
    ensures ContextBase(None, folder) == Vocab.BaseIri(None, [folder])
  {
    var parts := [folder];
    if !StartsWith(folder, "ocpi") && !StartsWith(folder, "ocpp") {
      assert Vocab.ProtocolRoot(parts, parts).None?;
      assert LastFamily(parts).None?;
    } else if StartsWith(folder, "ocpp") {
      assert folder[..4] == "ocpp";
      assert folder[0] == 'o' && folder[3] == 'p';
      assert !StartsWith(folder, "v") && !StartsWith(folder, "2.") && !StartsWith(folder, "1.");
      assert Vocab.OcppVersion(parts).None?;
    }
  }

  /** The header every context starts with: the JSON-LD version and the `@vocab` root. */
  function Header(base: string): (r: Object)
    ensures Keys(r) == [VersionKey, VocabKey]
    ensures Get(r, VocabKey) == Some(JStr(base))
  {
    [Entry(VersionKey, JsonLdVersion), Entry(VocabKey, JStr(base))]
  }

  /** `m[name] = "@id"` for each name in the order given. */
  function PutIds(m: Object, names: seq<string>): Object
    decreases |names|
  {
    if names == [] then m
    else Put(PutIds(m, names[..|names| - 1]), names[|names| - 1], IdMarker)
  }

  /** Lines 39-48: the header, then one `"@id"` term per name. */
  function ContextOf(base: string, names: seq<string>): Object {
    PutIds(Header(base), names)
  }

  /** Lines 38-48: the context of a specification, its schema names taken in sorted order. */
  function Context(base: string, schemas: Object): Object {
    ContextOf(base, Sort(Keys(schemas)))
  }

  /** A name that was put maps to `"@id"`, whatever came after it; any other key keeps its entry. */
  lemma {:induction false} PutIdsGet(m: Object, names: seq<string>, k: string)
    ensures Get(PutIds(m, names), k) == if k in names then Some(IdMarker) else Get(m, k)
    decreases |names|
  {
    if names != [] {
      var init := names[..|names| - 1];
      var last := names[|names| - 1];
      PutIdsGet(m, init, k);
      assert names == init + [last];
    }
  }

  /** Every schema name maps to `"@id"` ... */
  lemma NamesMapToId(base: string, names: seq<string>, n: string)
    requires n in names
    ensures Get(ContextOf(base, names), n) == Some(IdMarker)
  {
    PutIdsGet(Header(base), names, n);
  }

  /** ... and `@vocab` keeps the base unless a schema is itself named `@vocab`, whose `"@id"` then replaces it. */
  lemma VocabIsBase(base: string, names: seq<string>)
    ensures Get(ContextOf(base, names), VocabKey) == if VocabKey in names then Some(IdMarker) else Some(JStr(base))
  {
    PutIdsGet(Header(base), names, VocabKey);
  }

  /** No name occurs twice. */
  predicate Unique(ss: seq<string>) {
    forall i, j :: 0 <= i < j < |ss| ==> ss[i] != ss[j]
  }

  /** Neither header key is among the names. */
  predicate Unreserved(names: seq<string>) {
    VersionKey !in names && VocabKey !in names
  }

  /** Putting distinct names none of which is a key yet appends them as new keys, in the order given. */
  lemma {:induction false} PutIdsKeys(m: Object, names: seq<string>)
    requires Unique(names) && forall i :: 0 <= i < |names| ==> names[i] !in Keys(m)
    ensures Keys(PutIds(m, names)) == Keys(m) + names
    decreases |names|
  {
    if names != [] {
      var init := names[..|names| - 1];
      var n := names[|names| - 1];
      assert n !in Keys(m);
      assert n !in init by {
        assert forall i :: 0 <= i < |init| ==> init[i] == names[i] && names[i] != n;
      }
      assert forall i :: 0 <= i < |init| ==> init[i] !in Keys(m) by {
        assert forall i :: 0 <= i < |init| ==> init[i] == names[i];
      }
      PutIdsKeys(m, init);
      var r := PutIds(m, init);
      PutKeys(r, n, IdMarker);
      AppendLast(Keys(m), names);
    }
  }

  /** Appending a non-empty sequence is appending all but its last element, then that element. */
  lemma AppendLast(a: seq<string>, b: seq<string>)
    requires b != []
    ensures a + b == (a + b[..|b| - 1]) + [b[|b| - 1]]
  {
    assert b == b[..|b| - 1] + [b[|b| - 1]];
  }

  /** Distinct names that are not header keys become new terms, in the order given, after the header. */
  lemma ContextKeys(base: string, names: seq<string>)
    requires Unique(names) && Unreserved(names)
    ensures Keys(ContextOf(base, names)) == [VersionKey, VocabKey] + names
  {
    assert forall i :: 0 <= i < |names| ==> names[i] != VersionKey && names[i] != VocabKey;
    PutIdsKeys(Header(base), names);
  }

  /** Distinctness is a matter of multiplicities, so any permutation of distinct names is distinct. */
  lemma {:induction false} UniqueCounts(ss: seq<string>)
    ensures Unique(ss) <==> forall x :: multiset(ss)[x] <= 1
    decreases |ss|
  {
    if ss != [] {
      var t := ss[1..];
      assert ss == [ss[0]] + t;
      assert multiset(ss) == multiset{ss[0]} + multiset(t);
      UniqueCounts(t);
      if Unique(ss) {
        assert Unique(t) by {
          forall i, j | 0 <= i < j < |t| ensures t[i] != t[j] {
            assert t[i] == ss[i + 1] && t[j] == ss[j + 1];
          }
        }
        assert ss[0] !in t by {
          assert forall j :: 0 <= j < |t| ==> t[j] == ss[j + 1] && ss[j + 1] != ss[0];
        }
      } else {
        var i, j :| 0 <= i < j < |ss| && ss[i] == ss[j];
        if i == 0 {
          assert t[j - 1] == ss[0];
          assert multiset(ss)[ss[0]] >= 2;
        } else {
          assert t[i - 1] == t[j - 1];
          assert !Unique(t);
          var x :| multiset(t)[x] > 1;
          assert multiset(ss)[x] > 1;
        }
      }
    }
  }

  /** Distinct keys are distinct names. */
  lemma {:induction false} DistinctKeysUnique(m: Object)
    requires DistinctKeys(m)
    ensures Unique(Keys(m))
    decreases |m|
  {
    if m != [] {
      DistinctKeysUnique(m[1..]);
      var ks := Keys(m);
      assert ks == [m[0].key] + Keys(m[1..]);
      forall i, j | 0 <= i < j < |ks| ensures ks[i] != ks[j] {
        if i == 0 {
          assert ks[j] == Keys(m[1..])[j - 1];
        } else {
          assert ks[i] == Keys(m[1..])[i - 1] && ks[j] == Keys(m[1..])[j - 1];
        }
      }
    }
  }

  /**
   * Lines 47-48: for a specification whose schemas are not named like the
   * header keys, the terms follow the header in sorted order, one per schema.
   */
  lemma ContextTerms(base: string, schemas: Object)
    requires DistinctKeys(schemas) && Unreserved(Keys(schemas))
    ensures Keys(Context(base, schemas)) == [VersionKey, VocabKey] + Sort(Keys(schemas))
    ensures |Context(base, schemas)| == 2 + |schemas|
    ensures Sorted(Keys(Context(base, schemas))[2..])
  {
    var names := Sort(Keys(schemas));
    DistinctKeysUnique(schemas);
    UniqueCounts(Keys(schemas));
    UniqueCounts(names);
    assert Unreserved(names) by {
      assert multiset(names)[VersionKey] == multiset(Keys(schemas))[VersionKey];
      assert multiset(names)[VocabKey] == multiset(Keys(schemas))[VocabKey];
    }
    ContextKeys(base, names);
    assert Keys(Context(base, schemas))[2..] == names;
  }

  /** `generate_context` without its file handling: the base, the header, then one `"@id"` term per sorted schema name. */
  method GenerateContext(baseIri: Option<string>, folder: string, schemas: Object) returns (ctx: Object)
    ensures ctx == Context(ContextBase(baseIri, folder), schemas)
  {
    var base: string;
    if baseIri.Some? {
      base := baseIri.value;
    } else if StartsWith(folder, "ocpi") {
      base := OcpiBase;
    } else if StartsWith(folder, "ocpp") {
      base := OcppBase;
    } else {
      base := "https://schemas." + folder + "/";
    }
    ctx := [Entry(VersionKey, JsonLdVersion), Entry(VocabKey, JStr(base))];
    var names := Sort(Keys(schemas));
    for i := 0 to |names|
      invariant ctx == PutIds(Header(base), names[..i])
    {
      assert names[..i + 1][..i] == names[..i];
      ctx := Put(ctx, names[i], IdMarker);
    }
    assert names[..|names|] == names;
  }
}
