/**
 * The OCPP JSON-Schema to OpenAPI converter (scripts/convert_ocpp_json_to_openapi.py),
 * over all definitions at once: collecting them from the schema files, the
 * duplicate merge, the enumerations read from the CSV appendices, and the
 * OpenAPI document with its tags.
 */
module OcppDefinitions {
  import opened OrderedDict
  import opened Text
  import opened Json
  import opened OcppToOpenApi
  import Shapes

  /** Named definitions, in insertion order: the `components.schemas` dictionary being built. */
  type Definitions = seq<Entry<Object>>

  predicate HasDescription(d: Object) {
    Get(d, "description").Some?
  }

  /** The "more complete" heuristic: strictly more keys, or a description the other lacks. */
  predicate Richer(newcomer: Object, existing: Object) {
    |newcomer| > |existing| || (HasDescription(newcomer) && !HasDescription(existing))
  }

  /** One step of `merge_definitions`: a new name is appended; a known one is replaced only by a richer definition. */
  function MergeOne(merged: Definitions, e: Entry<Object>): (r: Definitions)
    ensures Keys(r) == if Get(merged, e.key).Some? then Keys(merged) else Keys(merged) + [e.key]
    ensures DistinctKeys(merged) ==> DistinctKeys(r)
    ensures forall k :: k != e.key ==> Get(r, k) == Get(merged, k)
    ensures Get(merged, e.key).None? ==> Get(r, e.key) == Some(e.value)
    ensures forall x :: Get(merged, e.key) == Some(x) ==> Get(r, e.key) == Some(if Richer(e.value, x) then e.value else x)
  {
    GetKeys(merged, e.key);
    PutKeys(merged, e.key, e.value);
    match Get(merged, e.key)
    case None => Put(merged, e.key, e.value)
    case Some(existing) => if Richer(e.value, existing) then Put(merged, e.key, e.value) else merged
  }

  /** `merge_definitions`: the definitions merged one at a time, in order. */
  function Merged(all: Definitions): Definitions
    decreases |all|
  {
    if all == [] then [] else MergeOne(Merged(all[..|all| - 1]), all[|all| - 1])
  }

  /** The first position of `k` in `ks`. */
  function FirstIndex(ks: seq<string>, k: string): (i: nat)
    requires k in ks
    ensures i < |ks| && ks[i] == k && k !in ks[..i]
  {
    if ks[0] == k then 0 else FirstIndex(ks[1..], k) + 1
  }

  lemma FirstIndexSnoc(ks: seq<string>, x: string, k: string)
    requires k in ks
    ensures FirstIndex(ks + [x], k) == FirstIndex(ks, k)
  {
    var i := FirstIndex(ks, k);
    assert (ks + [x])[i] == k;
  }

  /** Every name occurs in `ks`, and the names come in the order of their first occurrences there. */
  predicate FirstSeenOrder(names: seq<string>, ks: seq<string>) {
    (forall i :: 0 <= i < |names| ==> names[i] in ks) &&
    forall i, j :: 0 <= i < j < |names| ==> FirstIndex(ks, names[i]) < FirstIndex(ks, names[j])
  }

  lemma FirstSeenOrderSnoc(names: seq<string>, ks: seq<string>, x: string)
    requires FirstSeenOrder(names, ks)
    ensures FirstSeenOrder(names, ks + [x])
    ensures x !in ks ==> FirstSeenOrder(names + [x], ks + [x])
  {
    forall i | 0 <= i < |names| ensures FirstIndex(ks + [x], names[i]) == FirstIndex(ks, names[i]) < |ks| {
      FirstIndexSnoc(ks, x, names[i]);
    }
    if x !in ks {
      assert FirstIndex(ks + [x], x) == |ks|;
    }
  }

  /** Lines 92-109: the merge holds every name given, and each only once. */
  lemma {:induction false} MergedNames(all: Definitions)
    ensures DistinctKeys(Merged(all))
    ensures forall k :: Get(Merged(all), k).Some? <==> k in Keys(all)
    decreases |all|
  {
    if all != [] {
      var p := all[..|all| - 1];
      var e := all[|all| - 1];
      assert all == p + [e];
      KeysSnoc(p, e);
      MergedNames(p);
    }
  }

  /** Lines 92-109: the merged names come in the order they were first seen. */
  lemma {:induction false} MergedOrder(all: Definitions)
    ensures FirstSeenOrder(Keys(Merged(all)), Keys(all))
    decreases |all|
  {
    if all != [] {
      var p := all[..|all| - 1];
      var e := all[|all| - 1];
      assert all == p + [e];
      KeysSnoc(p, e);
      MergedOrder(p);
      MergedNames(p);
      GetKeys(p, e.key);
      FirstSeenOrderSnoc(Keys(Merged(p)), Keys(p), e.key);
    }
  }

  /** Lines 92-109: on input whose names are all distinct the merge changes nothing. */
  lemma {:induction false} MergedDistinct(all: Definitions)
    requires DistinctKeys(all)
    ensures Merged(all) == all
    decreases |all|
  {
    if all != [] {
      var p := all[..|all| - 1];
      var e := all[|all| - 1];
      assert all == p + [e];
      DistinctKeysSnoc(p, e);
      MergedDistinct(p);
      GetKeys(p, e.key);
      PutAbsent(p, e.key, e.value);
    }
  }

  /** `merge_definitions`: the loop filling the `merged` ordered dictionary. */
  method MergeDefinitions(all: Definitions) returns (merged: Definitions)
    ensures merged == Merged(all)
  {
    merged := [];
    var i := 0;
    while i < |all|
      invariant 0 <= i <= |all|
      invariant merged == Merged(all[..i])
    {
      var e := all[i];
      assert all[..i + 1][..i] == all[..i];
      match Get(merged, e.key) {
        case None =>
          merged := Put(merged, e.key, e.value);
        case Some(existing) =>
          if |e.value| > |existing| {
            merged := Put(merged, e.key, e.value);
          } else if HasDescription(e.value) && !HasDescription(existing) {
            merged := Put(merged, e.key, e.value);
          }
      }
      i := i + 1;
    }
    assert all[..i] == all;
  }

  /*
   * Collecting the definitions of the schema files (`process_json_schemas`).
   */

  /** One JSON-Schema file: its name without the `.json` suffix and its parsed content. */
  datatype SchemaFile = SchemaFile(stem: string, data: Json)

  /**
   * The definitions of one file converted in order, up to the first whose
   * conversion raises: the exception leaves the loop, and the file's
   * remaining definitions are skipped.
   */
  function ConvertedDefinitions(t: CopyTable, defs: Object): (r: Definitions)
    requires Separate(t)
    ensures |r| <= |defs|
    decreases |defs|
  {
    if defs == [] then []
    else match ConvertJsonSchema(t, defs[0].value)
      case None => []
      case Some(o) => [Entry(defs[0].key, o)] + ConvertedDefinitions(t, defs[1..])
  }

  /** The definitions kept are a prefix of the file's, each converted; the next one, if any, is the one that raised. */
  lemma {:induction false} ConvertedDefinitionsPrefix(t: CopyTable, defs: Object)
    requires Separate(t)
    ensures var r := ConvertedDefinitions(t, defs);
      forall i :: 0 <= i < |r| ==> r[i].key == defs[i].key && ConvertJsonSchema(t, defs[i].value) == Some(r[i].value)
    ensures var r := ConvertedDefinitions(t, defs);
      |r| < |defs| ==> ConvertJsonSchema(t, defs[|r|].value).None?
    decreases |defs|
  {
    if defs != [] && ConvertJsonSchema(t, defs[0].value).Some? {
      var tail := defs[1..];
      ConvertedDefinitionsPrefix(t, tail);
      var rest := ConvertedDefinitions(t, tail);
      var r := [Entry(defs[0].key, ConvertJsonSchema(t, defs[0].value).value)] + rest;
      assert r == ConvertedDefinitions(t, defs);
      forall i | 0 < i < |r| ensures r[i].key == defs[i].key && ConvertJsonSchema(t, defs[i].value) == Some(r[i].value) {
        assert r[i] == rest[i - 1] && defs[i] == tail[i - 1];
      }
    }
  }

  /**
   * Lines 246-250: the converted definitions of one file. Only a dictionary
   * with a dictionary under `definitions` contributes; anything else either
   * has no such key or raises, and the file is skipped.
   */
  function FileDefinitions(t: CopyTable, data: Json): (r: Definitions)
    requires Separate(t)
    ensures !data.JObj? ==> r == []
    ensures data.JObj? && Get(data.fields, t.definitions).Some? && Get(data.fields, t.definitions).value.JObj? ==>
      r == ConvertedDefinitions(t, Get(data.fields, t.definitions).value.fields)
  {
    if data.JObj? then
      match Get(data.fields, t.definitions)
      case Some(defs) => if defs.JObj? then ConvertedDefinitions(t, defs.fields) else []
      case None => []
    else []
  }

  /** Every file's definitions, file by file. */
  function PerFile(t: CopyTable, files: seq<SchemaFile>): (r: seq<Definitions>)
    requires Separate(t)
    ensures |r| == |files|
    ensures forall i :: 0 <= i < |files| ==> r[i] == FileDefinitions(t, files[i].data)
  {
    seq(|files|, i requires 0 <= i < |files| => FileDefinitions(t, files[i].data))
  }

  /** The message types: one per file, in file order. */
  function Stems(files: seq<SchemaFile>): (r: seq<string>)
    ensures |r| == |files|
    ensures forall i :: 0 <= i < |files| ==> r[i] == files[i].stem
  {
    seq(|files|, i requires 0 <= i < |files| => files[i].stem)
  }

  /** Assigning every definition into `m` in turn. */
  function PutAll(m: Definitions, defs: Definitions): (r: Definitions)
    ensures DistinctKeys(m) ==> DistinctKeys(r)
    decreases |defs|
  {
    if defs == [] then m
    else
      var e := defs[|defs| - 1];
      var p := PutAll(m, defs[..|defs| - 1]);
      PutKeys(p, e.key, e.value);
      Put(p, e.key, e.value)
  }

  /**
   * Lines 236-250 as written: every definition is assigned into the one
   * dictionary `all_definitions`, so a later file's definition of a name
   * replaces an earlier one before the merge ever sees both.
   */
  function CollectLastWins(files: seq<Definitions>): (r: Definitions)
    ensures DistinctKeys(r)
    decreases |files|
  {
    if files == [] then [] else PutAll(CollectLastWins(files[..|files| - 1]), files[|files| - 1])
  }

  /** The corrected collection: every file's definitions, duplicates included, for the merge to resolve. */
  function CollectAll(files: seq<Definitions>): Definitions
    decreases |files|
  {
    if files == [] then [] else CollectAll(files[..|files| - 1]) + files[|files| - 1]
  }

  /** The corrected collection keeps every definition of every file, and nothing else. */
  lemma {:induction false} CollectAllContents(files: seq<Definitions>)
    ensures forall i, e :: 0 <= i < |files| && e in files[i] ==> e in CollectAll(files)
    ensures forall e :: e in CollectAll(files) ==> exists i :: 0 <= i < |files| && e in files[i]
    decreases |files|
  {
    if files != [] {
      var init := files[..|files| - 1];
      CollectAllContents(init);
      assert forall i :: 0 <= i < |init| ==> init[i] == files[i];
    }
  }

  /** The definition a list gives `k` last, if any. */
  function Latest(defs: Definitions, k: string): Option<Object>
    decreases |defs|
  {
    if defs == [] then None
    else if defs[|defs| - 1].key == k then Some(defs[|defs| - 1].value)
    else Latest(defs[..|defs| - 1], k)
  }

  /** A list gives a name a last definition exactly when the name is one of its keys. */
  lemma {:induction false} LatestDefined(defs: Definitions, k: string)
    ensures Latest(defs, k).Some? <==> k in Keys(defs)
    decreases |defs|
  {
    if defs != [] {
      var init := defs[..|defs| - 1];
      var e := defs[|defs| - 1];
      assert defs == init + [e];
      KeysSnoc(init, e);
      LatestDefined(init, k);
    }
  }

  /** Assigning a list of definitions in order leaves each name with the last definition the list gives it. */
  lemma {:induction false} PutAllGet(m: Definitions, defs: Definitions, k: string)
    ensures Get(PutAll(m, defs), k) == if Latest(defs, k).Some? then Latest(defs, k) else Get(m, k)
    decreases |defs|
  {
    if defs != [] {
      PutAllGet(m, defs[..|defs| - 1], k);
    }
  }

  /** The last definition of `k` in two lists in turn is the second list's, if it has one. */
  lemma {:induction false} LatestAppend(a: Definitions, b: Definitions, k: string)
    ensures Latest(a + b, k) == if Latest(b, k).Some? then Latest(b, k) else Latest(a, k)
    decreases |b|
  {
    if b == [] {
      assert a + b == a;
    } else {
      var ab := a + b;
      var init := b[..|b| - 1];
      assert ab[..|ab| - 1] == a + init;
      assert ab[|ab| - 1] == b[|b| - 1];
      LatestAppend(a, init, k);
    }
  }

  /**
   * As written, each name holds the last definition any file gives it, taking
   * the files in order: the duplicates the merge was meant to weigh are gone.
   */
  lemma {:induction false} CollectLastWinsGet(files: seq<Definitions>, k: string)
    ensures Get(CollectLastWins(files), k) == Latest(CollectAll(files), k)
    decreases |files|
  {
    if files != [] {
      var init := files[..|files| - 1];
      var f := files[|files| - 1];
      CollectLastWinsGet(init, k);
      PutAllGet(CollectLastWins(init), f, k);
      LatestAppend(CollectAll(init), f, k);
    }
  }

  /** As written, the merge is handed distinct names only, so its heuristic never applies. */
  lemma MergeIsIdentityAsWritten(files: seq<Definitions>)
    ensures Merged(CollectLastWins(files)) == CollectLastWins(files)
  {
    MergedDistinct(CollectLastWins(files));
  }

  /** As written, a later file's definition of a name always wins, however much less complete it is. */
  lemma LastFileWinsAsWritten(files: seq<Definitions>, name: string, d: Object)
    ensures Get(Merged(CollectLastWins(files + [[Entry(name, d)]])), name) == Some(d)
  {
    var fs := files + [[Entry(name, d)]];
    assert fs[..|fs| - 1] == files;
    assert |[Entry(name, d)][..0]| == 0;
    MergeIsIdentityAsWritten(fs);
  }

  /** Corrected: a later file's definition of a known name replaces it only when it is richer. */
  lemma CorrectedMergeKeepsRicher(files: seq<Definitions>, name: string, existing: Object, d: Object)
    requires Get(Merged(CollectAll(files)), name) == Some(existing)
    ensures Get(Merged(CollectAll(files + [[Entry(name, d)]])), name) == Some(if Richer(d, existing) then d else existing)
  {
    var fs := files + [[Entry(name, d)]];
    assert fs[..|fs| - 1] == files;
    var all := CollectAll(fs);
    assert all == CollectAll(files) + [Entry(name, d)];
    assert all[..|all| - 1] == CollectAll(files);
  }

  /** Two files define `A`; the first with a description, the second bare. */
  const DescribedA: seq<Definitions> := [[Entry("A", [Entry("description", JStr("a"))])], [Entry("A", [])]]

  /** As written, the bare definition wins. */
  lemma DescribedLostAsWritten()
    ensures Get(Merged(CollectLastWins(DescribedA)), "A") == Some([])
  {
    LastFileWinsAsWritten([DescribedA[0]], "A", []);
    assert [DescribedA[0]] + [[Entry("A", [])]] == DescribedA;
  }

  /** The first file of `DescribedA` alone: its definition of `A` is merged as it is. */
  lemma FirstDescribedFile()
    ensures Get(Merged(CollectAll([DescribedA[0]])), "A") == Some([Entry("description", JStr("a"))])
  {
    var first: Definitions := DescribedA[0];
    var files: seq<Definitions> := [first];
    assert |files[..0]| == 0 && |first[..0]| == 0;
    assert CollectAll(files) == first;
    var none: Definitions := [];
    assert Merged(first) == MergeOne(none, first[0]) == first;
  }

  /** Corrected, the described definition is kept. */
  lemma DescribedKeptCorrected()
    ensures Get(Merged(CollectAll(DescribedA)), "A") == Some([Entry("description", JStr("a"))])
  {
    var described: Object := [Entry("description", JStr("a"))];
    FirstDescribedFile();
    assert HasDescription(described) && !Richer([], described);
    CorrectedMergeKeepsRicher([DescribedA[0]], "A", described, []);
    assert [DescribedA[0]] + [[Entry("A", [])]] == DescribedA;
  }

  /**
   * Lines 260-264: every merged definition with its `$ref`s rewritten and its
   * nested `definitions` dropped, under the same names in the same order.
   */
  function FinalDefinitions(t: CopyTable, defs: Definitions): (r: Definitions)
    ensures Keys(r) == Keys(defs)
    ensures forall i :: 0 <= i < |r| ==> JObj(r[i].value) == ConvertRefs(t, JObj(defs[i].value))
  {
    seq(|defs|, i requires 0 <= i < |defs| => Entry(defs[i].key, ConvertRefs(t, JObj(defs[i].value)).fields))
  }

  /** Every final definition is free of nested `definitions` and of references into them. */
  lemma FinalDefinitionsClean(t: CopyTable, defs: Definitions)
    ensures forall i :: 0 <= i < |defs| ==>
      NoDefinitions(t, JObj(FinalDefinitions(t, defs)[i].value)) && NoDraftRefs(t, JObj(FinalDefinitions(t, defs)[i].value))
  {
    var r := FinalDefinitions(t, defs);
    forall i | 0 <= i < |defs| ensures NoDefinitions(t, JObj(r[i].value)) && NoDraftRefs(t, JObj(r[i].value)) {
      RefsDropDefinitions(t, JObj(defs[i].value));
      RefsRewritten(t, JObj(defs[i].value));
    }
  }

  /** What `process_json_schemas` returns. */
  datatype Processed = Processed(definitions: Definitions, messageTypes: seq<string>)

  /** Looking a name up in the final definitions finds its definition with references rewritten. */
  lemma {:induction false} FinalDefinitionsGet(t: CopyTable, defs: Definitions, k: string)
    ensures Get(FinalDefinitions(t, defs), k) == if Get(defs, k).Some? then Some(ConvertRefs(t, JObj(Get(defs, k).value)).fields) else None
    decreases |defs|
  {
    if defs != [] {
      var r := FinalDefinitions(t, defs);
      var tail := FinalDefinitions(t, defs[1..]);
      assert r[1..] == tail by {
        assert |r[1..]| == |tail|;
        forall i | 0 <= i < |tail| ensures r[1..][i] == tail[i] {
          assert r[1..][i].key == defs[i + 1].key == defs[1..][i].key;
        }
      }
      FinalDefinitionsGet(t, defs[1..], k);
    }
  }

  /**
   * `process_json_schemas` over the files in sorted order, as written: each
   * definition assigned into one dictionary (line 250), then the merge, the
   * CSV enumerations and the reference rewriting.
   */
  function ProcessJsonSchemas(t: CopyTable, files: seq<SchemaFile>, appendices: Option<seq<CsvFile>>): (r: Processed)
    requires Separate(t)
    ensures r.messageTypes == Stems(files)
    ensures r.definitions == FinalDefinitions(t, EnhanceAll(CollectLastWins(PerFile(t, files)), appendices))
    ensures forall i :: 0 <= i < |r.definitions| ==>
      NoDefinitions(t, JObj(r.definitions[i].value)) && NoDraftRefs(t, JObj(r.definitions[i].value))
  {
    var collected := CollectLastWins(PerFile(t, files));
    MergeIsIdentityAsWritten(PerFile(t, files));
    var enhanced := EnhanceAll(Merged(collected), appendices);
    FinalDefinitionsClean(t, enhanced);
    Processed(FinalDefinitions(t, enhanced), Stems(files))
  }

  /**
   * Without appendices, the output defines exactly the names some file
   * defines, each as the last file defining it gives it, references rewritten.
   */
  lemma ProcessedDefinition(t: CopyTable, files: seq<SchemaFile>, k: string)
    requires Separate(t)
    ensures var last := Latest(CollectAll(PerFile(t, files)), k);
      Get(ProcessJsonSchemas(t, files, None).definitions, k) ==
        if last.Some? then Some(ConvertRefs(t, JObj(last.value)).fields) else None
  {
    CollectLastWinsGet(PerFile(t, files), k);
    FinalDefinitionsGet(t, CollectLastWins(PerFile(t, files)), k);
  }

  /*
   * Enumerations from the CSV appendices (`load_enum_from_csv`, `enhance_definitions_from_csv`).
   */

  /** One parsed CSV row: the cell under each column name the row has. */
  type Row = seq<Entry<string>>

  /** A CSV file as read with one delimiter: its header and its rows. */
  datatype CsvTable = CsvTable(fieldnames: seq<string>, rows: seq<Row>)

  /** An appendix file: its name and its content read with `;` and with `,` as delimiter. */
  datatype CsvFile = CsvFile(name: string, semicolon: CsvTable, comma: CsvTable)

  /** The cell of `row` under `col` when it is present and non-empty. */
  function Cell(row: Row, col: string): (r: seq<string>)
    ensures |r| <= 1
    ensures r != [] <==> Get(row, col).Some? && Get(row, col).value != []
    ensures r != [] ==> r[0] == Get(row, col).value
  {
    match Get(row, col)
    case Some(v) => if v != [] then [v] else []
    case None => []
  }

  /** `[row[col] for row in rows if row.get(col)]`. */
  function ColumnValues(rows: seq<Row>, col: string): (r: seq<string>)
    ensures |r| <= |rows|
    ensures forall i :: 0 <= i < |r| ==> r[i] != []
  {
    if rows == [] then [] else Cell(rows[0], col) + ColumnValues(rows[1..], col)
  }

  /** Every value is the cell of some row under the column. */
  lemma {:induction false} ColumnValuesFromColumn(rows: seq<Row>, col: string)
    ensures forall v :: v in ColumnValues(rows, col) ==> exists i :: 0 <= i < |rows| && Get(rows[i], col) == Some(v)
    decreases |rows|
  {
    if rows != [] {
      ColumnValuesFromColumn(rows[1..], col);
      forall v | v in ColumnValues(rows[1..], col) ensures exists i :: 0 <= i < |rows| && Get(rows[i], col) == Some(v) {
        var i :| 0 <= i < |rows[1..]| && Get(rows[1..][i], col) == Some(v);
        assert rows[i + 1] == rows[1..][i];
      }
    }
  }

  /** Row order is kept: the values of two blocks of rows are the values of each, in turn. */
  lemma {:induction false} ColumnValuesAppend(a: seq<Row>, b: seq<Row>, col: string)
    ensures ColumnValues(a + b, col) == ColumnValues(a, col) + ColumnValues(b, col)
    decreases |a|
  {
    if a != [] {
      ColumnValuesAppend(a[1..], b, col);
      assert (a + b)[1..] == a[1..] + b;
      assert (a + b)[0] == a[0];
      assert ColumnValues(a + b, col) == Cell(a[0], col) + ColumnValues(a[1..] + b, col);
    } else {
      assert a + b == b;
    }
  }

  /** Where the values are read from: a column of the `;` or of the `,` reading, or nowhere. */
  datatype Column = NoColumn | Column(comma: bool, name: string)

  /**
   * Lines 157-180: the column choice. `valueColumn` is the override (empty when
   * none is given); then `Value`; then the first column. When the chosen column
   * is not in the `;` header, the `,` reading is tried with the same order.
   */
  function ChooseColumn(valueColumn: string, semicolon: CsvTable, comma: CsvTable): (r: Column)
    ensures r.Column? ==> r.name in (if r.comma then comma.fieldnames else semicolon.fieldnames)
    ensures valueColumn != [] && valueColumn in semicolon.fieldnames ==> r == Column(false, valueColumn)
    ensures valueColumn == [] && "Value" in semicolon.fieldnames ==> r == Column(false, "Value")
    ensures valueColumn == [] && semicolon.fieldnames != [] ==> r.Column? && !r.comma
    ensures r.Column? && r.comma ==> valueColumn != [] && valueColumn !in semicolon.fieldnames
    ensures r.NoColumn? <==>
      (valueColumn == [] && semicolon.fieldnames == []) ||
      (valueColumn != [] && valueColumn !in semicolon.fieldnames && comma.fieldnames == [])
  {
    var col :=
      if valueColumn != [] then valueColumn
      else if "Value" in semicolon.fieldnames then "Value"
      else if |semicolon.fieldnames| > 0 then semicolon.fieldnames[0]
      else [];
    if valueColumn == [] && semicolon.fieldnames == [] then NoColumn
    else if col in semicolon.fieldnames then Column(false, col)
    else if valueColumn != [] && valueColumn in comma.fieldnames then Column(true, valueColumn)
    else if "Value" in comma.fieldnames then Column(true, "Value")
    else if |comma.fieldnames| > 0 then Column(true, comma.fieldnames[0])
    else NoColumn
  }

  /** The enumeration values of a CSV file: the non-empty cells of the chosen column, in row order. */
  function CsvValues(valueColumn: string, semicolon: CsvTable, comma: CsvTable): (r: seq<string>)
    ensures ChooseColumn(valueColumn, semicolon, comma).NoColumn? ==> r == []
    ensures ChooseColumn(valueColumn, semicolon, comma).Column? ==>
      r == ColumnValues(if ChooseColumn(valueColumn, semicolon, comma).comma then comma.rows else semicolon.rows,
                        ChooseColumn(valueColumn, semicolon, comma).name)
  {
    match ChooseColumn(valueColumn, semicolon, comma)
    case NoColumn => []
    case Column(c, name) => ColumnValues(if c then comma.rows else semicolon.rows, name)
  }

  /** `Path(name).stem`: the name without its last suffix. */
  function Stem(name: string): (r: string)
    ensures |r| <= |name| && r == name[..|r|]
    ensures '.' !in name ==> r == name
  {
    var ext := LastSegment(name, '.');
    if ext != [] && |ext| + 1 < |name| then name[..|name| - |ext| - 1] else name
  }

  const EnumTypeSuffix := "EnumType"

  /**
   * Lines 141-148: the override when one is given; otherwise the file stem's
   * `_`-separated words capitalized and joined, with `EnumType` appended
   * unless the name already ends with it.
   */
  function EnumTypeName(override: string, stem: string): (r: string)
    ensures override != [] ==> r == override
    ensures override == [] ==> EndsWith(r, EnumTypeSuffix) && StartsWith(r, TitleWords(stem))
    ensures override == [] ==> (r == TitleWords(stem) <==> EndsWith(TitleWords(stem), EnumTypeSuffix))
  {
    if override != [] then override
    else
      var name := TitleWords(stem);
      if EndsWith(name, EnumTypeSuffix) then name
      else
        assert (name + EnumTypeSuffix)[..|name|] == name;
        assert (name + EnumTypeSuffix)[|name|..] == EnumTypeSuffix;
        name + EnumTypeSuffix
  }

  /** A single-word stem never already ends with `EnumType`, whose `T` capitalization lower-cases. */
  lemma SingleWordEnumTypeName(stem: string)
    requires '_' !in stem
    ensures EnumTypeName("", stem) == Capitalize(stem) + EnumTypeSuffix
  {
    var n := |stem|;
    if n >= |EnumTypeSuffix| {
      assert Capitalize(stem)[n - 4] == Lower(stem[1..])[n - 5] == LowerChar(stem[n - 4]) != EnumTypeSuffix[4];
      assert Capitalize(stem)[n - |EnumTypeSuffix|..][4] == Capitalize(stem)[n - 4];
    }
  }

  /**
   * The derivation cannot recover the words of a lower-case stem: the comment
   * at line 145 gives `ConnectorEnumType` as the name for `connectorenumtype`,
   * which the code does not produce.
   */
  lemma ConnectorStemName()
    ensures EnumTypeName("", "connectorenumtype") != "ConnectorEnumType"
  {
    SingleWordEnumTypeName("connectorenumtype");
  }

  /** `load_enum_from_csv`: the enumeration's name and its values. */
  function LoadEnumFromCsv(f: CsvFile, override: string, valueColumn: string): (r: (string, seq<string>))
    ensures override != [] ==> r.0 == override
    ensures r.1 == CsvValues(valueColumn, f.semicolon, f.comma)
  {
    (EnumTypeName(override, Stem(f.name)), CsvValues(valueColumn, f.semicolon, f.comma))
  }

  /** The enumeration type and value column assigned to an appendix file. */
  datatype CsvEnum = CsvEnum(typeName: string, valueColumn: string)

  /** Lines 194-206: the appendix files read, keyed by lower-cased file name. */
  const CsvEnumMapping: seq<Entry<CsvEnum>> := [
    Entry("connectorenumtype.csv", CsvEnum("ConnectorEnumType", "Value")),
    Entry("idtokenenumtype.csv", CsvEnum("IdTokenEnumType", "Value")),
    Entry("charginglimitsourceenumtype.csv", CsvEnum("ChargingLimitSourceEnumType", "Value")),
    Entry("units_of_measure.csv", CsvEnum("UnitOfMeasureEnumType", "Value")),
    Entry("additional_info_types.csv", CsvEnum("AdditionalInfoTypeEnumType", "additionalInfo.type")),
    Entry("additional_info_types_adhoc.csv", CsvEnum("AdditionalInfoTypeAdHocEnumType", "additionalInfo.type")),
    Entry("paymentbrand.csv", CsvEnum("PaymentBrandEnumType", "PaymentBrand")),
    Entry("paymentrecognition.csv", CsvEnum("PaymentRecognitionEnumType", "PaymentRecognition")),
    Entry("signingmethod.csv", CsvEnum("SigningMethodEnumType", "SigningMethod"))
  ]

  /** Lines 220-225: the definition created for an enumeration the schemas do not define. */
  function EnumDefinition(values: seq<string>, fileName: string): (r: Object)
    ensures Keys(r) == ["type", "additionalProperties", "enum", "description"]
    ensures Get(r, "type") == Some(JStr("string")) && Get(r, "enum") == Some(JArr(Strings(values)))
    ensures Get(r, "additionalProperties") == Some(JBool(false))
    ensures Get(r, "description") == Some(JStr("Enumeration values from " + fileName))
  {
    var r := [Entry("type", JStr("string")),
      Entry("additionalProperties", JBool(false)),
      Entry("enum", JArr(Strings(values))),
      Entry("description", JStr("Enumeration values from " + fileName))];
    assert "enum"[0] != "type"[0] && "enum"[0] != "additionalProperties"[0];
    assert "description"[0] != "type"[0] && "description"[0] != "additionalProperties"[0] && "description"[0] != "enum"[0];
    assert r[1..][1..] == r[2..] && r[2..][1..] == r[3..];
    assert Get(r, "enum") == Get(r[2..], "enum");
    assert Get(r, "description") == Get(r[2..], "description") == Get(r[3..], "description");
    r
  }

  /**
   * Lines 213-227: the CSV values become the enumeration's `enum`. An existing
   * definition keeps its place and every other field; an absent one is
   * appended; no values change nothing.
   */
  function WithCsvEnum(defs: Definitions, name: string, values: seq<string>, fileName: string): (r: Definitions)
    ensures values == [] ==> r == defs
    ensures values != [] ==> Keys(r) == if Get(defs, name).Some? then Keys(defs) else Keys(defs) + [name]
    ensures forall k :: k != name ==> Get(r, k) == Get(defs, k)
    ensures values != [] && Get(defs, name).None? ==> Get(r, name) == Some(EnumDefinition(values, fileName))
    ensures values != [] && Get(defs, name).Some? ==>
      Get(r, name).Some? &&
      Get(Get(r, name).value, "enum") == Some(JArr(Strings(values))) &&
      forall k :: k != "enum" ==> Get(Get(r, name).value, k) == Get(Get(defs, name).value, k)
  {
    GetKeys(defs, name);
    if values == [] then defs
    else match Get(defs, name)
      case Some(d) =>
        PutKeys(defs, name, Put(d, "enum", JArr(Strings(values))));
        Put(defs, name, Put(d, "enum", JArr(Strings(values))))
      case None =>
        PutKeys(defs, name, EnumDefinition(values, fileName));
        Put(defs, name, EnumDefinition(values, fileName))
  }

  /** One appendix file applied: a mapped file contributes its values; any other file is ignored. */
  function EnhanceOne(defs: Definitions, f: CsvFile): (r: Definitions)
    ensures Get(CsvEnumMapping, Lower(f.name)).None? ==> r == defs
    ensures forall m :: Get(CsvEnumMapping, Lower(f.name)) == Some(m) ==>
      r == WithCsvEnum(defs, m.typeName, CsvValues(m.valueColumn, f.semicolon, f.comma), f.name)
  {
    match Get(CsvEnumMapping, Lower(f.name))
    case None => defs
    case Some(m) => WithCsvEnum(defs, m.typeName, CsvValues(m.valueColumn, f.semicolon, f.comma), f.name)
  }

  /** The appendix files applied in turn. */
  function EnhanceFiles(defs: Definitions, files: seq<CsvFile>): Definitions
    decreases |files|
  {
    if files == [] then defs else EnhanceOne(EnhanceFiles(defs, files[..|files| - 1]), files[|files| - 1])
  }

  /** `enhance_definitions_from_csv`: nothing changes without an appendices directory. */
  function EnhanceAll(defs: Definitions, appendices: Option<seq<CsvFile>>): (r: Definitions)
    ensures appendices.None? ==> r == defs
  {
    match appendices
    case None => defs
    case Some(files) => EnhanceFiles(defs, files)
  }

  /** The enhancement only adds names: every name defined before is still defined, in the same place. */
  lemma {:induction false} EnhanceKeepsNames(defs: Definitions, files: seq<CsvFile>)
    ensures |Keys(EnhanceFiles(defs, files))| >= |Keys(defs)|
    ensures Keys(EnhanceFiles(defs, files))[..|defs|] == Keys(defs)
    decreases |files|
  {
    if files != [] {
      EnhanceKeepsNames(defs, files[..|files| - 1]);
      var p := EnhanceFiles(defs, files[..|files| - 1]);
      var ks := Keys(EnhanceOne(p, files[|files| - 1]));
      assert ks[..|p|] == Keys(p);
      assert ks[..|defs|] == Keys(p)[..|defs|];
    }
  }

  /** The definitions dictionary that `enhance_definitions_from_csv` updates in place. */
  class DefinitionTable {
    var defs: Definitions

    constructor (initial: Definitions)
      ensures defs == initial
    {
      defs := initial;
    }

    /** Lines 213-227 for one enumeration. */
    method ApplyCsvEnum(name: string, values: seq<string>, fileName: string)
      modifies this
      ensures defs == WithCsvEnum(old(defs), name, values, fileName)
    {
      if values != [] {
        match Get(defs, name) {
          case Some(d) =>
            defs := Put(defs, name, Put(d, "enum", JArr(Strings(values))));
          case None =>
            defs := Put(defs, name, EnumDefinition(values, fileName));
        }
      }
    }

    /** Lines 208-227 for one file: a mapped file is loaded and its values applied; any other file is skipped. */
    method ApplyCsvFile(f: CsvFile)
      modifies this
      ensures defs == EnhanceOne(old(defs), f)
    {
      match Get(CsvEnumMapping, Lower(f.name)) {
        case Some(m) =>
          var (_, values) := LoadEnumFromCsv(f, m.typeName, m.valueColumn);
          ApplyCsvEnum(m.typeName, values, f.name);
        case None =>
      }
    }

    /** Lines 207-227: the appendix files in the order given. */
    method EnhanceFromCsv(files: seq<CsvFile>)
      modifies this
      ensures defs == EnhanceFiles(old(defs), files)
    {
      var i := 0;
      while i < |files|
        invariant 0 <= i <= |files|
        invariant defs == EnhanceFiles(old(defs), files[..i])
      {
        assert files[..i + 1][..i] == files[..i];
        ApplyCsvFile(files[i]);
        i := i + 1;
      }
      assert files[..i] == files;
    }

    /** `enhance_definitions_from_csv`. */
    method EnhanceDefinitionsFromCsv(appendices: Option<seq<CsvFile>>)
      modifies this
      ensures defs == EnhanceAll(old(defs), appendices)
    {
      if appendices.Some? {
        EnhanceFromCsv(appendices.value);
      }
    }
  }

  /*
   * The OpenAPI document (`create_openapi_spec`).
   */

  /** One entry of the document's `tags`. */
  datatype Tag = Tag(name: string, displayName: string, description: string)

  /** Lines 274-280: the tag of one message type. */
  function TagFor(msgType: string): (r: Tag)
    ensures r.name == Lower(msgType)
    ensures r.displayName == Concat(CapitalizeAll(Split(msgType, '_')))
    ensures r.description == "<SchemaDefinition schemaRef=\"" + Shapes.ComponentsPrefix + msgType + "\" />"
  {
    var prefix := "<SchemaDefinition schemaRef=\"" + Shapes.ComponentsPrefix;
    Tag(Lower(msgType), TitleWords(msgType), prefix + msgType + "\" />")
  }

  /** The document `create_openapi_spec` builds; `paths` is always empty. */
  datatype OpenApiDocument = OpenApiDocument(openapi: string, title: string, version: string, tags: seq<Tag>, schemas: Definitions)

  /** `create_openapi_spec`: one tag per message type, in sorted order, and the definitions as `components.schemas`. */
  method CreateOpenApiSpec(definitions: Definitions, messageTypes: seq<string>, version: string) returns (spec: OpenApiDocument)
    ensures spec.openapi == "3.1.0" && spec.title == "OCPP JSON Schemas" && spec.version == version
    ensures spec.schemas == definitions
    ensures |spec.tags| == |messageTypes|
    ensures forall i :: 0 <= i < |spec.tags| ==> spec.tags[i] == TagFor(Sort(messageTypes)[i])
  {
    var sorted := Sort(messageTypes);
    var tags: seq<Tag> := [];
    var i := 0;
    while i < |sorted|
      invariant 0 <= i <= |sorted|
      invariant |tags| == i
      invariant forall k :: 0 <= k < i ==> tags[k] == TagFor(sorted[k])
    {
      var msgType := sorted[i];
      ghost var before := tags;
      tags := tags + [Tag(Lower(msgType), TitleWords(msgType), "<SchemaDefinition schemaRef=\"" + Shapes.ComponentsPrefix + msgType + "\" />")];
      assert tags[i] == TagFor(msgType) && forall k :: 0 <= k < i ==> tags[k] == before[k];
      i := i + 1;
    }
    spec := OpenApiDocument("3.1.0", "OCPP JSON Schemas", version, tags, definitions);
  }
}
