/**
 * The mock mode of the older artifact client, used when no database credentials are set:
 * artifact records mapped to the database schema and kept in an insertion-ordered
 * dictionary under the keys "artifact_<id>", with ids drawn from a counter that starts at 1.
 */
module SupabaseClient {
  import opened Wrappers
  import opened Json
  import PyDict
  import Strings
  import Seqs
  import Config

  /** A stored record: column name to value. */
  type Record = PyDict.Dict<string, Json>

  /** The mock store: key to record, in insertion order. */
  type MockData = PyDict.Dict<string, Record>

  /** The MD5 hex digest of a file's bytes, or `None` where opening or reading it raises. */
  type FileDigest = string -> Option<string>

  // ---------------------------------------------------------------------------------
  // Mapping an artifact to the database schema

  /** The columns of a mapped record, in the order the mapping lists them. */
  function DbFields(): (r: seq<string>)
    ensures |r| == 17 && forall i :: 0 <= i < |r| ==> r[i] == FieldName(i)
  {
    seq(17, i requires 0 <= i => FieldName(i))
  }

  /** The name of column `i`. */
  function FieldName(i: nat): string
  {
    match i
    case 0 => "file_hash"
    case 1 => "file_name"
    case 2 => "name_en"
    case 3 => "name_ar"
    case 4 => "name_fr"
    case 5 => "creator"
    case 6 => "creation_date"
    case 7 => "materials"
    case 8 => "origin"
    case 9 => "description"
    case 10 => "category"
    case 11 => "source_page"
    case 12 => "source_document"
    case 13 => "name_validation"
    case 14 => "ocr_model"
    case 15 => "extraction_model"
    case _ => "processing_params_hash"
  }

  /** The keys `name_en` is read from, in order of preference. */
  const NAME_EN_KEYS: seq<string> := ["name_english", "name", "Name"]

  /** The names of the columns the lemmas below single out. */
  lemma FieldNames()
    ensures FieldName(0) == "file_hash" && FieldName(2) == "name_en" && FieldName(11) == "source_page"
      && FieldName(14) == "ocr_model"
  {
  }

  /** No column is listed twice, and none is the id column. */
  lemma DbFieldsDistinct()
    ensures forall i, j :: 0 <= i < j < |DbFields()| ==> DbFields()[i] != DbFields()[j]
    ensures "id" !in DbFields()
  {
  }

  /** `a.get(keys[0], a.get(keys[1], ... a.get(keys[n - 1], last)))`: the value of the first
      of `keys` that `a` has, or `last` when it has none of them. */
  function Lookup(a: Record, keys: seq<string>, last: Json): Json
  {
    if keys == [] then last else Member(a, keys[0], Lookup(a, keys[1..], last))
  }

  /** The lookup yields the value of the first key present. */
  lemma {:induction false} LookupFirstPresent(a: Record, keys: seq<string>, last: Json)
    ensures forall j :: 0 <= j < |keys| && PyDict.HasKey(a, keys[j]) && (forall i :: 0 <= i < j ==> !PyDict.HasKey(a, keys[i])) ==>
      PyDict.Get(a, keys[j]) == Some(Lookup(a, keys, last))
  {
    if keys != [] {
      LookupFirstPresent(a, keys[1..], last);
      assert forall j :: 0 < j < |keys| ==> keys[j] == keys[1..][j - 1];
    }
  }

  /** The lookup of keys none of which is present yields `last`. */
  lemma {:induction false} LookupNonePresent(a: Record, keys: seq<string>, last: Json)
    requires forall j :: 0 <= j < |keys| ==> !PyDict.HasKey(a, keys[j])
    ensures Lookup(a, keys, last) == last
  {
    if keys != [] {
      assert forall j :: 0 <= j < |keys| - 1 ==> keys[1..][j] == keys[j + 1];
      LookupNonePresent(a, keys[1..], last);
    }
  }

  /** `param or fallback` for an optional string argument. */
  function OrElse(param: Option<string>, fallback: Json): (r: Json)
    ensures Given(param) ==> r == JStr(param.value)
    ensures !Given(param) ==> r == fallback
  {
    if Given(param) then JStr(param.value) else fallback
  }

  /** The value of column `i`: `a.get(...)` of the names it is read from, or the default. */
  function ColumnValue(a: Record, fileHash: string, fileName: string, ocrModel: Option<string>,
                       extractionModel: Option<string>, paramsHash: Option<string>, i: nat): Json
  {
    match i
    case 0 => Member(a, "file_hash", JStr(fileHash))
    case 1 => Member(a, "file_name", JStr(fileName))
    case 2 => Lookup(a, NAME_EN_KEYS, Empty)
    case 3 => Lookup(a, ["name_arabic", "Name_AR"], Empty)
    case 4 => Lookup(a, ["name_french", "Name_FR"], Empty)
    case 5 => Lookup(a, ["creator", "Creator"], Empty)
    case 6 => Lookup(a, ["period", "creation_date", "Creation Date"], Empty)
    case 7 => Lookup(a, ["material", "materials", "Materials"], Empty)
    case 8 => Lookup(a, ["origin", "Origin"], Empty)
    case 9 => Lookup(a, ["description", "Description"], Empty)
    case 10 => Lookup(a, ["category", "Category"], Empty)
    case 11 => Lookup(a, ["page_number", "source_page"], JInt(0))
    case 12 => Member(a, "source_document", JStr(fileName))
    case 13 => Member(a, "name_validation", Empty)
    case 14 => OrElse(ocrModel, Member(a, "ocr_model", JStr("default_ocr")))
    case 15 => OrElse(extractionModel, Member(a, "extraction_model", JStr(Config.GPT_4O_MINI)))
    case _ => OrElse(paramsHash, Member(a, "processing_params_hash", Empty))
  }

  /** The value of every column, before `None` values are dropped. */
  function DbValues(a: Record, fileHash: string, fileName: string, ocrModel: Option<string>,
                    extractionModel: Option<string>, paramsHash: Option<string>): (v: seq<Json>)
    ensures |v| == |DbFields()|
  {
    seq(|DbFields()|, i requires 0 <= i < |DbFields()| => ColumnValue(a, fileHash, fileName, ocrModel, extractionModel, paramsHash, i))
  }

  predicate NotNull(j: Json)
  {
    !j.JNull?
  }

  /** The record of the column values, without the columns whose value is `None`. */
  function Mapped(values: seq<Json>): Record
    requires |values| == |DbFields()|
  {
    PyDict.FilterValues(PyDict.FromLists(DbFields(), values), NotNull)
  }

  /** A mapped record has only schema columns, and none of them holds `None`. */
  lemma MappedColumns(values: seq<Json>)
    requires |values| == |DbFields()|
    ensures forall i :: 0 <= i < |Mapped(values)| ==> Mapped(values)[i].0 in DbFields() && !Mapped(values)[i].1.JNull?
  {
    var d := PyDict.FromLists(DbFields(), values);
    var r := Mapped(values);
    forall i | 0 <= i < |r|
      ensures r[i].0 in DbFields()
    {
      var j :| 0 <= j < |d| && d[j] == r[i];
      assert d[j].0 == DbFields()[j];
    }
  }

  /** `_map_artifact_to_db`: the artifact as a record of the schema's columns, with the file's
      digest and base name when a path is given (opening the file may raise), and no column
      whose value is `None`. */
  function MapArtifactToDb(a: Record, filePath: Option<string>, ocrModel: Option<string>,
                           extractionModel: Option<string>, paramsHash: Option<string>,
                           md5: FileDigest): (r: Outcome<Record>)
    ensures r.Raised? <==> Given(filePath) && md5(filePath.value).None?
  {
    match FileColumns(filePath, md5)
    case Raised => Raised
    case Ok((h, name)) => Ok(Mapped(DbValues(a, h, name, ocrModel, extractionModel, paramsHash)))
  }

  /** The digest and the base name of a given file (reading it may raise), or "" and "". */
  function FileColumns(filePath: Option<string>, md5: FileDigest): (r: Outcome<(string, string)>)
    ensures r.Raised? <==> Given(filePath) && md5(filePath.value).None?
    ensures r.Ok? && Given(filePath) ==> r.value.0 == md5(filePath.value).value
  {
    if !Given(filePath) then Ok(("", ""))
    else if md5(filePath.value).None? then Raised
    else Ok((md5(filePath.value).value, Strings.Basename(filePath.value)))
  }

  /** Column `i` of a mapped record holds value `i` unless that value is `None`, in which case
      the record has no such column; no column is bound twice, and there is no id column. */
  lemma MappedField(values: seq<Json>, i: nat)
    requires |values| == |DbFields()| && i < |DbFields()|
    ensures PyDict.Get(Mapped(values), FieldName(i)) == if values[i].JNull? then None else Some(values[i])
    ensures PyDict.Unique(Mapped(values))
    ensures !PyDict.HasKey(Mapped(values), "id")
  {
    DbFieldsDistinct();
    var d := PyDict.FromLists(DbFields(), values);
    assert PyDict.Unique(d);
    PyDict.GetFromLists(DbFields(), values, i);
    PyDict.GetFilterValues(d, NotNull, DbFields()[i]);
    PyDict.FilterValuesUnique(d, NotNull);
  }

  /** `name_en` is taken from name_english, else name, else Name, else "", and is absent when
      the chosen value is `None`. */
  lemma MappedNameEn(a: Record, filePath: Option<string>, ocrModel: Option<string>, extractionModel: Option<string>,
                     paramsHash: Option<string>, md5: FileDigest)
    requires !Given(filePath) || md5(filePath.value).Some?
    ensures var v := Lookup(a, NAME_EN_KEYS, Empty);
      PyDict.Get(MapArtifactToDb(a, filePath, ocrModel, extractionModel, paramsHash, md5).value, "name_en") ==
        if v.JNull? then None else Some(v)
  {
    FieldNames();
    var cols := FileColumns(filePath, md5).value;
    var values := DbValues(a, cols.0, cols.1, ocrModel, extractionModel, paramsHash);
    assert MapArtifactToDb(a, filePath, ocrModel, extractionModel, paramsHash, md5) == Ok(Mapped(values));
    assert values[2] == Lookup(a, NAME_EN_KEYS, Empty);
    MappedField(values, 2);
  }

  // ---------------------------------------------------------------------------------
  // The store's keys and ids

  const ARTIFACT_PREFIX := "artifact_"

  /** The key a record with id `id` is stored under. */
  function ArtifactKey(id: nat): (k: string)
    ensures IsArtifactKey(k)
  {
    ARTIFACT_PREFIX + Strings.NatToString(id)
  }

  /** `k.startswith("artifact_")`. */
  predicate IsArtifactKey(k: string)
  {
    Strings.StartsWith(k, ARTIFACT_PREFIX)
  }

  /** Different ids are stored under different keys. */
  lemma ArtifactKeyInjective(a: nat, b: nat)
    requires ArtifactKey(a) == ArtifactKey(b)
    ensures a == b
  {
    var n := |ARTIFACT_PREFIX|;
    assert ArtifactKey(a)[n..] == Strings.NatToString(a);
    assert ArtifactKey(b)[n..] == Strings.NatToString(b);
    Strings.NatToStringInjective(a, b);
  }

  /** `record.get("id") == id`, with Python's `True == 1`. */
  predicate HasId(rec: Record, id: int)
  {
    Key(Member(rec, "id", JNull)) == JInt(id)
  }

  /** The test of the id loops: an artifact entry whose record has that id. */
  function IdMatch(id: int): ((string, Record)) -> bool
  {
    (e: (string, Record)) => IsArtifactKey(e.0) && HasId(e.1, id)
  }

  /** An artifact entry stored under its own id, which the counter has passed. */
  predicate StoredUnder(e: (string, Record), counter: nat)
  {
    var id := Member(e.1, "id", JNull);
    id.JInt? && 1 <= id.i < counter && e.0 == ArtifactKey(id.i)
  }

  /** What the mock store keeps true: the counter is positive, no key is bound twice, and every
      artifact entry is stored under its own id, which is below the counter. */
  ghost predicate Consistent(d: MockData, counter: nat)
  {
    1 <= counter && PyDict.Unique(d) &&
    forall i :: 0 <= i < |d| && IsArtifactKey(d[i].0) ==> StoredUnder(d[i], counter)
  }

  /** Ids are unique: two artifact entries of a consistent store have different ids, and the
      counter's key is not yet in use. */
  lemma IdsUnique(d: MockData, counter: nat)
    requires Consistent(d, counter)
    ensures forall i, j :: 0 <= i < j < |d| && IsArtifactKey(d[i].0) && IsArtifactKey(d[j].0) ==>
      Member(d[i].1, "id", JNull) != Member(d[j].1, "id", JNull)
  {
  }

  /** The counter's key is not yet in use, and no stored record has the counter as its id. */
  lemma CounterIsFresh(d: MockData, counter: nat)
    requires Consistent(d, counter)
    ensures !PyDict.HasKey(d, ArtifactKey(counter))
    ensures forall i :: 0 <= i < |d| ==> !IdMatch(counter)(d[i])
  {
    var x := PyDict.IndexOf(d, ArtifactKey(counter));
    if x >= 0 {
      ArtifactKeyInjective(Member(d[x].1, "id", JNull).i, counter);
    }
  }

  /** Adding a record under the counter's key, with the counter as its id, and moving the
      counter on keeps the store consistent. */
  lemma AddKeepsConsistent(d: MockData, counter: nat, rec: Record)
    requires Consistent(d, counter) && Member(rec, "id", JNull) == JInt(counter)
    ensures Consistent(d + [(ArtifactKey(counter), rec)], counter + 1)
  {
    CounterIsFresh(d, counter);
    var e := d + [(ArtifactKey(counter), rec)];
    assert forall i :: 0 <= i < |d| ==> e[i] == d[i];
    assert PyDict.Unique(e) by {
      forall i | 0 <= i < |d|
        ensures d[i].0 != ArtifactKey(counter)
      {
        var x := PyDict.IndexOf(d, ArtifactKey(counter));
      }
    }
  }

  /** Replacing a record by one with the same id keeps the store consistent. */
  lemma ReplaceKeepsConsistent(d: MockData, counter: nat, i: nat, v: Record)
    requires Consistent(d, counter) && i < |d| && Member(v, "id", JNull) == Member(d[i].1, "id", JNull)
    ensures Consistent(d[i := (d[i].0, v)], counter)
  {
  }

  // ---------------------------------------------------------------------------------
  // Queries

  /** What the comprehension `[v for k, v in items() if k.startswith("artifact_")]` does
      with one entry. */
  function ArtifactEntry(e: (string, Record)): Seqs.Verdict<Record>
  {
    if IsArtifactKey(e.0) then Seqs.Keep(e.1) else Seqs.Skip
  }

  /** The artifact records, in insertion order. */
  function ArtifactRecords(d: MockData): seq<Record>
  {
    Seqs.Kept(d, ArtifactEntry)
  }

  /** A record added under an artifact key is listed last. */
  lemma AddedIsListedLast(d: MockData, id: nat, rec: Record)
    ensures ArtifactRecords(d + [(ArtifactKey(id), rec)]) == ArtifactRecords(d) + [rec]
  {
    assert (d + [(ArtifactKey(id), rec)])[..|d|] == d;
  }

  /** Mock `list_artifacts`: the records from `offset` to `offset + limit`. */
  function ListArtifacts(d: MockData, limit: int, offset: int): (r: seq<Record>)
    ensures 0 <= offset && 0 <= limit ==>
      |r| <= limit && forall j :: 0 <= j < |r| ==> offset + j < |ArtifactRecords(d)| && r[j] == ArtifactRecords(d)[offset + j]
    ensures 0 <= offset && 0 <= limit && offset + limit <= |ArtifactRecords(d)| ==> |r| == limit
  {
    Seqs.Slice(ArtifactRecords(d), offset, offset + limit)
  }

  /** The filters of mock `search_artifacts`; a filter that is `None` or "" is not applied. */
  datatype Filters = Filters(searchTerm: Option<string>, category: Option<string>,
                             creator: Option<string>, origin: Option<string>)

  /** `needle.lower() in str(record.get(field, "")).lower()`. */
  predicate Mentions(rec: Record, field: string, needle: string, repr: Json -> string)
  {
    Strings.Contains(Strings.Lower(PyStr(Member(rec, field, Empty), repr)), Strings.Lower(needle))
  }

  /** A record passes every filter that is set: name, creator and origin by case-insensitive
      substring, the category by equality. */
  predicate Passes(rec: Record, f: Filters, repr: Json -> string)
  {
    (!Given(f.searchTerm) || Mentions(rec, "name_en", f.searchTerm.value, repr))
    && (!Given(f.category) || Member(rec, "category", JNull) == JStr(f.category.value))
    && (!Given(f.creator) || Mentions(rec, "creator", f.creator.value, repr))
    && (!Given(f.origin) || Mentions(rec, "origin", f.origin.value, repr))
  }

  function Passing(f: Filters, repr: Json -> string): Record -> bool
  {
    (rec: Record) => Passes(rec, f, repr)
  }

  /** Mock `search_artifacts`: the passing records, then the slice. */
  function Search(d: MockData, f: Filters, limit: int, offset: int, repr: Json -> string): (r: seq<Record>)
    ensures |r| <= |ArtifactRecords(d)|
    ensures 0 <= offset && 0 <= limit ==> |r| <= limit
  {
    Seqs.Slice(Seqs.Filter(ArtifactRecords(d), Passing(f, repr)), offset, offset + limit)
  }

  /** Every result passes every filter that is set and is a stored artifact record, and every
      artifact record that passes is among the matches before slicing. */
  lemma SearchResultsPass(d: MockData, f: Filters, limit: int, offset: int, repr: Json -> string)
    ensures forall j :: 0 <= j < |Search(d, f, limit, offset, repr)| ==>
      Passes(Search(d, f, limit, offset, repr)[j], f, repr) && Search(d, f, limit, offset, repr)[j] in ArtifactRecords(d)
    ensures forall k :: 0 <= k < |ArtifactRecords(d)| && Passes(ArtifactRecords(d)[k], f, repr) ==>
      ArtifactRecords(d)[k] in Seqs.Filter(ArtifactRecords(d), Passing(f, repr))
  {
    Seqs.FilterExact(ArtifactRecords(d), Passing(f, repr));
  }

  /** A search with no filter set is the listing. */
  lemma UnfilteredSearchIsListing(d: MockData, limit: int, offset: int, repr: Json -> string)
    ensures Search(d, Filters(None, None, None, None), limit, offset, repr) == ListArtifacts(d, limit, offset)
  {
    Seqs.FilterAll(ArtifactRecords(d), Passing(Filters(None, None, None, None), repr));
  }

  /** The test of the page loop: an artifact entry with that file digest and source page. */
  function PageMatch(fileHash: string, page: int): ((string, Record)) -> bool
  {
    (e: (string, Record)) => IsArtifactKey(e.0) && Member(e.1, "file_hash", JNull) == JStr(fileHash)
      && Key(Member(e.1, "source_page", JNull)) == JInt(page)
  }

  // ---------------------------------------------------------------------------------
  // Statistics

  /** The keys a `set` built from `values` holds. */
  function KeySet(values: seq<Json>): (s: set<Json>)
    ensures |s| <= |values|
    ensures forall i :: 0 <= i < |values| ==> Key(values[i]) in s
    ensures forall k :: k in s ==> exists i :: 0 <= i < |values| && Key(values[i]) == k
  {
    if values == [] then {}
    else
      var init := values[..|values| - 1];
      var s := KeySet(init);
      assert forall i :: 0 <= i < |init| ==> values[i] == init[i];
      s + {Key(values[|values| - 1])}
  }

  /** Some value cannot be put in a set. */
  predicate Unhashable(values: seq<Json>)
  {
    exists i :: 0 <= i < |values| && !Hashable(values[i])
  }

  /** `len(set(values))`, or `None` where a value cannot be hashed. */
  function DistinctCount(values: seq<Json>): (r: Option<nat>)
    ensures r.Some? <==> forall i :: 0 <= i < |values| ==> Hashable(values[i])
    ensures r.Some? ==> r.value <= |values| && (r.value == 0 <==> values == [])
  {
    if forall i :: 0 <= i < |values| ==> Hashable(values[i]) then
      if values != [] then
        assert Key(values[0]) in KeySet(values);
        Some(|KeySet(values)|)
      else Some(|KeySet(values)|)
    else None
  }

  /** `record.get(field, default)` for every record. */
  function Column(recs: seq<Record>, field: string, default: Json): (r: seq<Json>)
    ensures |r| == |recs| && forall i :: 0 <= i < |recs| ==> r[i] == Member(recs[i], field, default)
  {
    seq(|recs|, i requires 0 <= i < |recs| => Member(recs[i], field, default))
  }

  /** What `(a.get(field, "") for a in artifacts if a.get(field))` does with one record. */
  function TruthyValue(field: string): Record -> Seqs.Verdict<Json>
  {
    (rec: Record) => if Truthy(Member(rec, field, JNull)) then Seqs.Keep(Member(rec, field, Empty)) else Seqs.Skip
  }

  datatype Statistics = Statistics(totalArtifacts: nat, uniqueFiles: nat, categoriesCount: nat,
                                   creatorsCount: nat, originsCount: nat)

  /** Mock `get_statistics`: the number of artifact records, of distinct file digests, and of
      distinct non-empty categories, creators and origins; it raises when one of those values
      cannot be put in a set. */
  function GetStatistics(d: MockData): (r: Outcome<Statistics>)
    ensures r.Ok? ==> r.value.totalArtifacts == |ArtifactRecords(d)|
    ensures r.Ok? ==> (r.value.uniqueFiles == 0 <==> ArtifactRecords(d) == [])
    ensures r.Ok? ==>
      var recs := ArtifactRecords(d);
      && r.value.uniqueFiles == |KeySet(Column(recs, "file_hash", Empty))|
      && r.value.categoriesCount == |KeySet(Seqs.Kept(recs, TruthyValue("category")))|
      && r.value.creatorsCount == |KeySet(Seqs.Kept(recs, TruthyValue("creator")))|
      && r.value.originsCount == |KeySet(Seqs.Kept(recs, TruthyValue("origin")))|
    ensures r.Raised? <==>
      var recs := ArtifactRecords(d);
      || Unhashable(Column(recs, "file_hash", Empty))
      || Unhashable(Seqs.Kept(recs, TruthyValue("category")))
      || Unhashable(Seqs.Kept(recs, TruthyValue("creator")))
      || Unhashable(Seqs.Kept(recs, TruthyValue("origin")))
  {
    var recs := ArtifactRecords(d);
    var files := DistinctCount(Column(recs, "file_hash", Empty));
    var categories := DistinctCount(Seqs.Kept(recs, TruthyValue("category")));
    var creators := DistinctCount(Seqs.Kept(recs, TruthyValue("creator")));
    var origins := DistinctCount(Seqs.Kept(recs, TruthyValue("origin")));
    if files.None? || categories.None? || creators.None? || origins.None? then Raised
    else Ok(Statistics(|recs|, files.value, categories.value, creators.value, origins.value))
  }

  /** No count exceeds the number of records, and there is at least one file exactly when
      there is a record. */
  lemma StatisticsBounds(d: MockData)
    requires GetStatistics(d).Ok?
    ensures var s := GetStatistics(d).value;
      s.uniqueFiles <= s.totalArtifacts && s.categoriesCount <= s.totalArtifacts
      && s.creatorsCount <= s.totalArtifacts && s.originsCount <= s.totalArtifacts
      && (s.uniqueFiles == 0 <==> s.totalArtifacts == 0)
  {
    var recs := ArtifactRecords(d);
    assert |Seqs.Kept(recs, TruthyValue("category"))| <= |recs|;
  }

  /** The count of distinct values of a column is 0 exactly when no record has a non-empty
      value there. */
  lemma {:induction false} NoCategoriesCounted(d: MockData)
    requires GetStatistics(d).Ok?
    ensures GetStatistics(d).value.categoriesCount == 0 <==>
      forall i :: 0 <= i < |ArtifactRecords(d)| ==> !Truthy(Member(ArtifactRecords(d)[i], "category", JNull))
  {
    var recs := ArtifactRecords(d);
    var check := TruthyValue("category");
    Seqs.KeptInOrder(recs, check);
    if Seqs.Kept(recs, check) != [] {
      var p := Seqs.KeptPositions(recs, check)[0];
      assert check(recs[p]).Keep?;
    }
  }

  // ---------------------------------------------------------------------------------
  // The store

  class MockArtifactStore {
    var mockData: MockData
    var counter: nat

    ghost predicate Valid()
      reads this
    {
      Consistent(mockData, counter)
    }

    /** A store in mock mode: empty, with the counter at 1. */
    constructor ()
      ensures Valid() && mockData == [] && counter == 1
    {
      mockData := [];
      counter := 1;
    }

    /** Mock `add_artifact`: the mapped record gets the counter as its id and is stored under
        that id's key, and the counter moves on. A mapping that raises changes nothing. */
    method AddArtifact(a: Record, filePath: Option<string>, ocrModel: string, extractionModel: string,
                       paramsHash: string, md5: FileDigest) returns (r: Outcome<Record>)
      requires Valid()
      modifies this
      ensures Valid()
      ensures match MapArtifactToDb(a, filePath, Some(ocrModel), Some(extractionModel), Some(paramsHash), md5)
        case Raised => r.Raised? && mockData == old(mockData) && counter == old(counter)
        case Ok(db) =>
          r == Ok(PyDict.Set(db, "id", JInt(old(counter))))
          && mockData == old(mockData) + [(ArtifactKey(old(counter)), r.value)]
          && counter == old(counter) + 1
    {
      var mapped := MapArtifactToDb(a, filePath, Some(ocrModel), Some(extractionModel), Some(paramsHash), md5);
      if mapped.Raised? {
        return Raised;
      }
      var rec := PyDict.Set(mapped.value, "id", JInt(counter));
      var key := ArtifactKey(counter);
      CounterIsFresh(mockData, counter);
      AddKeepsConsistent(mockData, counter, rec);
      PyDict.SetPositions(mockData, key, rec);
      mockData := PyDict.Set(mockData, key, rec);
      counter := counter + 1;
      r := Ok(rec);
    }

    /** Mock `get_artifact`: the first artifact record with that id, or the empty record. */
    method GetArtifact(id: int) returns (r: Record)
      ensures var i := Seqs.FirstIndex(mockData, IdMatch(id));
        r == if i < 0 then [] else mockData[i].1
    {
      var i := Seqs.FindFirst(mockData, IdMatch(id));
      r := if i < 0 then [] else mockData[i].1;
    }

    /** Mock `update_artifact`: the first artifact record with that id takes every column of
        the mapped updates, defaults included, and keeps the rest (its id among them); no
        record with that id leaves the store alone and yields the empty record. */
    method UpdateArtifact(id: int, updates: Record, filePath: Option<string>, md5: FileDigest)
      returns (r: Outcome<Record>)
      requires Valid()
      modifies this
      ensures Valid() && counter == old(counter)
      ensures var i := Seqs.FirstIndex(old(mockData), IdMatch(id));
        if i < 0 then r == Ok([]) && mockData == old(mockData)
        else match MapArtifactToDb(updates, filePath, None, None, None, md5)
          case Raised => r.Raised? && mockData == old(mockData)
          case Ok(u) =>
            r == Ok(PyDict.Update(old(mockData)[i].1, u))
            && mockData == old(mockData)[i := (old(mockData)[i].0, r.value)]
    {
      var i := Seqs.FindFirst(mockData, IdMatch(id));
      if i < 0 {
        return Ok([]);
      }
      var cols := FileColumns(filePath, md5);
      if cols.Raised? {
        return Raised;
      }
      var values := DbValues(updates, cols.value.0, cols.value.1, None, None, None);
      var v := PyDict.Update(mockData[i].1, Mapped(values));
      UpdateKeepsId(mockData[i].1, values);
      ReplaceKeepsConsistent(mockData, counter, i, v);
      mockData := mockData[i := (mockData[i].0, v)];
      r := Ok(v);
    }

    /** Mock `delete_artifact`: removes the first artifact record with that id and reports
        whether there was one. */
    method DeleteArtifact(id: int) returns (r: bool)
      requires Valid()
      modifies this
      ensures Valid() && counter == old(counter)
      ensures var i := Seqs.FirstIndex(old(mockData), IdMatch(id));
        r == (i >= 0) && mockData == if i < 0 then old(mockData) else old(mockData)[..i] + old(mockData)[i + 1..]
    {
      var i := Seqs.FindFirst(mockData, IdMatch(id));
      if i < 0 {
        return false;
      }
      PyDict.RemoveAt(mockData, i);
      DeleteKeepsConsistent(mockData, counter, i);
      mockData := PyDict.Remove(mockData, mockData[i].0);
      r := true;
    }

    /** Mock `search_artifacts`. */
    method SearchArtifacts(f: Filters, limit: int, offset: int, repr: Json -> string) returns (r: seq<Record>)
      ensures r == Search(mockData, f, limit, offset, repr)
    {
      var artifacts := ArtifactRecords(mockData);
      var filtered := [];
      var k := 0;
      while k < |artifacts|
        invariant 0 <= k <= |artifacts|
        invariant filtered == Seqs.Filter(artifacts[..k], Passing(f, repr))
      {
        Seqs.FilterStep(artifacts, k, Passing(f, repr));
        assert Passing(f, repr)(artifacts[k]) == Passes(artifacts[k], f, repr);
        if Passes(artifacts[k], f, repr) {
          filtered := filtered + [artifacts[k]];
        }
        k := k + 1;
      }
      assert artifacts[..k] == artifacts;
      r := Seqs.Slice(filtered, offset, offset + limit);
    }

    /** Mock `check_page_processed` (the later of its two definitions, which is the one in
        effect): whether some artifact record has the file's digest and that source page. */
    method CheckPageProcessed(filePath: string, page: int, md5: FileDigest) returns (r: Outcome<bool>)
      ensures md5(filePath).None? ==> r.Raised?
      ensures md5(filePath).Some? ==>
        r == Ok(exists i :: 0 <= i < |mockData| && PageMatch(md5(filePath).value, page)(mockData[i]))
    {
      var h := md5(filePath);
      if h.None? {
        return Raised;
      }
      var i := Seqs.FindFirst(mockData, PageMatch(h.value, page));
      r := Ok(i >= 0);
    }
  }

  // ---------------------------------------------------------------------------------
  // What the operations keep and undo

  /** An update overwrites every column the mapped updates have, keeps every other column,
      and in particular keeps the id. */
  lemma UpdateKeepsId(v: Record, values: seq<Json>)
    requires |values| == |DbFields()|
    ensures var u := Mapped(values);
      (forall k :: PyDict.Get(PyDict.Update(v, u), k) == if PyDict.HasKey(u, k) then PyDict.Get(u, k) else PyDict.Get(v, k))
      && PyDict.Get(PyDict.Update(v, u), "id") == PyDict.Get(v, "id")
  {
    var u := Mapped(values);
    MappedField(values, 0);
    forall k {
      PyDict.GetUpdate(v, u, k);
    }
  }

  /** An update whose fields say nothing about the OCR model resets it to "default_ocr". */
  lemma UpdateResetsOcrModel(v: Record, updates: Record, filePath: Option<string>, md5: FileDigest)
    requires !Given(filePath) || md5(filePath.value).Some?
    requires !PyDict.HasKey(updates, "ocr_model")
    ensures PyDict.Get(PyDict.Update(v, MapArtifactToDb(updates, filePath, None, None, None, md5).value), "ocr_model")
      == Some(JStr("default_ocr"))
  {
    FieldNames();
    var cols := FileColumns(filePath, md5).value;
    var values := DbValues(updates, cols.0, cols.1, None, None, None);
    assert MapArtifactToDb(updates, filePath, None, None, None, md5) == Ok(Mapped(values));
    assert values[14] == JStr("default_ocr");
    MappedField(values, 14);
    var u := Mapped(values);
    assert PyDict.Get(u, "ocr_model") == Some(JStr("default_ocr"));
    UpdateKeepsId(v, values);
  }

  /** Removing one entry keeps the store consistent. */
  lemma DeleteKeepsConsistent(d: MockData, counter: nat, i: nat)
    requires Consistent(d, counter) && i < |d|
    ensures Consistent(d[..i] + d[i + 1..], counter)
  {
    var r := d[..i] + d[i + 1..];
    assert forall n :: 0 <= n < |r| ==> r[n] == (if n < i then d[n] else d[n + 1]);
  }

  /** A record just added is the one found by its id. */
  lemma AddThenGet(d: MockData, counter: nat, rec: Record)
    requires Consistent(d, counter) && Member(rec, "id", JNull) == JInt(counter)
    ensures Seqs.FirstIndex(d + [(ArtifactKey(counter), rec)], IdMatch(counter)) == |d|
  {
    CounterIsFresh(d, counter);
    var e := d + [(ArtifactKey(counter), rec)];
    assert forall i :: 0 <= i < |d| ==> e[i] == d[i];
    assert IdMatch(counter)(e[|d|]);
  }

  /** After a delete, no artifact record has the deleted id. */
  lemma DeleteThenGet(d: MockData, counter: nat, id: int)
    requires Consistent(d, counter) && Seqs.FirstIndex(d, IdMatch(id)) >= 0
    ensures var i := Seqs.FirstIndex(d, IdMatch(id));
      Seqs.FirstIndex(d[..i] + d[i + 1..], IdMatch(id)) < 0
  {
    var i := Seqs.FirstIndex(d, IdMatch(id));
    var r := d[..i] + d[i + 1..];
    IdsUnique(d, counter);
    forall n | 0 <= n < |r|
      ensures !IdMatch(id)(r[n])
    {
      if n >= i {
        assert r[n] == d[n + 1];
      }
    }
  }

  /** A page whose artifact was just added with its file's digest and that source page is
      reported processed. */
  lemma AddedPageIsProcessed(d: MockData, counter: nat, a: Record, filePath: string, ocrModel: string,
                             extractionModel: string, paramsHash: string, md5: FileDigest, page: int)
    requires filePath != "" && md5(filePath).Some?
    requires !PyDict.HasKey(a, "file_hash") && !PyDict.HasKey(a, "page_number")
    requires PyDict.Get(a, "source_page") == Some(JInt(page))
    ensures var db := MapArtifactToDb(a, Some(filePath), Some(ocrModel), Some(extractionModel), Some(paramsHash), md5).value;
      var e := d + [(ArtifactKey(counter), PyDict.Set(db, "id", JInt(counter)))];
      exists i :: 0 <= i < |e| && PageMatch(md5(filePath).value, page)(e[i])
  {
    var h := md5(filePath).value;
    var values := DbValues(a, h, Strings.Basename(filePath), Some(ocrModel), Some(extractionModel), Some(paramsHash));
    UploadValues(a, filePath, ocrModel, extractionModel, paramsHash, md5, page);
    AddedRecordColumns(values, counter, h, page);
    var e := d + [(ArtifactKey(counter), PyDict.Set(Mapped(values), "id", JInt(counter)))];
    assert PageMatch(h, page)(e[|d|]);
  }

  /** The column values of an upload's artifact: the file's digest first and the source page
      as the page number. */
  lemma UploadValues(a: Record, filePath: string, ocrModel: string, extractionModel: string, paramsHash: string,
                     md5: FileDigest, page: int)
    requires filePath != "" && md5(filePath).Some?
    requires !PyDict.HasKey(a, "file_hash") && !PyDict.HasKey(a, "page_number")
    requires PyDict.Get(a, "source_page") == Some(JInt(page))
    ensures var values := DbValues(a, md5(filePath).value, Strings.Basename(filePath), Some(ocrModel), Some(extractionModel), Some(paramsHash));
      && MapArtifactToDb(a, Some(filePath), Some(ocrModel), Some(extractionModel), Some(paramsHash), md5) == Ok(Mapped(values))
      && values[0] == JStr(md5(filePath).value) && values[11] == JInt(page)
  {
    var values := DbValues(a, md5(filePath).value, Strings.Basename(filePath), Some(ocrModel), Some(extractionModel), Some(paramsHash));
    assert MapArtifactToDb(a, Some(filePath), Some(ocrModel), Some(extractionModel), Some(paramsHash), md5) == Ok(Mapped(values));
    assert values[0] == JStr(md5(filePath).value);
    assert values[11] == Lookup(a, ["page_number", "source_page"], JInt(0)) == JInt(page);
  }

  /** The digest and the source page of a mapped record survive the id's assignment. */
  lemma AddedRecordColumns(values: seq<Json>, counter: nat, h: string, page: int)
    requires |values| == |DbFields()| && values[0] == JStr(h) && values[11] == JInt(page)
    ensures var rec := PyDict.Set(Mapped(values), "id", JInt(counter));
      Member(rec, "file_hash", JNull) == JStr(h) && Member(rec, "source_page", JNull) == JInt(page)
  {
    FieldNames();
    MappedField(values, 0);
    MappedField(values, 11);
  }
}
