/**
 * The page-level artifact cache. The `artifacts` table is a map from a page cache key to the
 * records stored under it. A page's key hashes the document, the page number, both model ids
 * and the correction thresholds. A range lookup splits the requested pages into pages with
 * stored records and pages still to process; a save inserts records only under a key that has
 * none yet.
 *
 * SHA-256, the file system and the remote table are parameters (`Env`). A lookup or save that
 * cannot reach the table degrades to "all pages missing" or "not saved".
 */
module SimpleDb {
  import opened Wrappers
  import opened Json
  import PyDict
  import Strings
  import Config
  import Seqs
  import DataUtils

  /** An artifact as the pipeline holds it: a field name to value mapping. */
  type Artifact = PyDict.Dict<string, Json>

  /** A row of the `artifacts` table, one column per field. */
  datatype Row = Row(
    pageCacheKey: string,
    pageNumber: Json,
    nameEn: Json,
    nameAr: Json,
    nameFr: Json,
    creator: Json,
    creationDate: Json,
    materials: Json,
    origin: Json,
    description: Json,
    category: Json,
    sourcePage: Json,
    sourceDocument: Json,
    nameValidation: Json,
    ocrModel: string,
    extractionModel: string,
    processingParamsHash: string,
    fileHash: string)

  /** The `artifacts` table, indexed by `page_cache_key`. */
  type Table = map<string, seq<Row>>

  /** Correction thresholds per language, `None` for Python's `None`. Sorted-key JSON makes
      every order of the same items one text, so a map is the payload. */
  type Thresholds = Option<map<string, real>>

  /** The payload hashed into a page key, holding everything that identifies a page's
      results. */
  datatype PageParams = PageParams(
    files: map<string, string>,
    page: Json,
    ocrModel: string,
    extractionModel: string,
    thresholds: Thresholds)

  /** The payload hashed into a run key. */
  datatype RunParams = RunParams(
    fileHash: string,
    startPage: int,
    endPage: int,
    ocrModel: string,
    extractionModel: string,
    thresholds: Thresholds)

  /** What the store consults outside its own state. */
  datatype Env = Env(
    present: string -> bool,           // os.path.exists
    fileHash: string -> string,        // SHA-256 of the file's bytes, "" when it cannot be read
    textHash: string -> string,        // SHA-256 of a string
    pageKeyHash: PageParams -> string, // SHA-256 of the sorted-key JSON of a page payload
    runKeyHash: RunParams -> string,   // SHA-256 of the sorted-key JSON of a run payload
    paramsHash: Thresholds -> string,  // SHA-256 of the sorted-key JSON of the thresholds
    reachable: string -> bool,         // the table answers a query for this key
    accept: Row -> bool)               // the table accepts the insert of this record

  /** A hash no two payloads share: assumed only where a lemma says so. */
  ghost predicate Injective<T(!new)>(h: T -> string)
  {
    forall x, y :: h(x) == h(y) ==> x == y
  }

  /** A set path whose file exists. */
  predicate Hashed(path: Option<string>, env: Env)
  {
    Given(path) && env.present(path.value)
  }

  // ---------------------------------------------------------------------------------
  // Document identity

  /** The file hash of the document set as the key payload holds it. Only languages whose
      file exists contribute. */
  function FileHashes(g: DataUtils.DocGroup, env: Env): (m: map<string, string>)
    ensures "EN" in m <==> Hashed(g.en, env)
    ensures "AR" in m <==> Hashed(g.ar, env)
    ensures "FR" in m <==> Hashed(g.fr, env)
    ensures forall lang :: lang in m ==> lang == "EN" || lang == "AR" || lang == "FR"
    ensures "EN" in m ==> m["EN"] == env.fileHash(g.en.value)
  {
    (if Hashed(g.en, env) then map["EN" := env.fileHash(g.en.value)] else map[])
    + (if Hashed(g.ar, env) then map["AR" := env.fileHash(g.ar.value)] else map[])
    + (if Hashed(g.fr, env) then map["FR" := env.fileHash(g.fr.value)] else map[])
  }

  /** The prefix the upload widget puts in front of a file's own name. */
  const IMPORTED_PREFIX := "imported_file_"

  /** The name a document is known by when its file cannot be hashed: the file's base name,
      or "unknown_document" when no path is set. A base name that starts with the upload
      prefix has every occurrence of the prefix removed. */
  function CoreName(path: Option<string>): (r: string)
    ensures !Given(path) ==> r == "unknown_document"
    ensures Given(path) && !Strings.StartsWith(Strings.Basename(path.value), IMPORTED_PREFIX) ==>
      r == Strings.Basename(path.value)
  {
    var b := if Given(path) then Strings.Basename(path.value) else "unknown_document";
    assert !Strings.StartsWith("unknown_document", IMPORTED_PREFIX) by {
      assert "unknown_document"[1] != IMPORTED_PREFIX[1];
    }
    if Strings.StartsWith(b, IMPORTED_PREFIX) then Strings.ReplaceAll(b, IMPORTED_PREFIX, "") else b
  }

  /** An upload's base name loses its prefix: `imported_file_x.pdf` is known as `x.pdf`
      when the rest of the name holds no second copy of the prefix. */
  lemma CoreNameDropsPrefix(path: string, rest: string)
    requires path != "" && Strings.Basename(path) == IMPORTED_PREFIX + rest
    requires !Strings.Contains(rest, IMPORTED_PREFIX)
    ensures CoreName(Some(path)) == rest
  {
    var b := IMPORTED_PREFIX + rest;
    assert Strings.StartsWith(b, IMPORTED_PREFIX);
    assert b[|IMPORTED_PREFIX|..] == rest;
    Strings.ReplaceAbsent(rest, IMPORTED_PREFIX, "");
  }

  /** The `file_hash` a save stores and the run key holds: the hash of the file's bytes, or,
      when that is "", the hash of the document's core name. */
  function FileIdentity(path: Option<string>, env: Env): (r: string)
    ensures Given(path) && env.fileHash(path.value) != "" ==> r == env.fileHash(path.value)
    ensures !(Given(path) && env.fileHash(path.value) != "") ==> r == env.textHash(CoreName(path))
  {
    var h := if Given(path) then env.fileHash(path.value) else "";
    if h != "" then h else env.textHash(CoreName(path))
  }

  /** Two uploads whose files are gone and whose names differ only in the directory have
      the same identity. */
  lemma UploadsShareIdentity(dir1: string, dir2: string, name: string, env: Env)
    requires '/' !in name
    requires Given(Some(dir1 + "/" + name)) && Given(Some(dir2 + "/" + name))
    requires env.fileHash(dir1 + "/" + name) == "" && env.fileHash(dir2 + "/" + name) == ""
    ensures FileIdentity(Some(dir1 + "/" + name), env) == FileIdentity(Some(dir2 + "/" + name), env)
  {
    BasenameAfterSlash(dir1, name);
    BasenameAfterSlash(dir2, name);
  }

  /** The base name of `dir/name` is `name`. */
  lemma BasenameAfterSlash(dir: string, name: string)
    requires '/' !in name
    ensures Strings.Basename(dir + "/" + name) == name
  {
    var p := dir + "/" + name;
    var b := Strings.Basename(p);
    assert p[|dir|] == '/';
    assert b == p[|p| - |b|..];
  }

  // ---------------------------------------------------------------------------------
  // Cache keys

  /** The page key as the store computes it: the document enters the key only through the
      hashes of files that exist. */
  function PageCacheKey(g: DataUtils.DocGroup, page: Json, ocrModel: string, extractionModel: string,
                        thresholds: Thresholds, env: Env): (r: string)
    ensures !Hashed(g.en, env) && !Hashed(g.ar, env) && !Hashed(g.fr, env) ==>
      r == env.pageKeyHash(PageParams(map[], page, ocrModel, extractionModel, thresholds))
  {
    env.pageKeyHash(PageParams(FileHashes(g, env), page, ocrModel, extractionModel, thresholds))
  }

  /** Under an injective hash, equal page keys mean equal existing-file hashes, page, model ids
      and thresholds; the converse holds for any hash. */
  lemma PageCacheKeySensitive(g1: DataUtils.DocGroup, p1: Json, o1: string, e1: string, t1: Thresholds,
                              g2: DataUtils.DocGroup, p2: Json, o2: string, e2: string, t2: Thresholds, env: Env)
    requires Injective(env.pageKeyHash)
    ensures PageCacheKey(g1, p1, o1, e1, t1, env) == PageCacheKey(g2, p2, o2, e2, t2, env) <==>
      FileHashes(g1, env) == FileHashes(g2, env) && p1 == p2 && o1 == o2 && e1 == e2 && t1 == t2
  {
    var a := PageParams(FileHashes(g1, env), p1, o1, e1, t1);
    var b := PageParams(FileHashes(g2, env), p2, o2, e2, t2);
    assert env.pageKeyHash(a) == env.pageKeyHash(b) ==> a == b;
  }

  /** As written, two documents whose files are both gone get the same key for every page. */
  lemma VanishedDocumentsShareKeys(a: string, b: string, page: Json, ocrModel: string,
                                   extractionModel: string, thresholds: Thresholds, env: Env)
    requires !env.present(a) && !env.present(b)
    ensures PageCacheKey(DataUtils.DocGroup(Some(a), None, None), page, ocrModel, extractionModel, thresholds, env)
         == PageCacheKey(DataUtils.DocGroup(Some(b), None, None), page, ocrModel, extractionModel, thresholds, env)
  {
    assert FileHashes(DataUtils.DocGroup(Some(a), None, None), env) == map[];
    assert FileHashes(DataUtils.DocGroup(Some(b), None, None), env) == map[];
  }

  /** The identity of one set path in a corrected key: the file's hash, or its core name's
      hash when the file is gone or unreadable, as the saved `file_hash` falls back. */
  function PathIdentity(path: string, env: Env): string
  {
    if env.present(path) && env.fileHash(path) != "" then env.fileHash(path)
    else env.textHash(CoreName(Some(path)))
  }

  /** The document identities a corrected key holds: one entry per set path. */
  function DocumentIds(g: DataUtils.DocGroup, env: Env): (m: map<string, string>)
    ensures "EN" in m <==> Given(g.en)
    ensures "AR" in m <==> Given(g.ar)
    ensures "FR" in m <==> Given(g.fr)
    ensures Given(g.en) ==> m["EN"] == PathIdentity(g.en.value, env)
  {
    (if Given(g.en) then map["EN" := PathIdentity(g.en.value, env)] else map[])
    + (if Given(g.ar) then map["AR" := PathIdentity(g.ar.value, env)] else map[])
    + (if Given(g.fr) then map["FR" := PathIdentity(g.fr.value, env)] else map[])
  }

  /** The corrected page key: every set document path takes part, by its file hash or by
      the fallback identity. Where every set path names a readable file it is the key as
      written; the store below uses the key as written. */
  function PageKey(g: DataUtils.DocGroup, page: Json, ocrModel: string, extractionModel: string,
                   thresholds: Thresholds, env: Env): (r: string)
    ensures ((Given(g.en) ==> env.present(g.en.value) && env.fileHash(g.en.value) != "")
             && (Given(g.ar) ==> env.present(g.ar.value) && env.fileHash(g.ar.value) != "")
             && (Given(g.fr) ==> env.present(g.fr.value) && env.fileHash(g.fr.value) != "")) ==>
      r == PageCacheKey(g, page, ocrModel, extractionModel, thresholds, env)
  {
    env.pageKeyHash(PageParams(DocumentIds(g, env), page, ocrModel, extractionModel, thresholds))
  }

  /** Under injective hashes, two documents whose files are gone and whose core names differ
      get different keys for the same page and parameters. */
  lemma VanishedDocumentsKeptApart(a: string, b: string, page: Json, ocrModel: string,
                                   extractionModel: string, thresholds: Thresholds, env: Env)
    requires Injective(env.pageKeyHash) && Injective(env.textHash)
    requires a != "" && b != "" && !env.present(a) && !env.present(b)
    requires CoreName(Some(a)) != CoreName(Some(b))
    ensures PageKey(DataUtils.DocGroup(Some(a), None, None), page, ocrModel, extractionModel, thresholds, env)
         != PageKey(DataUtils.DocGroup(Some(b), None, None), page, ocrModel, extractionModel, thresholds, env)
  {
    var ga, gb := DataUtils.DocGroup(Some(a), None, None), DataUtils.DocGroup(Some(b), None, None);
    var pa := PageParams(DocumentIds(ga, env), page, ocrModel, extractionModel, thresholds);
    var pb := PageParams(DocumentIds(gb, env), page, ocrModel, extractionModel, thresholds);
    assert DocumentIds(ga, env)["EN"] != DocumentIds(gb, env)["EN"] by {
      assert env.textHash(CoreName(Some(a))) != env.textHash(CoreName(Some(b)));
    }
    assert pa != pb;
  }

  /** Where every set path names a readable file, the corrected key holds exactly what the
      key as written holds. */
  lemma DocumentIdsOfReadableFiles(g: DataUtils.DocGroup, env: Env)
    requires Given(g.en) ==> env.present(g.en.value) && env.fileHash(g.en.value) != ""
    requires Given(g.ar) ==> env.present(g.ar.value) && env.fileHash(g.ar.value) != ""
    requires Given(g.fr) ==> env.present(g.fr.value) && env.fileHash(g.fr.value) != ""
    ensures DocumentIds(g, env) == FileHashes(g, env)
  {
  }

  /** Under an injective hash, equal corrected keys mean equal document identities, page,
      model ids and thresholds. */
  lemma PageKeySensitive(g1: DataUtils.DocGroup, p1: Json, o1: string, e1: string, t1: Thresholds,
                         g2: DataUtils.DocGroup, p2: Json, o2: string, e2: string, t2: Thresholds, env: Env)
    requires Injective(env.pageKeyHash)
    ensures PageKey(g1, p1, o1, e1, t1, env) == PageKey(g2, p2, o2, e2, t2, env) <==>
      DocumentIds(g1, env) == DocumentIds(g2, env) && p1 == p2 && o1 == o2 && e1 == e2 && t1 == t2
  {
    var a := PageParams(DocumentIds(g1, env), p1, o1, e1, t1);
    var b := PageParams(DocumentIds(g2, env), p2, o2, e2, t2);
    assert env.pageKeyHash(a) == env.pageKeyHash(b) ==> a == b;
  }

  /** The key of a whole processing run. */
  function RunCacheKey(g: DataUtils.DocGroup, startPage: int, endPage: int, ocrModel: string,
                       extractionModel: string, thresholds: Thresholds, env: Env): (r: string)
    ensures !Given(g.en) ==>
      r == env.runKeyHash(RunParams(env.textHash("unknown_document"), startPage, endPage, ocrModel, extractionModel, thresholds))
  {
    env.runKeyHash(RunParams(FileIdentity(g.en, env), startPage, endPage, ocrModel, extractionModel, thresholds))
  }

  /** Under an injective hash, equal run keys mean the same English document identity, range,
      model ids and thresholds; the other languages do not take part. */
  lemma RunCacheKeySensitive(g1: DataUtils.DocGroup, s1: int, n1: int, o1: string, e1: string, t1: Thresholds,
                             g2: DataUtils.DocGroup, s2: int, n2: int, o2: string, e2: string, t2: Thresholds, env: Env)
    requires Injective(env.runKeyHash)
    ensures RunCacheKey(g1, s1, n1, o1, e1, t1, env) == RunCacheKey(g2, s2, n2, o2, e2, t2, env) <==>
      FileIdentity(g1.en, env) == FileIdentity(g2.en, env) && s1 == s2 && n1 == n2 && o1 == o2 && e1 == e2 && t1 == t2
  {
    var a := RunParams(FileIdentity(g1.en, env), s1, n1, o1, e1, t1);
    var b := RunParams(FileIdentity(g2.en, env), s2, n2, o2, e2, t2);
    assert env.runKeyHash(a) == env.runKeyHash(b) ==> a == b;
  }

  // ---------------------------------------------------------------------------------
  // Record mapping

  /** `artifact.get(k, default)`, stated by cases. */
  predicate Reads(artifact: Artifact, k: string, default: Json, v: Json)
  {
    (PyDict.HasKey(artifact, k) ==> v == PyDict.Get(artifact, k).value)
    && (!PyDict.HasKey(artifact, k) ==> v == default)
  }

  /** What every row of one save shares. */
  datatype RowContext = RowContext(
    key: string, page: Json, ocrModel: string, extractionModel: string, paramsHash: string, fileHash: string)

  /** The row stored for one artifact of a page. */
  function NewRecord(c: RowContext, artifact: Artifact): (r: Row)
    ensures r.pageCacheKey == c.key && r.pageNumber == c.page && r.fileHash == c.fileHash
  {
    Row(c.key, c.page,
        Member(artifact, "Name_EN", Member(artifact, "Name", JStr(""))),
        Member(artifact, "Name_AR", JStr("")),
        Member(artifact, "Name_FR", JStr("")),
        Member(artifact, "Creator", JStr("")),
        Member(artifact, "Creation Date", JStr("")),
        Member(artifact, "Materials", JStr("")),
        Member(artifact, "Origin", JStr("")),
        Member(artifact, "Description", JStr("")),
        Member(artifact, "Category", JStr("")),
        Member(artifact, "source_page", c.page),
        Member(artifact, "source_document", JStr("")),
        Member(artifact, "Name_validation", JStr("")),
        c.ocrModel, c.extractionModel, c.paramsHash, c.fileHash)
  }

  /** The fields of a stored row. The English name is the artifact's `Name_EN`, else its
      `Name`, else ""; its page is its own `source_page`, else the page saved; every other
      field is the artifact's own or ""; the key, models, hashes and page number are the save's. */
  lemma NewRecordFields(c: RowContext, artifact: Artifact)
    ensures var r := NewRecord(c, artifact);
      r.ocrModel == c.ocrModel && r.extractionModel == c.extractionModel && r.processingParamsHash == c.paramsHash
      && (PyDict.HasKey(artifact, "Name_EN") ==> r.nameEn == PyDict.Get(artifact, "Name_EN").value)
      && (!PyDict.HasKey(artifact, "Name_EN") ==> Reads(artifact, "Name", JStr(""), r.nameEn))
      && Reads(artifact, "source_page", c.page, r.sourcePage)
      && Reads(artifact, "Name_AR", JStr(""), r.nameAr) && Reads(artifact, "Name_FR", JStr(""), r.nameFr)
      && Reads(artifact, "Creator", JStr(""), r.creator) && Reads(artifact, "Creation Date", JStr(""), r.creationDate)
      && Reads(artifact, "Materials", JStr(""), r.materials) && Reads(artifact, "Origin", JStr(""), r.origin)
      && Reads(artifact, "Description", JStr(""), r.description) && Reads(artifact, "Category", JStr(""), r.category)
      && Reads(artifact, "source_document", JStr(""), r.sourceDocument)
      && Reads(artifact, "Name_validation", JStr(""), r.nameValidation)
  {
  }

  /** The row builder of one save. */
  function Builder(c: RowContext): Artifact -> Row
  {
    (a: Artifact) => NewRecord(c, a)
  }

  /** The artifact rebuilt from a stored row: the columns of the multilingual CSV, in order,
      each from its stored column. */
  function CachedRecord(row: Row): (r: Json)
    ensures r.JObj? && PyDict.Keys(r.members) == Config.MULTILINGUAL_CSV_FIELDS
    ensures r.members[0].1 == row.nameEn && r.members[1].1 == row.nameAr && r.members[2].1 == row.nameFr
    ensures r.members[9].1 == row.sourcePage
  {
    var values := [row.nameEn, row.nameAr, row.nameFr, row.creator, row.creationDate, row.materials,
                   row.origin, row.description, row.category, row.sourcePage, row.sourceDocument,
                   row.nameValidation];
    var m := PyDict.FromLists(Config.MULTILINGUAL_CSV_FIELDS, values);
    assert PyDict.Keys(m) == Config.MULTILINGUAL_CSV_FIELDS;
    JObj(m)
  }

  /** A saved artifact read back from the cache has the fields it was saved with: each of the
      multilingual CSV's fields as the artifact held it (or ""), except that a missing
      `Name_EN` is read from `Name` and a missing `source_page` is the page saved. */
  lemma SavedRecordReadsBack(c: RowContext, artifact: Artifact, i: nat)
    requires 1 <= i < |Config.MULTILINGUAL_CSV_FIELDS| && i != 9
    ensures var back := CachedRecord(NewRecord(c, artifact)).members;
      back[i] == (Config.MULTILINGUAL_CSV_FIELDS[i], Member(artifact, Config.MULTILINGUAL_CSV_FIELDS[i], JStr("")))
      && back[0].1 == Member(artifact, "Name_EN", Member(artifact, "Name", JStr("")))
      && back[9].1 == Member(artifact, "source_page", c.page)
  {
  }

  // ---------------------------------------------------------------------------------
  // Range lookup

  /** The records stored under a key. */
  function PageRows(table: Table, key: string): seq<Row>
  {
    if key in table then table[key] else []
  }

  /** The key has at least one stored record. */
  predicate Hit(table: Table, key: string)
  {
    PageRows(table, key) != []
  }

  /** `list(range(start, end + 1))`. */
  function PageRange(start: int, end: int): (r: seq<int>)
    ensures |r| == if start <= end then end - start + 1 else 0
    ensures forall i :: 0 <= i < |r| ==> r[i] == start + i
  {
    if start <= end then seq(end - start + 1, i => start + i) else []
  }

  /** A page's stored records rebuilt as artifacts, in stored order. */
  function Restored(rows: seq<Row>): (r: seq<Json>)
    ensures |r| == |rows|
    ensures forall i :: 0 <= i < |rows| ==> r[i] == CachedRecord(rows[i])
  {
    seq(|rows|, i requires 0 <= i < |rows| => CachedRecord(rows[i]))
  }

  /** The lookup loop over pages `start..end`: the cached artifacts and the missing pages,
      or `None` when a query fails. */
  function Scan(table: Table, keys: int -> string, reachable: string -> bool, start: int, end: int)
    : (r: Option<(seq<Json>, seq<int>)>)
    ensures r.Some? ==> |r.value.1| <= (if start <= end then end - start + 1 else 0)
    decreases end - start + 1
  {
    if end < start then Some(([], []))
    else
      match Scan(table, keys, reachable, start, end - 1)
      case None => None
      case Some(acc) =>
        if !reachable(keys(end)) then None
        else
          var rows := PageRows(table, keys(end));
          if rows != [] then Some((acc.0 + Restored(rows), acc.1)) else Some((acc.0, acc.1 + [end]))
  }

  /** The scan fails exactly when the query of some requested page fails. */
  lemma {:induction false} ScanFails(table: Table, keys: int -> string, reachable: string -> bool, start: int, end: int)
    ensures Scan(table, keys, reachable, start, end).None? <==> exists p :: start <= p <= end && !reachable(keys(p))
    decreases end - start + 1
  {
    if end >= start {
      ScanFails(table, keys, reachable, start, end - 1);
    }
  }

  /** A successful scan puts every requested page in exactly one place: a page is missing
      exactly when it has no stored record; the missing pages ascend; no cached artifacts
      were found exactly when every page is missing. */
  lemma {:induction false} ScanPartition(table: Table, keys: int -> string, reachable: string -> bool, start: int, end: int)
    requires Scan(table, keys, reachable, start, end).Some?
    ensures var (cached, missing) := Scan(table, keys, reachable, start, end).value;
      (forall p :: p in missing <==> start <= p <= end && !Hit(table, keys(p)))
      && (forall i, j :: 0 <= i < j < |missing| ==> missing[i] < missing[j])
      && (forall i :: 0 <= i < |missing| ==> start <= missing[i] <= end)
      && (cached == [] <==> |missing| == (if start <= end then end - start + 1 else 0))
    decreases end - start + 1
  {
    if end >= start {
      ScanPartition(table, keys, reachable, start, end - 1);
      var (cached, missing) := Scan(table, keys, reachable, start, end - 1).value;
      assert |missing| <= (if start <= end - 1 then end - start else 0) by {
        MissingBound(missing, start, end - 1);
      }
    }
  }

  /** An ascending list of pages within `start..end` has at most `end - start + 1` of them. */
  lemma {:induction false} MissingBound(missing: seq<int>, start: int, end: int)
    requires forall i, j :: 0 <= i < j < |missing| ==> missing[i] < missing[j]
    requires forall i :: 0 <= i < |missing| ==> start <= missing[i] <= end
    ensures |missing| <= (if start <= end then end - start + 1 else 0)
    decreases |missing|
  {
    if missing != [] {
      var init := missing[..|missing| - 1];
      MissingBound(init, start, missing[|missing| - 1] - 1);
    }
  }

  /** Every cached artifact is rebuilt from a record stored under a requested page's key. */
  lemma {:induction false} ScanCachedFromTable(table: Table, keys: int -> string, reachable: string -> bool,
                                               start: int, end: int, i: nat)
    requires Scan(table, keys, reachable, start, end).Some?
    requires i < |Scan(table, keys, reachable, start, end).value.0|
    ensures exists p, j ::
      start <= p <= end && 0 <= j < |PageRows(table, keys(p))| && Scan(table, keys, reachable, start, end).value.0[i] == CachedRecord(PageRows(table, keys(p))[j])
    decreases end - start + 1
  {
    var acc := Scan(table, keys, reachable, start, end - 1).value;
    if i < |acc.0| {
      ScanCachedFromTable(table, keys, reachable, start, end - 1, i);
    } else {
      var rows := PageRows(table, keys(end));
      assert Scan(table, keys, reachable, start, end).value.0[i] == CachedRecord(rows[i - |acc.0|]);
    }
  }

  /** The statistics of a lookup. */
  datatype CacheStats = CacheStats(cachedPages: int, missingPages: int)

  /** The keys of a document's pages under fixed parameters. */
  function PageKeys(g: DataUtils.DocGroup, ocrModel: string, extractionModel: string, thresholds: Thresholds,
                    env: Env): int -> string
  {
    (p: int) => PageCacheKey(g, JInt(p), ocrModel, extractionModel, thresholds, env)
  }

  /** A whole range lookup: the cached artifacts, the missing pages and the statistics. With
      the store disabled, without an English document, or when a query fails, every page is
      missing; an empty range has no pages at all. */
  function CacheLookup(enabled: bool, table: Table, g: DataUtils.DocGroup, start: int, end: int,
                       ocrModel: string, extractionModel: string, thresholds: Thresholds, env: Env)
    : (r: (seq<Json>, seq<int>, CacheStats))
    ensures !enabled || !Given(g.en) ==> r == ([], PageRange(start, end), CacheStats(0, end - start + 1))
    ensures enabled && Given(g.en) && start > end ==> r == ([], [], CacheStats(0, 0))
    ensures start <= end ==> r.2.cachedPages + r.2.missingPages == end - start + 1
    ensures start <= end ==> r.2.missingPages == |r.1| && 0 <= r.2.cachedPages
  {
    if !enabled || !Given(g.en) then ([], PageRange(start, end), CacheStats(0, end - start + 1))
    else if start > end then ([], [], CacheStats(0, 0))
    else
      match Scan(table, PageKeys(g, ocrModel, extractionModel, thresholds, env), env.reachable, start, end)
      case None => ([], PageRange(start, end), CacheStats(0, end - start + 1))
      case Some((cached, missing)) =>
        ScanPartition(table, PageKeys(g, ocrModel, extractionModel, thresholds, env), env.reachable, start, end);
        MissingBound(missing, start, end);
        (cached, missing, CacheStats(end - start + 1 - |missing|, |missing|))
  }

  /** Every outcome of a lookup places each requested page in exactly one of the two lists. */
  lemma LookupPartitions(enabled: bool, table: Table, g: DataUtils.DocGroup, start: int, end: int,
                         ocrModel: string, extractionModel: string, thresholds: Thresholds, env: Env, p: int)
    ensures var (cached, missing, _) := CacheLookup(enabled, table, g, start, end, ocrModel, extractionModel, thresholds, env);
      (p in missing ==> start <= p <= end)
      && (start <= p <= end && p !in missing ==>
            enabled && Given(g.en) && Hit(table, PageCacheKey(g, JInt(p), ocrModel, extractionModel, thresholds, env)))
  {
    var keys := PageKeys(g, ocrModel, extractionModel, thresholds, env);
    if enabled && Given(g.en) && start <= end && Scan(table, keys, env.reachable, start, end).Some? {
      ScanPartition(table, keys, env.reachable, start, end);
      assert keys(p) == PageCacheKey(g, JInt(p), ocrModel, extractionModel, thresholds, env);
    } else if start <= p <= end {
      var r := PageRange(start, end);
      assert r[p - start] == p;
    }
  }

  // ---------------------------------------------------------------------------------
  // Saving one page

  /** The rows built for a list of artifacts, in order. */
  function Records(items: seq<Json>, build: Artifact -> Row): (r: seq<Row>)
    requires forall i :: 0 <= i < |items| ==> items[i].JObj?
    ensures |r| == |items|
    ensures forall i :: 0 <= i < |items| ==> r[i] == build(items[i].members)
  {
    seq(|items|, i requires 0 <= i < |items| => build(items[i].members))
  }

  /** One more artifact's row built and offered to the table. */
  lemma StoredStep(items: seq<Json>, k: nat, build: Artifact -> Row, accept: Row -> bool)
    requires k < |items| && forall i :: 0 <= i <= k ==> items[i].JObj?
    ensures Seqs.Filter(Records(items[..k + 1], build), accept) ==
      Seqs.Filter(Records(items[..k], build), accept)
      + (if accept(build(items[k].members)) then [build(items[k].members)] else [])
  {
    assert Records(items[..k + 1], build)[..k] == Records(items[..k], build);
  }

  /** The rows one save inserts: those of the artifacts before the first item that is not an
      object (where the loop raises), that the table accepts. */
  function Stored(items: seq<Json>, build: Artifact -> Row, accept: Row -> bool): seq<Row>
  {
    Seqs.Filter(Records(items[..DataUtils.ObjectPrefix(items)], build), accept)
  }

  /** The table once `rows` are the records of `key`; no records leave it as it was. */
  function Put(table: Table, key: string, rows: seq<Row>): (r: Table)
    ensures PageRows(r, key) == (if rows == [] then PageRows(table, key) else rows)
    ensures forall k :: k != key ==> (k in r <==> k in table) && (k in r ==> r[k] == table[k])
  {
    if rows == [] then table else table[key := rows]
  }

  /** Appending one record to a key that had none before the loop. */
  lemma PutAppend(table: Table, key: string, rows: seq<Row>, row: Row)
    requires !Hit(table, key)
    ensures var t := Put(table, key, rows);
      t[key := PageRows(t, key) + [row]] == Put(table, key, rows + [row])
  {
  }

  /** What the rows of a save share. */
  function SaveContext(key: string, g: DataUtils.DocGroup, page: Json, ocrModel: string, extractionModel: string,
                       thresholds: Thresholds, env: Env): RowContext
  {
    RowContext(key, page, ocrModel, extractionModel, env.paramsHash(thresholds), FileIdentity(g.en, env))
  }

  /** A save of a page's artifacts under `key`: whether it reports success, and the table
      after it. Nothing is written with the store disabled or no artifacts; a key that
      already has records is left alone and reported saved; otherwise the accepted rows are
      inserted, and success means at least one was inserted and no item made the loop raise. */
  function SavePageWith(enabled: bool, table: Table, key: string, g: DataUtils.DocGroup, page: Json,
                        artifacts: Json, ocrModel: string, extractionModel: string, thresholds: Thresholds,
                        env: Env): (r: (bool, Table))
    ensures !enabled || !Truthy(artifacts) ==> r == (false, table)
    ensures enabled && Truthy(artifacts) && FileIdentity(g.en, env) != "" && env.reachable(key) && Hit(table, key) ==>
      r == (true, table)
    ensures r.0 ==> enabled && Truthy(artifacts) && FileIdentity(g.en, env) != "" && env.reachable(key)
    ensures r.0 ==> Hit(r.1, key)
    ensures r.1 == table || (!Hit(table, key) && r.1 == table[key := PageRows(r.1, key)])
  {
    if !enabled || !Truthy(artifacts) then (false, table)
    else if FileIdentity(g.en, env) == "" then (false, table)
    else if !env.reachable(key) then (false, table)
    else if Hit(table, key) then (true, table)
    else
      match Iter(artifacts)
      case None => (false, table)
      case Some(items) =>
        var rows := Stored(items, Builder(SaveContext(key, g, page, ocrModel, extractionModel, thresholds, env)), env.accept);
        (DataUtils.ObjectPrefix(items) == |items| && rows != [], Put(table, key, rows))
  }

  /** A save under the page key as the store computes it: a reported save leaves that key
      with records, and no other key changes. */
  function SavePage(enabled: bool, table: Table, g: DataUtils.DocGroup, page: Json, artifacts: Json,
                    ocrModel: string, extractionModel: string, thresholds: Thresholds, env: Env): (r: (bool, Table))
    ensures var key := PageCacheKey(g, page, ocrModel, extractionModel, thresholds, env);
      (r.0 ==> Hit(r.1, key))
      && (Hit(table, key) ==> r.1 == table)
      && forall k :: k != key ==> (k in r.1 <==> k in table) && (k in r.1 ==> r.1[k] == table[k])
  {
    SavePageWith(enabled, table, PageCacheKey(g, page, ocrModel, extractionModel, thresholds, env), g, page, artifacts,
                 ocrModel, extractionModel, thresholds, env)
  }

  /** A save that reported success, repeated with the same arguments, is a no-op that again
      reports success. */
  lemma RepeatSaveIsNoOp(enabled: bool, table: Table, g: DataUtils.DocGroup, page: Json, artifacts: Json,
                         ocrModel: string, extractionModel: string, thresholds: Thresholds, env: Env)
    requires SavePage(enabled, table, g, page, artifacts, ocrModel, extractionModel, thresholds, env).0
    ensures var after := SavePage(enabled, table, g, page, artifacts, ocrModel, extractionModel, thresholds, env).1;
      SavePage(enabled, after, g, page, artifacts, ocrModel, extractionModel, thresholds, env) == (true, after)
  {
    var key := PageCacheKey(g, page, ocrModel, extractionModel, thresholds, env);
    var after := SavePageWith(enabled, table, key, g, page, artifacts, ocrModel, extractionModel, thresholds, env).1;
    assert Hit(after, key);
  }

  /** A save into a key with no records: the key then holds exactly the accepted rows of the
      artifacts up to the first non-object, each the row of one of the artifacts; the save
      reports success exactly when some row was inserted and every item was an object. */
  lemma FreshSaveStoresRecords(enabled: bool, table: Table, g: DataUtils.DocGroup, page: Json, artifacts: Json,
                               ocrModel: string, extractionModel: string, thresholds: Thresholds, env: Env)
    requires var key := PageCacheKey(g, page, ocrModel, extractionModel, thresholds, env);
      enabled && Truthy(artifacts) && FileIdentity(g.en, env) != "" && env.reachable(key) && !Hit(table, key)
    requires Iter(artifacts).Some?
    ensures var key := PageCacheKey(g, page, ocrModel, extractionModel, thresholds, env);
      var items := Iter(artifacts).value;
      var c := SaveContext(key, g, page, ocrModel, extractionModel, thresholds, env);
      var (saved, after) := SavePage(enabled, table, g, page, artifacts, ocrModel, extractionModel, thresholds, env);
      (forall row :: row in PageRows(after, key) ==>
         env.accept(row) && exists i :: 0 <= i < |items| && items[i].JObj? && row == NewRecord(c, items[i].members))
      && (saved <==> PageRows(after, key) != [] && forall i :: 0 <= i < |items| ==> items[i].JObj?)
  {
    var key := PageCacheKey(g, page, ocrModel, extractionModel, thresholds, env);
    var c := SaveContext(key, g, page, ocrModel, extractionModel, thresholds, env);
    StoredRowsComeFromItems(Iter(artifacts).value, Builder(c), env.accept);
  }

  /** Every inserted row is accepted and built from one of the artifacts. */
  lemma StoredRowsComeFromItems(items: seq<Json>, build: Artifact -> Row, accept: Row -> bool)
    ensures forall row :: row in Stored(items, build, accept) ==>
      accept(row) && exists i :: 0 <= i < |items| && items[i].JObj? && row == build(items[i].members)
  {
    var n := DataUtils.ObjectPrefix(items);
    var recs := Records(items[..n], build);
    Seqs.FilterExact(recs, accept);
    forall row | row in Seqs.Filter(recs, accept)
      ensures exists i :: 0 <= i < |items| && items[i].JObj? && row == build(items[i].members)
    {
      var k :| 0 <= k < |recs| && recs[k] == row;
      assert items[..n][k] == items[k];
    }
  }

  /** As written, the save of a second document whose file is gone is skipped and reported
      saved whenever a first document whose file is gone has records for that page. */
  lemma VanishedDocumentSaveIsSkipped(enabled: bool, table: Table, a: string, b: string, page: Json, artifacts: Json,
                                      ocrModel: string, extractionModel: string, thresholds: Thresholds, env: Env)
    requires !env.present(a) && !env.present(b)
    requires Hit(table, PageCacheKey(DataUtils.DocGroup(Some(a), None, None), page, ocrModel, extractionModel, thresholds, env))
    requires var key := PageCacheKey(DataUtils.DocGroup(Some(b), None, None), page, ocrModel, extractionModel, thresholds, env);
      enabled && Truthy(artifacts) && FileIdentity(Some(b), env) != "" && env.reachable(key)
    ensures SavePage(enabled, table, DataUtils.DocGroup(Some(b), None, None), page, artifacts, ocrModel, extractionModel,
                     thresholds, env) == (true, table)
  {
    VanishedDocumentsShareKeys(a, b, page, ocrModel, extractionModel, thresholds, env);
  }

  /** A save under the corrected page key. */
  function SavePageCorrected(enabled: bool, table: Table, g: DataUtils.DocGroup, page: Json, artifacts: Json,
                             ocrModel: string, extractionModel: string, thresholds: Thresholds, env: Env)
    : (r: (bool, Table))
    ensures var key := PageKey(g, page, ocrModel, extractionModel, thresholds, env);
      (r.0 ==> Hit(r.1, key)) && (Hit(table, key) ==> r.1 == table)
  {
    SavePageWith(enabled, table, PageKey(g, page, ocrModel, extractionModel, thresholds, env), g, page, artifacts,
                 ocrModel, extractionModel, thresholds, env)
  }

  /** With the corrected key and injective hashes, a second document whose file is gone is
      not skipped over a first one's records for the page: its key holds the rows built from
      its own artifacts. */
  lemma CorrectedSaveKeepsDocumentsApart(enabled: bool, table: Table, a: string, b: string, page: Json, artifacts: Json,
                                         ocrModel: string, extractionModel: string, thresholds: Thresholds, env: Env)
    requires Injective(env.pageKeyHash) && Injective(env.textHash)
    requires a != "" && b != "" && !env.present(a) && !env.present(b) && CoreName(Some(a)) != CoreName(Some(b))
    requires forall k :: Hit(table, k) ==>
      k == PageKey(DataUtils.DocGroup(Some(a), None, None), page, ocrModel, extractionModel, thresholds, env)
    requires var key := PageKey(DataUtils.DocGroup(Some(b), None, None), page, ocrModel, extractionModel, thresholds, env);
      enabled && Truthy(artifacts) && Iter(artifacts).Some? && FileIdentity(Some(b), env) != "" && env.reachable(key)
    ensures var gb := DataUtils.DocGroup(Some(b), None, None);
      var key := PageKey(gb, page, ocrModel, extractionModel, thresholds, env);
      var rows := Stored(Iter(artifacts).value, Builder(SaveContext(key, gb, page, ocrModel, extractionModel, thresholds, env)), env.accept);
      PageRows(SavePageCorrected(enabled, table, gb, page, artifacts, ocrModel, extractionModel, thresholds, env).1, key) == rows
  {
    VanishedDocumentsKeptApart(a, b, page, ocrModel, extractionModel, thresholds, env);
  }

  // ---------------------------------------------------------------------------------
  // Legacy saves

  /** The artifacts of a legacy payload: a list as it is; an object's "artifacts" list, or the
      object itself when that is empty; `None` where the source gives up (another type, or an
      "artifacts" value without a length). */
  function LegacyArtifacts(data: Json): (r: Option<Json>)
    ensures r.Some? ==> Iter(r.value).Some?
    ensures data.JList? ==> r == Some(data)
    ensures !data.JList? && !data.JObj? ==> r.None?
  {
    match data
    case JList(_) => Some(data)
    case JObj(m) =>
      var a := Member(m, "artifacts", JList([]));
      if Len(a).None? then None
      else if !Truthy(a) && Truthy(data) then Some(JList([data]))
      else Some(a)
    case _ => None
  }

  /** The path a legacy save pretends its document has. */
  function LegacyPath(fileHash: string): string
  {
    "legacy_file_" + Strings.Take(fileHash, 8) + ".pdf"
  }

  function LegacyGroup(fileHash: string): DataUtils.DocGroup
  {
    DataUtils.DocGroup(Some(LegacyPath(fileHash)), None, None)
  }

  const LEGACY_THRESHOLDS: Thresholds := Some(Config.CORRECTION_THRESHOLDS)

  /** A save of one page's artifacts into a table: whether it reported success, and the
      table after it. */
  type PageSaver = (Table, Json, Json) -> (bool, Table)

  /** The page save a legacy save makes: the legacy document, the default models and the
      default thresholds. */
  function LegacySaver(enabled: bool, g: DataUtils.DocGroup, env: Env): PageSaver
  {
    (table: Table, page: Json, items: Json) =>
      SavePage(enabled, table, g, page, items, Config.GPT_4O, Config.GPT_4O, LEGACY_THRESHOLDS, env)
  }

  /** The legacy page save is the save under the key as written. */
  lemma LegacySaverSaves(enabled: bool, g: DataUtils.DocGroup, env: Env, table: Table, page: Json, items: Json)
    ensures LegacySaver(enabled, g, env)(table, page, items)
      == SavePage(enabled, table, g, page, items, Config.GPT_4O, Config.GPT_4O, LEGACY_THRESHOLDS, env)
  {
  }

  /** Saving each page group in turn: the number of artifacts in groups that reported
      success, and the table after them. */
  function SaveGroups(table: Table, groups: Groups, save: PageSaver): (r: (nat, Table))
    ensures r.0 <= Sizes(groups)
  {
    if groups == [] then (0, table)
    else
      var (n, t1) := SaveGroups(table, groups[..|groups| - 1], save);
      var (page, items) := groups[|groups| - 1];
      var (ok, t2) := save(t1, page, JList(items));
      (if ok then n + |items| else n, t2)
  }

  /** One more group saved. */
  lemma SaveGroupsStep(table: Table, groups: Groups, k: nat, save: PageSaver)
    requires k < |groups|
    ensures var (n, t1) := SaveGroups(table, groups[..k], save);
      var (ok, t2) := save(t1, groups[k].0, JList(groups[k].1));
      SaveGroups(table, groups[..k + 1], save) == (if ok then n + |groups[k].1| else n, t2)
  {
    assert groups[..k + 1][..k] == groups[..k];
  }

  /** A last group that is skipped and reported saved adds its size and leaves the table. */
  lemma SkippedGroupsStep(table: Table, groups: Groups, save: PageSaver, n: nat)
    requires groups != [] && SaveGroups(table, groups[..|groups| - 1], save) == (n, table)
    requires save(table, groups[|groups| - 1].0, JList(groups[|groups| - 1].1)) == (true, table)
    ensures SaveGroups(table, groups, save) == (n + |groups[|groups| - 1].1|, table)
  {
  }

  /** The loop's step: the count and table so far, and one more group's save. */
  lemma SaveGroupsAdvance(table: Table, groups: Groups, k: nat, save: PageSaver, n: nat, t: Table, ok: bool, t2: Table,
                          n2: nat)
    requires k < |groups| && (n, t) == SaveGroups(table, groups[..k], save)
    requires (ok, t2) == save(t, groups[k].0, JList(groups[k].1))
    requires n2 == if ok then n + |groups[k].1| else n
    ensures (n2, t2) == SaveGroups(table, groups[..k + 1], save)
  {
    SaveGroupsStep(table, groups, k, save);
  }

  /** The number of items over all groups. */
  function Sizes(groups: Groups): nat
  {
    if groups == [] then 0 else Sizes(groups[..|groups| - 1]) + |groups[|groups| - 1].1|
  }

  /** A legacy save: the payload's artifacts grouped by `source_page` (1 when absent), each
      group saved as one page of the legacy document with the default models and thresholds;
      success when some group's artifacts were reported saved. */
  function LegacySave(enabled: bool, table: Table, fileHash: string, data: Json, env: Env): (r: (bool, Table))
    ensures !enabled ==> r == (false, table)
    ensures LegacyArtifacts(data).None? ==> r == (false, table)
    ensures LegacyItems(data) == [] || GroupBy(LegacyItems(data), FieldKey("source_page", JInt(1))).None? ==>
      r == (false, table)
  {
    if !enabled then (false, table)
    else
      match LegacyArtifacts(data)
      case None => (false, table)
      case Some(a) =>
        if !Truthy(a) then (false, table)
        else
          match GroupBy(Iter(a).value, FieldKey("source_page", JInt(1)))
          case None => (false, table)
          case Some(groups) =>
            var (total, after) := SaveGroups(table, groups, LegacySaver(enabled, LegacyGroup(fileHash), env));
            (total > 0, after)
  }

  /** The key a legacy save stores a page under. */
  function LegacyKey(fileHash: string, page: Json, env: Env): string
  {
    PageCacheKey(LegacyGroup(fileHash), page, Config.GPT_4O, Config.GPT_4O, LEGACY_THRESHOLDS, env)
  }

  /** The artifacts of a legacy payload, none where the save gives up on it. */
  function LegacyItems(data: Json): seq<Json>
  {
    if LegacyArtifacts(data).Some? then Iter(LegacyArtifacts(data).value).value else []
  }

  /** The page a legacy artifact is grouped under, `None` where reading it raises. */
  function LegacyPage(item: Json): Option<Json>
  {
    FieldKey("source_page", JInt(1))(item)
  }

  /** Saving page groups leaves alone every key that already has records and every key
      that is not the key of one of the groups' pages. */
  lemma {:induction false} SaveGroupsTouchOnly(table: Table, groups: Groups, enabled: bool, h: string, env: Env, k: string)
    requires Hit(table, k) || forall j :: 0 <= j < |groups| ==> k != LegacyKey(h, groups[j].0, env)
    ensures PageRows(SaveGroups(table, groups, LegacySaver(enabled, LegacyGroup(h), env)).1, k) == PageRows(table, k)
  {
    if groups != [] {
      var init := groups[..|groups| - 1];
      assert forall j :: 0 <= j < |init| ==> init[j] == groups[j];
      SaveGroupsTouchOnly(table, init, enabled, h, env, k);
    }
  }

  /** An enabled legacy save of a payload with artifacts whose pages can all be read saves
      its page groups. */
  lemma LegacySaveSavesGroups(enabled: bool, table: Table, fileHash: string, data: Json, env: Env)
    requires enabled && LegacyArtifacts(data).Some? && Truthy(LegacyArtifacts(data).value)
    requires GroupBy(LegacyItems(data), FieldKey("source_page", JInt(1))).Some?
    ensures var groups := GroupBy(LegacyItems(data), FieldKey("source_page", JInt(1))).value;
      var r := SaveGroups(table, groups, LegacySaver(enabled, LegacyGroup(fileHash), env));
      LegacySave(enabled, table, fileHash, data, env) == (r.0 > 0, r.1)
  {
  }

  /** A key that is not the key of any artifact's page is not the key of any group's page. */
  lemma GroupKeysAvoid(items: seq<Json>, groups: Groups, fileHash: string, env: Env, k: string)
    requires GroupBy(items, FieldKey("source_page", JInt(1))) == Some(groups)
    requires forall i :: 0 <= i < |items| && LegacyPage(items[i]).Some? ==> k != LegacyKey(fileHash, LegacyPage(items[i]).value, env)
    ensures forall j :: 0 <= j < |groups| ==> k != LegacyKey(fileHash, groups[j].0, env)
  {
    var keyOf := FieldKey("source_page", JInt(1));
    var f := (p: Json) => LegacyKey(fileHash, p, env);
    forall i | 0 <= i < |items| && keyOf(items[i]).Some?
      ensures k != f(keyOf(items[i]).value)
    {
      assert LegacyPage(items[i]) == keyOf(items[i]);
    }
    GroupKeysAvoidBy(items, groups, keyOf, f, k);
    forall j | 0 <= j < |groups|
      ensures k != LegacyKey(fileHash, groups[j].0, env)
    {
      assert f(groups[j].0) == LegacyKey(fileHash, groups[j].0, env);
    }
  }

  /** A value that no item's key maps to is not what any group's key maps to. */
  lemma GroupKeysAvoidBy(items: seq<Json>, groups: Groups, keyOf: Json -> Option<Json>, f: Json -> string, k: string)
    requires GroupBy(items, keyOf) == Some(groups)
    requires forall i :: 0 <= i < |items| && keyOf(items[i]).Some? ==> k != f(keyOf(items[i]).value)
    ensures forall j :: 0 <= j < |groups| ==> k != f(groups[j].0)
  {
    GroupByEntries(items, keyOf);
    forall j | 0 <= j < |groups|
      ensures k != f(groups[j].0)
    {
      var i :| 0 <= i < |items| && keyOf(items[i]) == Some(groups[j].0);
    }
  }

  /** A legacy save leaves alone every key that already has records and every key that is
      not the key of one of its artifacts' pages: stored pages are never overwritten. */
  lemma {:induction false} LegacySaveTouchesOnlyItsPages(enabled: bool, table: Table, fileHash: string, data: Json, env: Env, k: string)
    requires Hit(table, k) || forall i :: 0 <= i < |LegacyItems(data)| && LegacyPage(LegacyItems(data)[i]).Some? ==>
      k != LegacyKey(fileHash, LegacyPage(LegacyItems(data)[i]).value, env)
    ensures PageRows(LegacySave(enabled, table, fileHash, data, env).1, k) == PageRows(table, k)
  {
    var a := LegacyArtifacts(data);
    var grouped := GroupBy(LegacyItems(data), FieldKey("source_page", JInt(1)));
    if enabled && a.Some? && Truthy(a.value) && grouped.Some? {
      LegacySaveSavesGroups(enabled, table, fileHash, data, env);
      if !Hit(table, k) {
        GroupKeysAvoid(LegacyItems(data), grouped.value, fileHash, env, k);
      }
      SaveGroupsTouchOnly(table, grouped.value, enabled, fileHash, env, k);
    }
  }

  /** As written, one page of a second legacy document is skipped and reported saved when
      the first document's key for that page has records. */
  lemma LegacySaveSkipsStoredPage(table: Table, page: Json, items: seq<Json>, enabled: bool, h1: string, h2: string, env: Env)
    requires enabled && !env.present(LegacyPath(h1)) && !env.present(LegacyPath(h2))
    requires FileIdentity(LegacyGroup(h2).en, env) != "" && items != []
    requires Hit(table, LegacyKey(h1, page, env)) && env.reachable(LegacyKey(h1, page, env))
    ensures LegacySaver(enabled, LegacyGroup(h2), env)(table, page, JList(items)) == (true, table)
  {
    VanishedDocumentsShareKeys(LegacyPath(h1), LegacyPath(h2), page, Config.GPT_4O, Config.GPT_4O, LEGACY_THRESHOLDS, env);
    var key := LegacyKey(h2, page, env);
    assert key == LegacyKey(h1, page, env);
    assert Truthy(JList(items));
    var r := SavePageWith(enabled, table, key, LegacyGroup(h2), page, JList(items), Config.GPT_4O, Config.GPT_4O,
                          LEGACY_THRESHOLDS, env);
    assert r == (true, table);
  }

  /** As written, when every group's page already has records under another legacy
      document's key, saving the groups skips each of them and reports each saved. */
  lemma SaveGroupsAllStored(table: Table, groups: Groups, enabled: bool, h1: string, h2: string, env: Env)
    requires enabled && !env.present(LegacyPath(h1)) && !env.present(LegacyPath(h2))
    requires FileIdentity(LegacyGroup(h2).en, env) != ""
    requires forall j :: 0 <= j < |groups| ==>
      groups[j].1 != [] && Hit(table, LegacyKey(h1, groups[j].0, env)) && env.reachable(LegacyKey(h1, groups[j].0, env))
    ensures SaveGroups(table, groups, LegacySaver(enabled, LegacyGroup(h2), env)) == (Sizes(groups), table)
  {
    var save := LegacySaver(enabled, LegacyGroup(h2), env);
    forall j | 0 <= j < |groups|
      ensures save(table, groups[j].0, JList(groups[j].1)) == (true, table)
    {
      LegacySaveSkipsStoredPage(table, groups[j].0, groups[j].1, enabled, h1, h2, env);
    }
    SaveGroupsAllSkipped(table, groups, save);
  }

  /** Groups that are each skipped and reported saved all count, and leave the table. */
  lemma {:induction false} SaveGroupsAllSkipped(table: Table, groups: Groups, save: PageSaver)
    requires forall j :: 0 <= j < |groups| ==> save(table, groups[j].0, JList(groups[j].1)) == (true, table)
    ensures SaveGroups(table, groups, save) == (Sizes(groups), table)
  {
    if groups != [] {
      var init := groups[..|groups| - 1];
      assert forall j :: 0 <= j < |init| ==> init[j] == groups[j];
      SaveGroupsAllSkipped(table, init, save);
      SkippedGroupsStep(table, groups, save, Sizes(init));
    }
  }

  /** As written, a legacy save of a second document is skipped whenever a first document's
      legacy saves stored every page of its payload, because neither legacy path exists and
      so both page keys hash no file at all. The table is left as it was, and the save
      reports success exactly when the payload had artifacts whose pages could be read. */
  lemma {:induction false} LegacySaveOfOtherDocumentIsSkipped(enabled: bool, table: Table, h1: string, h2: string, data: Json, env: Env)
    requires enabled && !env.present(LegacyPath(h1)) && !env.present(LegacyPath(h2))
    requires FileIdentity(LegacyGroup(h2).en, env) != ""
    requires LegacyArtifacts(data).Some?
    requires forall i :: 0 <= i < |LegacyItems(data)| && LegacyPage(LegacyItems(data)[i]).Some? ==>
      Hit(table, LegacyKey(h1, LegacyPage(LegacyItems(data)[i]).value, env))
      && env.reachable(LegacyKey(h1, LegacyPage(LegacyItems(data)[i]).value, env))
    ensures var items := LegacyItems(data);
      var r := LegacySave(enabled, table, h2, data, env);
      r.1 == table
      && (r.0 <==> items != [] && forall i :: 0 <= i < |items| ==> LegacyPage(items[i]).Some?)
  {
    var a := LegacyArtifacts(data).value;
    var items := LegacyItems(data);
    var keyOf := FieldKey("source_page", JInt(1));
    assert Truthy(a) <==> items != [];
    GroupByRaises(items, keyOf);
    assert (exists i :: 0 <= i < |items| && keyOf(items[i]).None?) <==> !forall i :: 0 <= i < |items| ==> LegacyPage(items[i]).Some?;
    var grouped := GroupBy(items, keyOf);
    if items != [] && grouped.Some? {
      var groups := grouped.value;
      LegacySaveSavesGroups(enabled, table, h2, data, env);
      GroupByEntries(items, keyOf);
      forall j | 0 <= j < |groups|
        ensures groups[j].1 != [] && Hit(table, LegacyKey(h1, groups[j].0, env)) && env.reachable(LegacyKey(h1, groups[j].0, env))
      {
        var i :| 0 <= i < |items| && keyOf(items[i]) == Some(groups[j].0);
        assert LegacyPage(items[i]) == Some(groups[j].0);
      }
      SaveGroupsAllStored(table, groups, enabled, h1, h2, env);
      assert Sizes(groups) >= |groups[|groups| - 1].1| > 0;
    }
  }

  /** With the corrected key, legacy documents whose hashes differ in their first eight
      characters keep their pages apart. */
  lemma LegacyDocumentsKeptApart(h1: string, h2: string, page: Json, env: Env)
    requires Injective(env.pageKeyHash) && Injective(env.textHash)
    requires !env.present(LegacyPath(h1)) && !env.present(LegacyPath(h2))
    requires '/' !in h1 && '/' !in h2
    requires Strings.Take(h1, 8) != Strings.Take(h2, 8)
    ensures PageKey(LegacyGroup(h1), page, Config.GPT_4O, Config.GPT_4O, LEGACY_THRESHOLDS, env)
         != PageKey(LegacyGroup(h2), page, Config.GPT_4O, Config.GPT_4O, LEGACY_THRESHOLDS, env)
  {
    LegacyCoreName(h1);
    LegacyCoreName(h2);
    var p1, p2 := LegacyPath(h1), LegacyPath(h2);
    LegacyPathsDiffer(h1, h2);
    VanishedDocumentsKeptApart(p1, p2, page, Config.GPT_4O, Config.GPT_4O, LEGACY_THRESHOLDS, env);
  }

  /** Legacy paths of hashes with different eight-character prefixes differ. */
  lemma LegacyPathsDiffer(h1: string, h2: string)
    requires Strings.Take(h1, 8) != Strings.Take(h2, 8)
    ensures LegacyPath(h1) != LegacyPath(h2)
  {
    var p1, p2 := LegacyPath(h1), LegacyPath(h2);
    assert p1[12..|p1| - 4] == Strings.Take(h1, 8);
    assert p2[12..|p2| - 4] == Strings.Take(h2, 8);
  }

  /** A legacy path is its own core name. */
  lemma LegacyCoreName(h: string)
    requires '/' !in h
    ensures CoreName(Some(LegacyPath(h))) == LegacyPath(h)
  {
    var p := LegacyPath(h);
    var t := Strings.Take(h, 8);
    assert '/' !in p by {
      assert forall i :: 0 <= i < |t| ==> t[i] == h[i];
      assert forall i :: 0 <= i < |p| ==> p[i] != '/' by {
        forall i | 0 <= i < |p|
          ensures p[i] != '/'
        {
          if 12 <= i < 12 + |t| {
            assert p[i] == t[i - 12];
          }
        }
      }
    }
    assert Strings.RFind(p, '/') == -1;
    assert Strings.Basename(p) == p;
    assert p[0] != IMPORTED_PREFIX[0];
  }

  // ---------------------------------------------------------------------------------
  // The store

  /** A page's stored rows rebuilt as artifacts (the conversion loop). */
  method RestorePage(rows: seq<Row>) returns (r: seq<Json>)
    ensures r == Restored(rows)
  {
    r := [];
    var i := 0;
    while i < |rows|
      invariant 0 <= i <= |rows|
      invariant r == Restored(rows[..i])
    {
      r := r + [CachedRecord(rows[i])];
      i := i + 1;
    }
    assert rows[..i] == rows;
  }

  /** The lookup loop: the pages in ascending order, each a query for its key. */
  method ScanPages(table: Table, keys: int -> string, reachable: string -> bool, start: int, end: int)
    returns (r: Option<(seq<Json>, seq<int>)>)
    requires start <= end
    ensures r == Scan(table, keys, reachable, start, end)
  {
    var cached, missing := [], [];
    var p := start;
    while p <= end
      invariant start <= p <= end + 1
      invariant Scan(table, keys, reachable, start, p - 1) == Some((cached, missing))
    {
      var key := keys(p);
      if !reachable(key) {
        ScanFails(table, keys, reachable, start, end);
        return None;
      }
      var rows := PageRows(table, key);
      if rows != [] {
        var page := RestorePage(rows);
        cached := cached + page;
      } else {
        missing := missing + [p];
      }
      p := p + 1;
    }
    r := Some((cached, missing));
  }

  /** The artifact store over its `artifacts` table. */
  class SimpleArtifactDB {
    const enabled: bool
    var artifacts: Table

    constructor (enabled: bool, artifacts: Table)
      ensures this.enabled == enabled && this.artifacts == artifacts
    {
      this.enabled := enabled;
      this.artifacts := artifacts;
    }

    /** The range lookup. */
    method CheckPageLevelCache(g: DataUtils.DocGroup, start: int, end: int, ocrModel: string,
                               extractionModel: string, thresholds: Thresholds, env: Env)
      returns (cached: seq<Json>, missing: seq<int>, stats: CacheStats)
      ensures (cached, missing, stats) == CacheLookup(enabled, artifacts, g, start, end, ocrModel, extractionModel, thresholds, env)
    {
      if !enabled || !Given(g.en) {
        return [], PageRange(start, end), CacheStats(0, end - start + 1);
      }
      if start > end {
        return [], [], CacheStats(0, 0);
      }
      var scan := ScanPages(artifacts, PageKeys(g, ocrModel, extractionModel, thresholds, env), env.reachable, start, end);
      if scan.None? {
        return [], PageRange(start, end), CacheStats(0, end - start + 1);
      }
      cached, missing := scan.value.0, scan.value.1;
      stats := CacheStats(end - start + 1 - |missing|, |missing|);
    }

    /** The insertion loop of a save into a key with no records. */
    method InsertRows(key: string, items: seq<Json>, build: Artifact -> Row, accept: Row -> bool)
      returns (count: nat, raised: bool)
      requires !Hit(artifacts, key)
      modifies this
      ensures var rows := Stored(items, build, accept);
        artifacts == Put(old(artifacts), key, rows) && count == |rows|
      ensures raised <==> DataUtils.ObjectPrefix(items) < |items|
    {
      var n := DataUtils.ObjectPrefix(items);
      ghost var base := artifacts;
      ghost var rows: seq<Row> := [];
      count := 0;
      var k := 0;
      while k < |items| && items[k].JObj?
        invariant 0 <= k <= n
        invariant rows == Seqs.Filter(Records(items[..k], build), accept) && count == |rows|
        invariant artifacts == Put(base, key, rows)
      {
        var row := build(items[k].members);
        StoredStep(items, k, build, accept);
        if accept(row) {
          PutAppend(base, key, rows, row);
          artifacts := artifacts[key := PageRows(artifacts, key) + [row]];
          rows := rows + [row];
          count := count + 1;
        }
        k := k + 1;
      }
      assert k == n;
      assert rows == Stored(items, build, accept);
      raised := k < |items|;
    }

    /** The save of one page's artifacts. */
    method SavePageArtifacts(g: DataUtils.DocGroup, page: Json, artifacts: Json, ocrModel: string,
                             extractionModel: string, thresholds: Thresholds, env: Env)
      returns (saved: bool)
      modifies this
      ensures (saved, this.artifacts) == SavePage(enabled, old(this.artifacts), g, page, artifacts, ocrModel, extractionModel, thresholds, env)
    {
      ghost var key0 := PageCacheKey(g, page, ocrModel, extractionModel, thresholds, env);
      assert SavePage(enabled, old(this.artifacts), g, page, artifacts, ocrModel, extractionModel, thresholds, env)
          == SavePageWith(enabled, old(this.artifacts), key0, g, page, artifacts, ocrModel, extractionModel, thresholds, env);
      if !enabled || !Truthy(artifacts) {
        return false;
      }
      var fileHash := FileIdentity(g.en, env);
      if fileHash == "" {
        return false;
      }
      var key := PageCacheKey(g, page, ocrModel, extractionModel, thresholds, env);
      if !env.reachable(key) {
        return false;
      }
      if Hit(this.artifacts, key) {
        return true;
      }
      var items := Iter(artifacts);
      if items.None? {
        return false;
      }
      var c := SaveContext(key, g, page, ocrModel, extractionModel, thresholds, env);
      var count, raised := InsertRows(key, items.value, Builder(c), env.accept);
      saved := !raised && count > 0;
    }

    /** The legacy save. */
    method SaveArtifactsFromData(fileHash: string, data: Json, env: Env) returns (saved: bool)
      modifies this
      ensures (saved, artifacts) == LegacySave(enabled, old(artifacts), fileHash, data, env)
    {
      if !enabled {
        return false;
      }
      var a := LegacyArtifacts(data);
      if a.None? || !Truthy(a.value) {
        return false;
      }
      var grouped := GroupItemsBy(Iter(a.value).value, FieldKey("source_page", JInt(1)));
      if grouped.None? {
        return false;
      }
      var total := SaveLegacyGroups(grouped.value, fileHash, env);
      saved := total > 0;
    }

    /** One turn of the legacy loop: the next group saved and, when that succeeds, counted. */
    method SaveLegacyGroup(groups: Groups, k: nat, g: DataUtils.DocGroup, env: Env, total: nat, ghost t0: Table)
      returns (total2: nat)
      requires k < |groups| && (total, artifacts) == SaveGroups(t0, groups[..k], LegacySaver(enabled, g, env))
      modifies this
      ensures (total2, artifacts) == SaveGroups(t0, groups[..k + 1], LegacySaver(enabled, g, env))
    {
      ghost var before := artifacts;
      var ok := SavePageArtifacts(g, groups[k].0, JList(groups[k].1), Config.GPT_4O, Config.GPT_4O, LEGACY_THRESHOLDS, env);
      ghost var after := artifacts;
      LegacySaverSaves(enabled, g, env, before, groups[k].0, JList(groups[k].1));
      total2 := if ok then total + |groups[k].1| else total;
      SaveGroupsAdvance(t0, groups, k, LegacySaver(enabled, g, env), total, before, ok, after, total2);
    }

    /** The loop of a legacy save over its page groups. */
    method SaveLegacyGroups(groups: Groups, fileHash: string, env: Env) returns (total: nat)
      modifies this
      ensures (total, artifacts) == SaveGroups(old(artifacts), groups, LegacySaver(enabled, LegacyGroup(fileHash), env))
    {
      var g := LegacyGroup(fileHash);
      ghost var t0 := artifacts;
      total := 0;
      var k := 0;
      while k < |groups|
        invariant 0 <= k <= |groups|
        invariant (total, artifacts) == SaveGroups(t0, groups[..k], LegacySaver(enabled, g, env))
      {
        total := SaveLegacyGroup(groups, k, g, env, total, t0);
        k := k + 1;
      }
      assert groups[..k] == groups;
    }
  }
}
