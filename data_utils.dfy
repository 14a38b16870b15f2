/**
 * The two file-level utilities of the pipeline: appending artifact records to a CSV file
 * as rows over a fixed list of columns, and grouping input files into document sets by
 * the language marker in their names.
 */
module DataUtils {
  import opened Wrappers
  import opened Json
  import PyDict
  import Strings

  // ---------------------------------------------------------------------------------
  // CSV rows

  /** A line of the CSV file: the header, or the cells of one record in column order. */
  datatype CsvLine = Header(names: seq<string>) | Row(cells: seq<Json>)

  /** The row written for one record: for every column the record's value, or "" when the
      record has no such key; keys that are not columns are dropped. */
  function RowOf(record: PyDict.Dict<string, Json>, fieldnames: seq<string>): (r: CsvLine)
    ensures r.Row? && |r.cells| == |fieldnames|
    ensures forall i :: 0 <= i < |fieldnames| ==>
      r.cells[i] == (if PyDict.HasKey(record, fieldnames[i]) then PyDict.Get(record, fieldnames[i]).value else JStr(""))
  {
    Row(seq(|fieldnames|, i requires 0 <= i < |fieldnames| => Member(record, fieldnames[i], JStr(""))))
  }

  /** A key that is not a column does not show in a row. */
  lemma RowIgnoresOtherKeys(record: PyDict.Dict<string, Json>, fieldnames: seq<string>, k: string, v: Json)
    requires k !in fieldnames
    ensures RowOf(PyDict.Set(record, k, v), fieldnames) == RowOf(record, fieldnames)
  {
    var a, b := RowOf(PyDict.Set(record, k, v), fieldnames), RowOf(record, fieldnames);
    forall i | 0 <= i < |fieldnames|
      ensures a.cells[i] == b.cells[i]
    {
      assert fieldnames[i] != k;
    }
  }

  /** The number of leading items that are objects: the loop writes their rows and raises
      at the first item that is not one. */
  function ObjectPrefix(items: seq<Json>): (n: nat)
    ensures n <= |items|
    ensures forall i :: 0 <= i < n ==> items[i].JObj?
    ensures n < |items| ==> !items[n].JObj?
  {
    if items == [] || !items[0].JObj? then 0 else 1 + ObjectPrefix(items[1..])
  }

  /** The rows of a list of objects, in order. */
  function Rows(items: seq<Json>, fieldnames: seq<string>): (r: seq<CsvLine>)
    requires forall i :: 0 <= i < |items| ==> items[i].JObj?
    ensures |r| == |items|
    ensures forall i :: 0 <= i < |items| ==> r[i] == RowOf(items[i].members, fieldnames)
  {
    if items == [] then []
    else Rows(items[..|items| - 1], fieldnames) + [RowOf(items[|items| - 1].members, fieldnames)]
  }

  /** What one call appends to a file: the header when the file is new, then one row per
      record up to the first item that is not an object (or none when `artifacts` cannot be
      iterated). */
  function Appended(existed: bool, artifacts: Json, fieldnames: seq<string>): seq<CsvLine>
  {
    var header := if existed then [] else [Header(fieldnames)];
    match Iter(artifacts)
    case None => header
    case Some(items) => header + Rows(items[..ObjectPrefix(items)], fieldnames)
  }

  /** A CSV file on disk: whether it exists, and its lines. */
  class CsvFile {
    var present: bool
    var lines: seq<CsvLine>

    ghost predicate Valid()
      reads this
    {
      !present ==> lines == []
    }

    constructor (present: bool, lines: seq<CsvLine>)
      requires !present ==> lines == []
      ensures this.present == present && this.lines == lines && Valid()
    {
      this.present := present;
      this.lines := lines;
    }

    /** The row loop: a row per record, raising at the first item that is not an object. */
    method WriteRows(xs: seq<Json>, fieldnames: seq<string>) returns (ok: bool)
      modifies this
      ensures present == old(present)
      ensures lines == old(lines) + Rows(xs[..ObjectPrefix(xs)], fieldnames)
      ensures ok <==> ObjectPrefix(xs) == |xs|
    {
      var k := 0;
      while k < |xs|
        invariant 0 <= k <= ObjectPrefix(xs)
        invariant present == old(present)
        invariant lines == old(lines) + Rows(xs[..k], fieldnames)
      {
        if !xs[k].JObj? {
          return false;
        }
        assert xs[..k + 1][..k] == xs[..k];
        lines := lines + [RowOf(xs[k].members, fieldnames)];
        k := k + 1;
      }
      ok := true;
    }

    /** `save_artifacts_to_csv`: opens the file for appending, writes the header only when
        the file did not exist, then a row per record. `ok` is false when it raised. */
    method SaveArtifactsToCsv(artifacts: Json, fieldnames: seq<string>) returns (ok: bool)
      requires Valid()
      modifies this
      ensures Valid() && present
      ensures lines == old(lines) + Appended(old(present), artifacts, fieldnames)
      ensures ok <==> Iter(artifacts).Some? && ObjectPrefix(Iter(artifacts).value) == |Iter(artifacts).value|
    {
      if !present {
        lines := lines + [Header(fieldnames)];
      }
      present := true;
      var items := Iter(artifacts);
      if items.None? {
        return false;
      }
      ok := WriteRows(items.value, fieldnames);
    }
  }

  /** A second save of the same records repeats the rows but never the header. */
  lemma HeaderOnce(artifacts: Json, fieldnames: seq<string>)
    ensures Appended(true, artifacts, fieldnames) == Appended(false, artifacts, fieldnames)[1..]
    ensures Appended(false, artifacts, fieldnames)[0] == Header(fieldnames)
  {
  }

  // ---------------------------------------------------------------------------------
  // Grouping by language

  /** A document set: the English file and the Arabic and French ones when present. */
  datatype DocGroup = DocGroup(en: Option<string>, ar: Option<string>, fr: Option<string>)

  /** The language markers, lower-case, in the order they are tried. */
  const EN_MARKERS: seq<string> := ["_en.", "_english.", "_eng."]
  const AR_MARKERS: seq<string> := ["_ar.", "_arabic."]
  const FR_MARKERS: seq<string> := ["_fr.", "_french."]

  /** Some marker occurs in the name, letters compared without case. */
  predicate HasMarker(name: string, markers: seq<string>)
  {
    exists m :: m in markers && Strings.Contains(Strings.Lower(name), m)
  }

  /** The language of a file name: the first of EN, AR, FR whose marker it holds, else EN. */
  function Language(name: string): (lang: string)
    ensures lang == "EN" || lang == "AR" || lang == "FR"
    ensures lang == "AR" ==> HasMarker(name, AR_MARKERS) && !HasMarker(name, EN_MARKERS)
    ensures lang == "FR" ==> HasMarker(name, FR_MARKERS) && !HasMarker(name, EN_MARKERS) && !HasMarker(name, AR_MARKERS)
    ensures lang == "EN" ==> HasMarker(name, EN_MARKERS) || (!HasMarker(name, AR_MARKERS) && !HasMarker(name, FR_MARKERS))
  {
    if HasMarker(name, EN_MARKERS) then "EN"
    else if HasMarker(name, AR_MARKERS) then "AR"
    else if HasMarker(name, FR_MARKERS) then "FR"
    else "EN"
  }

  /** The length of the first marker that `s` starts with, letters compared without case, or 0. */
  function MarkerAt(s: string, markers: seq<string>): (n: nat)
    ensures n <= |s|
    ensures n > 0 ==> exists m :: m in markers && |m| == n && Strings.Lower(s[..n]) == m
  {
    if markers == [] then 0
    else if 0 < |markers[0]| <= |s| && Strings.Lower(s[..|markers[0]|]) == markers[0] then |markers[0]|
    else MarkerAt(s, markers[1..])
  }

  /** `pattern.sub('.', s)`: every marker occurrence, scanning from the left, becomes '.'. */
  function ReplaceMarkers(s: string, markers: seq<string>): (r: string)
    ensures |r| <= |s|
    decreases |s|
  {
    if s == "" then ""
    else
      var n := MarkerAt(s, markers);
      if n > 0 then "." + ReplaceMarkers(s[n..], markers) else [s[0]] + ReplaceMarkers(s[1..], markers)
  }

  /** `re.sub(r'\.(pdf|jpg|png)$', '', s)`: a final extension is removed; `$` also matches
      in front of a final newline. */
  function DropExtension(s: string): (r: string)
    ensures |r| <= |s|
  {
    if Strings.EndsWith(s, ".pdf") || Strings.EndsWith(s, ".jpg") || Strings.EndsWith(s, ".png") then s[..|s| - 4]
    else if Strings.EndsWith(s, ".pdf\n") || Strings.EndsWith(s, ".jpg\n") || Strings.EndsWith(s, ".png\n") then s[..|s| - 5] + "\n"
    else s
  }

  /** The document a file belongs to: its name with every marker turned into '.', then
      without its extension. */
  function BaseName(file: string): string
  {
    var name := Strings.Basename(file);
    DropExtension(ReplaceMarkers(ReplaceMarkers(ReplaceMarkers(name, EN_MARKERS), AR_MARKERS), FR_MARKERS))
  }

  /** The document and the language a file is filed under. */
  function FileKey(file: string): (string, string)
  {
    (BaseName(file), Language(Strings.Basename(file)))
  }

  /** The files seen so far, by document and then by language. */
  type Categorized = PyDict.Dict<string, PyDict.Dict<string, string>>

  /** One file filed under its document and language, replacing an earlier file there. */
  function File(c: Categorized, file: string, key: string -> (string, string)): Categorized
  {
    var (base, lang) := key(file);
    PyDict.Set(c, base, PyDict.Set(PyDict.GetOr(c, base, []), lang, file))
  }

  /** The first loop of `group_documents_by_language` over `files`, filing each by `key`. */
  function Categorize(files: seq<string>, key: string -> (string, string)): Categorized
  {
    if files == [] then [] else File(Categorize(files[..|files| - 1], key), files[|files| - 1], key)
  }

  /** The last of `files` filed under document `base` and language `lang`: an independent
      statement of which file the grouping keeps. */
  function LastFile(files: seq<string>, base: string, lang: string, key: string -> (string, string)): Option<string>
  {
    if files == [] then None
    else
      var f := files[|files| - 1];
      if key(f) == (base, lang) then Some(f) else LastFile(files[..|files| - 1], base, lang, key)
  }

  /** Filing one file adds its document and keeps the others. */
  lemma FiledDocuments(c: Categorized, f: string, base: string, key: string -> (string, string))
    ensures PyDict.HasKey(File(c, f, key), base) <==> key(f).0 == base || PyDict.HasKey(c, base)
  {
    var e := File(c, f, key);
    assert PyDict.Get(e, base).Some? <==> key(f).0 == base || PyDict.Get(c, base).Some?;
  }

  /** One more file filed. */
  lemma CategorizeStep(files: seq<string>, k: nat, key: string -> (string, string))
    requires k < |files|
    ensures Categorize(files[..k + 1], key) == File(Categorize(files[..k], key), files[k], key)
  {
    assert files[..k + 1][..k] == files[..k];
  }

  /** A document is filed exactly when some file belongs to it. */
  lemma {:induction false} CategorizeFilesDocuments(files: seq<string>, base: string, key: string -> (string, string))
    ensures PyDict.HasKey(Categorize(files, key), base) <==> exists i :: 0 <= i < |files| && key(files[i]).0 == base
  {
    if files != [] {
      var init := files[..|files| - 1];
      CategorizeFilesDocuments(init, base, key);
      CategorizedLast(files, base, key);
      SomeFileSplit(files, init, base, key);
    }
  }

  /** Some file belongs to a document exactly when the last one does or an earlier one does. */
  lemma SomeFileSplit(files: seq<string>, init: seq<string>, base: string, key: string -> (string, string))
    requires files != [] && init == files[..|files| - 1]
    ensures (exists i :: 0 <= i < |files| && key(files[i]).0 == base) <==>
      key(files[|files| - 1]).0 == base || exists i :: 0 <= i < |init| && key(init[i]).0 == base
  {
    assert forall i :: 0 <= i < |init| ==> init[i] == files[i];
  }

  /** The documents filed after one more file: its own and the earlier ones. */
  lemma CategorizedLast(files: seq<string>, base: string, key: string -> (string, string))
    requires files != []
    ensures PyDict.HasKey(Categorize(files, key), base) <==>
      key(files[|files| - 1]).0 == base || PyDict.HasKey(Categorize(files[..|files| - 1], key), base)
  {
    FiledDocuments(Categorize(files[..|files| - 1], key), files[|files| - 1], base, key);
  }

  /** The filing keeps, for every document and language, the last file of that document
      and language. */
  lemma {:induction false} CategorizeKeepsLast(files: seq<string>, base: string, lang: string, key: string -> (string, string))
    ensures PyDict.Get(PyDict.GetOr(Categorize(files, key), base, []), lang) == LastFile(files, base, lang, key)
  {
    if files != [] {
      var init := files[..|files| - 1];
      var f := files[|files| - 1];
      CategorizeKeepsLast(init, base, lang, key);
      var c := Categorize(init, key);
      var (b, l) := key(f);
      var inner := PyDict.Set(PyDict.GetOr(c, b, []), l, f);
      assert Categorize(files, key) == PyDict.Set(c, b, inner);
      if b == base {
        assert PyDict.GetOr(Categorize(files, key), base, []) == inner;
      } else {
        assert PyDict.GetOr(Categorize(files, key), base, []) == PyDict.GetOr(c, base, []);
      }
    }
  }

  /** The set of a document from its files by language. */
  function Group(langs: PyDict.Dict<string, string>): DocGroup
  {
    DocGroup(PyDict.Get(langs, "EN"), PyDict.Get(langs, "AR"), PyDict.Get(langs, "FR"))
  }

  /** The document sets of the documents that have an English file, in the order the
      documents were first seen. */
  function Groups(c: Categorized): (g: PyDict.Dict<string, DocGroup>)
    ensures |g| <= |c|
  {
    if c == [] then []
    else
      var init := Groups(c[..|c| - 1]);
      if PyDict.HasKey(c[|c| - 1].1, "EN") then init + [(c[|c| - 1].0, Group(c[|c| - 1].1))] else init
  }

  /** Every document set is the set of a document that has an English file. */
  lemma {:induction false} GroupsHaveEnglish(c: Categorized, i: nat)
    requires i < |Groups(c)|
    ensures exists j :: 0 <= j < |c| && Groups(c)[i] == (c[j].0, Group(c[j].1)) && PyDict.HasKey(c[j].1, "EN")
    ensures Groups(c)[i].1.en.Some?
  {
    var init := c[..|c| - 1];
    if i < |Groups(init)| {
      GroupsHaveEnglish(init, i);
      var j :| 0 <= j < |init| && Groups(init)[i] == (init[j].0, Group(init[j].1)) && PyDict.HasKey(init[j].1, "EN");
      assert init[j] == c[j];
    } else {
      assert PyDict.Get(c[|c| - 1].1, "EN").Some?;
    }
  }

  /** Every document with an English file forms a set. */
  lemma {:induction false} GroupsNeedEnglish(c: Categorized, j: nat)
    requires j < |c| && PyDict.HasKey(c[j].1, "EN")
    ensures exists i :: 0 <= i < |Groups(c)| && Groups(c)[i].0 == c[j].0
  {
    var init := c[..|c| - 1];
    if j < |c| - 1 {
      assert init[j] == c[j];
      GroupsNeedEnglish(init, j);
      var i :| 0 <= i < |Groups(init)| && Groups(init)[i].0 == init[j].0;
      assert Groups(c)[i] == Groups(init)[i];
    } else {
      assert Groups(c)[|Groups(c)| - 1].0 == c[j].0;
    }
  }

  /** The first loop of `group_documents_by_language`: each file filed in turn. */
  method CategorizeFiles(files: seq<string>) returns (c: Categorized)
    ensures c == Categorize(files, FileKey)
  {
    c := [];
    var k := 0;
    while k < |files|
      invariant 0 <= k <= |files|
      invariant c == Categorize(files[..k], FileKey)
    {
      CategorizeStep(files, k, FileKey);
      c := File(c, files[k], FileKey);
      k := k + 1;
    }
    assert files[..k] == files;
  }

  /** The second loop: a set for every document with an English file. */
  method GroupsOf(c: Categorized) returns (groups: PyDict.Dict<string, DocGroup>)
    ensures groups == Groups(c)
  {
    groups := [];
    var n := 0;
    while n < |c|
      invariant 0 <= n <= |c|
      invariant groups == Groups(c[..n])
    {
      assert c[..n + 1][..n] == c[..n];
      var langs := c[n].1;
      if PyDict.HasKey(langs, "EN") {
        groups := groups + [(c[n].0, Group(langs))];
      }
      n := n + 1;
    }
    assert c[..n] == c;
  }

  /** `group_documents_by_language`. */
  method GroupDocumentsByLanguage(files: seq<string>) returns (groups: PyDict.Dict<string, DocGroup>)
    ensures groups == Groups(Categorize(files, FileKey))
  {
    var c := CategorizeFiles(files);
    groups := GroupsOf(c);
  }
}
