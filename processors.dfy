/**
 * The document-level workflows that tie the stages together: English artifacts merged
 * with Arabic and French names through name dictionaries, the consolidated database
 * that deduplicates on the English name and reuses translations of an earlier run, the
 * positional back-fill of metadata after validation, and the page-cached orchestrator
 * that processes only the pages the store does not hold yet.
 *
 * The stages these workflows call (OCR with correction, extraction, name alignment,
 * validation, the page store) are the other modules of this model; where a workflow only
 * passes a stage's answer along, the stage is a function parameter that stands for it.
 */
module Processors {
  import opened Wrappers
  import opened Json
  import PyDict
  import Seqs
  import Strings
  import Config
  import Services
  import Validation
  import ImageProcessing
  import DataUtils
  import SimpleDb

  // ---------------------------------------------------------------------------------------
  // Name dictionaries

  /** English name to target-language name; keys are held as Python compares them. */
  type NameDict = PyDict.Dict<Json, Json>

  const ARABIC_NAME := "Arabic_Name"
  const FRENCH_NAME := "French_Name"

  /** What one name mapping adds to the dictionary of `target` names: a binding, nothing,
      or an exception (a mapping that is not an object, an English name that cannot be a key). */
  function MappingEntry(mapping: Json, target: string): Outcome<Option<(Json, Json)>>
  {
    if !mapping.JObj? then Raised
    else
      var en := Member(mapping.members, "English_Name", Empty);
      var name := Member(mapping.members, target, Empty);
      if !(Truthy(en) && Truthy(name) && name != Str(Config.NOT_FOUND)) then Ok(None)
      else if Hashable(en) then Ok(Some((Key(en), name)))
      else Raised
  }

  /** The dictionary the loop over `mappings` builds, each accepted mapping assigned in turn. */
  function NameDictOf(mappings: seq<Json>, target: string): Outcome<NameDict>
  {
    if mappings == [] then Ok([])
    else
      match NameDictOf(mappings[..|mappings| - 1], target)
      case Raised => Raised
      case Ok(d) =>
        match MappingEntry(mappings[|mappings| - 1], target)
        case Raised => Raised
        case Ok(None) => Ok(d)
        case Ok(Some(e)) => Ok(PyDict.Set(d, e.0, e.1))
  }

  /** The dictionary of the mappings in `mappings`, which must be iterable. */
  function NamesIn(mappings: Json, target: string): Outcome<NameDict>
  {
    match Iter(mappings)
    case None => Raised
    case Some(items) => NameDictOf(items, target)
  }

  /** Mapping `m` names `n` in the `target` language: it is an object whose English_Name is
      `n`, the English name is non-empty, and the target name is non-empty and not NOT_FOUND. */
  predicate Names(m: Json, target: string, n: Json)
  {
    && m.JObj?
    && Truthy(Member(m.members, "English_Name", Empty))
    && Key(Member(m.members, "English_Name", Empty)) == Key(n)
    && Truthy(Member(m.members, target, Empty))
    && Member(m.members, target, Empty) != Str(Config.NOT_FOUND)
  }

  /** The position of the last mapping that names `n`, or -1. */
  function LastNaming(mappings: seq<Json>, target: string, n: Json): (r: int)
    ensures -1 <= r < |mappings|
    ensures r >= 0 ==> Names(mappings[r], target, n)
    ensures forall i :: r < i < |mappings| ==> !Names(mappings[i], target, n)
  {
    if mappings == [] then -1
    else if Names(mappings[|mappings| - 1], target, n) then |mappings| - 1
    else LastNaming(mappings[..|mappings| - 1], target, n)
  }

  /** The target name the mappings give `n`: the last naming mapping's, else "". */
  function Translated(mappings: seq<Json>, target: string, n: Json): Json
  {
    var i := LastNaming(mappings, target, n);
    if i < 0 then Empty else Member(mappings[i].members, target, Empty)
  }

  /** A dictionary built without an exception gives every name the target name of the last
      mapping that names it, and has no entry for a name no mapping names. */
  lemma {:induction false} NameDictLastWins(mappings: seq<Json>, target: string, n: Json)
    requires NameDictOf(mappings, target).Ok?
    ensures var i := LastNaming(mappings, target, n);
      PyDict.Get(NameDictOf(mappings, target).value, Key(n)) ==
        if i < 0 then None else Some(Member(mappings[i].members, target, Empty))
    ensures PyDict.GetOr(NameDictOf(mappings, target).value, Key(n), Empty) == Translated(mappings, target, n)
  {
    if mappings != [] {
      var init := mappings[..|mappings| - 1];
      var m := mappings[|mappings| - 1];
      NameDictLastWins(init, target, n);
      assert forall i :: 0 <= i < |init| ==> init[i] == mappings[i];
      var d := NameDictOf(init, target).value;
      match MappingEntry(m, target)
      case Ok(None) =>
        assert !Names(m, target, n);
      case Ok(Some(e)) =>
        if e.0 == Key(n) {
          assert Names(m, target, n);
        } else {
          assert !Names(m, target, n);
        }
    }
  }

  /** The dictionary raises exactly when some mapping is not an object, or names an English
      name that cannot be a key. */
  lemma {:induction false} NameDictRaises(mappings: seq<Json>, target: string)
    ensures NameDictOf(mappings, target).Raised? <==>
      exists i :: 0 <= i < |mappings| && MappingEntry(mappings[i], target).Raised?
  {
    if mappings != [] {
      var init := mappings[..|mappings| - 1];
      NameDictRaises(init, target);
      assert forall i :: 0 <= i < |init| ==> init[i] == mappings[i];
      if NameDictOf(init, target).Ok? && !MappingEntry(mappings[|mappings| - 1], target).Raised? {
        forall i | 0 <= i < |mappings|
          ensures !MappingEntry(mappings[i], target).Raised?
        {
          if i < |init| {
            assert mappings[i] == init[i];
          }
        }
      }
    }
  }

  /** Once the dictionary of a prefix raises, so does the dictionary of every longer prefix. */
  lemma {:induction false} NameDictStaysRaised(mappings: seq<Json>, target: string, n: nat)
    requires n <= |mappings| && NameDictOf(mappings[..n], target).Raised?
    ensures NameDictOf(mappings, target).Raised?
    decreases |mappings| - n
  {
    if n < |mappings| {
      assert mappings[..n + 1][..n] == mappings[..n];
      NameDictStaysRaised(mappings, target, n + 1);
    } else {
      assert mappings[..n] == mappings;
    }
  }

  /** The loop that builds a name dictionary (`for mapping in mappings: ...`). */
  method BuildNameDict(mappings: Json, target: string) returns (r: Outcome<NameDict>)
    ensures r == NamesIn(mappings, target)
  {
    var items := Iter(mappings);
    if items.None? {
      return Raised;
    }
    var ms := items.value;
    var d: NameDict := [];
    var k := 0;
    while k < |ms|
      invariant 0 <= k <= |ms|
      invariant NameDictOf(ms[..k], target) == Ok(d)
    {
      assert ms[..k + 1][..k] == ms[..k];
      var e := MappingEntry(ms[k], target);
      if e.Raised? {
        NameDictStaysRaised(ms, target, k + 1);
        return Raised;
      }
      if e.value.Some? {
        d := PyDict.Set(d, e.value.value.0, e.value.value.1);
      }
      k := k + 1;
    }
    assert ms[..k] == ms;
    r := Ok(d);
  }

  // ---------------------------------------------------------------------------------------
  // Merged records

  /** The keys of a merged record, in the order the record lists them. */
  function RecordField(i: nat): string
    requires i < 11
  {
    match i
    case 0 => "Name_EN"
    case 1 => "Name_AR"
    case 2 => "Name_FR"
    case 3 => "Creator"
    case 4 => "Creation Date"
    case 5 => "Materials"
    case 6 => "Origin"
    case 7 => "Description"
    case 8 => "Category"
    case 9 => "source_page"
    case _ => "source_document"
  }

  /** The keys of a merged record, in their order. */
  function RecordFields(): (r: seq<string>)
    ensures |r| == 11 && forall i :: 0 <= i < 11 ==> r[i] == RecordField(i)
  {
    seq(11, i requires 0 <= i < 11 => RecordField(i))
  }

  /** No key is listed twice. */
  lemma RecordFieldsDistinct()
    ensures forall i, j :: 0 <= i < j < 11 ==> RecordField(i) != RecordField(j)
  {
  }

  /** Value `i` of the record of artifact `a` with target names `ar` and `fr`: the English
      Name, the two target names, then the metadata fields read with "" as default. */
  function RecordValue(a: PyDict.Dict<string, Json>, ar: Json, fr: Json, i: nat): Json
    requires i < 11
  {
    if i == 0 then Member(a, "Name", Empty)
    else if i == 1 then ar
    else if i == 2 then fr
    else Member(a, RecordField(i), Empty)
  }

  /** The record display built for artifact `a`. */
  function Record(a: PyDict.Dict<string, Json>, ar: Json, fr: Json): PyDict.Dict<string, Json>
  {
    PyDict.FromLists(RecordFields(), seq(11, i requires 0 <= i < 11 => RecordValue(a, ar, fr, i)))
  }

  /** Every key of a record reads its own value, and no key is bound twice. */
  lemma RecordReads(a: PyDict.Dict<string, Json>, ar: Json, fr: Json)
    ensures forall i :: 0 <= i < 11 ==> PyDict.Get(Record(a, ar, fr), RecordField(i)) == Some(RecordValue(a, ar, fr, i))
    ensures PyDict.Unique(Record(a, ar, fr))
  {
    RecordFieldsDistinct();
    var values := seq(11, i requires 0 <= i < 11 => RecordValue(a, ar, fr, i));
    forall i | 0 <= i < 11
      ensures PyDict.Get(Record(a, ar, fr), RecordField(i)) == Some(RecordValue(a, ar, fr, i))
    {
      PyDict.GetFromLists(RecordFields(), values, i);
    }
  }

  /** An artifact the merge can read: an object whose Name can be looked up in a dictionary. */
  predicate Readable(a: Json)
  {
    a.JObj? && Hashable(Member(a.members, "Name", Empty))
  }

  /** `a.get("Name", "")`. */
  function NameOf(a: Json): Json
    requires a.JObj?
  {
    Member(a.members, "Name", Empty)
  }

  /** The merged record of one artifact: its names looked up in the two dictionaries. */
  function MergedRecord(a: Json, ar: NameDict, fr: NameDict): Json
    requires a.JObj?
  {
    var en := Key(NameOf(a));
    JObj(Record(a.members, PyDict.GetOr(ar, en, Empty), PyDict.GetOr(fr, en, Empty)))
  }

  /** The merge loop over a page's artifacts. */
  function MergeAll(artifacts: seq<Json>, ar: NameDict, fr: NameDict): Outcome<seq<Json>>
  {
    if forall i :: 0 <= i < |artifacts| ==> Readable(artifacts[i])
    then Ok(seq(|artifacts|, i requires 0 <= i < |artifacts| && Readable(artifacts[i]) =>
                MergedRecord(artifacts[i], ar, fr)))
    else Raised
  }

  /** `merge_multilingual_names_for_page`: both dictionaries, then one record per artifact. */
  function MergePage(pageArtifacts: seq<Json>, arNames: Json, frNames: Json): Outcome<seq<Json>>
  {
    match NamesIn(arNames, ARABIC_NAME)
    case Raised => Raised
    case Ok(ar) =>
      match NamesIn(frNames, FRENCH_NAME)
      case Raised => Raised
      case Ok(fr) => MergeAll(pageArtifacts, ar, fr)
  }

  /** One merged record: Name_EN is the artifact's Name, Name_AR and Name_FR are what the
      mappings give that name ("" when none does), and every metadata field is the artifact's
      own value with "" as default. */
  lemma MergedRecordFields(a: Json, arNames: seq<Json>, frNames: seq<Json>)
    requires a.JObj? && NameDictOf(arNames, ARABIC_NAME).Ok? && NameDictOf(frNames, FRENCH_NAME).Ok?
    ensures var r := MergedRecord(a, NameDictOf(arNames, ARABIC_NAME).value, NameDictOf(frNames, FRENCH_NAME).value);
      && r.JObj? && |r.members| == 11
      && Member(r.members, "Name_EN", JNull) == NameOf(a)
      && Member(r.members, "Name_AR", JNull) == Translated(arNames, ARABIC_NAME, NameOf(a))
      && Member(r.members, "Name_FR", JNull) == Translated(frNames, FRENCH_NAME, NameOf(a))
      && forall i :: 3 <= i < 11 ==> Member(r.members, RecordField(i), JNull) == Member(a.members, RecordField(i), Empty)
  {
    var ar, fr := NameDictOf(arNames, ARABIC_NAME).value, NameDictOf(frNames, FRENCH_NAME).value;
    NameDictLastWins(arNames, ARABIC_NAME, NameOf(a));
    NameDictLastWins(frNames, FRENCH_NAME, NameOf(a));
    var arName, frName := PyDict.GetOr(ar, Key(NameOf(a)), Empty), PyDict.GetOr(fr, Key(NameOf(a)), Empty);
    RecordReads(a.members, arName, frName);
    assert RecordField(0) == "Name_EN" && RecordField(1) == "Name_AR" && RecordField(2) == "Name_FR";
  }

  /** The merge preserves the page's shape: one record per artifact, in the same order, each
      as described by `MergedRecordFields`; it raises exactly when a dictionary does or an
      artifact cannot be read. */
  lemma MergePageShape(pageArtifacts: seq<Json>, arNames: seq<Json>, frNames: seq<Json>)
    ensures MergePage(pageArtifacts, JList(arNames), JList(frNames)).Raised? <==>
      || NameDictOf(arNames, ARABIC_NAME).Raised? || NameDictOf(frNames, FRENCH_NAME).Raised?
      || exists i :: 0 <= i < |pageArtifacts| && !Readable(pageArtifacts[i])
    ensures MergePage(pageArtifacts, JList(arNames), JList(frNames)).Ok? ==>
      var r := MergePage(pageArtifacts, JList(arNames), JList(frNames)).value;
      && |r| == |pageArtifacts|
      && forall i :: 0 <= i < |r| ==>
           && pageArtifacts[i].JObj?
           && r[i] == MergedRecord(pageArtifacts[i], NameDictOf(arNames, ARABIC_NAME).value, NameDictOf(frNames, FRENCH_NAME).value)
  {
  }

  /** The merge loop. */
  method MergeArtifacts(artifacts: seq<Json>, ar: NameDict, fr: NameDict) returns (r: Outcome<seq<Json>>)
    ensures r == MergeAll(artifacts, ar, fr)
  {
    var merged: seq<Json> := [];
    var k := 0;
    while k < |artifacts|
      invariant 0 <= k <= |artifacts|
      invariant forall i :: 0 <= i < k ==> Readable(artifacts[i])
      invariant |merged| == k && forall i :: 0 <= i < k ==> merged[i] == MergedRecord(artifacts[i], ar, fr)
    {
      var a := artifacts[k];
      if !Readable(a) {
        return Raised;
      }
      merged := merged + [MergedRecord(a, ar, fr)];
      k := k + 1;
    }
    assert merged == seq(|artifacts|, i requires 0 <= i < |artifacts| && Readable(artifacts[i]) =>
                           MergedRecord(artifacts[i], ar, fr));
    r := Ok(merged);
  }

  /** `merge_multilingual_names_for_page`. */
  method MergeMultilingualNamesForPage(pageArtifacts: seq<Json>, arNames: Json, frNames: Json)
    returns (r: Outcome<seq<Json>>)
    ensures r == MergePage(pageArtifacts, arNames, frNames)
  {
    var ar := BuildNameDict(arNames, ARABIC_NAME);
    if ar.Raised? {
      return Raised;
    }
    var fr := BuildNameDict(frNames, FRENCH_NAME);
    if fr.Raised? {
      return Raised;
    }
    r := MergeArtifacts(pageArtifacts, ar.value, fr.value);
  }

  // ---------------------------------------------------------------------------------------
  // Back-fill after validation

  /** The keys the back-fill leaves as the validator answered them. */
  const NAME_KEYS: set<string> := {"Name_EN", "Name_AR", "Name_FR", "Name_validation"}

  /** The bindings of a pre-validation record that the back-fill copies: all but the names. */
  function MetadataOf(record: PyDict.Dict<string, Json>): PyDict.Dict<string, Json>
  {
    PyDict.Without(record, NAME_KEYS)
  }

  /** Validated item `validated` back-filled from pre-validation record `original`: every
      binding of `original` whose key is not a name key is assigned into `validated`.
      `original` must be an object, and `validated` must take item assignment as soon as
      there is something to assign. */
  function FilledItem(validated: Json, original: Json): Outcome<Json>
  {
    if !original.JObj? then Raised
    else if MetadataOf(original.members) == [] then Ok(validated)
    else if validated.JObj? then Ok(JObj(PyDict.Update(validated.members, MetadataOf(original.members))))
    else Raised
  }

  /** A back-filled object reads every non-name key of the pre-validation record from that
      record and every other key from the validator's answer. */
  lemma FilledItemReads(validated: Json, original: Json, k: string)
    requires original.JObj? && PyDict.Unique(original.members) && validated.JObj?
    ensures FilledItem(validated, original).Ok?
    ensures var r := FilledItem(validated, original).value;
      && r.JObj?
      && PyDict.Get(r.members, k) ==
           if k !in NAME_KEYS && PyDict.HasKey(original.members, k) then PyDict.Get(original.members, k)
           else PyDict.Get(validated.members, k)
  {
    var u := MetadataOf(original.members);
    PyDict.WithoutUnique(original.members, NAME_KEYS);
    PyDict.GetWithout(original.members, NAME_KEYS, k);
    if u != [] {
      PyDict.GetUpdate(validated.members, u, k);
    }
  }

  /** The inner back-fill loop over the bindings of `original`. */
  method CopyMetadata(validated: Json, original: Json) returns (r: Outcome<Json>)
    ensures r == FilledItem(validated, original)
  {
    if !original.JObj? {
      return Raised;
    }
    var items := original.members;
    var v := validated;
    ghost var done: PyDict.Dict<string, Json> := [];
    var k := 0;
    while k < |items|
      invariant 0 <= k <= |items|
      invariant done == PyDict.Without(items[..k], NAME_KEYS)
      invariant done == [] ==> v == validated
      invariant done != [] ==> validated.JObj? && v == JObj(PyDict.Update(validated.members, done))
    {
      assert items[..k + 1] == items[..k] + [items[k]];
      PyDict.WithoutAppend(items[..k], items[k], NAME_KEYS);
      var key, value := items[k].0, items[k].1;
      if key !in NAME_KEYS {
        if !v.JObj? {
          PyDict.WithoutKeeps(items, k, NAME_KEYS);
          return Raised;
        }
        PyDict.UpdateAppend(validated.members, done, key, value);
        if done == [] {
          assert done + [(key, value)] == [(key, value)];
        }
        assert PyDict.Update(validated.members, done + [(key, value)]) == PyDict.Set(v.members, key, value);
        v := JObj(PyDict.Set(v.members, key, value));
        done := done + [(key, value)];
      }
      k := k + 1;
    }
    assert items[..k] == items;
    r := Ok(v);
  }

  /** The position of the first validated item whose back-fill raises, or the length. */
  function FillFailure(vs: seq<Json>, os: seq<Json>): (f: nat)
    requires |vs| == |os|
    ensures f <= |vs|
    ensures forall i :: 0 <= i < f ==> FilledItem(vs[i], os[i]).Ok?
    ensures f < |vs| ==> FilledItem(vs[f], os[f]).Raised?
    decreases |vs|
  {
    if vs == [] then 0
    else if FilledItem(vs[0], os[0]).Raised? then 0
    else 1 + FillFailure(vs[1..], os[1..])
  }

  /** The validated items after the positional back-fill loop: the items before the first
      failure are back-filled, the others are as the validator gave them. */
  function Filled(vs: seq<Json>, os: seq<Json>): (r: seq<Json>)
    requires |vs| == |os|
  {
    var f := FillFailure(vs, os);
    seq(|vs|, i requires 0 <= i < |vs| => if i < f then FilledItem(vs[i], os[i]).value else vs[i])
  }

  /** The outer back-fill loop `for i, validated in enumerate(vs)`, which updates the items
      in place and stops at the first exception. */
  method BackFillItems(vs: seq<Json>, os: seq<Json>) returns (r: seq<Json>, failed: bool)
    requires |vs| == |os|
    ensures r == Filled(vs, os)
    ensures failed <==> FillFailure(vs, os) < |vs|
  {
    ghost var f := FillFailure(vs, os);
    r := vs;
    var i := 0;
    while i < |vs|
      invariant 0 <= i <= f
      invariant |r| == |vs|
      invariant forall j :: 0 <= j < |vs| ==> r[j] == if j < i then FilledItem(vs[j], os[j]).value else vs[j]
    {
      var item := CopyMetadata(r[i], os[i]);
      if item.Raised? {
        assert r == Filled(vs, os);
        return r, true;
      }
      r := r[i := item.value];
      i := i + 1;
    }
    assert r == Filled(vs, os);
    failed := false;
  }

  /** The page list after the validation step of the orchestrator AS WRITTEN, given the
      validator's result `v`: on a length mismatch `v`; otherwise `v` with its items
      back-filled up to the first failure, and that partly back-filled list is kept even when
      the back-fill raises. */
  function ValidatedPageAsWritten(merged: seq<Json>, v: Json): (r: Json)
    ensures Iter(v).None? || |Iter(v).value| != |merged| || !v.JList? ==> r == v
    ensures v.JList? && |v.items| == |merged| ==>
      r.JList? && |r.items| == |merged|
      && forall i :: FillFailure(v.items, merged) <= i < |merged| ==> r.items[i] == v.items[i]
  {
    match Iter(v)
    case None => v
    case Some(items) =>
      if |items| != |merged| then v
      else if v.JList? then JList(Filled(items, merged)) else v
  }

  /** The page list after the validation step, as its log message says it should be: an
      exception in the back-fill falls back to the unvalidated records. */
  function ValidatedPage(merged: seq<Json>, v: Json): (r: Json)
    ensures Iter(v).None? ==> r == JList(merged)
    ensures Iter(v).Some? && |Iter(v).value| != |merged| ==> r == v
    ensures r == v || r == JList(merged) || (v.JList? && r.JList? && |r.items| == |merged|)
  {
    match Iter(v)
    case None => JList(merged)
    case Some(items) =>
      if |items| != |merged| then v
      else if FillFailure(items, merged) < |items| then JList(merged)
      else if v.JList? then JList(Filled(items, merged)) else v
  }

  /** When the validator answers one object per record, the back-fill cannot raise, the step
      as written and the corrected step agree, and every page record keeps the validator's
      names and the pre-validation value of every other key. */
  lemma ValidatedPageBackFills(merged: seq<Json>, v: seq<Json>, i: nat, k: string)
    requires |v| == |merged| && i < |v|
    requires forall j :: 0 <= j < |v| ==> v[j].JObj?
    requires forall j :: 0 <= j < |merged| ==> merged[j].JObj? && PyDict.Unique(merged[j].members)
    ensures var r := ValidatedPage(merged, JList(v));
      && ValidatedPageAsWritten(merged, JList(v)) == r
      && r.JList? && |r.items| == |v| && r.items[i].JObj?
      && PyDict.Get(r.items[i].members, k) ==
           if k !in NAME_KEYS && PyDict.HasKey(merged[i].members, k) then PyDict.Get(merged[i].members, k)
           else PyDict.Get(v[i].members, k)
  {
    var f := FillFailure(v, merged);
    if f < |v| {
      FilledItemReads(v[f], merged[f], k);
    }
    FilledItemReads(v[i], merged[i], k);
  }

  /** The corrected step differs from the step as written only where the back-fill raised,
      and there it gives the unvalidated records back. */
  lemma ValidatedPageFallsBack(merged: seq<Json>, v: Json)
    ensures var failed := Iter(v).Some? && |Iter(v).value| == |merged| && FillFailure(Iter(v).value, merged) < |merged|;
      ValidatedPage(merged, v) == if failed || Iter(v).None? then JList(merged) else ValidatedPageAsWritten(merged, v)
  {
  }

  /** As written, a back-fill that raises on the second record keeps the validator's output
      with its first record back-filled, not the unvalidated records. */
  lemma FailedBackFillKeepsValidatorOutput()
    ensures var r := JObj([("Creator", Str("x"))]);
      var v := JList([JObj([]), JInt(0)]);
      && FillFailure(v.items, [r, r]) == 1
      && ValidatedPageAsWritten([r, r], v) == JList([r, JInt(0)])
      && ValidatedPageAsWritten([r, r], v) != JList([r, r])
      && ValidatedPage([r, r], v) == JList([r, r])
  {
    var r := JObj([("Creator", Str("x"))]);
    var v := JList([JObj([]), JInt(0)]);
    assert "Creator" !in NAME_KEYS;
    assert MetadataOf(r.members) == r.members;
    assert PyDict.Update([], r.members) == r.members;
    assert FilledItem(JObj([]), r) == Ok(r);
    assert FilledItem(JInt(0), r) == Raised;
    assert FillFailure(v.items, [r, r]) == 1 by {
      assert FillFailure(v.items[1..], [r, r][1..]) == 0;
    }
    assert Filled(v.items, [r, r]) == [r, JInt(0)];
  }

  // ---------------------------------------------------------------------------------------
  // The consolidated database

  /** Records of an earlier run by English name, as loaded from its output file. */
  type Prior = PyDict.Dict<Json, PyDict.Dict<string, Json>>

  /** What one item of the earlier file adds: a record under its Name_EN, nothing (an item
      without Name_EN), or an exception that ends the loading. */
  function PriorEntry(item: Json): Seqs.Verdict<(Json, PyDict.Dict<string, Json>)>
  {
    match In("Name_EN", item)
    case None => Seqs.Crash
    case Some(present) =>
      if !present then Seqs.Skip
      else if item.JObj? && Hashable(Member(item.members, "Name_EN", JNull))
      then Seqs.Keep((Key(Member(item.members, "Name_EN", JNull)), item.members))
      else Seqs.Crash
  }

  /** The loading loop, from the records loaded so far: it stops at the first exception,
      and what it loaded until then is kept. */
  function LoadFrom(acc: Prior, items: seq<Json>): Prior
    decreases |items|
  {
    if items == [] then acc
    else
      match PriorEntry(items[0])
      case Crash => acc
      case Skip => LoadFrom(acc, items[1..])
      case Keep(e) => LoadFrom(PyDict.Set(acc, e.0, e.1), items[1..])
  }

  /** The earlier records: none when there is no earlier file, when it does not parse or
      when its content cannot be iterated. */
  function Loaded(previous: Option<Json>): Prior
  {
    if previous.None? then []
    else match Iter(previous.value)
      case None => []
      case Some(items) => LoadFrom([], items)
  }

  /** Every earlier record is stored once, under its own Name_EN. */
  ghost predicate PriorValid(p: Prior)
  {
    && PyDict.Unique(p)
    && forall i :: 0 <= i < |p| ==>
         && PyDict.HasKey(p[i].1, "Name_EN")
         && Hashable(Member(p[i].1, "Name_EN", JNull))
         && Key(Member(p[i].1, "Name_EN", JNull)) == p[i].0
  }

  /** Loading more items keeps the earlier records valid. */
  lemma {:induction false} LoadFromValid(acc: Prior, items: seq<Json>)
    requires PriorValid(acc)
    ensures PriorValid(LoadFrom(acc, items))
    decreases |items|
  {
    if items != [] {
      match PriorEntry(items[0])
      case Crash =>
      case Skip => LoadFromValid(acc, items[1..]);
      case Keep(e) =>
        PyDict.SetKeepsUnique(acc, e.0, e.1);
        PyDict.SetPositions(acc, e.0, e.1);
        LoadFromValid(PyDict.Set(acc, e.0, e.1), items[1..]);
    }
  }

  /** The earlier records always satisfy `PriorValid`. */
  lemma LoadedValid(previous: Option<Json>)
    ensures PriorValid(Loaded(previous))
  {
    if previous.Some? && Iter(previous.value).Some? {
      LoadFromValid([], Iter(previous.value).value);
    }
  }

  /** The loading loop over the earlier file's items. */
  method LoadPrevious(previous: Option<Json>) returns (p: Prior)
    ensures p == Loaded(previous)
  {
    if previous.None? {
      return [];
    }
    var items := Iter(previous.value);
    if items.None? {
      return [];
    }
    var xs := items.value;
    p := [];
    var k := 0;
    while k < |xs|
      invariant 0 <= k <= |xs|
      invariant LoadFrom(p, xs[k..]) == LoadFrom([], xs)
    {
      var e := PriorEntry(xs[k]);
      if e.Crash? {
        return;
      }
      if e.Keep? {
        p := PyDict.Set(p, e.record.0, e.record.1);
      }
      k := k + 1;
    }
  }

  /** The key an artifact's English name is compared by. */
  function NameKey(a: Json): Json
  {
    if a.JObj? then Key(NameOf(a)) else JNull
  }

  /** The names of `artifacts`, as the loop's set of processed names holds them. */
  function NameKeys(artifacts: seq<Json>): set<Json>
  {
    set i | 0 <= i < |artifacts| :: NameKey(artifacts[i])
  }

  /** Artifact `i` is the first with its English name. */
  predicate FirstOccurrence(artifacts: seq<Json>, i: nat)
    requires i < |artifacts|
  {
    forall j :: 0 <= j < i ==> NameKey(artifacts[j]) != NameKey(artifacts[i])
  }

  /** The positions of the first occurrences, in order. */
  function FirstPositions(artifacts: seq<Json>): (r: seq<nat>)
    ensures forall j :: 0 <= j < |r| ==> r[j] < |artifacts|
  {
    if artifacts == [] then []
    else
      var init := FirstPositions(artifacts[..|artifacts| - 1]);
      if FirstOccurrence(artifacts, |artifacts| - 1) then init + [|artifacts| - 1] else init
  }

  /** A first occurrence in a prefix is one in the whole batch. */
  lemma FirstOccurrencePrefix(artifacts: seq<Json>, n: nat, i: nat)
    requires i < n <= |artifacts|
    ensures FirstOccurrence(artifacts[..n], i) <==> FirstOccurrence(artifacts, i)
  {
    assert forall j :: 0 <= j <= i ==> artifacts[..n][j] == artifacts[j];
  }

  /** The first positions ascend and each is a first occurrence. */
  lemma {:induction false} FirstPositionsAscend(artifacts: seq<Json>)
    ensures forall j :: 0 <= j < |FirstPositions(artifacts)| ==> FirstOccurrence(artifacts, FirstPositions(artifacts)[j])
    ensures forall j1, j2 :: 0 <= j1 < j2 < |FirstPositions(artifacts)| ==> FirstPositions(artifacts)[j1] < FirstPositions(artifacts)[j2]
  {
    if artifacts != [] {
      var n := |artifacts| - 1;
      var init := artifacts[..n];
      FirstPositionsAscend(init);
      var fp0 := FirstPositions(init);
      var fp := FirstPositions(artifacts);
      assert fp == if FirstOccurrence(artifacts, n) then fp0 + [n] else fp0;
      assert forall j :: 0 <= j < |fp0| ==> fp0[j] < n;
      forall j | 0 <= j < |fp0|
        ensures FirstOccurrence(artifacts, fp0[j])
      {
        assert FirstOccurrence(init, fp0[j]);
        FirstOccurrencePrefix(artifacts, n, fp0[j]);
      }
    }
  }

  /** Every first occurrence is among the first positions. */
  lemma {:induction false} FirstPositionsComplete(artifacts: seq<Json>, i: nat)
    requires i < |artifacts| && FirstOccurrence(artifacts, i)
    ensures i in FirstPositions(artifacts)
  {
    var n := |artifacts| - 1;
    if i < n {
      FirstOccurrencePrefix(artifacts, n, i);
      FirstPositionsComplete(artifacts[..n], i);
    }
  }

  /** Every artifact's name is the name of a first position at or before it. */
  lemma {:induction false} FirstPositionsCover(artifacts: seq<Json>, i: nat)
    requires i < |artifacts|
    ensures var fp := FirstPositions(artifacts);
      exists j :: 0 <= j < |fp| && fp[j] <= i && NameKey(artifacts[fp[j]]) == NameKey(artifacts[i])
    decreases i
  {
    var fp := FirstPositions(artifacts);
    if FirstOccurrence(artifacts, i) {
      FirstPositionsComplete(artifacts, i);
      var j :| 0 <= j < |fp| && fp[j] == i;
    } else {
      var i0 :| 0 <= i0 < i && NameKey(artifacts[i0]) == NameKey(artifacts[i]);
      FirstPositionsCover(artifacts, i0);
    }
  }

  /** No two first positions share a name. */
  lemma FirstPositionsDistinct(artifacts: seq<Json>)
    ensures var fp := FirstPositions(artifacts);
      forall j1, j2 :: 0 <= j1 < j2 < |fp| ==> NameKey(artifacts[fp[j1]]) != NameKey(artifacts[fp[j2]])
  {
    FirstPositionsAscend(artifacts);
  }

  /** A dictionary name, or the earlier record's when the dictionary gives an empty one and
      the earlier record's is not empty. */
  function Enriched(name: Json, prior: Option<PyDict.Dict<string, Json>>, key: string): Json
  {
    if prior.Some? && !Truthy(name) && Truthy(Member(prior.value, key, JNull))
    then Member(prior.value, key, JNull) else name
  }

  /** The consolidated record of one artifact. */
  function ConsolidatedRecord(a: Json, ar: NameDict, fr: NameDict, prior: Prior): Json
    requires a.JObj?
  {
    var en := Key(NameOf(a));
    var p := PyDict.Get(prior, en);
    JObj(Record(a.members, Enriched(PyDict.GetOr(ar, en, Empty), p, "Name_AR"),
                           Enriched(PyDict.GetOr(fr, en, Empty), p, "Name_FR")))
  }

  /** The records built for the batch, one per first occurrence (the batch is read only
      when all its artifacts are objects). */
  function NewRecords(artifacts: seq<Json>, ar: NameDict, fr: NameDict, prior: Prior): seq<Json>
  {
    if artifacts == [] then []
    else
      var n := |artifacts| - 1;
      var init := NewRecords(artifacts[..n], ar, fr, prior);
      if FirstOccurrence(artifacts, n) && artifacts[n].JObj?
      then init + [ConsolidatedRecord(artifacts[n], ar, fr, prior)] else init
  }

  /** The batch's records are those of the first occurrences, in order. */
  lemma {:induction false} NewRecordsAtFirstPositions(artifacts: seq<Json>, ar: NameDict, fr: NameDict, prior: Prior)
    requires forall i :: 0 <= i < |artifacts| ==> artifacts[i].JObj?
    ensures |NewRecords(artifacts, ar, fr, prior)| == |FirstPositions(artifacts)|
    ensures forall j :: 0 <= j < |FirstPositions(artifacts)| ==>
      NewRecords(artifacts, ar, fr, prior)[j] == ConsolidatedRecord(artifacts[FirstPositions(artifacts)[j]], ar, fr, prior)
  {
    if artifacts != [] {
      var n := |artifacts| - 1;
      var init := artifacts[..n];
      NewRecordsAtFirstPositions(init, ar, fr, prior);
      var fp0, fp := FirstPositions(init), FirstPositions(artifacts);
      var nr0, nr := NewRecords(init, ar, fr, prior), NewRecords(artifacts, ar, fr, prior);
      forall j | 0 <= j < |fp0|
        ensures nr[j] == ConsolidatedRecord(artifacts[fp[j]], ar, fr, prior)
      {
        assert nr[j] == nr0[j] && fp[j] == fp0[j];
        assert init[fp0[j]] == artifacts[fp0[j]];
      }
    }
  }

  /** Assigning a name into a record built from a display changes that name only. */
  lemma RecordSetNames(a: PyDict.Dict<string, Json>, x: Json, y: Json, v: Json)
    ensures PyDict.Set(Record(a, x, y), "Name_AR", v) == Record(a, v, y)
    ensures PyDict.Set(Record(a, x, y), "Name_FR", v) == Record(a, x, v)
  {
    var d := Record(a, x, y);
    assert d[0].0 == "Name_EN" && d[1].0 == "Name_AR" && d[2].0 == "Name_FR";
    assert PyDict.IndexOf(d, "Name_AR") == 1;
    assert PyDict.IndexOf(d, "Name_FR") == 2;
    assert PyDict.Set(d, "Name_AR", v) == Record(a, v, y);
    assert PyDict.Set(d, "Name_FR", v) == Record(a, x, v);
  }

  /** The earlier records as a list, in their order. */
  function Records(p: Prior): (r: seq<Json>)
    ensures |r| == |p|
  {
    if p == [] then [] else [JObj(p[0].1)] + Records(p[1..])
  }

  /** Record `i` of the list is the `i`-th earlier record. */
  lemma {:induction false} RecordsAt(p: Prior, i: nat)
    requires i < |p|
    ensures Records(p)[i] == JObj(p[i].1)
  {
    if i > 0 {
      RecordsAt(p[1..], i - 1);
    }
  }

  /** The records appended from the earlier file: the loop over the records left after the
      batch, each appended unless its name was already processed. */
  function Remaining(entries: Prior, processed: set<Json>): Outcome<seq<Json>>
    decreases |entries|
  {
    if entries == [] then Ok([])
    else
      var m := entries[0].1;
      var nm := Member(m, "Name_EN", JNull);
      if !Hashable(nm) then Raised
      else if Key(nm) in processed then Remaining(entries[1..], processed)
      else
        match Remaining(entries[1..], processed + {Key(Member(m, "Name_EN", Empty))})
        case Raised => Raised
        case Ok(rest) => Ok([JObj(m)] + rest)
  }

  /** Every earlier record whose name is not in the batch is appended unchanged, in the order
      of the earlier file. */
  lemma {:induction false} RemainingAll(entries: Prior, processed: set<Json>)
    requires PriorValid(entries)
    requires forall i :: 0 <= i < |entries| ==> entries[i].0 !in processed
    ensures Remaining(entries, processed) == Ok(Records(entries))
    decreases |entries|
  {
    if entries != [] {
      var m := entries[0].1;
      var rest := entries[1..];
      PyDict.TailUnique(entries);
      assert PyDict.HasKey(m, "Name_EN");
      assert Member(m, "Name_EN", Empty) == Member(m, "Name_EN", JNull);
      assert Key(Member(m, "Name_EN", JNull)) == entries[0].0;
      assert PriorValid(rest) by {
        forall i | 0 <= i < |rest|
          ensures PyDict.HasKey(rest[i].1, "Name_EN") && Hashable(Member(rest[i].1, "Name_EN", JNull))
          ensures Key(Member(rest[i].1, "Name_EN", JNull)) == rest[i].0
        {
          assert rest[i] == entries[i + 1];
        }
      }
      RemainingAll(rest, processed + {entries[0].0});
    }
  }

  /** The records of the earlier file left after the batch: those whose name no artifact of
      the batch has, in the file's order. */
  function Leftover(previous: Option<Json>, artifacts: seq<Json>): Prior
  {
    PyDict.Without(Loaded(previous), NameKeys(artifacts))
  }

  /** The pre-validation list `create_consolidated_database` writes to its raw file. */
  function RawRecords(artifacts: seq<Json>, arMappings: Json, frMappings: Json, previous: Option<Json>): Outcome<seq<Json>>
  {
    match NamesIn(arMappings, ARABIC_NAME)
    case Raised => Raised
    case Ok(ar) =>
      match NamesIn(frMappings, FRENCH_NAME)
      case Raised => Raised
      case Ok(fr) =>
        if !forall i :: 0 <= i < |artifacts| ==> Readable(artifacts[i]) then Raised
        else
          match Remaining(Leftover(previous, artifacts), NameKeys(artifacts))
          case Raised => Raised
          case Ok(rest) => Ok(NewRecords(artifacts, ar, fr, Loaded(previous)) + rest)
  }

  /** The validated list with the back-fill applied; here an exception in the back-fill
      escapes. */
  function BackFilled(records: seq<Json>, v: Json): Outcome<Json>
  {
    match Iter(v)
    case None => Raised
    case Some(items) =>
      if |items| != |records| then Ok(v)
      else if FillFailure(items, records) < |items| then Raised
      else Ok(if v.JList? then JList(Filled(items, records)) else v)
  }

  /** The list `create_consolidated_database` saves: the raw records, validated, then
      back-filled. */
  function ConsolidatedList(artifacts: seq<Json>, arMappings: Json, frMappings: Json, previous: Option<Json>,
                            reply: Services.Reply, o: Services.TextOracles): Outcome<Json>
  {
    match RawRecords(artifacts, arMappings, frMappings, previous)
    case Raised => Raised
    case Ok(records) => BackFilled(records, Validation.ValidateAndComplete(records, reply, o))
  }

  /** The CSV writer gets through `v`: it can be iterated and every item is an object. */
  predicate Writable(v: Json)
  {
    Iter(v).Some? && DataUtils.ObjectPrefix(Iter(v).value) == |Iter(v).value|
  }

  /** `create_consolidated_database`: the saved list, which is also returned unless the CSV
      writer raises on it. */
  function Consolidation(artifacts: seq<Json>, arMappings: Json, frMappings: Json, previous: Option<Json>,
                         reply: Services.Reply, o: Services.TextOracles): Outcome<Json>
  {
    match ConsolidatedList(artifacts, arMappings, frMappings, previous, reply, o)
    case Raised => Raised
    case Ok(v) => if Writable(v) then Ok(v) else Raised
  }

  /** One artifact more adds its name to the processed names. */
  lemma NameKeysAppend(artifacts: seq<Json>, k: nat)
    requires k < |artifacts|
    ensures NameKeys(artifacts[..k + 1]) == NameKeys(artifacts[..k]) + {NameKey(artifacts[k])}
    ensures FirstOccurrence(artifacts[..k + 1], k) <==> NameKey(artifacts[k]) !in NameKeys(artifacts[..k])
  {
    var p, q := artifacts[..k], artifacts[..k + 1];
    assert forall i :: 0 <= i <= k ==> q[i] == artifacts[i];
    assert forall i :: 0 <= i < k ==> p[i] == artifacts[i];
    forall x | x in NameKeys(q)
      ensures x in NameKeys(p) + {NameKey(artifacts[k])}
    {
      var i :| 0 <= i < |q| && x == NameKey(q[i]);
      if i < k {
        assert x == NameKey(p[i]);
      }
    }
    forall x | x in NameKeys(p)
      ensures x in NameKeys(q)
    {
      var i :| 0 <= i < |p| && x == NameKey(p[i]);
      assert x == NameKey(q[i]);
    }
    assert NameKey(artifacts[k]) == NameKey(q[k]);
    if !FirstOccurrence(q, k) {
      var j :| 0 <= j < k && NameKey(q[j]) == NameKey(q[k]);
      assert NameKey(p[j]) in NameKeys(p);
    }
  }

  /** `xs` followed by the records of `r`, or the exception. */
  function Prefixed(xs: seq<Json>, r: Outcome<seq<Json>>): Outcome<seq<Json>>
  {
    match r
    case Raised => Raised
    case Ok(ys) => Ok(xs + ys)
  }

  /** The enrichment of one new record from the earlier record `p`: each name the
      dictionaries left empty is taken from `p` when `p` has a non-empty one. */
  method EnrichRecord(a: PyDict.Dict<string, Json>, x: Json, y: Json, p: PyDict.Dict<string, Json>)
    returns (rec: PyDict.Dict<string, Json>)
    ensures rec == Record(a, Enriched(x, Some(p), "Name_AR"), Enriched(y, Some(p), "Name_FR"))
  {
    rec := Record(a, x, y);
    RecordReads(a, x, y);
    assert RecordField(1) == "Name_AR" && RecordField(2) == "Name_FR";
    if !Truthy(Member(rec, "Name_AR", JNull)) && Truthy(Member(p, "Name_AR", JNull)) {
      RecordSetNames(a, x, y, Member(p, "Name_AR", JNull));
      rec := PyDict.Set(rec, "Name_AR", Member(p, "Name_AR", JNull));
    }
    var x' := Enriched(x, Some(p), "Name_AR");
    assert rec == Record(a, x', y);
    RecordReads(a, x', y);
    if !Truthy(Member(rec, "Name_FR", JNull)) && Truthy(Member(p, "Name_FR", JNull)) {
      RecordSetNames(a, x', y, Member(p, "Name_FR", JNull));
      rec := PyDict.Set(rec, "Name_FR", Member(p, "Name_FR", JNull));
    }
  }

  /** One artifact more adds its record exactly when it is the first with its name. */
  lemma NewRecordsStep(artifacts: seq<Json>, k: nat, ar: NameDict, fr: NameDict, prior: Prior)
    requires k < |artifacts| && artifacts[k].JObj?
    ensures NewRecords(artifacts[..k + 1], ar, fr, prior) ==
      NewRecords(artifacts[..k], ar, fr, prior) +
      (if NameKey(artifacts[k]) in NameKeys(artifacts[..k]) then [] else [ConsolidatedRecord(artifacts[k], ar, fr, prior)])
  {
    NameKeysAppend(artifacts, k);
    var q := artifacts[..k + 1];
    assert q[..k] == artifacts[..k] && q[k] == artifacts[k];
  }

  /** One pass of the main loop, for an artifact that can be read: a new record when its
      name has not been processed, with the earlier record of that name used and deleted. */
  method ConsolidateOne(artifacts: seq<Json>, k: nat, ar: NameDict, fr: NameDict, prior: Prior,
                        processed: set<Json>, existing: Prior, records: seq<Json>)
    returns (processed': set<Json>, existing': Prior, records': seq<Json>)
    requires PyDict.Unique(prior)
    requires k < |artifacts| && forall i :: 0 <= i <= k ==> Readable(artifacts[i])
    requires processed == NameKeys(artifacts[..k])
    requires existing == PyDict.Without(prior, processed)
    requires records == NewRecords(artifacts[..k], ar, fr, prior)
    ensures processed' == NameKeys(artifacts[..k + 1])
    ensures existing' == PyDict.Without(prior, processed')
    ensures records' == NewRecords(artifacts[..k + 1], ar, fr, prior)
  {
    var a := artifacts[k];
    var en := Key(NameOf(a));
    NameKeysAppend(artifacts, k);
    NewRecordsStep(artifacts, k, ar, fr, prior);
    processed', existing', records' := processed, existing, records;
    if en !in processed {
      PyDict.GetWithout(prior, processed, en);
      var x, y := PyDict.GetOr(ar, en, Empty), PyDict.GetOr(fr, en, Empty);
      var rec;
      var p := PyDict.Get(existing, en);
      if p.Some? {
        rec := EnrichRecord(a.members, x, y, p.value);
        existing' := PyDict.Remove(existing, en);
        PyDict.RemoveWithout(prior, processed, en);
      } else {
        rec := Record(a.members, x, y);
        PyDict.WithoutAbsent(prior, processed, en);
      }
      assert JObj(rec) == ConsolidatedRecord(a, ar, fr, prior);
      processed' := processed + {en};
      records' := records + [JObj(rec)];
    }
  }

  /** The main loop of `create_consolidated_database` over the batch: one record per English
      name not seen before, its empty names filled from the earlier record, which is then
      deleted from the earlier records. */
  method ConsolidateBatch(artifacts: seq<Json>, ar: NameDict, fr: NameDict, prior: Prior)
    returns (r: Outcome<seq<Json>>, existing: Prior)
    requires PyDict.Unique(prior)
    ensures r.Raised? <==> exists i :: 0 <= i < |artifacts| && !Readable(artifacts[i])
    ensures r.Ok? ==> r.value == NewRecords(artifacts, ar, fr, prior)
    ensures r.Ok? ==> existing == PyDict.Without(prior, NameKeys(artifacts))
  {
    var records: seq<Json> := [];
    var processed: set<Json> := {};
    existing := prior;
    PyDict.WithoutNothing(prior);
    var k := 0;
    while k < |artifacts|
      invariant 0 <= k <= |artifacts|
      invariant forall i :: 0 <= i < k ==> Readable(artifacts[i])
      invariant processed == NameKeys(artifacts[..k])
      invariant existing == PyDict.Without(prior, processed)
      invariant records == NewRecords(artifacts[..k], ar, fr, prior)
    {
      if !Readable(artifacts[k]) {
        return Raised, existing;
      }
      processed, existing, records := ConsolidateOne(artifacts, k, ar, fr, prior, processed, existing, records);
      k := k + 1;
    }
    assert artifacts[..k] == artifacts;
    r := Ok(records);
  }

  /** Extending the prefix by one record. */
  lemma PrefixedCons(xs: seq<Json>, x: Json, r: Outcome<seq<Json>>)
    ensures Prefixed(xs, match r case Raised => Raised case Ok(t) => Ok([x] + t)) == Prefixed(xs + [x], r)
  {
    if r.Ok? {
      assert xs + ([x] + r.value) == xs + [x] + r.value;
    }
  }

  /** The loop over the earlier records left after the batch. */
  method AppendRemaining(entries: Prior, processed: set<Json>) returns (r: Outcome<seq<Json>>)
    ensures r == Remaining(entries, processed)
  {
    var rest: seq<Json> := [];
    var seen := processed;
    var j := 0;
    assert entries[0..] == entries;
    assert Prefixed([], Remaining(entries, processed)) == Remaining(entries, processed) by {
      if Remaining(entries, processed).Ok? {
        assert [] + Remaining(entries, processed).value == Remaining(entries, processed).value;
      }
    }
    while j < |entries|
      invariant 0 <= j <= |entries|
      invariant Remaining(entries, processed) == Prefixed(rest, Remaining(entries[j..], seen))
    {
      var m := entries[j].1;
      assert entries[j..][1..] == entries[j + 1..];
      var nm := Member(m, "Name_EN", JNull);
      if !Hashable(nm) {
        return Raised;
      }
      if Key(nm) !in seen {
        PrefixedCons(rest, JObj(m), Remaining(entries[j + 1..], seen + {Key(Member(m, "Name_EN", Empty))}));
        rest := rest + [JObj(m)];
        seen := seen + {Key(Member(m, "Name_EN", Empty))};
      }
      j := j + 1;
    }
    assert rest + [] == rest;
    r := Ok(rest);
  }

  /** The records of the batch followed by the earlier records left over, before validation. */
  method ConsolidateRecords(artifacts: seq<Json>, arMappings: Json, frMappings: Json, previous: Option<Json>)
    returns (r: Outcome<seq<Json>>)
    ensures r == RawRecords(artifacts, arMappings, frMappings, previous)
  {
    var ar := BuildNameDict(arMappings, ARABIC_NAME);
    if ar.Raised? {
      return Raised;
    }
    var fr := BuildNameDict(frMappings, FRENCH_NAME);
    if fr.Raised? {
      return Raised;
    }
    var prior := LoadPrevious(previous);
    LoadedValid(previous);
    var records, existing := ConsolidateBatch(artifacts, ar.value, fr.value, prior);
    if records.Raised? {
      return Raised;
    }
    var rest := AppendRemaining(existing, NameKeys(artifacts));
    if rest.Raised? {
      return Raised;
    }
    r := Ok(records.value + rest.value);
  }

  /** The list `create_consolidated_database` validates, back-fills and saves. */
  method ConsolidatedArtifacts(artifacts: seq<Json>, arMappings: Json, frMappings: Json, previous: Option<Json>,
                               reply: Services.Reply, o: Services.TextOracles) returns (r: Outcome<Json>)
    ensures r == ConsolidatedList(artifacts, arMappings, frMappings, previous, reply, o)
  {
    var raw := ConsolidateRecords(artifacts, arMappings, frMappings, previous);
    if raw.Raised? {
      return Raised;
    }
    var v := Validation.ValidateAndComplete(raw.value, reply, o);
    var items := Iter(v).value;
    if |items| == |raw.value| {
      var filled, failed := BackFillItems(items, raw.value);
      if failed {
        return Raised;
      }
      if v.JList? {
        v := JList(filled);
      }
    }
    r := Ok(v);
  }

  /** `create_consolidated_database` with its CSV file: the back-filled list is appended to
      the file, and returned unless the writer raises. */
  method CreateConsolidatedDatabase(artifacts: seq<Json>, arMappings: Json, frMappings: Json, previous: Option<Json>,
                                    reply: Services.Reply, o: Services.TextOracles,
                                    csv: DataUtils.CsvFile, csvFields: seq<string>) returns (r: Outcome<Json>)
    requires csv.Valid()
    modifies csv
    ensures r == Consolidation(artifacts, arMappings, frMappings, previous, reply, o)
    ensures csv.Valid()
    ensures var v := ConsolidatedList(artifacts, arMappings, frMappings, previous, reply, o);
      if v.Ok? then csv.present && csv.lines == old(csv.lines) + DataUtils.Appended(old(csv.present), v.value, csvFields)
      else csv.present == old(csv.present) && csv.lines == old(csv.lines)
  {
    var v := ConsolidatedArtifacts(artifacts, arMappings, frMappings, previous, reply, o);
    if v.Raised? {
      return Raised;
    }
    var ok := csv.SaveArtifactsToCsv(v.value, csvFields);
    if !ok {
      return Raised;
    }
    r := Ok(v.value);
  }

  /** The earlier records left after the batch are earlier records, stored under their own
      names, none of which is a name of the batch; an earlier record whose name is not in the
      batch is left. */
  lemma LeftoverExact(previous: Option<Json>, artifacts: seq<Json>)
    ensures PriorValid(Leftover(previous, artifacts))
    ensures forall i :: 0 <= i < |Leftover(previous, artifacts)| ==>
      Leftover(previous, artifacts)[i] in Loaded(previous) && Leftover(previous, artifacts)[i].0 !in NameKeys(artifacts)
    ensures forall k :: k !in NameKeys(artifacts) ==> PyDict.Get(Leftover(previous, artifacts), k) == PyDict.Get(Loaded(previous), k)
  {
    var p, gone := Loaded(previous), NameKeys(artifacts);
    LoadedValid(previous);
    PyDict.WithoutUnique(p, gone);
    PyDict.WithoutGone(p, gone);
    var w := PyDict.Without(p, gone);
    forall i | 0 <= i < |w|
      ensures PyDict.HasKey(w[i].1, "Name_EN") && Hashable(Member(w[i].1, "Name_EN", JNull))
      ensures Key(Member(w[i].1, "Name_EN", JNull)) == w[i].0
    {
      var j :| 0 <= j < |p| && p[j] == w[i];
    }
    forall k | k !in gone
      ensures PyDict.Get(w, k) == PyDict.Get(p, k)
    {
      PyDict.GetWithout(p, gone, k);
    }
  }

  /** Consolidation raises exactly when a mapping list cannot be turned into a dictionary or
      an artifact cannot be read; the earlier records never make it raise. */
  lemma RawRecordsRaises(artifacts: seq<Json>, arMappings: Json, frMappings: Json, previous: Option<Json>)
    ensures RawRecords(artifacts, arMappings, frMappings, previous).Raised? <==>
      || NamesIn(arMappings, ARABIC_NAME).Raised?
      || NamesIn(frMappings, FRENCH_NAME).Raised?
      || exists i :: 0 <= i < |artifacts| && !Readable(artifacts[i])
  {
    LeftoverExact(previous, artifacts);
    RemainingAll(Leftover(previous, artifacts), NameKeys(artifacts));
  }

  /** The records before validation: one record per English name of the batch, at the first
      artifact with that name and in the batch's order, followed by every earlier record whose
      name the batch does not have, unchanged and in the earlier file's order. */
  lemma RawRecordsShape(artifacts: seq<Json>, arMappings: Json, frMappings: Json, previous: Option<Json>,
                        ar: NameDict, fr: NameDict, raw: seq<Json>)
    requires NamesIn(arMappings, ARABIC_NAME) == Ok(ar) && NamesIn(frMappings, FRENCH_NAME) == Ok(fr)
    requires RawRecords(artifacts, arMappings, frMappings, previous) == Ok(raw)
    ensures |raw| == |FirstPositions(artifacts)| + |Leftover(previous, artifacts)|
    ensures forall j :: 0 <= j < |FirstPositions(artifacts)| ==>
      raw[j] == ConsolidatedRecord(artifacts[FirstPositions(artifacts)[j]], ar, fr, Loaded(previous))
    ensures var left, n := Leftover(previous, artifacts), |FirstPositions(artifacts)|;
      forall j :: 0 <= j < |left| ==> raw[n + j] == JObj(left[j].1)
  {
    RawRecordsSplit(artifacts, arMappings, frMappings, previous, ar, fr, raw);
    RecordsOfParts(artifacts, ar, fr, Loaded(previous), Leftover(previous, artifacts), raw);
  }

  /** The batch's records followed by the earlier ones, record by record. */
  lemma RecordsOfParts(artifacts: seq<Json>, ar: NameDict, fr: NameDict, prior: Prior, left: Prior, raw: seq<Json>)
    requires forall i :: 0 <= i < |artifacts| ==> artifacts[i].JObj?
    requires raw == NewRecords(artifacts, ar, fr, prior) + Records(left)
    ensures |raw| == |FirstPositions(artifacts)| + |left|
    ensures forall j :: 0 <= j < |FirstPositions(artifacts)| ==>
      raw[j] == ConsolidatedRecord(artifacts[FirstPositions(artifacts)[j]], ar, fr, prior)
    ensures var n := |FirstPositions(artifacts)|;
      forall j :: 0 <= j < |left| ==> raw[n + j] == JObj(left[j].1)
  {
    var nr := NewRecords(artifacts, ar, fr, prior);
    NewRecordsAtFirstPositions(artifacts, ar, fr, prior);
    AppendedRecordsAt(nr, left, raw, |nr|);
    assert forall j :: 0 <= j < |nr| ==> raw[j] == nr[j];
  }

  /** A consolidation that does not raise reads every artifact and appends every earlier record
      left after the batch. */
  lemma RawRecordsSplit(artifacts: seq<Json>, arMappings: Json, frMappings: Json, previous: Option<Json>,
                        ar: NameDict, fr: NameDict, raw: seq<Json>)
    requires NamesIn(arMappings, ARABIC_NAME) == Ok(ar) && NamesIn(frMappings, FRENCH_NAME) == Ok(fr)
    requires RawRecords(artifacts, arMappings, frMappings, previous) == Ok(raw)
    ensures forall i :: 0 <= i < |artifacts| ==> artifacts[i].JObj?
    ensures raw == NewRecords(artifacts, ar, fr, Loaded(previous)) + Records(Leftover(previous, artifacts))
  {
    LeftoverExact(previous, artifacts);
    RemainingAll(Leftover(previous, artifacts), NameKeys(artifacts));
    assert forall i :: 0 <= i < |artifacts| ==> Readable(artifacts[i]);
  }

  /** The earlier records, appended to a list, follow it one by one. */
  lemma {:induction false} AppendedRecordsAt(front: seq<Json>, left: Prior, whole: seq<Json>, n: nat)
    requires whole == front + Records(left) && n == |front|
    ensures forall j :: 0 <= j < |left| ==> whole[n + j] == JObj(left[j].1)
  {
    forall j | 0 <= j < |left|
      ensures whole[n + j] == JObj(left[j].1)
    {
      RecordsAt(left, j);
    }
  }

  /** A consolidated record: Name_EN is the artifact's Name and the metadata fields are the
      artifact's; a non-empty name from a dictionary is kept; an empty one is replaced by the
      earlier record's name when that is not empty; with no earlier record of that name the
      record is the one the per-page merge builds. */
  lemma ConsolidatedRecordFields(a: Json, ar: NameDict, fr: NameDict, prior: Prior)
    requires a.JObj?
    ensures var en := Key(NameOf(a));
      var r := ConsolidatedRecord(a, ar, fr, prior).members;
      var x, y := PyDict.GetOr(ar, en, Empty), PyDict.GetOr(fr, en, Empty);
      && PyDict.Get(r, "Name_EN") == Some(NameOf(a))
      && (forall i :: 3 <= i < 11 ==> PyDict.Get(r, RecordField(i)) == Some(Member(a.members, RecordField(i), Empty)))
      && (Truthy(x) ==> PyDict.Get(r, "Name_AR") == Some(x))
      && (Truthy(y) ==> PyDict.Get(r, "Name_FR") == Some(y))
      && (forall p :: PyDict.Get(prior, en) == Some(p) && !Truthy(x) && Truthy(Member(p, "Name_AR", JNull)) ==>
            PyDict.Get(r, "Name_AR") == Some(Member(p, "Name_AR", JNull)))
      && (forall p :: PyDict.Get(prior, en) == Some(p) && !Truthy(y) && Truthy(Member(p, "Name_FR", JNull)) ==>
            PyDict.Get(r, "Name_FR") == Some(Member(p, "Name_FR", JNull)))
      && (PyDict.Get(prior, en).None? ==> ConsolidatedRecord(a, ar, fr, prior) == MergedRecord(a, ar, fr))
  {
    var en := Key(NameOf(a));
    var p := PyDict.Get(prior, en);
    var x, y := PyDict.GetOr(ar, en, Empty), PyDict.GetOr(fr, en, Empty);
    RecordReads(a.members, Enriched(x, p, "Name_AR"), Enriched(y, p, "Name_FR"));
    assert RecordField(0) == "Name_EN" && RecordField(1) == "Name_AR" && RecordField(2) == "Name_FR";
  }

  /** When the validator answers one object per record, the saved list keeps the validator's
      names and the pre-validation value of every other key of each record. */
  lemma BackFilledReads(records: seq<Json>, v: seq<Json>, i: nat, k: string)
    requires |v| == |records| && i < |v|
    requires forall j :: 0 <= j < |v| ==> v[j].JObj?
    requires forall j :: 0 <= j < |records| ==> records[j].JObj? && PyDict.Unique(records[j].members)
    ensures BackFilled(records, JList(v)).Ok?
    ensures var r := BackFilled(records, JList(v)).value;
      && r.JList? && |r.items| == |v| && r.items[i].JObj?
      && PyDict.Get(r.items[i].members, k) ==
           if k !in NAME_KEYS && PyDict.HasKey(records[i].members, k) then PyDict.Get(records[i].members, k)
           else PyDict.Get(v[i].members, k)
  {
    var f := FillFailure(v, records);
    if f < |v| {
      FilledItemReads(v[f], records[f], k);
    }
    FilledItemReads(v[i], records[i], k);
  }

  // ---------------------------------------------------------------------------------------
  // English pages

  /** `file.lower().endswith('.pdf')`. */
  predicate IsPdf(file: string)
  {
    Strings.EndsWith(Strings.Lower(file), ".pdf")
  }

  /** The page images of a document: the clamped range of a PDF, or the single image copied
      into the pages directory as page 1. */
  function InputImages(file: string, pageCount: Option<nat>, pagesDir: string, start: int, end: Option<int>)
    : Outcome<seq<ImageProcessing.PageImage>>
  {
    if IsPdf(file) then ImageProcessing.PdfImages(pageCount, pagesDir, start, end)
    else Ok([(Strings.PathJoin(pagesDir, Strings.Basename(file)), 1)])
  }

  /** What one page adds to a document's artifacts. */
  type PageStep = ImageProcessing.PageImage -> Outcome<seq<Json>>

  /** The artifacts of the pages in order, each page adding what `step` gives it; the
      first page whose step raises ends the loop with that exception. */
  function PagesArtifacts(images: seq<ImageProcessing.PageImage>, step: PageStep): Outcome<seq<Json>>
  {
    if images == [] then Ok([])
    else
      match PagesArtifacts(images[..|images| - 1], step)
      case Raised => Raised
      case Ok(acc) =>
        match step(images[|images| - 1])
        case Raised => Raised
        case Ok(xs) => Ok(acc + xs)
  }

  /** The loop over a document's page images. */
  method CollectPages(images: seq<ImageProcessing.PageImage>, step: PageStep) returns (r: Outcome<seq<Json>>)
    ensures r == PagesArtifacts(images, step)
  {
    var all: seq<Json> := [];
    var k := 0;
    while k < |images|
      invariant 0 <= k <= |images|
      invariant PagesArtifacts(images[..k], step) == Ok(all)
    {
      assert images[..k + 1][..k] == images[..k];
      var xs := step(images[k]);
      if xs.Raised? {
        PagesStayRaised(images, step, k + 1);
        return Raised;
      }
      all := all + xs.value;
      k := k + 1;
    }
    assert images[..k] == images;
    r := Ok(all);
  }

  /** Once a prefix of the pages raises, so do all the pages. */
  lemma {:induction false} PagesStayRaised(images: seq<ImageProcessing.PageImage>, step: PageStep, n: nat)
    requires n <= |images| && PagesArtifacts(images[..n], step).Raised?
    ensures PagesArtifacts(images, step).Raised?
    decreases |images| - n
  {
    if n < |images| {
      assert images[..n + 1][..n] == images[..n];
      PagesStayRaised(images, step, n + 1);
    } else {
      assert images[..n] == images;
    }
  }

  /** Two steps that agree on every page give the same artifacts. */
  lemma {:induction false} PagesArtifactsAgree(images: seq<ImageProcessing.PageImage>, s1: PageStep, s2: PageStep)
    requires forall i :: 0 <= i < |images| ==> s1(images[i]) == s2(images[i])
    ensures PagesArtifacts(images, s1) == PagesArtifacts(images, s2)
  {
    if images != [] {
      var init := images[..|images| - 1];
      assert forall i :: 0 <= i < |init| ==> init[i] == images[i];
      PagesArtifactsAgree(init, s1, s2);
    }
  }

  /** What a processed page contributes when its exception is caught: nothing. */
  function Caught(r: Outcome<seq<Json>>): seq<Json>
  {
    if r.Raised? then [] else r.value
  }

  /** A page of `process_english_document`: the saved results of a page processed before
      (the file must parse and be iterable, or the exception escapes), otherwise the page run
      through OCR and extraction, a failure of which skips the page. */
  function EnglishStep(memo: map<int, string>, decode: Decoder, runPage: PageStep): PageStep
  {
    (img: ImageProcessing.PageImage) =>
      if img.1 in memo then
        match decode(memo[img.1])
        case None => Raised
        case Some(j) => if Iter(j).None? then Raised else Ok(Iter(j).value)
      else Ok(Caught(runPage(img)))
  }

  /** `process_english_document`: the page images, then the artifacts page by page. `memo`
      holds the saved per-page results by page number, and `runPage` stands for the OCR with
      adaptive correction followed by the artifact extraction of one page. */
  function EnglishDocument(file: string, pageCount: Option<nat>, pagesDir: string, start: int, end: Option<int>,
                           memo: map<int, string>, decode: Decoder, runPage: PageStep): Outcome<seq<Json>>
  {
    match InputImages(file, pageCount, pagesDir, start, end)
    case Raised => Raised
    case Ok(images) => PagesArtifacts(images, EnglishStep(memo, decode, runPage))
  }

  /** `process_english_document`'s page loop. */
  method ProcessEnglishDocument(file: string, pageCount: Option<nat>, pagesDir: string, start: int, end: Option<int>,
                                memo: map<int, string>, decode: Decoder, runPage: PageStep) returns (r: Outcome<seq<Json>>)
    ensures r == EnglishDocument(file, pageCount, pagesDir, start, end, memo, decode, runPage)
  {
    var images := InputImages(file, pageCount, pagesDir, start, end);
    if images.Raised? {
      return Raised;
    }
    r := CollectPages(images.value, EnglishStep(memo, decode, runPage));
  }

  /** A page with saved results is never run again, and a page whose run raises counts as a
      page without artifacts: the result depends on `runPage` only through the pages without
      saved results, and there only through what a caught exception leaves. */
  lemma EnglishDocumentUsesMemo(file: string, pageCount: Option<nat>, pagesDir: string, start: int, end: Option<int>,
                                memo: map<int, string>, decode: Decoder, run1: PageStep, run2: PageStep)
    requires forall img: ImageProcessing.PageImage :: img.1 !in memo ==> Caught(run1(img)) == Caught(run2(img))
    ensures EnglishDocument(file, pageCount, pagesDir, start, end, memo, decode, run1)
         == EnglishDocument(file, pageCount, pagesDir, start, end, memo, decode, run2)
  {
    var images := InputImages(file, pageCount, pagesDir, start, end);
    if images.Ok? {
      PagesArtifactsAgree(images.value, EnglishStep(memo, decode, run1), EnglishStep(memo, decode, run2));
    }
  }

  /** The document raises exactly when its images cannot be produced or a saved page result
      does not parse to something iterable. */
  lemma {:induction false} EnglishPagesRaise(images: seq<ImageProcessing.PageImage>, memo: map<int, string>,
                                             decode: Decoder, runPage: PageStep)
    ensures PagesArtifacts(images, EnglishStep(memo, decode, runPage)).Raised? <==>
      exists i :: 0 <= i < |images| && images[i].1 in memo &&
        (decode(memo[images[i].1]).None? || Iter(decode(memo[images[i].1]).value).None?)
  {
    if images != [] {
      var init := images[..|images| - 1];
      EnglishPagesRaise(init, memo, decode, runPage);
      assert forall i :: 0 <= i < |init| ==> init[i] == images[i];
      if PagesArtifacts(init, EnglishStep(memo, decode, runPage)).Raised? {
        var i :| 0 <= i < |init| && init[i].1 in memo &&
          (decode(memo[init[i].1]).None? || Iter(decode(memo[init[i].1]).value).None?);
        assert images[i] == init[i];
      }
    }
  }

  /** The smallest of a list of pages. */
  function MinPage(pages: seq<int>): (m: int)
    requires pages != []
    ensures m in pages && forall i :: 0 <= i < |pages| ==> m <= pages[i]
  {
    if |pages| == 1 then pages[0]
    else var m := MinPage(pages[1..]); if pages[0] <= m then pages[0] else m
  }

  /** The largest of a list of pages. */
  function MaxPage(pages: seq<int>): (m: int)
    requires pages != []
    ensures m in pages && forall i :: 0 <= i < |pages| ==> pages[i] <= m
  {
    if |pages| == 1 then pages[0]
    else var m := MaxPage(pages[1..]); if pages[0] >= m then pages[0] else m
  }

  /** A page of `process_specific_pages_english`: a page outside the list adds nothing, and a
      page whose run raises is skipped. */
  function SpecificStep(pages: seq<int>, runPage: PageStep): PageStep
  {
    (img: ImageProcessing.PageImage) => if img.1 in pages then Ok(Caught(runPage(img))) else Ok([])
  }

  /** The images `process_specific_pages_english` renders: a PDF's range from the smallest to
      the largest listed page (`min` of an empty list raises), or the single image. */
  function SpecificImages(file: string, pageCount: Option<nat>, pagesDir: string, pages: seq<int>)
    : Outcome<seq<ImageProcessing.PageImage>>
  {
    if IsPdf(file) then
      if pages == [] then Raised
      else ImageProcessing.PdfImages(pageCount, pagesDir, MinPage(pages), Some(MaxPage(pages)))
    else Ok([(Strings.PathJoin(pagesDir, Strings.Basename(file)), 1)])
  }

  /** `process_specific_pages_english`. */
  function SpecificPages(file: string, pageCount: Option<nat>, pagesDir: string, pages: seq<int>, runPage: PageStep)
    : Outcome<seq<Json>>
  {
    match SpecificImages(file, pageCount, pagesDir, pages)
    case Raised => Raised
    case Ok(images) => PagesArtifacts(images, SpecificStep(pages, runPage))
  }

  /** `process_specific_pages_english`'s page loop. */
  method ProcessSpecificPagesEnglish(file: string, pageCount: Option<nat>, pagesDir: string, pages: seq<int>,
                                     runPage: PageStep) returns (r: Outcome<seq<Json>>)
    ensures r == SpecificPages(file, pageCount, pagesDir, pages, runPage)
  {
    var images: seq<ImageProcessing.PageImage>;
    if IsPdf(file) {
      if pages == [] {
        return Raised;
      }
      var start, end := MinPage(pages), MaxPage(pages);
      var rendered := ImageProcessing.PdfImages(pageCount, pagesDir, start, Some(end));
      if rendered.Raised? {
        return Raised;
      }
      images := rendered.value;
    } else {
      images := [(Strings.PathJoin(pagesDir, Strings.Basename(file)), 1)];
    }
    r := CollectPages(images, SpecificStep(pages, runPage));
  }

  /** Only the listed pages are run: the artifacts do not depend on what `runPage` does on
      any other page, and the loop itself never raises. */
  lemma SpecificPagesOnlyRunListed(file: string, pageCount: Option<nat>, pagesDir: string, pages: seq<int>,
                                   run1: PageStep, run2: PageStep)
    requires forall img: ImageProcessing.PageImage :: img.1 in pages ==> Caught(run1(img)) == Caught(run2(img))
    ensures SpecificPages(file, pageCount, pagesDir, pages, run1) == SpecificPages(file, pageCount, pagesDir, pages, run2)
    ensures SpecificPages(file, pageCount, pagesDir, pages, run1).Raised? <==> SpecificImages(file, pageCount, pagesDir, pages).Raised?
  {
    var images := SpecificImages(file, pageCount, pagesDir, pages);
    if images.Ok? {
      var imgs := images.value;
      var s1, s2 := SpecificStep(pages, run1), SpecificStep(pages, run2);
      forall i | 0 <= i < |imgs|
        ensures s1(imgs[i]) == s2(imgs[i]) && s1(imgs[i]).Ok?
      {
        var img := imgs[i];
        if img.1 in pages {
          assert Caught(run1(img)) == Caught(run2(img));
        }
      }
      PagesArtifactsAgree(imgs, s1, s2);
      PagesNeverRaise(imgs, s1);
    }
  }

  /** A step that never raises gives a loop that never raises. */
  lemma {:induction false} PagesNeverRaise(images: seq<ImageProcessing.PageImage>, step: PageStep)
    requires forall i :: 0 <= i < |images| ==> step(images[i]).Ok?
    ensures PagesArtifacts(images, step).Ok?
  {
    if images != [] {
      var init := images[..|images| - 1];
      assert forall i :: 0 <= i < |init| ==> init[i] == images[i];
      PagesNeverRaise(init, step);
    }
  }

  /** A PDF's pages are rendered from the smallest to the largest listed page, clamped to the
      document, so with all listed pages in the document each of them is among the images. */
  lemma SpecificImagesCoverPages(file: string, total: nat, pagesDir: string, pages: seq<int>, p: int)
    requires IsPdf(file) && p in pages
    requires forall i :: 0 <= i < |pages| ==> 1 <= pages[i] <= total
    ensures SpecificImages(file, Some(total), pagesDir, pages).Ok?
    ensures exists i ::
      0 <= i < |SpecificImages(file, Some(total), pagesDir, pages).value| && SpecificImages(file, Some(total), pagesDir, pages).value[i].1 == p
  {
    var lo, hi := MinPage(pages), MaxPage(pages);
    var first := ImageProcessing.FirstPage(lo, total);
    var last := ImageProcessing.LastPage(first, Some(hi), total);
    assert first == lo && last == hi;
    var images := ImageProcessing.PageImages(pagesDir, first, last);
    assert images[p - lo].1 == p;
  }

  // ---------------------------------------------------------------------------------------
  // Names in the other languages

  /** The name aligner of one page: the page image, the page number and the page's English
      artifacts in, the parsed name mappings out, or an exception. */
  type NameExtractor = (string, int, seq<Json>) -> Outcome<Json>

  /** A file of the results directory: its name and its content as `json.load` reads it
      (`None` where that raises a `ValueError`). */
  datatype NameFile = NameFile(name: string, content: Option<Json>)

  /** The name of a page's name file in language `lang`. */
  predicate NameFileName(name: string, lang: string)
  {
    Strings.StartsWith(name, "page_") && Strings.EndsWith(name, "_" + Strings.Lower(lang) + "_names.json")
  }

  /** `name.split("_")[1]`: the text between the first and the second underscore. */
  function SecondField(name: string): (r: string)
    ensures |r| <= |name|
  {
    var i := Strings.Find(name, '_');
    if i < 0 then name
    else
      var rest := name[i + 1..];
      var j := Strings.Find(rest, '_');
      if j < 0 then rest else rest[..j]
  }

  /** The page number a name file is stored under: `int()` of its second field, `None` where
      `int()` raises. */
  function FilePage(f: NameFile, parseInt: string -> Option<int>): Option<int>
  {
    parseInt(SecondField(f.name))
  }

  /** The mappings one file of the results directory contributes: those of a name file in
      `lang` whose page is not being processed and whose content is a list. */
  function StoredFileNames(f: NameFile, lang: string, current: set<Json>, parseInt: string -> Option<int>): seq<Json>
  {
    if !NameFileName(f.name, lang) then []
    else match FilePage(f, parseInt)
      case None => []
      case Some(n) =>
        if JInt(n) in current then []
        else if f.content.Some? && f.content.value.JList? then f.content.value.items else []
  }

  /** The mappings loaded from the results directory, in listing order. */
  function StoredNames(listing: seq<NameFile>, lang: string, current: set<Json>, parseInt: string -> Option<int>)
    : seq<Json>
  {
    if listing == [] then []
    else
      StoredNames(listing[..|listing| - 1], lang, current, parseInt)
      + StoredFileNames(listing[|listing| - 1], lang, current, parseInt)
  }

  /** The loop over the results directory. */
  method LoadStoredNames(listing: seq<NameFile>, lang: string, current: set<Json>, parseInt: string -> Option<int>)
    returns (names: seq<Json>)
    ensures names == StoredNames(listing, lang, current, parseInt)
  {
    names := [];
    var k := 0;
    while k < |listing|
      invariant 0 <= k <= |listing|
      invariant names == StoredNames(listing[..k], lang, current, parseInt)
    {
      assert listing[..k + 1][..k] == listing[..k];
      var f := listing[k];
      if NameFileName(f.name, lang) {
        var n := FilePage(f, parseInt);
        if n.Some? && JInt(n.value) !in current && f.content.Some? && f.content.value.JList? {
          names := names + f.content.value.items;
        }
      }
      k := k + 1;
    }
    assert listing[..k] == listing;
  }

  /** A name file of a page being processed. */
  predicate CurrentPageFile(f: NameFile, lang: string, current: set<Json>, parseInt: string -> Option<int>)
  {
    NameFileName(f.name, lang) && FilePage(f, parseInt).Some? && JInt(FilePage(f, parseInt).value) in current
  }

  /** Stale name files of the pages being processed are never loaded: listings that differ
      only in the content of such files load the same mappings. */
  lemma {:induction false} StoredNamesIgnoreCurrentPages(l1: seq<NameFile>, l2: seq<NameFile>, lang: string,
                                                         current: set<Json>, parseInt: string -> Option<int>)
    requires |l1| == |l2|
    requires forall i :: 0 <= i < |l1| ==>
      l1[i] == l2[i] || (l1[i].name == l2[i].name && CurrentPageFile(l1[i], lang, current, parseInt))
    ensures StoredNames(l1, lang, current, parseInt) == StoredNames(l2, lang, current, parseInt)
  {
    if l1 != [] {
      var n := |l1| - 1;
      assert forall i :: 0 <= i < n ==> l1[..n][i] == l1[i] && l2[..n][i] == l2[i];
      StoredNamesIgnoreCurrentPages(l1[..n], l2[..n], lang, current, parseInt);
    }
  }

  /** The pages of the batch, as the set `current_pages` holds them. */
  function PageSet(groups: Groups): set<Json>
  {
    set i | 0 <= i < |groups| :: Key(groups[i].0)
  }

  /** Every page of the batch is an integer (a `bool` counts as one). */
  predicate IntPages(groups: Groups)
  {
    forall i :: 0 <= i < |groups| ==> Key(groups[i].0).JInt?
  }

  /** The batch's page numbers. */
  function PageNumbers(groups: Groups): (r: seq<int>)
    requires IntPages(groups)
    ensures |r| == |groups|
  {
    seq(|groups|, i requires 0 <= i < |groups| => Key(groups[i].0).i)
  }

  /** The images of the other document: a PDF rendered from the smallest to the largest page
      of the batch, which raises unless all pages are integers (`min` of mixed keys, or the
      clamp of a non-integer page), or the single image. */
  function NameImages(file: string, pageCount: Option<nat>, pagesDir: string, groups: Groups)
    : Outcome<seq<ImageProcessing.PageImage>>
  {
    if IsPdf(file) then
      if groups == [] then Ok([])
      else if !IntPages(groups) then Raised
      else ImageProcessing.PdfImages(pageCount, pagesDir, MinPage(PageNumbers(groups)), Some(MaxPage(PageNumbers(groups))))
    else Ok([(Strings.PathJoin(pagesDir, Strings.Basename(file)), 1)])
  }

  /** What the aligner's answer adds: its items, or nothing when it raised or cannot be
      measured (the exception is caught). */
  function Mappings(r: Outcome<Json>): seq<Json>
  {
    if r.Raised? || Iter(r.value).None? then [] else Iter(r.value).value
  }

  /** A page of `extract_multilingual_names`: a page with no artifacts of the batch adds
      nothing; otherwise the aligner runs on its artifacts. */
  function NamesStep(groups: Groups, extract: NameExtractor): PageStep
  {
    (img: ImageProcessing.PageImage) =>
      if GroupIndex(groups, JInt(img.1)) < 0 then Ok([])
      else Ok(Mappings(extract(img.0, img.1, GroupItems(groups, JInt(img.1)))))
  }

  /** `extract_multilingual_names`: nothing without artifacts or without a document; otherwise
      the batch grouped by `source_page` (0 when absent), the stored mappings of the other
      pages, then the mappings of each page of the batch in page order. */
  function MultilingualNames(artifacts: seq<Json>, file: Option<string>, lang: string, pageCount: Option<nat>,
                             pagesDir: string, listing: seq<NameFile>, parseInt: string -> Option<int>,
                             extract: NameExtractor): Outcome<seq<Json>>
  {
    if artifacts == [] || !Given(file) then Ok([])
    else
      match GroupBy(artifacts, FieldKey("source_page", JInt(0)))
      case None => Raised
      case Some(groups) =>
        match NameImages(file.value, pageCount, pagesDir, groups)
        case Raised => Raised
        case Ok(images) =>
          match PagesArtifacts(images, NamesStep(groups, extract))
          case Raised => Raised
          case Ok(current) => Ok(StoredNames(listing, lang, PageSet(groups), parseInt) + current)
  }

  /** `extract_multilingual_names` with its loops. */
  method ExtractMultilingualNames(artifacts: seq<Json>, file: Option<string>, lang: string, pageCount: Option<nat>,
                                  pagesDir: string, listing: seq<NameFile>, parseInt: string -> Option<int>,
                                  extract: NameExtractor) returns (r: Outcome<seq<Json>>)
    ensures r == MultilingualNames(artifacts, file, lang, pageCount, pagesDir, listing, parseInt, extract)
  {
    if artifacts == [] || !Given(file) {
      return Ok([]);
    }
    var groups := GroupItemsBy(artifacts, FieldKey("source_page", JInt(0)));
    if groups.None? {
      return Raised;
    }
    var images := NameImages(file.value, pageCount, pagesDir, groups.value);
    if images.Raised? {
      return Raised;
    }
    var stored := LoadStoredNames(listing, lang, PageSet(groups.value), parseInt);
    var current := CollectPages(images.value, NamesStep(groups.value, extract));
    if current.Raised? {
      return Raised;
    }
    r := Ok(stored + current.value);
  }

  /** The aligner runs only on pages with artifacts of the batch, and stale name files of
      those pages are never loaded: aligners that agree on those pages, and listings that
      differ only in those pages' files, give the same mappings. */
  lemma MultilingualNamesDependence(artifacts: seq<Json>, file: Option<string>, lang: string, pageCount: Option<nat>,
                                    pagesDir: string, l1: seq<NameFile>, l2: seq<NameFile>,
                                    parseInt: string -> Option<int>, e1: NameExtractor, e2: NameExtractor)
    requires artifacts != [] && Given(file) && GroupBy(artifacts, FieldKey("source_page", JInt(0))).Some?
    requires var groups := GroupBy(artifacts, FieldKey("source_page", JInt(0))).value;
      forall img: string, p: int :: GroupIndex(groups, JInt(p)) >= 0 ==>
        Mappings(e1(img, p, GroupItems(groups, JInt(p)))) == Mappings(e2(img, p, GroupItems(groups, JInt(p))))
    requires |l1| == |l2|
    requires var groups := GroupBy(artifacts, FieldKey("source_page", JInt(0))).value;
      forall i :: 0 <= i < |l1| ==>
        l1[i] == l2[i] || (l1[i].name == l2[i].name && CurrentPageFile(l1[i], lang, PageSet(groups), parseInt))
    ensures MultilingualNames(artifacts, file, lang, pageCount, pagesDir, l1, parseInt, e1)
         == MultilingualNames(artifacts, file, lang, pageCount, pagesDir, l2, parseInt, e2)
  {
    var groups := GroupBy(artifacts, FieldKey("source_page", JInt(0))).value;
    StoredNamesIgnoreCurrentPages(l1, l2, lang, PageSet(groups), parseInt);
    var images := NameImages(file.value, pageCount, pagesDir, groups);
    if images.Ok? {
      var imgs := images.value;
      var s1, s2 := NamesStep(groups, e1), NamesStep(groups, e2);
      forall i | 0 <= i < |imgs|
        ensures s1(imgs[i]) == s2(imgs[i])
      {
        var img := imgs[i];
        if GroupIndex(groups, JInt(img.1)) >= 0 {
          assert Mappings(e1(img.0, img.1, GroupItems(groups, JInt(img.1))))
              == Mappings(e2(img.0, img.1, GroupItems(groups, JInt(img.1))));
        }
      }
      PagesArtifactsAgree(imgs, s1, s2);
    }
  }

  /** The names of the other languages raise exactly when the batch cannot be grouped by
      page or the other document's pages cannot be rendered; a failing page never does. */
  lemma MultilingualNamesRaise(artifacts: seq<Json>, file: Option<string>, lang: string, pageCount: Option<nat>,
                               pagesDir: string, listing: seq<NameFile>, parseInt: string -> Option<int>,
                               extract: NameExtractor)
    ensures MultilingualNames(artifacts, file, lang, pageCount, pagesDir, listing, parseInt, extract).Raised? <==>
      && artifacts != [] && Given(file)
      && (|| GroupBy(artifacts, FieldKey("source_page", JInt(0))).None?
          || NameImages(file.value, pageCount, pagesDir, GroupBy(artifacts, FieldKey("source_page", JInt(0))).value).Raised?)
  {
    if artifacts != [] && Given(file) {
      var groups := GroupBy(artifacts, FieldKey("source_page", JInt(0)));
      if groups.Some? {
        var images := NameImages(file.value, pageCount, pagesDir, groups.value);
        if images.Ok? {
          PagesNeverRaise(images.value, NamesStep(groups.value, extract));
        }
      }
    }
  }

  /** `extract_multilingual_names_for_page`: the aligner's answer for one page's artifacts,
      run on the page rendered from a PDF or on the image itself; every failure (no
      artifacts, a page that cannot be rendered, an exception, an answer without a length)
      gives the empty list. */
  function NamesForPage(pageArtifacts: seq<Json>, file: string, page: int, pageCount: Option<nat>, pagesDir: string,
                        extract: NameExtractor): (r: Json)
    ensures Iter(r).Some?
    ensures pageArtifacts == [] ==> r == JList([])
  {
    if pageArtifacts == [] then JList([])
    else
      var image :=
        if IsPdf(file) then
          match ImageProcessing.PdfImages(pageCount, pagesDir, page, Some(page))
          case Raised => None
          case Ok(images) => if images == [] then None else Some(images[0].0)
        else Some(file);
      if image.None? then JList([])
      else
        match extract(image.value, page, pageArtifacts)
        case Raised => JList([])
        case Ok(j) => if Len(j).None? then JList([]) else j
  }

  /** With the page rendered, an answer of the aligner that has a length is returned as it
      is. */
  lemma NamesForPageKeepsAnswer(pageArtifacts: seq<Json>, file: string, page: int, total: nat, pagesDir: string,
                                extract: NameExtractor)
    requires pageArtifacts != [] && 1 <= page <= total
    requires var image := if IsPdf(file) then ImageProcessing.PagePath(pagesDir, page) else file;
      extract(image, page, pageArtifacts).Ok? && Len(extract(image, page, pageArtifacts).value).Some?
    ensures var image := if IsPdf(file) then ImageProcessing.PagePath(pagesDir, page) else file;
      NamesForPage(pageArtifacts, file, page, Some(total), pagesDir, extract) == extract(image, page, pageArtifacts).value
  {
    if IsPdf(file) {
      var images := ImageProcessing.PdfImages(Some(total), pagesDir, page, Some(page));
      assert ImageProcessing.FirstPage(page, total) == page;
      assert images.Ok? && images.value[0].0 == ImageProcessing.PagePath(pagesDir, page);
    }
  }

  // ---------------------------------------------------------------------------------------
  // The document set, page by page against the store

  /** The parameters of one run: the page range, the OCR and extraction models (already
      defaulted to the base model), the correction thresholds and prompts (either may be
      missing), whether pages are saved to the store, and the CSV columns. */
  datatype Run = Run(start: int, end: Option<int>, ocrModel: string, extractionModel: string,
                     thresholds: SimpleDb.Thresholds, prompts: Option<PyDict.Dict<string, Json>>,
                     saveToDb: bool, csvFields: seq<string>)

  /** What the run consults outside this module: the page count of a document (`None` where
      it cannot be opened), the page-image directory of a document, the English pipeline of
      one page, the name aligners of Arabic and French, the validator's reply for a page's
      records, the text helpers, and the store's environment. */
  datatype Stages = Stages(pageCount: string -> Option<nat>, pagesDir: string -> string, englishPage: PageStep,
                           arNames: NameExtractor, frNames: NameExtractor,
                           validation: seq<Json> -> Services.Reply, o: Services.TextOracles, env: SimpleDb.Env)

  /** The English entry of the group AS WRITTEN, as `os.path.basename(doc_group.get("EN", ""))`
      sees it before the group is checked: an absent entry (`None`) gives `""`, while an
      entry present with the value `None` (`Some(None)`) makes `basename` raise. */
  function EnglishBaseNameAsWritten(entry: Option<Option<string>>): (r: Outcome<string>)
    ensures r.Raised? <==> entry == Some(None)
  {
    match entry
    case None => Ok(Strings.Basename(""))
    case Some(None) => Raised
    case Some(Some(f)) => Ok(Strings.Basename(f))
  }

  /** The last page of the run: the requested one, else the English document's page count,
      else 9999. */
  function EndPage(run: Run, pageCount: Option<nat>): int
  {
    if run.end.Some? then run.end.value else if pageCount.Some? then pageCount.value else 9999
  }

  /** The cache lookup of the run's range. */
  function Lookup(enabled: bool, table: SimpleDb.Table, g: DataUtils.DocGroup, run: Run, st: Stages)
    : (seq<Json>, seq<int>, SimpleDb.CacheStats)
    requires Given(g.en)
  {
    SimpleDb.CacheLookup(enabled, table, g, run.start, EndPage(run, st.pageCount(g.en.value)),
                         run.ocrModel, run.extractionModel, run.thresholds, st.env)
  }

  /** The `validation` prompt is set and truthy. */
  predicate ValidationOn(prompts: PyDict.Dict<string, Json>)
  {
    var v := PyDict.Get(prompts, "validation");
    v.Some? && Truthy(v.value)
  }

  /** The names of one other language for a page: the aligner's when that document is given,
      otherwise none. */
  function OtherNames(file: Option<string>, items: seq<Json>, p: int, st: Stages, extract: NameExtractor): Json
  {
    if Given(file) then NamesForPage(items, file.value, p, st.pageCount(file.value), st.pagesDir(file.value), extract)
    else JList([])
  }

  /** The final records of one missing page from its new English artifacts: the Arabic and
      French names merged in, then, when the validation prompt is on, the validation step as
      written, which keeps the validator's list when the back-fill raises. */
  function PageRecords(g: DataUtils.DocGroup, items: seq<Json>, p: int, prompts: PyDict.Dict<string, Json>, st: Stages)
    : Outcome<Json>
  {
    match MergePage(items, OtherNames(g.ar, items, p, st, st.arNames), OtherNames(g.fr, items, p, st, st.frNames))
    case Raised => Raised
    case Ok(merged) =>
      if ValidationOn(prompts) then Ok(ValidatedPageAsWritten(merged, Validation.ValidateAndComplete(merged, st.validation(merged), st.o)))
      else Ok(JList(merged))
  }

  /** The loop over the missing pages: the new records so far and the table after the saves.
      A page without new artifacts is skipped; each other page is saved (when saving is on)
      before its records are added; an exception leaves the saves made so far. */
  function NewPages(enabled: bool, table: SimpleDb.Table, g: DataUtils.DocGroup, groups: Groups, pages: seq<int>,
                    run: Run, prompts: PyDict.Dict<string, Json>, st: Stages): (Outcome<seq<Json>>, SimpleDb.Table)
    decreases |pages|
  {
    if pages == [] then (Ok([]), table)
    else
      var (acc, t) := NewPages(enabled, table, g, groups, pages[..|pages| - 1], run, prompts, st);
      if acc.Raised? then (Raised, t)
      else NextPage(enabled, t, g, groups, pages[|pages| - 1], acc.value, run, prompts, st)
  }

  /** One missing page of the loop, after the records `acc` of the pages before it. */
  function NextPage(enabled: bool, table: SimpleDb.Table, g: DataUtils.DocGroup, groups: Groups, p: int,
                    acc: seq<Json>, run: Run, prompts: PyDict.Dict<string, Json>, st: Stages)
    : (Outcome<seq<Json>>, SimpleDb.Table)
  {
    if GroupIndex(groups, JInt(p)) < 0 then (Ok(acc), table)
    else
      match PageRecords(g, GroupItems(groups, JInt(p)), p, prompts, st)
      case Raised => (Raised, table)
      case Ok(records) =>
        var t := if run.saveToDb
          then SimpleDb.SavePage(enabled, table, g, JInt(p), records, run.ocrModel, run.extractionModel, run.thresholds, st.env).1
          else table;
        match Iter(records)
        case None => (Raised, t)
        case Some(xs) => (Ok(acc + xs), t)
  }

  /** What a run gives: the result (`Ok(None)` for the early return, `Raised` for an exception),
      the store's table afterwards, and what was handed to the CSV writer, if anything. */
  datatype SetResult = SetResult(result: Outcome<Option<seq<Json>>>, table: SimpleDb.Table, written: Option<Json>)

  /** The records handed to the CSV writer, which are returned unless the writer raises. */
  function WriteOut(records: seq<Json>, table: SimpleDb.Table): SetResult
  {
    SetResult(if Writable(JList(records)) then Ok(Some(records)) else Raised, table, Some(JList(records)))
  }

  /** A document set as the orchestrator receives it, a dict from language to path: the EN
      entry may be absent (`None`), present with the value `None` (`Some(None)`), or a path.
      For Arabic and French an absent entry and `None` are read alike. */
  datatype SetEntries = SetEntries(en: Option<Option<string>>, ar: Option<string>, fr: Option<string>)

  /** The set as `doc_group.get(...)` reads it from here on. */
  function GroupOf(s: SetEntries): DataUtils.DocGroup
  {
    DataUtils.DocGroup(if s.en.Some? then s.en.value else None, s.ar, s.fr)
  }

  /** `process_multilingual_document_set` AS WRITTEN: the base name of the EN entry comes
      first and raises for an entry that is `None`; then the run goes on as `SetRun`. */
  function DocumentSet(enabled: bool, table: SimpleDb.Table, s: SetEntries, run: Run, st: Stages): (r: SetResult)
    ensures s.en == Some(None) ==> r == SetResult(Raised, table, None)
    ensures s.en != Some(None) && !Given(GroupOf(s).en) ==> r == SetResult(Ok(None), table, None)
  {
    if EnglishBaseNameAsWritten(s.en).Raised? then SetResult(Raised, table, None)
    else SetRun(enabled, table, GroupOf(s), run, st)
  }

  /** The run from the English check on, which is also the whole run with the check moved
      before the base name: no English document returns `None`; a range all in the cache
      gives the cached artifacts; otherwise the missing pages run through the English
      pipeline, the names of the other languages, validation and the store, and the new
      records follow the cached ones. */
  function SetRun(enabled: bool, table: SimpleDb.Table, g: DataUtils.DocGroup, run: Run, st: Stages): SetResult
  {
    if !Given(g.en) then SetResult(Ok(None), table, None)
    else
      var (cached, missing, _) := Lookup(enabled, table, g, run, st);
      if missing == [] then WriteOut(cached, table)
      else MissingPages(enabled, table, g, cached, missing, run, st)
  }

  /** The run once the cache has left `missing` pages to process. */
  function MissingPages(enabled: bool, table: SimpleDb.Table, g: DataUtils.DocGroup, cached: seq<Json>,
                        missing: seq<int>, run: Run, st: Stages): SetResult
    requires Given(g.en)
  {
    if run.thresholds.None? || run.prompts.None? then SetResult(Raised, table, None)
    else
      var en := g.en.value;
      match SpecificPages(en, st.pageCount(en), st.pagesDir(en), missing, st.englishPage)
      case Raised => SetResult(Raised, table, None)
      case Ok(newEn) =>
        if newEn == [] then SetResult(Ok(Some(cached)), table, None)
        else NewSet(enabled, table, g, cached, missing, newEn, run, run.prompts.value, st)
  }

  /** The run once the English pipeline has given new artifacts `newEn` for the missing pages. */
  function NewSet(enabled: bool, table: SimpleDb.Table, g: DataUtils.DocGroup, cached: seq<Json>, missing: seq<int>,
                  newEn: seq<Json>, run: Run, prompts: PyDict.Dict<string, Json>, st: Stages): SetResult
  {
    match GroupBy(newEn, FieldKey("source_page", JInt(1)))
    case None => SetResult(Raised, table, None)
    case Some(groups) =>
      var (added, t) := NewPages(enabled, table, g, groups, missing, run, prompts, st);
      if added.Raised? then SetResult(Raised, t, None) else WriteOut(cached + added.value, t)
  }

  /** One missing page's records. */
  method ProcessPageRecords(g: DataUtils.DocGroup, items: seq<Json>, p: int, prompts: PyDict.Dict<string, Json>,
                            st: Stages) returns (r: Outcome<Json>)
    ensures r == PageRecords(g, items, p, prompts, st)
  {
    var ar := OtherNames(g.ar, items, p, st, st.arNames);
    var fr := OtherNames(g.fr, items, p, st, st.frNames);
    var merged := MergeMultilingualNamesForPage(items, ar, fr);
    if merged.Raised? {
      return Raised;
    }
    if ValidationOn(prompts) {
      var v := Validation.ValidateAndComplete(merged.value, st.validation(merged.value), st.o);
      r := Ok(ValidatedPageAsWritten(merged.value, v));
    } else {
      r := Ok(JList(merged.value));
    }
  }

  /** Once the loop over the missing pages has raised, it stays raised and saves nothing more. */
  lemma {:induction false} NewPagesStayRaised(enabled: bool, table: SimpleDb.Table, g: DataUtils.DocGroup,
                                              groups: Groups, pages: seq<int>, k: nat, run: Run,
                                              prompts: PyDict.Dict<string, Json>, st: Stages)
    requires k <= |pages|
    requires NewPages(enabled, table, g, groups, pages[..k], run, prompts, st).0.Raised?
    ensures NewPages(enabled, table, g, groups, pages, run, prompts, st)
         == NewPages(enabled, table, g, groups, pages[..k], run, prompts, st)
    decreases |pages|
  {
    if k < |pages| {
      var init := pages[..|pages| - 1];
      assert init[..k] == pages[..k];
      NewPagesStayRaised(enabled, table, g, groups, init, k, run, prompts, st);
    } else {
      assert pages[..k] == pages;
    }
  }

  /** The loop over one more missing page, while no page has raised. */
  lemma NewPagesStep(enabled: bool, table: SimpleDb.Table, g: DataUtils.DocGroup, groups: Groups, pages: seq<int>,
                     k: nat, run: Run, prompts: PyDict.Dict<string, Json>, st: Stages)
    requires k < |pages|
    requires NewPages(enabled, table, g, groups, pages[..k], run, prompts, st).0.Ok?
    ensures var (acc, t) := NewPages(enabled, table, g, groups, pages[..k], run, prompts, st);
      NewPages(enabled, table, g, groups, pages[..k + 1], run, prompts, st)
        == NextPage(enabled, t, g, groups, pages[k], acc.value, run, prompts, st)
  {
    var s := pages[..k + 1];
    assert s[..|s| - 1] == pages[..k];
    assert s[|s| - 1] == pages[k];
  }

  /** One missing page, saved through the store. */
  method ProcessNextPage(db: SimpleDb.SimpleArtifactDB, g: DataUtils.DocGroup, groups: Groups, p: int,
                         acc: seq<Json>, run: Run, prompts: PyDict.Dict<string, Json>, st: Stages)
    returns (added: Outcome<seq<Json>>)
    modifies db
    ensures (added, db.artifacts) == NextPage(db.enabled, old(db.artifacts), g, groups, p, acc, run, prompts, st)
  {
    if GroupIndex(groups, JInt(p)) < 0 {
      return Ok(acc);
    }
    var records := ProcessPageRecords(g, GroupItems(groups, JInt(p)), p, prompts, st);
    if records.Raised? {
      return Raised;
    }
    if run.saveToDb {
      var _ := db.SavePageArtifacts(g, JInt(p), records.value, run.ocrModel, run.extractionModel, run.thresholds, st.env);
    }
    var xs := Iter(records.value);
    if xs.None? {
      return Raised;
    }
    added := Ok(acc + xs.value);
  }

  /** The loop over the missing pages. */
  method ProcessNewPages(db: SimpleDb.SimpleArtifactDB, g: DataUtils.DocGroup, groups: Groups, pages: seq<int>,
                         run: Run, prompts: PyDict.Dict<string, Json>, st: Stages) returns (added: Outcome<seq<Json>>)
    modifies db
    ensures (added, db.artifacts) == NewPages(db.enabled, old(db.artifacts), g, groups, pages, run, prompts, st)
  {
    added := Ok([]);
    var k := 0;
    while k < |pages|
      invariant 0 <= k <= |pages|
      invariant (added, db.artifacts) == NewPages(db.enabled, old(db.artifacts), g, groups, pages[..k], run, prompts, st)
    {
      if added.Raised? {
        NewPagesStayRaised(db.enabled, old(db.artifacts), g, groups, pages, k, run, prompts, st);
        return;
      }
      NewPagesStep(db.enabled, old(db.artifacts), g, groups, pages, k, run, prompts, st);
      added := ProcessNextPage(db, g, groups, pages[k], added.value, run, prompts, st);
      k := k + 1;
    }
    assert pages[..k] == pages;
  }

  /** `process_multilingual_document_set`, over the store and the CSV file. */
  method ProcessMultilingualDocumentSet(db: SimpleDb.SimpleArtifactDB, csv: DataUtils.CsvFile, entries: SetEntries,
                                        run: Run, st: Stages) returns (r: Outcome<Option<seq<Json>>>)
    requires csv.Valid()
    modifies db, csv
    ensures var s := DocumentSet(db.enabled, old(db.artifacts), entries, run, st);
      r == s.result && db.artifacts == s.table && csv.Valid()
      && if s.written.Some?
         then csv.present && csv.lines == old(csv.lines) + DataUtils.Appended(old(csv.present), s.written.value, run.csvFields)
         else csv.present == old(csv.present) && csv.lines == old(csv.lines)
  {
    var baseName := EnglishBaseNameAsWritten(entries.en);
    if baseName.Raised? {
      return Raised;
    }
    var g := GroupOf(entries);
    if !Given(g.en) {
      return Ok(None);
    }
    var en := g.en.value;
    var end := EndPage(run, st.pageCount(en));
    var cached, missing, _ := db.CheckPageLevelCache(g, run.start, end, run.ocrModel, run.extractionModel, run.thresholds, st.env);
    if missing == [] {
      var ok := csv.SaveArtifactsToCsv(JList(cached), run.csvFields);
      return if ok then Ok(Some(cached)) else Raised;
    }
    r := ProcessMissingPages(db, csv, g, cached, missing, run, st);
  }

  /** The run once the cache has left `missing` pages to process. */
  method ProcessMissingPages(db: SimpleDb.SimpleArtifactDB, csv: DataUtils.CsvFile, g: DataUtils.DocGroup,
                             cached: seq<Json>, missing: seq<int>, run: Run, st: Stages)
    returns (r: Outcome<Option<seq<Json>>>)
    requires csv.Valid() && Given(g.en)
    modifies db, csv
    ensures var s := MissingPages(db.enabled, old(db.artifacts), g, cached, missing, run, st);
      r == s.result && db.artifacts == s.table && csv.Valid()
      && if s.written.Some?
         then csv.present && csv.lines == old(csv.lines) + DataUtils.Appended(old(csv.present), s.written.value, run.csvFields)
         else csv.present == old(csv.present) && csv.lines == old(csv.lines)
  {
    if run.thresholds.None? || run.prompts.None? {
      return Raised;
    }
    var en := g.en.value;
    var newEn := ProcessSpecificPagesEnglish(en, st.pageCount(en), st.pagesDir(en), missing, st.englishPage);
    if newEn.Raised? {
      return Raised;
    }
    if newEn.value == [] {
      return Ok(Some(cached));
    }
    var groups := GroupItemsBy(newEn.value, FieldKey("source_page", JInt(1)));
    if groups.None? {
      return Raised;
    }
    var added := ProcessNewPages(db, g, groups.value, missing, run, run.prompts.value, st);
    if added.Raised? {
      return Raised;
    }
    var records := cached + added.value;
    var ok := csv.SaveArtifactsToCsv(JList(records), run.csvFields);
    r := if ok then Ok(Some(records)) else Raised;
  }

  /** As written, a group whose English entry is present with the value `None` raises in the
      base name, before the check meant to return `None` for a group without an English
      document; with the check first, such a group returns `None` and touches nothing. */
  lemma EnglishNoneRaisesBeforeCheck(enabled: bool, table: SimpleDb.Table, s: SetEntries, run: Run, st: Stages)
    requires s.en == Some(None)
    ensures DocumentSet(enabled, table, s, run, st) == SetResult(Raised, table, None)
    ensures SetRun(enabled, table, GroupOf(s), run, st) == SetResult(Ok(None), table, None)
  {
  }

  /** One page of the loop leaves alone a key that already has records or is not its key. */
  lemma NextPageTouchOnly(enabled: bool, table: SimpleDb.Table, g: DataUtils.DocGroup, groups: Groups, p: int,
                          acc: seq<Json>, run: Run, prompts: PyDict.Dict<string, Json>, st: Stages, key: string)
    requires SimpleDb.Hit(table, key) ||
      key != SimpleDb.PageCacheKey(g, JInt(p), run.ocrModel, run.extractionModel, run.thresholds, st.env)
    ensures SimpleDb.PageRows(NextPage(enabled, table, g, groups, p, acc, run, prompts, st).1, key) == SimpleDb.PageRows(table, key)
    ensures !run.saveToDb ==> NextPage(enabled, table, g, groups, p, acc, run, prompts, st).1 == table
  {
    if GroupIndex(groups, JInt(p)) >= 0 {
      var records := PageRecords(g, GroupItems(groups, JInt(p)), p, prompts, st);
      if records.Ok? && run.saveToDb {
        var k := SimpleDb.PageCacheKey(g, JInt(p), run.ocrModel, run.extractionModel, run.thresholds, st.env);
        var t := SimpleDb.SavePage(enabled, table, g, JInt(p), records.value, run.ocrModel, run.extractionModel, run.thresholds, st.env).1;
        assert t == table || (!SimpleDb.Hit(table, k) && t == table[k := SimpleDb.PageRows(t, k)]);
      }
    }
  }

  /** The loop over the missing pages leaves alone every key that already has records and
      every key that is not the key of a missing page, and saves nothing when saving is off. */
  lemma {:induction false} NewPagesTouchOnlyNewPages(enabled: bool, table: SimpleDb.Table, g: DataUtils.DocGroup,
                                                     groups: Groups, pages: seq<int>, run: Run,
                                                     prompts: PyDict.Dict<string, Json>, st: Stages, key: string)
    requires SimpleDb.Hit(table, key) ||
      forall p :: p in pages ==> key != SimpleDb.PageCacheKey(g, JInt(p), run.ocrModel, run.extractionModel, run.thresholds, st.env)
    ensures SimpleDb.PageRows(NewPages(enabled, table, g, groups, pages, run, prompts, st).1, key) == SimpleDb.PageRows(table, key)
    ensures !run.saveToDb ==> NewPages(enabled, table, g, groups, pages, run, prompts, st).1 == table
    decreases |pages|
  {
    if pages != [] {
      var init := pages[..|pages| - 1];
      var p := pages[|pages| - 1];
      assert forall q :: q in init ==> q in pages;
      NewPagesTouchOnlyNewPages(enabled, table, g, groups, init, run, prompts, st, key);
      var (acc, t) := NewPages(enabled, table, g, groups, init, run, prompts, st);
      if acc.Ok? {
        NextPageTouchOnly(enabled, t, g, groups, p, acc.value, run, prompts, st, key);
      }
    }
  }

  /** The run after the English pipeline leaves alone the same keys as its page loop. */
  lemma NewSetTouchesOnlyMissingPages(enabled: bool, table: SimpleDb.Table, g: DataUtils.DocGroup, cached: seq<Json>,
                                      missing: seq<int>, newEn: seq<Json>, run: Run,
                                      prompts: PyDict.Dict<string, Json>, st: Stages, key: string)
    requires SimpleDb.Hit(table, key) ||
      forall p :: p in missing ==> key != SimpleDb.PageCacheKey(g, JInt(p), run.ocrModel, run.extractionModel, run.thresholds, st.env)
    ensures SimpleDb.PageRows(NewSet(enabled, table, g, cached, missing, newEn, run, prompts, st).table, key)
         == SimpleDb.PageRows(table, key)
    ensures !run.saveToDb ==> NewSet(enabled, table, g, cached, missing, newEn, run, prompts, st).table == table
  {
    var groups := GroupBy(newEn, FieldKey("source_page", JInt(1)));
    if groups.Some? {
      NewPagesTouchOnlyNewPages(enabled, table, g, groups.value, missing, run, prompts, st, key);
    }
  }

  /** The run after the cache lookup leaves alone the same keys as its page loop. */
  lemma MissingPagesTouchOnlyMissingPages(enabled: bool, table: SimpleDb.Table, g: DataUtils.DocGroup,
                                          cached: seq<Json>, missing: seq<int>, run: Run, st: Stages, key: string)
    requires Given(g.en)
    requires SimpleDb.Hit(table, key) ||
      forall p :: p in missing ==> key != SimpleDb.PageCacheKey(g, JInt(p), run.ocrModel, run.extractionModel, run.thresholds, st.env)
    ensures SimpleDb.PageRows(MissingPages(enabled, table, g, cached, missing, run, st).table, key) == SimpleDb.PageRows(table, key)
    ensures !run.saveToDb ==> MissingPages(enabled, table, g, cached, missing, run, st).table == table
  {
    if run.thresholds.Some? && run.prompts.Some? {
      var en := g.en.value;
      var newEn := SpecificPages(en, st.pageCount(en), st.pagesDir(en), missing, st.englishPage);
      if newEn.Ok? && newEn.value != [] {
        NewSetTouchesOnlyMissingPages(enabled, table, g, cached, missing, newEn.value, run, run.prompts.value, st, key);
      }
    }
  }

  /** A run leaves alone the records of every key that already has records and of every key
      that is not the key of a missing page: cached pages are never overwritten. With saving
      off, the store is not changed at all. */
  lemma DocumentSetTouchesOnlyMissingPages(enabled: bool, table: SimpleDb.Table, s: SetEntries, run: Run,
                                           st: Stages, key: string)
    requires Given(GroupOf(s).en)
    requires SimpleDb.Hit(table, key) ||
      forall p :: p in Lookup(enabled, table, GroupOf(s), run, st).1 ==>
        key != SimpleDb.PageCacheKey(GroupOf(s), JInt(p), run.ocrModel, run.extractionModel, run.thresholds, st.env)
    ensures SimpleDb.PageRows(DocumentSet(enabled, table, s, run, st).table, key) == SimpleDb.PageRows(table, key)
    ensures !run.saveToDb ==> DocumentSet(enabled, table, s, run, st).table == table
  {
    var g := GroupOf(s);
    var lookup := Lookup(enabled, table, g, run, st);
    if lookup.1 != [] {
      MissingPagesTouchOnlyMissingPages(enabled, table, g, lookup.0, lookup.1, run, st, key);
    }
  }

  /** After the English pipeline, the cached artifacts come first. */
  lemma NewSetCachedFirst(enabled: bool, table: SimpleDb.Table, g: DataUtils.DocGroup, cached: seq<Json>,
                          missing: seq<int>, newEn: seq<Json>, run: Run, prompts: PyDict.Dict<string, Json>, st: Stages)
    ensures var r := NewSet(enabled, table, g, cached, missing, newEn, run, prompts, st).result;
      r.Ok? && r.value.Some? ==> cached <= r.value.value
  {
    var groups := GroupBy(newEn, FieldKey("source_page", JInt(1)));
    if groups.Some? {
      var np := NewPages(enabled, table, g, groups.value, missing, run, prompts, st);
      if np.0.Ok? {
        assert NewSet(enabled, table, g, cached, missing, newEn, run, prompts, st) == WriteOut(cached + np.0.value, np.1);
      }
    }
  }

  /** After the cache lookup, the cached artifacts come first. */
  lemma MissingPagesCachedFirst(enabled: bool, table: SimpleDb.Table, g: DataUtils.DocGroup, cached: seq<Json>,
                                missing: seq<int>, run: Run, st: Stages)
    requires Given(g.en)
    ensures var r := MissingPages(enabled, table, g, cached, missing, run, st).result;
      r.Ok? && r.value.Some? ==> cached <= r.value.value
  {
    if run.thresholds.Some? && run.prompts.Some? {
      var en := g.en.value;
      var newEn := SpecificPages(en, st.pageCount(en), st.pagesDir(en), missing, st.englishPage);
      if newEn.Ok? && newEn.value != [] {
        NewSetCachedFirst(enabled, table, g, cached, missing, newEn.value, run, run.prompts.value, st);
      }
    }
  }

  /** A run returns the cached artifacts first, in the store's order. */
  lemma DocumentSetCachedFirst(enabled: bool, table: SimpleDb.Table, s: SetEntries, run: Run, st: Stages)
    requires Given(GroupOf(s).en)
    ensures var r := DocumentSet(enabled, table, s, run, st).result;
      r.Ok? && r.value.Some? ==> Lookup(enabled, table, GroupOf(s), run, st).0 <= r.value.value
  {
    var g := GroupOf(s);
    var lookup := Lookup(enabled, table, g, run, st);
    if lookup.1 != [] {
      MissingPagesCachedFirst(enabled, table, g, lookup.0, lookup.1, run, st);
    }
  }

  /** With every page of the range in the cache, the run writes and returns the cached
      artifacts, changes nothing in the store, and consults none of the page pipelines. */
  lemma AllCachedRunsNothing(enabled: bool, table: SimpleDb.Table, s: SetEntries, run: Run, st: Stages,
                             e: PageStep, a: NameExtractor, f: NameExtractor, v: seq<Json> -> Services.Reply,
                             o: Services.TextOracles)
    requires Given(GroupOf(s).en) && Lookup(enabled, table, GroupOf(s), run, st).1 == []
    ensures DocumentSet(enabled, table, s, run, st) == WriteOut(Lookup(enabled, table, GroupOf(s), run, st).0, table)
    ensures DocumentSet(enabled, table, s, run, st)
         == DocumentSet(enabled, table, s, run, st.(englishPage := e, arNames := a, frNames := f, validation := v, o := o))
  {
    var g := GroupOf(s);
    var st2 := st.(englishPage := e, arNames := a, frNames := f, validation := v, o := o);
    assert Lookup(enabled, table, g, run, st2) == Lookup(enabled, table, g, run, st);
  }

  /** Runs of the loop whose pages give the same records save the same and add the same. */
  lemma {:induction false} NewPagesAgree(enabled: bool, table: SimpleDb.Table, g: DataUtils.DocGroup, groups: Groups,
                                         pages: seq<int>, run: Run, prompts: PyDict.Dict<string, Json>,
                                         st1: Stages, st2: Stages)
    requires st1.env == st2.env
    requires forall p :: p in pages ==>
      PageRecords(g, GroupItems(groups, JInt(p)), p, prompts, st1) == PageRecords(g, GroupItems(groups, JInt(p)), p, prompts, st2)
    ensures NewPages(enabled, table, g, groups, pages, run, prompts, st1) == NewPages(enabled, table, g, groups, pages, run, prompts, st2)
    decreases |pages|
  {
    if pages != [] {
      var init := pages[..|pages| - 1];
      assert forall q :: q in init ==> q in pages;
      NewPagesAgree(enabled, table, g, groups, init, run, prompts, st1, st2);
    }
  }

  /** Page records depend on the aligner of a language only when its document is given. */
  lemma PageRecordsAgree(g: DataUtils.DocGroup, items: seq<Json>, p: int, prompts: PyDict.Dict<string, Json>,
                         st: Stages, e: PageStep, a: NameExtractor, f: NameExtractor)
    ensures var st2 := st.(englishPage := e, arNames := if Given(g.ar) then st.arNames else a,
                                              frNames := if Given(g.fr) then st.frNames else f);
      PageRecords(g, items, p, prompts, st) == PageRecords(g, items, p, prompts, st2)
  {
    var st2 := st.(englishPage := e, arNames := if Given(g.ar) then st.arNames else a,
                                     frNames := if Given(g.fr) then st.frNames else f);
    assert OtherNames(g.ar, items, p, st, st.arNames) == OtherNames(g.ar, items, p, st2, st2.arNames);
    assert OtherNames(g.fr, items, p, st, st.frNames) == OtherNames(g.fr, items, p, st2, st2.frNames);
  }

  /** The run after the English pipeline depends on the aligners only where a document is given. */
  lemma NewSetDependence(enabled: bool, table: SimpleDb.Table, g: DataUtils.DocGroup, cached: seq<Json>,
                         missing: seq<int>, newEn: seq<Json>, run: Run, prompts: PyDict.Dict<string, Json>, st: Stages,
                         e: PageStep, a: NameExtractor, f: NameExtractor)
    ensures var st2 := st.(englishPage := e, arNames := if Given(g.ar) then st.arNames else a,
                                              frNames := if Given(g.fr) then st.frNames else f);
      NewSet(enabled, table, g, cached, missing, newEn, run, prompts, st)
      == NewSet(enabled, table, g, cached, missing, newEn, run, prompts, st2)
  {
    var st2 := st.(englishPage := e, arNames := if Given(g.ar) then st.arNames else a,
                                     frNames := if Given(g.fr) then st.frNames else f);
    var groups := GroupBy(newEn, FieldKey("source_page", JInt(1)));
    if groups.Some? {
      forall p | p in missing
        ensures PageRecords(g, GroupItems(groups.value, JInt(p)), p, prompts, st)
             == PageRecords(g, GroupItems(groups.value, JInt(p)), p, prompts, st2)
      {
        PageRecordsAgree(g, GroupItems(groups.value, JInt(p)), p, prompts, st, e, a, f);
      }
      NewPagesAgree(enabled, table, g, groups.value, missing, run, prompts, st, st2);
    }
  }

  /** The run after the cache lookup runs the English pipeline only on the missing pages. */
  lemma MissingPagesDependence(enabled: bool, table: SimpleDb.Table, g: DataUtils.DocGroup, cached: seq<Json>,
                               missing: seq<int>, run: Run, st: Stages, e: PageStep, a: NameExtractor, f: NameExtractor)
    requires Given(g.en)
    requires forall img: ImageProcessing.PageImage :: img.1 in missing ==> Caught(st.englishPage(img)) == Caught(e(img))
    ensures var st2 := st.(englishPage := e, arNames := if Given(g.ar) then st.arNames else a,
                                              frNames := if Given(g.fr) then st.frNames else f);
      MissingPages(enabled, table, g, cached, missing, run, st) == MissingPages(enabled, table, g, cached, missing, run, st2)
  {
    if run.thresholds.Some? && run.prompts.Some? {
      var en := g.en.value;
      SpecificPagesOnlyRunListed(en, st.pageCount(en), st.pagesDir(en), missing, st.englishPage, e);
      var newEn := SpecificPages(en, st.pageCount(en), st.pagesDir(en), missing, st.englishPage);
      if newEn.Ok? && newEn.value != [] {
        NewSetDependence(enabled, table, g, cached, missing, newEn.value, run, run.prompts.value, st, e, a, f);
      }
    }
  }

  /** The run consults the English pipeline only on the missing pages, and the Arabic and
      French aligners only when that document is given: runs that differ elsewhere give the
      same result, the same store and the same CSV output. */
  lemma DocumentSetDependence(enabled: bool, table: SimpleDb.Table, s: SetEntries, run: Run, st: Stages,
                              e: PageStep, a: NameExtractor, f: NameExtractor)
    requires Given(GroupOf(s).en)
    requires forall img: ImageProcessing.PageImage :: img.1 in Lookup(enabled, table, GroupOf(s), run, st).1 ==>
      Caught(st.englishPage(img)) == Caught(e(img))
    ensures var st2 := st.(englishPage := e, arNames := if Given(s.ar) then st.arNames else a,
                                              frNames := if Given(s.fr) then st.frNames else f);
      DocumentSet(enabled, table, s, run, st) == DocumentSet(enabled, table, s, run, st2)
  {
    var g := GroupOf(s);
    var st2 := st.(englishPage := e, arNames := if Given(s.ar) then st.arNames else a,
                                     frNames := if Given(s.fr) then st.frNames else f);
    var lookup := Lookup(enabled, table, GroupOf(s), run, st);
    assert Lookup(enabled, table, g, run, st2) == lookup;
    if lookup.1 != [] {
      MissingPagesDependence(enabled, table, g, lookup.0, lookup.1, run, st, e, a, f);
    }
  }

  /** With pages to process, a run without thresholds or without prompts raises before any
      page is processed. */
  lemma MissingSettingsRaise(enabled: bool, table: SimpleDb.Table, s: SetEntries, run: Run, st: Stages)
    requires Given(GroupOf(s).en) && Lookup(enabled, table, GroupOf(s), run, st).1 != []
    requires run.thresholds.None? || run.prompts.None?
    ensures DocumentSet(enabled, table, s, run, st) == SetResult(Raised, table, None)
  {
  }
}
