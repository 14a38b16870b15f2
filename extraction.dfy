/**
 * What happens to the answers of the extraction models (`modules/extraction.py`): artifact
 * records are checked, completed and stamped with their page and document, and the answer
 * of the name-alignment model is cleaned of code fences and cut to its JSON array.
 */
module Extraction {
  import opened Wrappers
  import opened Json
  import Strings
  import PyDict
  import Config
  import Services
  import TextProcessing
  import Correction
  import Seqs

  // ---------------------------------------------------------------------------
  // Artifact records (`extract_artifacts_from_page`)

  /** The text handed to `json.loads`: from the first '[' to the last ']' (nothing when the
      last ']' comes before the first '['), or the whole answer when it lacks either bracket. */
  function ArtifactJsonText(content: string): (r: string)
    ensures !('[' in content && ']' in content) ==> r == content
    ensures '[' in content && ']' in content && Strings.Find(content, '[') <= Strings.RFind(content, ']') ==>
      |r| >= 1 && r[0] == '[' && r[|r| - 1] == ']'
      && r == content[Strings.Find(content, '[')..Strings.RFind(content, ']') + 1]
    ensures '[' in content && ']' in content && Strings.Find(content, '[') > Strings.RFind(content, ']') ==> r == ""
  {
    if '[' in content && ']' in content then
      Strings.Slice(content, Strings.Find(content, '['), Strings.RFind(content, ']') + 1)
    else content
  }

  /** The record with "Category" set to "OTHER" when it is missing or empty. */
  function WithCategory(m: PyDict.Dict<string, Json>): (r: PyDict.Dict<string, Json>)
    ensures Truthy(Member(r, "Category", JNull))
    ensures Truthy(Member(m, "Category", JNull)) ==> r == m
    ensures !Truthy(Member(m, "Category", JNull)) ==> PyDict.Get(r, "Category") == Some(JStr(Config.CATEGORY_OTHER))
    ensures forall k :: k != "Category" ==> PyDict.Get(r, k) == PyDict.Get(m, k)
  {
    if Truthy(Member(m, "Category", JNull)) then m
    else PyDict.Set(m, "Category", JStr(Config.CATEGORY_OTHER))
  }

  /** A record kept by the loop: category defaulted, then page and document stamped; every
      other field is the artifact's own. */
  function Completed(m: PyDict.Dict<string, Json>, page: int, document: string): (r: Json)
    ensures r.JObj?
    ensures Truthy(Member(r.members, "Category", JNull))
    ensures TextProcessing.IsStamped(r, page, document)
    ensures forall k :: k != "Category" && k != "source_page" && k != "source_document" ==>
      PyDict.Get(r.members, k) == PyDict.Get(m, k)
  {
    var c := WithCategory(m);
    var r := TextProcessing.Stamp(c, page, document);
    assert PyDict.Get(r, "Category") == PyDict.Get(c, "Category") by {
      assert PyDict.Get(PyDict.Set(c, "source_page", JInt(page)), "Category") == PyDict.Get(c, "Category");
    }
    JObj(r)
  }

  /** An object whose "Name" is truthy. */
  predicate IsNamed(item: Json)
  {
    item.JObj? && Truthy(Member(item.members, "Name", JNull))
  }

  /**
   * One item of the validation loop: an object with a truthy "Name" is kept and completed, one
   * without is skipped. Any other item is checked with `"Name" in item`: a value without `in`
   * raises, a value that does not hold "Name" is skipped, and one that does raises on `.get`.
   */
  function Check(item: Json, page: int, document: string): (v: Seqs.Verdict<Json>)
    ensures v.Keep? <==> IsNamed(item)
    ensures v.Keep? ==> v.record == Completed(item.members, page, document)
    ensures v.Crash? <==> !item.JObj? && In("Name", item) != Some(false)
  {
    match item
    case JObj(m) => if Truthy(Member(m, "Name", JNull)) then Seqs.Keep(Completed(m, page, document)) else Seqs.Skip
    case _ =>
      match In("Name", item)
      case None => Seqs.Crash
      case Some(has) => if has then Seqs.Crash else Seqs.Skip
  }

  function Checker(page: int, document: string): Json -> Seqs.Verdict<Json>
  {
    item => Check(item, page, document)
  }

  /** The records the loop collects from `items`, or `None` when an item makes it raise. */
  function ValidArtifacts(items: seq<Json>, page: int, document: string): Option<seq<Json>>
  {
    Seqs.Collect(items, Checker(page, document))
  }

  /** The items the validation loop runs over: `None` for the sentinel answer, for a text that
      does not parse, and for a parsed value Python cannot iterate. */
  function ParsedItems(content: string, decode: Decoder): Option<seq<Json>>
  {
    if Strings.Strip(content) == Config.NO_ARTIFACTS_MENTIONED then None
    else
      match decode(ArtifactJsonText(content))
      case None => None
      case Some(v) => Iter(v)
  }

  /** `extract_artifacts_from_page` once the model answered `content`. */
  function ArtifactsFromContent(content: string, page: int, document: string, decode: Decoder): seq<Json>
  {
    match ParsedItems(content, decode)
    case None => []
    case Some(items) => ValidArtifacts(items, page, document).GetOr([])
  }

  /** `extract_artifacts_from_page`: a raising model call propagates; any later error gives no records. */
  function ArtifactsFromReply(reply: Services.Reply, page: int, document: string, decode: Decoder): (r: Outcome<seq<Json>>)
  {
    match reply
    case CallRaised => Raised
    case ContentRaised => Ok([])
    case Content(text) => Ok(ArtifactsFromContent(text, page, document, decode))
  }

  /** The validation loop over the parsed answer. */
  method ValidateArtifacts(items: seq<Json>, page: int, document: string) returns (r: Option<seq<Json>>)
    ensures r == ValidArtifacts(items, page, document)
  {
    var valid: seq<Json> := [];
    var k := 0;
    while k < |items|
      invariant 0 <= k <= |items|
      invariant Seqs.Collect(items[..k], Checker(page, document)) == Some(valid)
    {
      assert items[..k + 1][..k] == items[..k];
      var verdict := Check(items[k], page, document);
      assert Checker(page, document)(items[..k + 1][k]) == verdict;
      if verdict.Crash? {
        Seqs.CollectCrashes(items, k + 1, Checker(page, document));
        return None;
      }
      if verdict.Keep? {
        valid := valid + [verdict.record];
      }
      k := k + 1;
    }
    assert items[..k] == items;
    r := Some(valid);
  }

  method ExtractArtifactsFromPage(reply: Services.Reply, page: int, document: string, decode: Decoder)
    returns (r: Outcome<seq<Json>>)
    ensures r == ArtifactsFromReply(reply, page, document, decode)
  {
    if reply.CallRaised? {
      return Raised;
    }
    if reply.ContentRaised? {
      return Ok([]);
    }
    var content := reply.text;
    if Strings.Strip(content) == Config.NO_ARTIFACTS_MENTIONED {
      return Ok([]);
    }
    var parsed := decode(ArtifactJsonText(content));
    if parsed.None? {
      return Ok([]);
    }
    var items := Iter(parsed.value);
    if items.None? {
      return Ok([]);
    }
    var valid := ValidateArtifacts(items.value, page, document);
    if valid.None? {
      return Ok([]);
    }
    r := Ok(valid.value);
  }

  /** The loop raises exactly when an item is neither an object nor free of "Name"; otherwise it
      keeps the named objects, in their order, each completed. */
  lemma ValidArtifactsFilter(items: seq<Json>, page: int, document: string)
    ensures ValidArtifacts(items, page, document).None? <==>
      exists k :: 0 <= k < |items| && !items[k].JObj? && In("Name", items[k]) != Some(false)
    ensures ValidArtifacts(items, page, document).Some? ==>
      var ps := Seqs.KeptPositions(items, Checker(page, document));
      var rs := ValidArtifacts(items, page, document).value;
      && |rs| == |ps|
      && (forall i :: 0 <= i < |ps| ==> ps[i] < |items| && IsNamed(items[ps[i]]) && rs[i] == Completed(items[ps[i]].members, page, document))
      && (forall i, j :: 0 <= i < j < |ps| ==> ps[i] < ps[j])
      && (forall k :: 0 <= k < |items| && IsNamed(items[k]) ==> k in ps)
  {
    var check := Checker(page, document);
    Seqs.CollectIsKept(items, check);
    Seqs.KeptInOrder(items, check);
    assert forall k :: 0 <= k < |items| ==> check(items[k]) == Check(items[k], page, document);
  }

  /** Every record the loop keeps has a truthy name, a truthy category and the page's source stamps. */
  lemma ValidArtifactsComplete(items: seq<Json>, page: int, document: string)
    ensures ValidArtifacts(items, page, document).Some? ==>
      forall i :: 0 <= i < |ValidArtifacts(items, page, document).value| ==>
        var r := ValidArtifacts(items, page, document).value[i];
        && r.JObj?
        && Truthy(Member(r.members, "Name", JNull))
        && Truthy(Member(r.members, "Category", JNull))
        && TextProcessing.IsStamped(r, page, document)
  {
    var check := Checker(page, document);
    Seqs.CollectIsKept(items, check);
    Seqs.KeptInOrder(items, check);
    if ValidArtifacts(items, page, document).Some? {
      var rs := ValidArtifacts(items, page, document).value;
      forall i | 0 <= i < |rs|
        ensures rs[i].JObj? && Truthy(Member(rs[i].members, "Name", JNull))
      {
        var p := Seqs.KeptPositions(items, check)[i];
        assert check(items[p]) == Check(items[p], page, document);
        assert PyDict.Get(rs[i].members, "Name") == PyDict.Get(items[p].members, "Name");
      }
    }
  }

  /** Every record returned has a truthy name, a truthy category and the page's source stamps. */
  lemma ArtifactRecordsComplete(content: string, page: int, document: string, decode: Decoder)
    ensures forall i :: 0 <= i < |ArtifactsFromContent(content, page, document, decode)| ==>
      var r := ArtifactsFromContent(content, page, document, decode)[i];
      && r.JObj?
      && Truthy(Member(r.members, "Name", JNull))
      && Truthy(Member(r.members, "Category", JNull))
      && TextProcessing.IsStamped(r, page, document)
  {
    var items := ParsedItems(content, decode);
    if items.Some? {
      ValidArtifactsComplete(items.value, page, document);
    }
  }

  /** An answer that is the sentinel, once trimmed, gives no records. */
  lemma SentinelGivesNoArtifacts(content: string, page: int, document: string, decode: Decoder)
    requires Strings.Strip(content) == Config.NO_ARTIFACTS_MENTIONED
    ensures ArtifactsFromContent(content, page, document, decode) == []
  {
  }

  /** Only the bracketed span of the answer is parsed: two parsers that agree on that span give
      the same records. */
  lemma OnlyBracketSpanParsed(content: string, page: int, document: string, d1: Decoder, d2: Decoder)
    requires d1(ArtifactJsonText(content)) == d2(ArtifactJsonText(content))
    ensures ArtifactsFromContent(content, page, document, d1) == ArtifactsFromContent(content, page, document, d2)
  {
    assert ParsedItems(content, d1) == ParsedItems(content, d2);
  }

  /** A raising model call propagates, and a raising read of its answer gives no records. */
  lemma CallErrorsPropagate(page: int, document: string, decode: Decoder)
    ensures ArtifactsFromReply(Services.CallRaised, page, document, decode).Raised?
    ensures ArtifactsFromReply(Services.ContentRaised, page, document, decode) == Ok([])
  {
  }

  // ---------------------------------------------------------------------------
  // Name mappings (`extract_multilingual_names_from_page`)

  /** A line that is a code-fence marker: its trimmed form starts or ends with three backticks. */
  predicate IsFenceLine(line: string)
  {
    Strings.StartsWith(Strings.Strip(line), "```") || Strings.EndsWith(Strings.Strip(line), "```")
  }

  /** A line the fence filter keeps. */
  predicate IsContentLine(line: string)
  {
    !IsFenceLine(line)
  }

  /** The fence filter, as the loop over the answer's lines. */
  method DropFenceLines(lines: seq<string>) returns (kept: seq<string>)
    ensures kept == Seqs.Filter(lines, IsContentLine)
  {
    kept := [];
    var k := 0;
    while k < |lines|
      invariant 0 <= k <= |lines|
      invariant kept == Seqs.Filter(lines[..k], IsContentLine)
    {
      Seqs.FilterStep(lines, k, IsContentLine);
      if !IsFenceLine(lines[k]) {
        kept := kept + [lines[k]];
      }
      k := k + 1;
    }
    assert lines[..k] == lines;
  }

  /** Without fences when the answer contains three backticks, then trimmed. */
  function Unfenced(content: string): string
  {
    var t := if Strings.Contains(content, "```") then Strings.JoinLines(Seqs.Filter(Strings.SplitLines(content), IsContentLine)) else content;
    Strings.Strip(t)
  }

  /** Cut to the first '[' .. last ']' unless already bracketed; left as it is when either is missing. */
  function BracketTrim(t: string): (r: string)
    ensures Strings.StartsWith(t, "[") && Strings.EndsWith(t, "]") ==> r == t
    ensures '[' !in t || ']' !in t ==> r == t
  {
    if Strings.StartsWith(t, "[") && Strings.EndsWith(t, "]") then t
    else
      var i, j := Strings.Find(t, '['), Strings.RFind(t, ']');
      if i != -1 && j != -1 then Strings.Slice(t, i, j + 1) else t
  }

  /** A text that starts with '[' and ends with ']' is left as it is. */
  lemma BracketedUntrimmed(r: string)
    requires |r| >= 1 && r[0] == '[' && r[|r| - 1] == ']'
    ensures BracketTrim(r) == r
  {
    assert r[..1] == "[";
    assert r[|r| - 1..] == "]";
  }

  /** Trimming twice trims no further. */
  lemma BracketTrimIdempotent(t: string)
    ensures BracketTrim(BracketTrim(t)) == BracketTrim(t)
  {
    if !(Strings.StartsWith(t, "[") && Strings.EndsWith(t, "]")) {
      var i, j := Strings.Find(t, '['), Strings.RFind(t, ']');
      if i != -1 && j != -1 {
        if i <= j {
          BracketedUntrimmed(t[i..j + 1]);
        } else {
          assert BracketTrim(t) == "";
        }
      }
    }
  }

  /** The text of the name answer that is parsed first. */
  function NameJsonText(content: string): string
  {
    BracketTrim(Unfenced(content))
  }

  /** A value with a length is returned; one without makes the logging of its length raise,
      which yields no names. */
  function Sized(v: Json): (r: Json)
    ensures Len(v).Some? ==> r == v
    ensures Len(v).None? ==> r == JList([])
  {
    if Len(v).Some? then v else JList([])
  }

  /** The name mappings read from the answer `content`: the cleaned text parsed, else the
      greedy `[ {…} ]` span of the original answer parsed; no names otherwise. */
  function NameMappings(content: string, o: Services.TextOracles): (r: Json)
    ensures Len(r).Some?
  {
    match o.decode(NameJsonText(content))
    case Some(v) => Sized(v)
    case None =>
      match o.objectListSpan(content)
      case None => JList([])
      case Some(span) =>
        match o.decode(span)
        case None => JList([])
        case Some(v) => Sized(v)
  }

  /** Fence stripping and trimming, as the source does them. */
  method UnfenceAnswer(content: string) returns (clean: string)
    ensures clean == Unfenced(content)
  {
    clean := content;
    if Strings.Contains(clean, "```") {
      var lines := Strings.SplitLines(clean);
      var kept := DropFenceLines(lines);
      clean := Strings.JoinLines(kept);
    }
    clean := Strings.Strip(clean);
  }

  /** Cutting to the bracketed span, as the source does it. */
  method TrimToBrackets(t: string) returns (clean: string)
    ensures clean == BracketTrim(t)
  {
    clean := t;
    if !(Strings.StartsWith(clean, "[") && Strings.EndsWith(clean, "]")) {
      var start := Strings.Find(clean, '[');
      var end := Strings.RFind(clean, ']');
      if start != -1 && end != -1 {
        clean := Strings.Slice(clean, start, end + 1);
      }
    }
  }

  /** The name mappings of the cleaned answer, computed step by step as the source does. */
  method CleanNameMappings(content: string, o: Services.TextOracles) returns (r: Json)
    ensures r == NameMappings(content, o)
  {
    var unfenced := UnfenceAnswer(content);
    var clean := TrimToBrackets(unfenced);
    var parsed := o.decode(clean);
    if parsed.Some? {
      return Sized(parsed.value);
    }
    var span := o.objectListSpan(content);
    if span.None? {
      return JList([]);
    }
    var fallback := o.decode(span.value);
    if fallback.None? {
      return JList([]);
    }
    r := Sized(fallback.value);
  }

  /** Fence stripping drops exactly the fence-marker lines and keeps every other line. */
  lemma UnfencedLines(content: string)
    ensures forall k :: 0 <= k < |Seqs.Filter(Strings.SplitLines(content), IsContentLine)| ==>
      !IsFenceLine(Seqs.Filter(Strings.SplitLines(content), IsContentLine)[k])
    ensures forall k :: 0 <= k < |Strings.SplitLines(content)| && !IsFenceLine(Strings.SplitLines(content)[k]) ==>
      Strings.SplitLines(content)[k] in Seqs.Filter(Strings.SplitLines(content), IsContentLine)
  {
    Seqs.FilterExact(Strings.SplitLines(content), IsContentLine);
  }

  /** The fallback parses the original answer only when the cleaned text does not parse. */
  lemma FallbackOnlyOnParseError(content: string, o: Services.TextOracles)
    ensures o.decode(NameJsonText(content)).Some? ==> NameMappings(content, o) == Sized(o.decode(NameJsonText(content)).value)
    ensures o.decode(NameJsonText(content)).None? && o.objectListSpan(content).None? ==> NameMappings(content, o) == JList([])
    ensures o.decode(NameJsonText(content)).None? && o.objectListSpan(content).Some? ==>
      NameMappings(content, o) == (match o.decode(o.objectListSpan(content).value) case None => JList([]) case Some(v) => Sized(v))
  {
  }

  /** The text the aligner reads: the third pass's file, else the second's, else the OCR file. */
  function PreferredText(ocrTexts: map<int, string>, corrected: map<(int, nat), string>, page: int): (r: Option<string>)
    ensures (page, 3) in corrected ==> r == Some(corrected[(page, 3)])
    ensures (page, 3) !in corrected && (page, 2) in corrected ==> r == Some(corrected[(page, 2)])
    ensures (page, 3) !in corrected && (page, 2) !in corrected ==> r == (if page in ocrTexts then Some(ocrTexts[page]) else None)
  {
    if (page, 3) in corrected then Some(corrected[(page, 3)])
    else if (page, 2) in corrected then Some(corrected[(page, 2)])
    else if page in ocrTexts then Some(ocrTexts[page])
    else None
  }

  /** The start message lists `a.get('Name', 'Unknown')` of every artifact: it raises unless
      each artifact is an object whose name is a string. */
  predicate NamesLoggable(pageArtifacts: seq<Json>)
  {
    forall k :: 0 <= k < |pageArtifacts| ==>
      pageArtifacts[k].JObj? && Member(pageArtifacts[k].members, "Name", JStr("Unknown")).JStr?
  }

  /** What the name model's reply gives: a raising call propagates, a raising read gives no names. */
  function NamesFromReply(reply: Services.Reply, o: Services.TextOracles): (r: Outcome<Json>)
    ensures r.Ok? ==> Len(r.value).Some?
  {
    match reply
    case CallRaised => Raised
    case ContentRaised => Ok(JList([]))
    case Content(text) => Ok(NameMappings(text, o))
  }

  /** Correction of a page has this many passes at most when the aligner starts it. */
  const DEFAULT_MAX_CORRECTIONS := 5

  /**
   * `extract_multilingual_names_from_page` over the page's OCR files in `store`. `ocr` is what
   * the OCR call would give, `corrector` answers correction calls, and `names` answers the
   * name prompt built around the text the aligner settled on.
   */
  method ExtractMultilingualNamesFromPage(store: Correction.OcrStore, page: int, pageArtifacts: seq<Json>,
                                          model: string, threshold: real, ocr: Option<string>,
                                          corrector: Correction.Corrector, names: string -> Services.Reply,
                                          o: Services.TextOracles)
    returns (r: Outcome<Json>)
    modifies store
    ensures !NamesLoggable(pageArtifacts) ==>
      r.Raised? && store.ocrTexts == old(store.ocrTexts) && store.corrected == old(store.corrected)
    ensures NamesLoggable(pageArtifacts) && PreferredText(old(store.ocrTexts), old(store.corrected), page).GetOr("") != "" ==>
      && store.ocrTexts == old(store.ocrTexts) && store.corrected == old(store.corrected)
      && r == NamesFromReply(names(PreferredText(old(store.ocrTexts), old(store.corrected), page).value), o)
    ensures NamesLoggable(pageArtifacts) && PreferredText(old(store.ocrTexts), old(store.corrected), page).GetOr("") == "" ==>
      var raw := Correction.RawText(old(store.ocrTexts), page, ocr);
      && (raw.None? ==> r == Ok(JList([])) && store.ocrTexts == old(store.ocrTexts) && store.corrected == old(store.corrected))
      && (raw.Some? ==>
            var passes := Correction.Run(old(store.corrected), page, raw.value, model, threshold, DEFAULT_MAX_CORRECTIONS, corrector);
            && store.ocrTexts == (if page in old(store.ocrTexts) then old(store.ocrTexts) else old(store.ocrTexts)[page := raw.value])
            && store.corrected == Correction.SavePasses(old(store.corrected), page, passes)
            && r == NamesFromReply(names(Correction.FinalText(raw.value, passes)), o))
  {
    var k := 0;
    while k < |pageArtifacts|
      invariant 0 <= k <= |pageArtifacts|
      invariant forall i :: 0 <= i < k ==>
        pageArtifacts[i].JObj? && Member(pageArtifacts[i].members, "Name", JStr("Unknown")).JStr?
    {
      var a := pageArtifacts[k];
      if !a.JObj? || !Member(a.members, "Name", JStr("Unknown")).JStr? {
        return Raised;
      }
      k := k + 1;
    }
    var text := PreferredText(store.ocrTexts, store.corrected, page);
    var ocrText: string;
    if text.GetOr("") == "" {
      var corrected, ocrCalled, passes := store.PerformOcrWithAdaptiveCorrection(page, model, threshold, DEFAULT_MAX_CORRECTIONS, ocr, corrector);
      if corrected.Raised? {
        return Ok(JList([]));
      }
      ocrText := corrected.value;
    } else {
      ocrText := text.value;
    }
    var reply := names(ocrText);
    if reply.CallRaised? {
      return Raised;
    }
    if reply.ContentRaised? {
      return Ok(JList([]));
    }
    var mappings := CleanNameMappings(reply.text, o);
    r := Ok(mappings);
  }
}
