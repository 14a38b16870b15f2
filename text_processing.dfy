/**
 * Similarity of two OCR passes (normalised Levenshtein distance) and the tolerant
 * parsers that turn a model's answer into artifact records or name mappings.
 */
module TextProcessing {
  import opened Wrappers
  import opened Json
  import opened Strings
  import PyDict
  import Config
  import opened Services

  // ---------------------------------------------------------------------------
  // Edit distance

  function Min3(x: nat, y: nat, z: nat): (m: nat)
    ensures m <= x && m <= y && m <= z
    ensures m == x || m == y || m == z
  {
    if x <= y && x <= z then x else if y <= z then y else z
  }

  function Max(x: nat, y: nat): nat
  {
    if x >= y then x else y
  }

  /** The Levenshtein distance between the first `i` characters of `a` and the first `j` of `b`
      (unit cost for deleting, inserting or substituting one character). */
  function Dist(a: string, b: string, i: nat, j: nat): nat
    requires i <= |a| && j <= |b|
    decreases i + j, 1
  {
    if i == 0 then j
    else if j == 0 then i
    else Step(a, b, i, j)
  }

  /** The cost of substituting the `j`-th character of `b` for the `i`-th of `a`. */
  function Cost(a: string, b: string, i: nat, j: nat): nat
    requires 1 <= i <= |a| && 1 <= j <= |b|
  {
    if a[i - 1] == b[j - 1] then 0 else 1
  }

  /** The cheapest of deleting, inserting and substituting the last characters. */
  function Step(a: string, b: string, i: nat, j: nat): nat
    requires 1 <= i <= |a| && 1 <= j <= |b|
    decreases i + j, 0
  {
    Min3(Dist(a, b, i - 1, j) + 1, Dist(a, b, i, j - 1) + 1, Dist(a, b, i - 1, j - 1) + Cost(a, b, i, j))
  }

  function EditDistance(a: string, b: string): nat
  {
    Dist(a, b, |a|, |b|)
  }

  /** The difference score of two texts: 0 for two empty texts, 1 when exactly one is empty,
      and otherwise the edit distance divided by the longer length. */
  function TextDifference(a: string, b: string): real
  {
    if a == "" && b == "" then 0.0
    else if a == "" || b == "" then 1.0
    else EditDistance(a, b) as real / Max(|a|, |b|) as real
  }

  lemma DistStep(a: string, b: string, prev: nat, i: nat, j: nat, del: nat, ins: nat, sub: nat)
    requires i == prev + 1 && i <= |a| && 1 <= j <= |b|
    requires del == Dist(a, b, prev, j) && ins == Dist(a, b, i, j - 1) && sub == Dist(a, b, prev, j - 1)
    ensures Dist(a, b, i, j) == Min3(del + 1, ins + 1, sub + Cost(a, b, i, j))
  {
  }

  /** Row `i` of the distance matrix, filled from left to right out of row `i - 1`. */
  method FillRow(dp: array2<nat>, a: string, b: string, prev: nat, i: nat)
    requires dp.Length0 == |a| + 1 && dp.Length1 == |b| + 1
    requires i == prev + 1 && i <= |a|
    requires forall jj {:trigger dp[prev, jj]} :: 0 <= jj <= |b| ==> dp[prev, jj] == Dist(a, b, prev, jj)
    requires forall ii :: i <= ii <= |a| ==> dp[ii, 0] == ii
    modifies dp
    ensures forall jj {:trigger dp[i, jj]} :: 0 <= jj <= |b| ==> dp[i, jj] == Dist(a, b, i, jj)
    ensures forall ii :: i < ii <= |a| ==> dp[ii, 0] == ii
  {
    var j := 1;
    assert dp[i, 0] == Dist(a, b, i, 0);
    while j <= |b|
      invariant 1 <= j <= |b| + 1
      invariant forall jj {:trigger dp[i, jj]} :: 0 <= jj < j ==> dp[i, jj] == Dist(a, b, i, jj)
      invariant forall jj {:trigger dp[prev, jj]} :: 0 <= jj <= |b| ==> dp[prev, jj] == Dist(a, b, prev, jj)
      invariant forall ii :: i < ii <= |a| ==> dp[ii, 0] == ii
    {
      var cost := if a[i - 1] == b[j - 1] then 0 else 1;
      assert cost == Cost(a, b, i, j);
      var del, ins, sub := dp[prev, j], dp[i, j - 1], dp[prev, j - 1];
      DistStep(a, b, prev, i, j, del, ins, sub);
      dp[i, j] := Min3(del + 1, ins + 1, sub + cost);
      j := j + 1;
    }
  }

  /** The distance matrix filled row by row, as the pipeline computes the score. */
  method CalculateTextDifference(text1: string, text2: string) returns (score: real)
    ensures score == TextDifference(text1, text2)
  {
    if text1 == "" && text2 == "" {
      return 0.0;
    }
    if text1 == "" || text2 == "" {
      return 1.0;
    }
    var len1, len2 := |text1|, |text2|;
    var dp := new nat[len1 + 1, len2 + 1];
    var i := 0;
    while i <= len1
      invariant 0 <= i <= len1 + 1
      invariant forall ii :: 0 <= ii < i ==> dp[ii, 0] == ii
    {
      dp[i, 0] := i;
      i := i + 1;
    }
    var j := 0;
    while j <= len2
      invariant 0 <= j <= len2 + 1
      invariant forall ii :: 1 <= ii <= len1 ==> dp[ii, 0] == ii
      invariant forall jj :: 0 <= jj < j ==> dp[0, jj] == jj
    {
      dp[0, j] := j;
      j := j + 1;
    }
    var done := 0;
    while done < len1
      invariant 0 <= done <= len1
      invariant forall jj {:trigger dp[done, jj]} :: 0 <= jj <= len2 ==> dp[done, jj] == Dist(text1, text2, done, jj)
      invariant forall ii :: done < ii <= len1 ==> dp[ii, 0] == ii
    {
      FillRow(dp, text1, text2, done, done + 1);
      done := done + 1;
    }
    score := dp[len1, len2] as real / Max(len1, len2) as real;
  }

  lemma {:induction false} DistAtMostLonger(a: string, b: string, i: nat, j: nat)
    requires i <= |a| && j <= |b|
    ensures Dist(a, b, i, j) <= Max(i, j)
    decreases i + j
  {
    if i > 0 && j > 0 {
      DistAtMostLonger(a, b, i - 1, j - 1);
    }
  }

  lemma {:induction false} DistSelf(a: string, i: nat)
    requires i <= |a|
    ensures Dist(a, a, i, i) == 0
  {
    if i > 0 {
      DistSelf(a, i - 1);
    }
  }

  /** Only equal prefixes are at distance 0. */
  lemma {:induction false} DistZero(a: string, b: string, i: nat, j: nat)
    requires i <= |a| && j <= |b|
    ensures Dist(a, b, i, j) == 0 ==> i == j && a[..i] == b[..j]
    decreases i + j
  {
    if i > 0 && j > 0 {
      DistZero(a, b, i - 1, j - 1);
      assert Dist(a, b, i, j) == Step(a, b, i, j);
      if Dist(a, b, i, j) == 0 {
        assert Dist(a, b, i - 1, j - 1) == 0 && Cost(a, b, i, j) == 0;
        assert a[..i] == a[..i - 1] + [a[i - 1]];
        assert b[..j] == b[..j - 1] + [b[j - 1]];
      }
    }
  }

  lemma {:induction false} DistSymmetric(a: string, b: string, i: nat, j: nat)
    requires i <= |a| && j <= |b|
    ensures Dist(a, b, i, j) == Dist(b, a, j, i)
    decreases i + j
  {
    if i > 0 && j > 0 {
      DistSymmetric(a, b, i - 1, j);
      DistSymmetric(a, b, i, j - 1);
      DistSymmetric(a, b, i - 1, j - 1);
    }
  }

  lemma RatioAtMostOne(d: real, m: real)
    requires 0.0 <= d <= m && m > 0.0
    ensures 0.0 <= d / m <= 1.0
  {
    assert d / m * m == d;
  }

  /** The score lies between 0 and 1. */
  lemma TextDifferenceBounded(a: string, b: string)
    ensures 0.0 <= TextDifference(a, b) <= 1.0
  {
    if a != "" && b != "" {
      DistAtMostLonger(a, b, |a|, |b|);
      RatioAtMostOne(EditDistance(a, b) as real, Max(|a|, |b|) as real);
    }
  }

  /** A score of 0 means the two texts are identical, and identical texts score 0. */
  lemma TextDifferenceZeroIff(a: string, b: string)
    ensures TextDifference(a, b) == 0.0 <==> a == b
  {
    if a != "" && b != "" {
      var d, m := EditDistance(a, b) as real, Max(|a|, |b|) as real;
      if a == b {
        DistSelf(a, |a|);
      } else {
        DistZero(a, b, |a|, |b|);
        assert a == a[..|a|] && b == b[..|b|];
        assert d >= 1.0;
        assert d / m * m == d;
        assert d / m > 0.0;
      }
    }
  }

  lemma TextDifferenceSymmetric(a: string, b: string)
    ensures TextDifference(a, b) == TextDifference(b, a)
  {
    if a != "" && b != "" {
      DistSymmetric(a, b, |a|, |b|);
    }
  }

  /** The early exits for empty texts agree with the general formula whenever one text is non-empty. */
  lemma {:induction false} TextDifferenceIsNormalisedDistance(a: string, b: string)
    requires a != "" || b != ""
    ensures TextDifference(a, b) == EditDistance(a, b) as real / Max(|a|, |b|) as real
  {
    if a == "" {
      assert Dist(a, b, 0, |b|) == |b|;
    } else if b == "" {
      assert Dist(a, b, |a|, 0) == |a|;
    }
  }

  // ---------------------------------------------------------------------------
  // Parsing artifact records out of a model answer

  /** The first code fence's body, or the whole answer. */
  function CleanedText(text: string, o: TextOracles): string
  {
    var blocks := o.codeBlocks(text);
    if blocks != [] then blocks[0] else text
  }

  /** The greedy match of `\[([\s\S]*)\]`: from the first '[' to the last ']' after it, brackets included. */
  function BracketSpan(t: string): (r: Option<string>)
    ensures r.Some? <==> (Find(t, '[') >= 0 && RFind(t, ']') > Find(t, '['))
    ensures r.Some? ==> |r.value| >= 2 && r.value[0] == '[' && r.value[|r.value| - 1] == ']'
    ensures r.Some? ==> r.value == t[Find(t, '[')..RFind(t, ']') + 1]
  {
    var i, j := Find(t, '['), RFind(t, ']');
    if 0 <= i < j then Some(t[i..j + 1]) else None
  }

  /** The repairs applied to a bracketed span before it is parsed again. */
  function RepairArray(span: string, o: TextOracles): string
  {
    o.dropTrailingCommas(ReplaceAll(span, "\"\n", "\",\n"))
  }

  /** The record with `source_page` and `source_document` set. */
  function Stamp(m: PyDict.Dict<string, Json>, page: int, document: string): (r: PyDict.Dict<string, Json>)
    ensures PyDict.Get(r, "source_page") == Some(JInt(page))
    ensures PyDict.Get(r, "source_document") == Some(JStr(document))
  {
    PyDict.Set(PyDict.Set(m, "source_page", JInt(page)), "source_document", JStr(document))
  }

  /** The record's two source fields are `page` and `document`. */
  predicate IsStamped(j: Json, page: int, document: string)
  {
    j.JObj? && PyDict.Get(j.members, "source_page") == Some(JInt(page))
    && PyDict.Get(j.members, "source_document") == Some(JStr(document))
  }

  function StampOne(j: Json, page: int, document: string): Json
  {
    if j.JObj? then JObj(Stamp(j.members, page, document)) else j
  }

  /** Stamping every item of a parsed list, which raises a `TypeError` on an item that is not an object. */
  function StampAll(items: seq<Json>, page: int, document: string): (r: Option<seq<Json>>)
  {
    if forall k :: 0 <= k < |items| ==> items[k].JObj? then
      Some(seq(|items|, k requires 0 <= k < |items| => StampOne(items[k], page, document)))
    else None
  }

  lemma StampAllStamped(items: seq<Json>, page: int, document: string)
    ensures StampAll(items, page, document).Some? ==>
      forall k :: 0 <= k < |items| ==> IsStamped(StampAll(items, page, document).value[k], page, document)
  {
  }

  /** How one of the parse strategies ended. */
  datatype Attempt = Parsed(value: Json) | Crashed | NoMatch

  /** Every record of a list the strategy produced is stamped. */
  predicate AttemptStamped(a: Attempt, page: int, document: string)
  {
    a.Parsed? && a.value.JList? ==> forall k :: 0 <= k < |a.value.items| ==> IsStamped(a.value.items[k], page, document)
  }

  /** Strategy 1: the whole cleaned text as JSON. A list or an object is stamped; any other
      value, or a text that does not parse, passes on to the next strategy. */
  function DirectAttempt(cleaned: string, page: int, document: string, o: TextOracles): Attempt
  {
    match o.decode(cleaned)
    case Some(JList(items)) =>
      (match StampAll(items, page, document)
       case Some(stamped) => Parsed(JList(stamped))
       case None => Crashed)
    case Some(JObj(m)) => Parsed(JList([JObj(Stamp(m, page, document))]))
    case _ => NoMatch
  }

  /** Strategy 2: the bracketed span, repaired and parsed. Iterating the parsed value to stamp
      it raises unless it is a list of objects, an empty object or an empty string. */
  function BracketAttempt(cleaned: string, page: int, document: string, o: TextOracles): Attempt
  {
    match BracketSpan(cleaned)
    case None => NoMatch
    case Some(span) =>
      match o.decode(RepairArray(span, o))
      case None => NoMatch
      case Some(JList(items)) =>
        (match StampAll(items, page, document)
         case Some(stamped) => Parsed(JList(stamped))
         case None => Crashed)
      case Some(v) => if v == JObj([]) || v == JStr("") then Parsed(v) else Crashed
  }

  /** Strategy 3: each object-shaped fragment repaired and parsed on its own; fragments that do
      not parse are skipped, and a parsed fragment that is not an object raises. */
  function FragmentRecords(fragments: seq<string>, page: int, document: string, o: TextOracles): Option<seq<Json>>
  {
    if fragments == [] then Some([])
    else NextFragment(FragmentRecords(fragments[..|fragments| - 1], page, document, o), fragments[|fragments| - 1], page, document, o)
  }

  /** One more fragment, after the records `sofar` of the fragments before it. */
  function NextFragment(sofar: Option<seq<Json>>, fragment: string, page: int, document: string, o: TextOracles)
    : Option<seq<Json>>
  {
    match sofar
    case None => None
    case Some(prefix) =>
      match o.decode(o.repairFragment(fragment))
      case None => Some(prefix)
      case Some(JObj(m)) => Some(prefix + [JObj(Stamp(m, page, document))])
      case Some(_) => None
  }

  function FragmentAttempt(cleaned: string, page: int, document: string, o: TextOracles): Attempt
  {
    match FragmentRecords(o.objectFragments(cleaned), page, document, o)
    case None => Crashed
    case Some(records) => if records != [] then Parsed(JList(records)) else NoMatch
  }

  /** The phrases, already in lower case (so lowering them as the source does changes nothing). */
  const NO_ARTIFACT_INDICATORS: seq<string> := [
    "no artifacts", "no artifact", "not mentioning any artifacts",
    "does not mention any artifacts", "no museum artifacts"
  ]

  /** The answer says in words that the page holds no artifact. */
  predicate MentionsNoArtifacts(cleaned: string)
  {
    exists k :: 0 <= k < |NO_ARTIFACT_INDICATORS| && Contains(Lower(cleaned), NO_ARTIFACT_INDICATORS[k])
  }

  /** The first 300 characters of the answer, with "..." when it was longer. */
  function RawExcerpt(text: string): string
  {
    Take(text, 300) + (if |text| > 300 then "..." else "")
  }

  const PARSE_FAILURE := "Failed to parse JSON response"
  /** The prefix of the error message; the exception's own text that follows it is not modelled. */
  const PROCESSING_ERROR := "JSON processing error: "

  /** The single record returned when no strategy produced artifacts. */
  function ErrorRecord(message: string, text: string, page: int, document: string): (r: Json)
    ensures IsStamped(r, page, document)
  {
    JObj(Stamp([("error", JStr(message)), ("raw_text", JStr(RawExcerpt(text)))], page, document))
  }

  /** The text a strategy's outcome leaves: its value, the error record when it raised, or
      `rest` (what the later strategies give) when it did not match. */
  function Resolve(a: Attempt, failed: Json, rest: Json): (r: Json)
    ensures a.Parsed? ==> r == a.value
    ensures a.Crashed? ==> r == JList([failed])
    ensures a.NoMatch? ==> r == rest
  {
    match a
    case Parsed(v) => v
    case Crashed => JList([failed])
    case NoMatch => rest
  }

  /** What is left when no strategy matched: nothing if the answer says so in words, else the
      parse-failure record. */
  function Fallback(text: string, cleaned: string, page: int, document: string): Json
  {
    if MentionsNoArtifacts(cleaned) then JList([])
    else JList([ErrorRecord(PARSE_FAILURE, text, page, document)])
  }

  /** What `parse_artifacts_from_text` returns for a model answer. */
  function ParseArtifacts(text: string, page: int, document: string, o: TextOracles): Json
  {
    if Contains(text, Config.NO_ARTIFACTS_MENTIONED) || Contains(text, Config.NO_ARTIFACTS_DETECTED) then JList([])
    else
      var cleaned := CleanedText(text, o);
      var failed := ErrorRecord(PROCESSING_ERROR, text, page, document);
      Resolve(DirectAttempt(cleaned, page, document, o), failed,
        Resolve(BracketAttempt(cleaned, page, document, o), failed,
          Resolve(FragmentAttempt(cleaned, page, document, o), failed,
            Fallback(text, cleaned, page, document))))
  }

  /** Stamping a parsed list in a loop. */
  method StampRecords(items: seq<Json>, page: int, document: string) returns (r: Option<seq<Json>>)
    ensures r == StampAll(items, page, document)
  {
    var stamped: seq<Json> := [];
    var k := 0;
    while k < |items|
      invariant 0 <= k <= |items|
      invariant |stamped| == k
      invariant forall n :: 0 <= n < k ==> items[n].JObj? && stamped[n] == StampOne(items[n], page, document)
    {
      if !items[k].JObj? {
        return None;
      }
      stamped := stamped + [StampOne(items[k], page, document)];
      k := k + 1;
    }
    assert stamped == seq(|items|, n requires 0 <= n < |items| => StampOne(items[n], page, document));
    return Some(stamped);
  }

  method TryDirect(cleaned: string, page: int, document: string, o: TextOracles) returns (a: Attempt)
    ensures a == DirectAttempt(cleaned, page, document, o)
  {
    match o.decode(cleaned) {
      case Some(JList(items)) =>
        var stamped := StampRecords(items, page, document);
        a := if stamped.Some? then Parsed(JList(stamped.value)) else Crashed;
      case Some(JObj(m)) =>
        a := Parsed(JList([JObj(Stamp(m, page, document))]));
      case _ =>
        a := NoMatch;
    }
  }

  method TryBracket(cleaned: string, page: int, document: string, o: TextOracles) returns (a: Attempt)
    ensures a == BracketAttempt(cleaned, page, document, o)
  {
    var span := BracketSpan(cleaned);
    if span.None? {
      return NoMatch;
    }
    var parsed := o.decode(RepairArray(span.value, o));
    if parsed.None? {
      return NoMatch;
    }
    var v := parsed.value;
    if v.JList? {
      var stamped := StampRecords(v.items, page, document);
      a := if stamped.Some? then Parsed(JList(stamped.value)) else Crashed;
    } else {
      a := if v == JObj([]) || v == JStr("") then Parsed(v) else Crashed;
    }
  }

  /** The fragment strategy's loop. */
  method TryFragments(cleaned: string, page: int, document: string, o: TextOracles) returns (a: Attempt)
    ensures a == FragmentAttempt(cleaned, page, document, o)
  {
    var fragments := o.objectFragments(cleaned);
    var result: seq<Json> := [];
    var k := 0;
    while k < |fragments|
      invariant 0 <= k <= |fragments|
      invariant FragmentRecords(fragments[..k], page, document, o) == Some(result)
    {
      FragmentRecordsStep(fragments, k, page, document, o);
      match o.decode(o.repairFragment(fragments[k])) {
        case None =>
        case Some(v) =>
          if !v.JObj? {
            FragmentRecordsPrefixCrash(fragments, k + 1, page, document, o);
            return Crashed;
          }
          result := result + [JObj(Stamp(v.members, page, document))];
      }
      k := k + 1;
    }
    assert fragments[..k] == fragments;
    a := if result != [] then Parsed(JList(result)) else NoMatch;
  }

  /** The loop over the no-artifact phrases. */
  method SaysNoArtifacts(cleaned: string) returns (b: bool)
    ensures b == MentionsNoArtifacts(cleaned)
  {
    var lowered := Lower(cleaned);
    var k := 0;
    while k < |NO_ARTIFACT_INDICATORS|
      invariant 0 <= k <= |NO_ARTIFACT_INDICATORS|
      invariant forall n :: 0 <= n < k ==> !Contains(lowered, NO_ARTIFACT_INDICATORS[n])
    {
      if Contains(lowered, NO_ARTIFACT_INDICATORS[k]) {
        return true;
      }
      k := k + 1;
    }
    return false;
  }

  /** `parse_artifacts_from_text`. */
  method ParseArtifactsFromText(text: string, page: int, document: string, o: TextOracles) returns (r: Json)
    ensures r == ParseArtifacts(text, page, document, o)
  {
    if Contains(text, Config.NO_ARTIFACTS_MENTIONED) || Contains(text, Config.NO_ARTIFACTS_DETECTED) {
      return JList([]);
    }
    var cleaned := CleanedText(text, o);
    var failed := ErrorRecord(PROCESSING_ERROR, text, page, document);
    var direct := TryDirect(cleaned, page, document, o);
    if !direct.NoMatch? {
      return Resolve(direct, failed, JList([]));
    }
    var bracket := TryBracket(cleaned, page, document, o);
    if !bracket.NoMatch? {
      return Resolve(bracket, failed, JList([]));
    }
    var fragment := TryFragments(cleaned, page, document, o);
    if !fragment.NoMatch? {
      return Resolve(fragment, failed, JList([]));
    }
    var none := SaysNoArtifacts(cleaned);
    if none {
      return JList([]);
    }
    return JList([ErrorRecord(PARSE_FAILURE, text, page, document)]);
  }

  /** The records of one more fragment of the list. */
  lemma FragmentRecordsStep(fragments: seq<string>, k: nat, page: int, document: string, o: TextOracles)
    requires k < |fragments|
    ensures FragmentRecords(fragments[..k + 1], page, document, o)
      == NextFragment(FragmentRecords(fragments[..k], page, document, o), fragments[k], page, document, o)
  {
    var s := fragments[..k + 1];
    assert s[..|s| - 1] == fragments[..k];
    assert s[|s| - 1] == fragments[k];
  }

  /** Once a prefix of the fragments raises, so does the whole list. */
  lemma {:induction false} FragmentRecordsPrefixCrash(fragments: seq<string>, k: nat, page: int, document: string, o: TextOracles)
    requires k <= |fragments|
    requires FragmentRecords(fragments[..k], page, document, o).None?
    ensures FragmentRecords(fragments, page, document, o).None?
  {
    if k < |fragments| {
      var init := fragments[..|fragments| - 1];
      assert init[..k] == fragments[..k];
      FragmentRecordsPrefixCrash(init, k, page, document, o);
    } else {
      assert fragments[..k] == fragments;
    }
  }

  lemma {:induction false} FragmentRecordsStamped(fragments: seq<string>, page: int, document: string, o: TextOracles)
    ensures var r := FragmentRecords(fragments, page, document, o);
      r.Some? ==> forall k :: 0 <= k < |r.value| ==> IsStamped(r.value[k], page, document)
  {
    if fragments != [] {
      FragmentRecordsStamped(fragments[..|fragments| - 1], page, document, o);
    }
  }

  lemma AttemptsStamped(cleaned: string, page: int, document: string, o: TextOracles)
    ensures AttemptStamped(DirectAttempt(cleaned, page, document, o), page, document)
    ensures AttemptStamped(BracketAttempt(cleaned, page, document, o), page, document)
    ensures AttemptStamped(FragmentAttempt(cleaned, page, document, o), page, document)
  {
    FragmentRecordsStamped(o.objectFragments(cleaned), page, document, o);
    var d := o.decode(cleaned);
    if d.Some? && d.value.JList? {
      StampAllStamped(d.value.items, page, document);
    }
    var span := BracketSpan(cleaned);
    if span.Some? {
      var v := o.decode(RepairArray(span.value, o));
      if v.Some? && v.value.JList? {
        StampAllStamped(v.value.items, page, document);
      }
    }
  }

  /** Every record the parser returns in a list carries the page number and document name it
      was given, the error records included. */
  lemma ParseStampsEveryRecord(text: string, page: int, document: string, o: TextOracles)
    ensures var r := ParseArtifacts(text, page, document, o);
      r.JList? ==> forall k :: 0 <= k < |r.items| ==> IsStamped(r.items[k], page, document)
  {
    AttemptsStamped(CleanedText(text, o), page, document, o);
  }

  /** A sentinel anywhere in the answer means no artifacts, whatever else it says. */
  lemma ParseSentinelMeansNone(text: string, page: int, document: string, o: TextOracles)
    requires Contains(text, Config.NO_ARTIFACTS_MENTIONED) || Contains(text, Config.NO_ARTIFACTS_DETECTED)
    ensures ParseArtifacts(text, page, document, o) == JList([])
  {
  }

  /** An answer whose first code fence holds a JSON array of objects yields the same records as
      that array alone. */
  lemma ParseFencedArray(text: string, block: string, items: seq<Json>, page: int, document: string, o: TextOracles)
    requires o.codeBlocks(text) != [] && o.codeBlocks(text)[0] == block
    requires o.codeBlocks(block) == []
    requires !Contains(text, Config.NO_ARTIFACTS_MENTIONED) && !Contains(text, Config.NO_ARTIFACTS_DETECTED)
    requires !Contains(block, Config.NO_ARTIFACTS_MENTIONED) && !Contains(block, Config.NO_ARTIFACTS_DETECTED)
    requires o.decode(block) == Some(JList(items))
    requires forall k :: 0 <= k < |items| ==> items[k].JObj?
    ensures ParseArtifacts(text, page, document, o) == ParseArtifacts(block, page, document, o)
    ensures ParseArtifacts(text, page, document, o) == JList(StampAll(items, page, document).value)
  {
  }

  /** A parser that turns a text starting with '[' into nothing but a list (as JSON parsing
      does), and repairs that keep the '[' in front. */
  ghost predicate ListFaithful(o: TextOracles)
  {
    (forall t :: StartsWith(t, "[") && o.decode(t).Some? ==> o.decode(t).value.JList?)
    && (forall t :: StartsWith(t, "[") ==> StartsWith(RepairArray(t, o), "["))
  }

  lemma BracketAttemptIsList(cleaned: string, page: int, document: string, o: TextOracles)
    requires ListFaithful(o)
    ensures var a := BracketAttempt(cleaned, page, document, o); a.Parsed? ==> a.value.JList?
  {
    var span := BracketSpan(cleaned);
    if span.Some? {
      assert StartsWith(span.value, "[");
    }
  }

  /** With such a parser the answer's records always come back as a list. */
  lemma ParseYieldsList(text: string, page: int, document: string, o: TextOracles)
    requires ListFaithful(o)
    ensures ParseArtifacts(text, page, document, o).JList?
  {
    BracketAttemptIsList(CleanedText(text, o), page, document, o);
  }

  // ---------------------------------------------------------------------------
  // Parsing multilingual name mappings

  /** A falsy value means no names; any other value that is not a list becomes a one-item list. */
  function AsNameList(v: Json): seq<Json>
  {
    if !Truthy(v) then [] else if v.JList? then v.items else [v]
  }

  /** `parse_multilingual_names`: the answer as JSON, or its repaired bracketed span; no names when
      neither parses. */
  function ParseMultilingualNames(text: string, o: TextOracles): (r: seq<Json>)
    ensures o.decode(CleanedText(text, o)).Some? ==> r == AsNameList(o.decode(CleanedText(text, o)).value)
    ensures o.decode(CleanedText(text, o)).None? && BracketSpan(CleanedText(text, o)).None? ==> r == []
    ensures o.decode(CleanedText(text, o)).None? && BracketSpan(CleanedText(text, o)).Some? ==>
      var v := o.decode(RepairArray(BracketSpan(CleanedText(text, o)).value, o));
      r == if v.Some? then AsNameList(v.value) else []
  {
    var cleaned := CleanedText(text, o);
    match o.decode(cleaned)
    case Some(v) => AsNameList(v)
    case None =>
      match BracketSpan(cleaned)
      case None => []
      case Some(span) =>
        match o.decode(RepairArray(span, o))
        case None => []
        case Some(v) => AsNameList(v)
  }

  /** Names come back as a non-empty value list only from a truthy parse: every name list is
      either the items of a non-empty parsed list or the single parsed value. */
  lemma {:induction false} NameListShape(v: Json)
    ensures AsNameList(v) == [] <==> (!Truthy(v))
    ensures AsNameList(v) != [] ==> (v.JList? && AsNameList(v) == v.items) || (!v.JList? && AsNameList(v) == [v])
  {
  }
}
