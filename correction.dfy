/**
 * OCR with adaptive correction (`perform_ocr_with_adaptive_correction`): a page is read once,
 * then corrected pass after pass until a pass changes the text by no more than the language's
 * threshold or the pass budget runs out. The OCR text and every pass's corrected text are kept
 * in per-page files and reused when they exist; those files are the maps of `OcrStore`.
 */
module Correction {
  import opened Wrappers
  import TextProcessing
  import Config

  /** A hosted model asked to correct a text: the model, the pass number and the text in,
      and the corrected text out, or `None` when the call or reading its answer raised. */
  type Corrector = (string, nat, string) -> Option<string>

  /** How a pass got its corrected text. */
  datatype PassSource =
    | Reused                    // the pass's file already existed
    | Called(model: string)     // the model answered
    | CallFailed(model: string) // the model call raised; the text is kept

  /** One correction pass: its number, the text it started from, the text it ended with,
      and the difference score between the two. */
  datatype Pass = Pass(index: nat, input: string, output: string, score: real, source: PassSource)

  /** The number of passes: two for the OCR-only model, `max_corrections` for the others. */
  function MaxPasses(model: string, maxCorrections: int): (n: int)
    ensures model == Config.MISTRAL_OCR ==> n == 2
    ensures model != Config.MISTRAL_OCR ==> n == maxCorrections
  {
    if model == Config.MISTRAL_OCR then 2 else maxCorrections
  }

  /** The model that corrects: the OCR-only model cannot, so its passes go to "gpt-4o". */
  function CorrectionModel(model: string): (m: string)
    ensures model == Config.MISTRAL_OCR ==> m == Config.GPT_4O
    ensures model != Config.MISTRAL_OCR ==> m == model
  {
    if model == Config.MISTRAL_OCR then Config.GPT_4O else model
  }

  /** A pass of page `page` takes the text of its file when that file exists (and only
      then), calls the correcting model otherwise, and keeps its input when that call raised. */
  predicate PassConsistent(p: Pass, corrected: map<(int, nat), string>, page: int, model: string)
  {
    && (p.source.Reused? <==> (page, p.index) in corrected)
    && (p.source.Reused? ==> p.output == corrected[(page, p.index)])
    && (!p.source.Reused? ==> p.source.model == CorrectionModel(model))
    && (p.source.CallFailed? ==> p.output == p.input)
  }

  /** Pass `k` of page `page` starting from `current`, given the corrected files that exist. */
  function PassAt(corrected: map<(int, nat), string>, page: int, k: nat, current: string,
                  model: string, corrector: Corrector): (p: Pass)
    ensures p.index == k && p.input == current
    ensures PassConsistent(p, corrected, page, model)
  {
    if (page, k) in corrected then
      var out := corrected[(page, k)];
      Pass(k, current, out, TextProcessing.TextDifference(current, out), Reused)
    else
      var m := CorrectionModel(model);
      match corrector(m, k, current)
      case Some(out) => Pass(k, current, out, TextProcessing.TextDifference(current, out), Called(m))
      case None => Pass(k, current, current, TextProcessing.TextDifference(current, current), CallFailed(m))
  }

  /** Every pass scores the difference between the text it started from and the one it ended with. */
  lemma PassAtScore(corrected: map<(int, nat), string>, page: int, k: nat, current: string,
                    model: string, corrector: Corrector)
    ensures var p := PassAt(corrected, page, k, current, model, corrector);
      p.score == TextProcessing.TextDifference(p.input, p.output)
  {
  }

  /** The passes from pass `k` on: each starts from the previous one's text, and the run ends
      after the first pass that scores at most `threshold`, or after pass `maxPass`. */
  function RunFrom(corrected: map<(int, nat), string>, page: int, k: nat, maxPass: int, current: string,
                   threshold: real, model: string, corrector: Corrector): seq<Pass>
    decreases maxPass - k
  {
    if k > maxPass then []
    else
      var p := PassAt(corrected, page, k, current, model, corrector);
      if p.score <= threshold then [p]
      else [p] + RunFrom(corrected, page, k + 1, maxPass, p.output, threshold, model, corrector)
  }

  /** A pass depends on the corrected files only through the file of that pass. */
  lemma PassAtFrame(c1: map<(int, nat), string>, c2: map<(int, nat), string>, page: int, k: nat,
                    current: string, model: string, corrector: Corrector)
    requires (page, k) in c1 <==> (page, k) in c2
    requires (page, k) in c1 ==> c1[(page, k)] == c2[(page, k)]
    ensures PassAt(c1, page, k, current, model, corrector) == PassAt(c2, page, k, current, model, corrector)
  {
  }

  /** One step of a run: pass `k`, then the run from pass `k + 1` unless pass `k` stopped it. */
  lemma RunFromStep(corrected: map<(int, nat), string>, page: int, k: nat, maxPass: int, current: string,
                    threshold: real, model: string, corrector: Corrector, p: Pass)
    requires k <= maxPass
    requires p == PassAt(corrected, page, k, current, model, corrector)
    ensures RunFrom(corrected, page, k, maxPass, current, threshold, model, corrector)
      == [p] + (if p.score <= threshold then [] else RunFrom(corrected, page, k + 1, maxPass, p.output, threshold, model, corrector))
  {
  }

  /** The files of page `page` from pass `k` on are still those of `before`. */
  ghost predicate Untouched(corrected: map<(int, nat), string>, before: map<(int, nat), string>, page: int, k: nat)
  {
    forall j: nat :: j >= k ==>
      && ((page, j) in corrected <==> (page, j) in before)
      && ((page, j) in before ==> corrected[(page, j)] == before[(page, j)])
  }

  /** The passes of a page whose OCR text is `raw`. */
  function Run(corrected: map<(int, nat), string>, page: int, raw: string, model: string,
               threshold: real, maxCorrections: int, corrector: Corrector): seq<Pass>
  {
    RunFrom(corrected, page, 1, MaxPasses(model, maxCorrections), raw, threshold, model, corrector)
  }

  /** The text the page ends with: the last pass's output, or the OCR text when no pass ran. */
  function FinalText(raw: string, passes: seq<Pass>): string
  {
    if passes == [] then raw else passes[|passes| - 1].output
  }

  /** Only a pass whose model answered writes its file. */
  function SavePass(corrected: map<(int, nat), string>, page: int, p: Pass): map<(int, nat), string>
  {
    if p.source.Called? then corrected[(page, p.index) := p.output] else corrected
  }

  /** The corrected files after the passes have run. */
  function SavePasses(corrected: map<(int, nat), string>, page: int, passes: seq<Pass>): map<(int, nat), string>
  {
    if passes == [] then corrected
    else SavePass(SavePasses(corrected, page, passes[..|passes| - 1]), page, passes[|passes| - 1])
  }

  /** Saving one pass more saves that pass after the others. */
  lemma SavePassesStep(corrected: map<(int, nat), string>, page: int, passes: seq<Pass>, p: Pass)
    ensures SavePasses(corrected, page, passes + [p]) == SavePass(SavePasses(corrected, page, passes), page, p)
  {
    assert (passes + [p])[..|passes|] == passes;
  }

  /** The OCR text of a page: its file when one exists, else what the OCR model answered. */
  function RawText(ocrTexts: map<int, string>, page: int, ocr: Option<string>): Option<string>
  {
    if page in ocrTexts then Some(ocrTexts[page]) else ocr
  }

  /** A run from pass `k` is empty exactly when `k` is past the budget, and has at most
      `maxPass - k + 1` passes. */
  lemma {:induction false} RunFromLength(corrected: map<(int, nat), string>, page: int, k: nat, maxPass: int,
                                         current: string, threshold: real, model: string, corrector: Corrector,
                                         ps: seq<Pass>)
    requires ps == RunFrom(corrected, page, k, maxPass, current, threshold, model, corrector)
    ensures k <= maxPass <==> ps != []
    ensures |ps| <= (if k <= maxPass then maxPass - k + 1 else 0)
    decreases maxPass - k
  {
    if k <= maxPass {
      var p := PassAt(corrected, page, k, current, model, corrector);
      if p.score > threshold {
        var rest := RunFrom(corrected, page, k + 1, maxPass, p.output, threshold, model, corrector);
        RunFromLength(corrected, page, k + 1, maxPass, p.output, threshold, model, corrector, rest);
      }
    }
  }

  /** Pass `i` of a run from pass `k` is pass `k + i` started from the text of the pass
      before it (from `current` for the first), and every pass but the last scored above the
      threshold; the last one scored at or below it or was pass `maxPass`. */
  lemma {:induction false} RunFromPasses(corrected: map<(int, nat), string>, page: int, k: nat, maxPass: int,
                                         current: string, threshold: real, model: string, corrector: Corrector,
                                         ps: seq<Pass>)
    requires ps == RunFrom(corrected, page, k, maxPass, current, threshold, model, corrector)
    ensures forall i :: 0 <= i < |ps| ==> ps[i].index == k + i
    ensures ps != [] ==> ps[0].input == current
    ensures forall i :: 0 <= i < |ps| - 1 ==> ps[i + 1].input == ps[i].output && ps[i].score > threshold
    ensures ps != [] ==> ps[|ps| - 1].score <= threshold || ps[|ps| - 1].index == maxPass
    decreases maxPass - k
  {
    if k <= maxPass {
      var p := PassAt(corrected, page, k, current, model, corrector);
      if p.score > threshold {
        var rest := RunFrom(corrected, page, k + 1, maxPass, p.output, threshold, model, corrector);
        RunFromPasses(corrected, page, k + 1, maxPass, p.output, threshold, model, corrector, rest);
        assert ps == [p] + rest;
        assert forall i :: 1 <= i < |ps| ==> ps[i] == rest[i - 1];
        if rest == [] {
          RunFromLength(corrected, page, k + 1, maxPass, p.output, threshold, model, corrector, rest);
        }
      }
    }
  }

  /** Every pass of a run is consistent with the corrected files it started from. */
  lemma {:induction false} RunFromConsistent(corrected: map<(int, nat), string>, page: int, k: nat, maxPass: int,
                                             current: string, threshold: real, model: string, corrector: Corrector,
                                             ps: seq<Pass>)
    requires ps == RunFrom(corrected, page, k, maxPass, current, threshold, model, corrector)
    ensures forall i :: 0 <= i < |ps| ==> PassConsistent(ps[i], corrected, page, model)
    decreases maxPass - k
  {
    if k <= maxPass {
      var p := PassAt(corrected, page, k, current, model, corrector);
      if p.score > threshold {
        var rest := RunFrom(corrected, page, k + 1, maxPass, p.output, threshold, model, corrector);
        RunFromConsistent(corrected, page, k + 1, maxPass, p.output, threshold, model, corrector, rest);
        assert ps == [p] + rest;
        assert forall i :: 1 <= i < |ps| ==> ps[i] == rest[i - 1];
      }
    }
  }

  /** Every pass of a run scores the difference it made. */
  lemma {:induction false} RunFromScores(corrected: map<(int, nat), string>, page: int, k: nat, maxPass: int,
                                         current: string, threshold: real, model: string, corrector: Corrector,
                                         ps: seq<Pass>)
    requires ps == RunFrom(corrected, page, k, maxPass, current, threshold, model, corrector)
    ensures forall i :: 0 <= i < |ps| ==> ps[i].score == TextProcessing.TextDifference(ps[i].input, ps[i].output)
    decreases maxPass - k
  {
    if k <= maxPass {
      var p := PassAt(corrected, page, k, current, model, corrector);
      PassAtScore(corrected, page, k, current, model, corrector);
      if p.score > threshold {
        var rest := RunFrom(corrected, page, k + 1, maxPass, p.output, threshold, model, corrector);
        RunFromScores(corrected, page, k + 1, maxPass, p.output, threshold, model, corrector, rest);
        assert ps == [p] + rest;
        assert forall i :: 1 <= i < |ps| ==> ps[i] == rest[i - 1];
      }
    }
  }

  /** What is left of a run after its pass `k`. */
  lemma RunFromAdvance(corrected: map<(int, nat), string>, page: int, k: nat, maxPass: int, current: string,
                       threshold: real, model: string, corrector: Corrector, passes: seq<Pass>, full: seq<Pass>, p: Pass)
    requires k <= maxPass
    requires passes + RunFrom(corrected, page, k, maxPass, current, threshold, model, corrector) == full
    requires p == PassAt(corrected, page, k, current, model, corrector)
    ensures p.score <= threshold ==> passes + [p] == full
    ensures p.score > threshold ==>
      passes + [p] + RunFrom(corrected, page, k + 1, maxPass, p.output, threshold, model, corrector) == full
  {
    RunFromStep(corrected, page, k, maxPass, current, threshold, model, corrector, p);
    var rest := if p.score <= threshold then [] else RunFrom(corrected, page, k + 1, maxPass, p.output, threshold, model, corrector);
    assert passes + ([p] + rest) == passes + [p] + rest;
  }

  /** At most `max_pass` passes run, numbered 1, 2, ...; the first corrects the OCR text and
      each later one the previous pass's text; every pass before the last changed the text by
      more than the threshold, and a run shorter than the budget ended on a pass at or below it. */
  lemma RunShape(corrected: map<(int, nat), string>, page: int, raw: string, model: string,
                 threshold: real, maxCorrections: int, corrector: Corrector, ps: seq<Pass>)
    requires ps == Run(corrected, page, raw, model, threshold, maxCorrections, corrector)
    ensures var maxPass := MaxPasses(model, maxCorrections);
      && |ps| <= (if maxPass < 0 then 0 else maxPass)
      && (maxPass >= 1 <==> ps != [])
      && (0 < |ps| < maxPass ==> ps[|ps| - 1].score <= threshold)
    ensures forall i :: 0 <= i < |ps| ==> ps[i].index == i + 1
    ensures forall i :: 0 <= i < |ps| ==> PassConsistent(ps[i], corrected, page, model)
    ensures forall i :: 0 <= i < |ps| ==> ps[i].score == TextProcessing.TextDifference(ps[i].input, ps[i].output)
    ensures ps != [] ==> ps[0].input == raw
    ensures forall i :: 0 <= i < |ps| - 1 ==> ps[i + 1].input == ps[i].output && ps[i].score > threshold
  {
    var maxPass := MaxPasses(model, maxCorrections);
    RunFromLength(corrected, page, 1, maxPass, raw, threshold, model, corrector, ps);
    RunFromPasses(corrected, page, 1, maxPass, raw, threshold, model, corrector, ps);
    RunFromConsistent(corrected, page, 1, maxPass, raw, threshold, model, corrector, ps);
    RunFromScores(corrected, page, 1, maxPass, raw, threshold, model, corrector, ps);
  }

  /** A failed correction keeps the text, so it scores 0 and, for any threshold that is not
      negative, it is the last pass. */
  lemma FailedPassIsLast(corrected: map<(int, nat), string>, page: int, raw: string, model: string,
                         threshold: real, maxCorrections: int, corrector: Corrector, ps: seq<Pass>, i: nat)
    requires ps == Run(corrected, page, raw, model, threshold, maxCorrections, corrector)
    requires threshold >= 0.0
    requires i < |ps| && ps[i].source.CallFailed?
    ensures ps[i].output == ps[i].input && ps[i].score == 0.0 && i == |ps| - 1
  {
    var maxPass := MaxPasses(model, maxCorrections);
    RunFromPasses(corrected, page, 1, maxPass, raw, threshold, model, corrector, ps);
    RunFromConsistent(corrected, page, 1, maxPass, raw, threshold, model, corrector, ps);
    RunFromScores(corrected, page, 1, maxPass, raw, threshold, model, corrector, ps);
    TextProcessing.TextDifferenceZeroIff(ps[i].input, ps[i].input);
  }

  /** For the OCR-only model at most two passes run, and every pass that calls a model calls
      "gpt-4o"; a pass whose file exists calls nothing and takes the file's text. */
  lemma MistralPasses(corrected: map<(int, nat), string>, page: int, raw: string,
                      threshold: real, maxCorrections: int, corrector: Corrector, ps: seq<Pass>)
    requires ps == Run(corrected, page, raw, Config.MISTRAL_OCR, threshold, maxCorrections, corrector)
    ensures |ps| <= 2
    ensures forall i :: 0 <= i < |ps| && !ps[i].source.Reused? ==> ps[i].source.model == Config.GPT_4O
    ensures forall i :: 0 <= i < |ps| && (page, i + 1) in corrected ==>
      ps[i].source.Reused? && ps[i].output == corrected[(page, i + 1)]
  {
    RunFromLength(corrected, page, 1, 2, raw, threshold, Config.MISTRAL_OCR, corrector, ps);
    RunFromPasses(corrected, page, 1, 2, raw, threshold, Config.MISTRAL_OCR, corrector, ps);
    RunFromConsistent(corrected, page, 1, 2, raw, threshold, Config.MISTRAL_OCR, corrector, ps);
  }

  /** Saving the passes writes the files of the passes whose model answered, and no other. */
  lemma {:induction false} SavePassesWrites(corrected: map<(int, nat), string>, page: int, passes: seq<Pass>, key: (int, nat))
    requires forall i, j :: 0 <= i < j < |passes| ==> passes[i].index < passes[j].index
    ensures var saved := SavePasses(corrected, page, passes);
      && (key in saved <==> key in corrected || exists i :: 0 <= i < |passes| && passes[i].source.Called? && key == (page, passes[i].index))
      && (forall i :: 0 <= i < |passes| && passes[i].source.Called? && key == (page, passes[i].index) ==> saved[key] == passes[i].output)
      && ((forall i :: 0 <= i < |passes| && passes[i].source.Called? ==> key != (page, passes[i].index)) && key in corrected ==> saved[key] == corrected[key])
  {
    if passes != [] {
      var init := passes[..|passes| - 1];
      assert forall i :: 0 <= i < |init| ==> init[i] == passes[i];
      SavePassesWrites(corrected, page, init, key);
    }
  }

  /**
   * The OCR and corrected-text files of one document in one language, by page and by
   * page and pass.
   */
  class OcrStore {
    var ocrTexts: map<int, string>
    var corrected: map<(int, nat), string>

    constructor (ocrTexts: map<int, string>, corrected: map<(int, nat), string>)
      ensures this.ocrTexts == ocrTexts && this.corrected == corrected
    {
      this.ocrTexts := ocrTexts;
      this.corrected := corrected;
    }

    /** Pass `k` of page `page`: the pass's file when it exists, else a call to the
        correcting model, with the text kept when the call raises. */
    method CorrectionPass(page: int, k: nat, current: string, model: string, corrector: Corrector) returns (p: Pass)
      ensures p == PassAt(corrected, page, k, current, model, corrector)
    {
      var output: string;
      var source: PassSource;
      if (page, k) in corrected {
        output := corrected[(page, k)];
        source := Reused;
      } else {
        var m := CorrectionModel(model);
        var reply := corrector(m, k, current);
        if reply.Some? {
          output := reply.value;
          source := Called(m);
        } else {
          output := current;
          source := CallFailed(m);
        }
      }
      var score := TextProcessing.CalculateTextDifference(current, output);
      p := Pass(k, current, output, score, source);
    }

    /** One pass of the loop: pass `k` computed and its file written when the model answered. */
    method AdvancePass(page: int, k: nat, text: string, model: string, corrector: Corrector,
                       ghost before: map<(int, nat), string>)
      returns (p: Pass)
      modifies this
      requires Untouched(corrected, before, page, k)
      ensures p == PassAt(before, page, k, text, model, corrector)
      ensures corrected == SavePass(old(corrected), page, p)
      ensures ocrTexts == old(ocrTexts)
      ensures Untouched(corrected, before, page, k + 1)
    {
      p := CorrectionPass(page, k, text, model, corrector);
      PassAtFrame(corrected, before, page, k, text, model, corrector);
      if p.source.Called? {
        corrected := corrected[(page, k) := p.output];
      }
    }

    /** The pass loop of page `page` from its OCR text `raw`; `text` is the text it ends with. */
    method CorrectionPasses(page: int, raw: string, model: string, threshold: real, maxCorrections: int,
                            corrector: Corrector)
      returns (text: string, passes: seq<Pass>)
      modifies this
      ensures passes == Run(old(corrected), page, raw, model, threshold, maxCorrections, corrector)
      ensures text == FinalText(raw, passes)
      ensures corrected == SavePasses(old(corrected), page, passes)
      ensures ocrTexts == old(ocrTexts)
    {
      ghost var before := corrected;
      var maxPass := MaxPasses(model, maxCorrections);
      ghost var full := Run(before, page, raw, model, threshold, maxCorrections, corrector);
      text := raw;
      passes := [];
      var k: nat := 1;
      while k <= maxPass
        invariant passes + RunFrom(before, page, k, maxPass, text, threshold, model, corrector) == full
        invariant text == FinalText(raw, passes)
        invariant corrected == SavePasses(before, page, passes)
        invariant ocrTexts == old(ocrTexts)
        invariant Untouched(corrected, before, page, k)
        decreases maxPass - k
      {
        var p := AdvancePass(page, k, text, model, corrector, before);
        RunFromAdvance(before, page, k, maxPass, text, threshold, model, corrector, passes, full, p);
        SavePassesStep(before, page, passes, p);
        passes := passes + [p];
        text := p.output;
        if p.score <= threshold {
          return;
        }
        k := k + 1;
      }
      assert passes + [] == passes;
    }

    /**
     * `perform_ocr_with_adaptive_correction` for page `page`. `ocr` is what the OCR call
     * would give (`None` when it raises) and `corrector` answers the correction calls.
     * `ocrCalled` says whether the OCR model was asked.
     */
    method PerformOcrWithAdaptiveCorrection(page: int, model: string, threshold: real, maxCorrections: int,
                                            ocr: Option<string>, corrector: Corrector)
      returns (result: Outcome<string>, ocrCalled: bool, passes: seq<Pass>)
      modifies this
      ensures ocrCalled <==> page !in old(ocrTexts)
      ensures RawText(old(ocrTexts), page, ocr).None? ==>
        result.Raised? && passes == [] && ocrTexts == old(ocrTexts) && corrected == old(corrected)
      ensures RawText(old(ocrTexts), page, ocr).Some? ==>
        var raw := RawText(old(ocrTexts), page, ocr).value;
        && ocrTexts == (if ocrCalled then old(ocrTexts)[page := raw] else old(ocrTexts))
        && passes == Run(old(corrected), page, raw, model, threshold, maxCorrections, corrector)
        && result == Ok(FinalText(raw, passes))
        && corrected == SavePasses(old(corrected), page, passes)
    {
      var raw: string;
      if page in ocrTexts {
        raw := ocrTexts[page];
        ocrCalled := false;
      } else {
        ocrCalled := true;
        if ocr.None? {
          return Raised, ocrCalled, [];
        }
        raw := ocr.value;
        ocrTexts := ocrTexts[page := raw];
      }
      var text;
      text, passes := CorrectionPasses(page, raw, model, threshold, maxCorrections, corrector);
      result := Ok(text);
    }
  }
}
