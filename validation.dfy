/**
 * The fail-open cross-check of multilingual names: the validating model is shown the
 * merged records and its answer replaces them only when it parses to a value with a
 * length; any failure hands the records back unchanged.
 */
module Validation {
  import opened Wrappers
  import opened Json
  import Services
  import TextProcessing

  /** The text the validator's answer is parsed from: its first fenced block, else all of it. */
  function AnswerJson(text: string, o: Services.TextOracles): string
  {
    TextProcessing.CleanedText(text, o)
  }

  /**
   * `validate_and_complete_multilingual_names` given the validator's `reply`. An empty input
   * is returned before any call; a raising call or read, or an answer that does not parse,
   * gives the input back. A parsed answer without a length makes the closing log line raise,
   * which the outer handler turns into the input again.
   */
  function ValidateAndComplete(artifacts: seq<Json>, reply: Services.Reply, o: Services.TextOracles): (r: Json)
    ensures Len(r).Some?
    ensures artifacts == [] ==> r == JList(artifacts)
    ensures !reply.Content? ==> r == JList(artifacts)
    ensures artifacts != [] && reply.Content? ==>
      match o.decode(AnswerJson(reply.text, o))
      case Some(v) => r == if Len(v).Some? then v else JList(artifacts)
      case None => r == JList(artifacts)
  {
    if artifacts == [] then JList(artifacts)
    else
      match reply
      case Content(text) =>
        (match o.decode(AnswerJson(text, o))
         case Some(v) => if Len(v).Some? then v else JList(artifacts)
         case None => JList(artifacts))
      case _ => JList(artifacts)
  }

  /** The outcome is always either the input itself or the parsed answer of the validator. */
  lemma FailOpen(artifacts: seq<Json>, reply: Services.Reply, o: Services.TextOracles)
    ensures var r := ValidateAndComplete(artifacts, reply, o);
      r == JList(artifacts) || (reply.Content? && o.decode(AnswerJson(reply.text, o)) == Some(r))
  {
  }

  /** An empty input is returned whatever the validator would have answered. */
  lemma EmptyInputNeedsNoCall(reply1: Services.Reply, reply2: Services.Reply, o: Services.TextOracles)
    ensures ValidateAndComplete([], reply1, o) == ValidateAndComplete([], reply2, o) == JList([])
  {
  }

  /** A parsed list is taken as it is, however many records it holds. */
  lemma NoLengthCheck(artifacts: seq<Json>, text: string, o: Services.TextOracles, validated: seq<Json>)
    requires artifacts != []
    requires o.decode(AnswerJson(text, o)) == Some(JList(validated))
    ensures ValidateAndComplete(artifacts, Services.Content(text), o) == JList(validated)
  {
  }

  /** When the answer holds a fenced block, only that block's text matters. */
  lemma FirstBlockParsed(artifacts: seq<Json>, t1: string, t2: string, o: Services.TextOracles)
    requires o.codeBlocks(t1) != [] && o.codeBlocks(t2) != [] && o.codeBlocks(t1)[0] == o.codeBlocks(t2)[0]
    ensures ValidateAndComplete(artifacts, Services.Content(t1), o) == ValidateAndComplete(artifacts, Services.Content(t2), o)
  {
  }
}
