/**
 * The collaborators the pipeline calls but this model does not implement: the
 * regular expressions that pick code fences and object fragments out of model
 * answers, and the replies of the hosted models. Each is a parameter, so every
 * property proved holds whatever they return.
 */
module Services {
  import opened Wrappers
  import opened Json

  /** `json.loads` together with the regular-expression searches applied to model answers. */
  datatype TextOracles = TextOracles(
    /** `json.loads` */
    decode: Decoder,
    /** the bodies of the markdown code fences, as ``re.findall(r'```(?:json)?\s*\n([\s\S]*?)\n\s*```', t)`` */
    codeBlocks: string -> seq<string>,
    /** trailing commas removed, as `re.sub(r',(\s*[\]}])', r'\1', t)` */
    dropTrailingCommas: string -> string,
    /** the object-shaped fragments, as `re.findall(r'{\s*"[^}]*}', t)` */
    objectFragments: string -> seq<string>,
    /** the two repairs applied to one fragment: a comma after a string followed by a
        string, and trailing commas before `}` dropped */
    repairFragment: string -> string,
    /** the span matched by `re.search(r'\[\s*\{.*\}\s*\]', t, re.DOTALL)` */
    objectListSpan: string -> Option<string>
  )

  /** What a call to a hosted model produced: the call itself raised, reading the answer
      out of the response raised, or the answer's text. */
  datatype Reply = CallRaised | ContentRaised | Content(text: string)
}
