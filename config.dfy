/** The constants of the pipeline's configuration and prompt files. */
module Config {
  /** Per-language correction thresholds. */
  const EN_THRESHOLD: real := 0.05
  const FR_THRESHOLD: real := 0.07
  const AR_THRESHOLD: real := 0.10

  const CORRECTION_THRESHOLDS: map<string, real> := map["EN" := EN_THRESHOLD, "FR" := FR_THRESHOLD, "AR" := AR_THRESHOLD]

  /** Column order of the multilingual CSV output. */
  const MULTILINGUAL_CSV_FIELDS: seq<string> := [
    "Name_EN", "Name_AR", "Name_FR", "Creator", "Creation Date", "Materials", "Origin",
    "Description", "Category", "source_page", "source_document", "Name_validation"
  ]

  /** The model that answers correction requests when OCR ran on the dedicated OCR model. */
  const MISTRAL_OCR := "mistral-ocr"
  const GPT_4O := "gpt-4o"
  const GPT_4O_MINI := "gpt-4o-mini"

  /** Sentinels and keys of the prompts' answer formats. */
  const NO_ARTIFACTS_MENTIONED := "NO_ARTIFACTS_MENTIONED"
  const NO_ARTIFACTS_DETECTED := "NO_ARTIFACTS_DETECTED"
  const NOT_FOUND := "NOT_FOUND"
  const CATEGORY_OTHER := "OTHER"
}
