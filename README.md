# Museum artifact extraction: a verified model of the page pipeline

This project models, in Dafny, the page-level core of a tool that reads scanned museum
catalogues in English, Arabic and French and builds a multilingual artifact database.
Each English page is read by OCR and then corrected pass after pass until a pass changes
the text by no more than the language's threshold. Artifact records are extracted from the
corrected text, and the artifact names are aligned with the Arabic and French documents.
The records of a document set are merged into one list. A page-level cache in a remote
table holds the records of every processed page, so a later run processes only the pages
that are missing from it.

Each Python module of the core is one Dafny module. The code that works step by step is
modelled as methods with loops, each proved equal to a specification function. The
properties the code promises are proved about those functions as lemmas.

- `TextProcessing`: the normalised Levenshtein score, filled in a 2-D array; the layered
  parser that turns a model answer into artifact records; the multilingual name parser.
- `Correction`: OCR with adaptive correction. The OCR text and the corrected texts are
  per-page files, kept as the maps of the `OcrStore` class.
- `Extraction`: artifact records checked, completed and stamped; the name-alignment answer
  cut down to its JSON array.
- `Validation`: the fail-open name cross-check.
- `Processors`: the name dictionaries, the per-page merge, the consolidated database with
  first-occurrence deduplication and enrichment from an earlier run, the positional
  back-fill after validation, the English document loops, the name extraction for the
  other languages, and the page-cached orchestrator over the store and the CSV file.
- `SimpleDb`: the page cache. The `artifacts` table is a map from page cache key to the
  records stored under it. The module covers the keys, the range lookup, check-then-insert
  saves and the legacy save.
- `DataUtils`: CSV rows over fixed columns, appended to a `CsvFile`; grouping files into
  document sets by language marker.
- `ImageProcessing`: page-range clamping and page enumeration for PDFs; single images
  copied into a `PagesDir` as page 1.
- `SupabaseClient`: the mock mode of the older client, over an insertion-ordered dictionary
  and an id counter.
- Foundations:
  - `Wrappers`: `Option`, and `Outcome`, which is a value or an escaped Python exception.
  - `Json`: parsed values with Python truthiness, `len`, iteration and `.get`.
  - `PyDict`: insertion-ordered dictionaries.
  - `Strings`, `Seqs`: string and sequence helpers.
  - `Config`: constants.
  - `Services`: the collaborators passed in as parameters.

Everything the pipeline cannot decide by itself is a parameter, so every property holds
whatever that parameter returns. This covers model replies, `json.loads`, the regular
expressions, the SHA-256 and MD5 hashes, file existence, the page count of a PDF, and
whether a remote query succeeds. Hash injectivity appears only as a `requires` of the
key-sensitivity lemmas. Thresholds and scores are exact reals.

Behaviours of the code worth noting:
- A document's fingerprint is the SHA-256 of the whole file (`_hash_file`).
- `validate_and_complete_multilingual_names` does not check that the validator returns a
  list of the input's length. Only its callers compare lengths before the back-fill.
- In `parse_artifacts_from_text`, a direct parse that gives neither a list nor an object
  falls through to the later strategies.
- The name aligner takes the first corrected file that exists, even when it is empty, and
  only then corrects when the text it took is empty.

The store and the orchestrator are modelled as written, including the four defects listed
under "## Findings". The corrected behaviour is modelled beside them under its own names:
- the corrected page key is `SimpleDb.PageKey`, and a save under it is
  `SimpleDb.SavePageCorrected`;
- the validation step that falls back on a failed back-fill is `Processors.ValidatedPage`;
- the run with the English check moved before the base name is `Processors.SetRun`.

## Model

| member | source | states |
|---|---|---|
| Validation.ValidateAndComplete | modules/validation.py:9-43 | the result always has a length; an empty input, a raising call or an answer that does not parse gives the input back; otherwise the parsed first fenced block (or whole answer) when it has a length |
| Validation.FailOpen | modules/validation.py:20-43 | the result is either the input itself or exactly what the validator's answer parses to |
| Validation.EmptyInputNeedsNoCall | modules/validation.py:11-13 | an empty input is returned as it is, whatever the validator would answer |
| Validation.NoLengthCheck | modules/validation.py:26-40 | a parsed list is returned unchanged even when it holds a different number of records than the input |
| Validation.FirstBlockParsed | modules/validation.py:29-31 | when the answer has a fenced block, answers with the same first block give the same result |
| ImageProcessing.FirstPage | modules/image_processing.py:14-15 | the first page rendered is at least 1, at most the page count of a non-empty document, and equals the requested page when that is in range |
| ImageProcessing.LastPage | modules/image_processing.py:17-20 | the last page is the page count without an end page; otherwise it is at least the first page, within the document, and the requested end when that is in range |
| ImageProcessing.ExtractImagesFromPdf | modules/image_processing.py:9-37 | the page loop renders exactly the images of the clamped range, or raises as the specification function says (missing document, empty document given an end page) |
| ImageProcessing.PdfImagesInRange | modules/image_processing.py:13-34 | for a non-empty document the images are consecutive ascending pages from the clamped start to the clamped end, all within the document, each at its page path |
| ImageProcessing.PdfImagesToEnd | modules/image_processing.py:17-18 | without an end page every page from the clamped start to the last page is rendered |
| ImageProcessing.EmptyPdf | modules/image_processing.py:14-29 | an empty document renders nothing without an end page and raises when given one |
| ImageProcessing.PagesDir.PrepareInputImage | modules/image_processing.py:39-44 | returns the single image at the pages directory's copy of the file as page 1, and copies the file there only when no file of that name is present |
| Correction.PassAt | modules/correction.py:102-145 | pass `k` starts from the current text and is consistent with the saved files: the pass's file when it exists, else the correcting model's answer, the text kept when the call raises |
| Correction.PassAtScore | modules/correction.py:145 | every pass is scored by the text difference between the text it started from and the one it produced |
| Correction.PassAtFrame | modules/correction.py:107-109 | a pass depends on the saved corrections only through the file of that pass |
| Correction.RunFromLength | modules/correction.py:87-154 | a run from pass `k` is empty exactly when `k` is past the budget and has at most `max_pass - k + 1` passes |
| Correction.RunFromPasses | modules/correction.py:87-154 | passes are numbered consecutively, each starts from the previous pass's text, every pass before the last scored above the threshold, and the last scored at or below it or was the final pass |
| Correction.RunFromConsistent | modules/correction.py:102-142 | every pass of a run is consistent with the saved corrections it started from |
| Correction.RunFromScores | modules/correction.py:145 | every pass of a run scores the difference it made |
| Correction.RunShape | modules/correction.py:84-156 | at most `max_pass` passes numbered 1, 2, ...; the first corrects the OCR text and each later one the previous text; a run shorter than the budget stopped on a pass at or below the threshold |
| Correction.FailedPassIsLast | modules/correction.py:125-154 | a correction that raises keeps the text, scores 0 and, for a threshold that is not negative, ends the run |
| Correction.MistralPasses | modules/correction.py:84-127 | the OCR-only model runs at most two passes, every call goes to "gpt-4o", and a pass whose file exists calls nothing and takes the file's text |
| Correction.SavePassesWrites | modules/correction.py:124-139 | only the passes whose model answered write their file, with the pass's text; other files are kept |
| Correction.OcrStore.CorrectionPass | modules/correction.py:102-142 | the pass computed from the store equals the specification pass |
| Correction.OcrStore.AdvancePass | modules/correction.py:87-149 | one loop iteration computes the specification pass and writes only that pass's file |
| Correction.OcrStore.CorrectionPasses | modules/correction.py:84-156 | the pass loop runs exactly the specified passes, returns the last text and saves exactly the answered passes |
| Correction.OcrStore.PerformOcrWithAdaptiveCorrection | modules/correction.py:11-156 | the OCR model is asked exactly when the page has no OCR file; a failing OCR call raises and writes nothing; otherwise the OCR text is saved, the passes are the specified run and the result is its final text |
| DataUtils.RowOf | modules/data_utils.py:41-46 | a row has one cell per column: the record's value for that key, or "" when the record has none |
| DataUtils.RowIgnoresOtherKeys | modules/data_utils.py:41 | a key that is not a column never changes the row |
| DataUtils.ObjectPrefix | modules/data_utils.py:39-49 | the rows are written for the leading objects, and the loop stops at the first item that is not an object |
| DataUtils.Rows | modules/data_utils.py:39-49 | one row per record, in order, each the record's row |
| DataUtils.CsvFile.WriteRows | modules/data_utils.py:39-49 | appends the rows of the leading objects and reports a failure exactly when some item is not an object |
| DataUtils.CsvFile.SaveArtifactsToCsv | modules/data_utils.py:22-49 | the file exists afterwards; the header is appended only when it was new, then the rows; success exactly when the records can be iterated and all are objects |
| DataUtils.HeaderOnce | modules/data_utils.py:28-36 | saving into an existing file appends the same rows without the header |
| DataUtils.Language | modules/data_utils.py:67-76 | the language is EN, AR or FR: the first whose marker the name holds, EN when none does |
| DataUtils.MarkerAt | modules/data_utils.py:57-59 | a match is one of the markers, letters compared without case |
| DataUtils.ReplaceMarkers | modules/data_utils.py:79-81 | substituting markers never makes the name longer |
| DataUtils.DropExtension | modules/data_utils.py:84 | removing the final extension never makes the name longer |
| DataUtils.CategorizeFilesDocuments | modules/data_utils.py:63-90 | a document is filed exactly when some input file has that base name |
| DataUtils.CategorizeKeepsLast | modules/data_utils.py:87-90 | for each document and language the last such file is kept |
| DataUtils.Groups | modules/data_utils.py:93-102 | there are no more document sets than documents |
| DataUtils.GroupsHaveEnglish | modules/data_utils.py:95-100 | every document set is that of a filed document with an English file, holding its EN, AR and FR files |
| DataUtils.GroupsNeedEnglish | modules/data_utils.py:95-102 | every filed document with an English file forms a set |
| DataUtils.CategorizeFiles | modules/data_utils.py:63-90 | the first loop files exactly as the specification function does |
| DataUtils.GroupsOf | modules/data_utils.py:93-102 | the second loop builds exactly the specified document sets |
| DataUtils.GroupDocumentsByLanguage | modules/data_utils.py:51-104 | the document sets of the files' documents that have an English file |
| TextProcessing.FillRow | modules/text_processing.py:36-43 | filling row `i` left to right from row `i - 1` gives every cell its edit distance between the two prefixes |
| TextProcessing.CalculateTextDifference | modules/text_processing.py:8-55 | the matrix loop returns exactly the specified score |
| TextProcessing.DistAtMostLonger | modules/text_processing.py:30-46 | the distance between two prefixes is at most the longer prefix's length |
| TextProcessing.DistSelf | modules/text_processing.py:36-46 | a prefix is at distance 0 from itself |
| TextProcessing.DistZero | modules/text_processing.py:36-46 | only equal prefixes are at distance 0 |
| TextProcessing.DistSymmetric | modules/text_processing.py:36-46 | the distance does not depend on the order of the texts |
| TextProcessing.TextDifferenceBounded | modules/text_processing.py:11-13 | the score lies between 0 and 1 |
| TextProcessing.TextDifferenceZeroIff | modules/text_processing.py:12 | the score is 0 exactly when the texts are identical |
| TextProcessing.TextDifferenceSymmetric | modules/text_processing.py:8-55 | the score does not depend on the order of the texts |
| TextProcessing.TextDifferenceIsNormalisedDistance | modules/text_processing.py:17-53 | the early exits for empty texts agree with the edit distance divided by the longer length |
| TextProcessing.BracketSpan | modules/text_processing.py:91-94 | the greedy bracket match exists exactly when a ']' follows the first '[', and is the text from the first '[' to the last ']' |
| TextProcessing.Stamp | modules/text_processing.py:80-81 | the record's `source_page` and `source_document` are the given page and document |
| TextProcessing.StampAllStamped | modules/text_processing.py:79-82 | stamping a list that succeeds stamps every record |
| TextProcessing.ErrorRecord | modules/text_processing.py:137-153 | the error record carries the page and document |
| TextProcessing.Resolve | modules/text_processing.py:73-153 | a strategy that parsed gives its records, one that raised gives the error record, one that did not match gives what the later strategies give |
| TextProcessing.StampRecords | modules/text_processing.py:79-82 | the stamping loop equals the specification, raising on a non-object |
| TextProcessing.TryDirect | modules/text_processing.py:75-88 | the direct parse strategy equals its specification |
| TextProcessing.TryBracket | modules/text_processing.py:90-105 | the bracket strategy equals its specification |
| TextProcessing.TryFragments | modules/text_processing.py:107-126 | the object-fragment loop equals its specification |
| TextProcessing.SaysNoArtifacts | modules/text_processing.py:128-135 | the phrase loop answers whether the lower-cased text mentions one of the no-artifact phrases |
| TextProcessing.ParseArtifactsFromText | modules/text_processing.py:57-153 | the parser method equals the specification of the strategy chain |
| TextProcessing.FragmentRecordsPrefixCrash | modules/text_processing.py:110-123 | once a fragment raises an error other than a decode error, the fragment strategy raises |
| TextProcessing.FragmentRecordsStamped | modules/text_processing.py:119-121 | every fragment record is stamped with the page and document |
| TextProcessing.AttemptsStamped | modules/text_processing.py:75-126 | every record a strategy returns is stamped |
| TextProcessing.ParseStampsEveryRecord | modules/text_processing.py:57-153 | every record the parser returns, error records included, carries the page and document |
| TextProcessing.ParseSentinelMeansNone | modules/text_processing.py:60-62 | a sentinel anywhere in the answer gives no artifacts |
| TextProcessing.ParseFencedArray | modules/text_processing.py:64-82 | an answer whose first fence holds an array of objects yields that array's records, stamped |
| TextProcessing.BracketAttemptIsList | modules/text_processing.py:99-103 | with a decoder that only returns lists for bracketed text, the bracket strategy yields a list |
| TextProcessing.ParseYieldsList | modules/text_processing.py:57-153 | with such a decoder the parser always returns a list |
| TextProcessing.ParseMultilingualNames | modules/text_processing.py:155-191 | a parse of the cleaned text gives its name list; otherwise the repaired bracketed span gives its name list, or no names when it does not parse; with no span there are no names |
| TextProcessing.NameListShape | modules/text_processing.py:180-188 | a parsed value gives no names exactly when it is falsy; otherwise the items of a list or the value alone |
| Extraction.ArtifactJsonText | modules/extraction.py:46-54 | the whole answer when it lacks either bracket; otherwise the text from the first '[' to the last ']', empty when the last ']' comes first |
| Extraction.WithCategory | modules/extraction.py:65-67 | the category becomes truthy: kept when it was, "OTHER" when it was missing or falsy; no other key changes |
| Extraction.Completed | modules/extraction.py:64-74 | a kept record is an object with a truthy category and the page's source stamps; every other field is the artifact's own |
| Extraction.Check | modules/extraction.py:58-74 | an item is kept exactly when it is an object with a truthy name, and then completed; it raises exactly when it is not an object and `"Name" in item` does not answer false |
| Extraction.ValidateArtifacts | modules/extraction.py:57-74 | the validation loop equals its specification |
| Extraction.ExtractArtifactsFromPage | modules/extraction.py:11-91 | the page extraction equals its specification over the model's reply |
| Extraction.ValidArtifactsFilter | modules/extraction.py:58-74 | the loop raises exactly when some item is neither an object nor free of "Name"; otherwise it keeps the named objects in order, each completed, and misses none |
| Extraction.ValidArtifactsComplete | modules/extraction.py:58-74 | every kept record has a truthy name, a truthy category and the page's source stamps |
| Extraction.ArtifactRecordsComplete | modules/extraction.py:35-91 | every record returned has a truthy name, a truthy category and the page's source stamps |
| Extraction.SentinelGivesNoArtifacts | modules/extraction.py:39-41 | an answer that is the sentinel once trimmed gives no records |
| Extraction.OnlyBracketSpanParsed | modules/extraction.py:46-54 | only the bracketed span reaches the parser: parsers that agree on it give the same records |
| Extraction.CallErrorsPropagate | modules/extraction.py:25-91 | a raising model call propagates; a raising read of its answer gives no records |
| Extraction.DropFenceLines | modules/extraction.py:160-168 | the line loop keeps exactly the lines that are not fence markers, in order |
| Extraction.BracketTrim | modules/extraction.py:171-177 | a bracketed text, or one missing either bracket, is left as it is |
| Extraction.BracketedUntrimmed | modules/extraction.py:172 | a text starting with '[' and ending with ']' is not cut |
| Extraction.BracketTrimIdempotent | modules/extraction.py:172-177 | cutting twice cuts no further |
| Extraction.Sized | modules/extraction.py:186-215 | a value with a length is returned; one without makes the log line raise and yields no names |
| Extraction.NameMappings | modules/extraction.py:154-211 | the name mappings always have a length |
| Extraction.UnfenceAnswer | modules/extraction.py:157-168 | the fence stripping equals its specification |
| Extraction.TrimToBrackets | modules/extraction.py:171-177 | the bracket cut equals its specification |
| Extraction.CleanNameMappings | modules/extraction.py:154-211 | the cleaning and parsing steps equal the specification of the name mappings |
| Extraction.UnfencedLines | modules/extraction.py:162-167 | fence stripping drops exactly the fence-marker lines and keeps every other line |
| Extraction.FallbackOnlyOnParseError | modules/extraction.py:179-211 | the fallback span of the original answer is parsed only when the cleaned text does not parse; with neither there are no names |
| Extraction.NamesFromReply | modules/extraction.py:148-215 | names that come back always have a length |
| Extraction.ExtractMultilingualNamesFromPage | modules/extraction.py:94-215 | the opening log line raises unless every artifact is an object with a string name; a saved text is used as it is; otherwise OCR and correction run, a failing OCR gives no names and changes neither map, the OCR text is memoised only for a page not yet saved, and the names come from the reply to the text settled on |
| SimpleDb.FileHashes | modules/simple_db.py:163-166 | a language is hashed exactly when its path is set and its file exists; no other language appears |
| SimpleDb.PageCacheKey | modules/simple_db.py:159-185 | the page key as the store computes it: a group none of whose files exists gets the key of an empty hash map, whatever its paths |
| SimpleDb.CoreName | modules/simple_db.py:194-202 | "unknown_document" without a path; a base name that does not start with the upload prefix is kept as it is |
| SimpleDb.CoreNameDropsPrefix | modules/simple_db.py:197-202 | a base name made of the upload prefix and a rest holding no second prefix is known by that rest |
| SimpleDb.UploadsShareIdentity | modules/simple_db.py:253-271 | two uploads whose files are gone and whose names differ only in the directory share one identity |
| SimpleDb.PageCacheKeySensitive | modules/simple_db.py:159-185 | under an injective hash, two page keys are equal exactly when the hashes of existing files, the page, both model ids and the thresholds are |
| SimpleDb.VanishedDocumentsShareKeys | modules/simple_db.py:163-166 | two documents whose files are both gone get one key for every page |
| SimpleDb.DocumentIds | modules/simple_db.py:163-271 | the corrected key has one entry per set path, the document's identity |
| SimpleDb.PageKey | modules/simple_db.py:159-185 | the corrected key equals the key as written whenever every set path names a readable file |
| SimpleDb.VanishedDocumentsKeptApart | modules/simple_db.py:159-271 | under injective hashes, vanished documents with different core names get different keys |
| SimpleDb.DocumentIdsOfReadableFiles | modules/simple_db.py:163-166 | where every set path names a readable file the corrected key holds what the original key holds |
| SimpleDb.PageKeySensitive | modules/simple_db.py:159-185 | under an injective hash, two corrected keys are equal exactly when the identities, the page, both model ids and the thresholds are |
| SimpleDb.RunCacheKey | modules/simple_db.py:187-216 | without an English path the run key holds the hash of "unknown_document" |
| SimpleDb.RunCacheKeySensitive | modules/simple_db.py:187-216 | under an injective hash, two run keys are equal exactly when the English identity, the range, both model ids and the thresholds are; the other languages do not take part |
| SimpleDb.NewRecord | modules/simple_db.py:218-300 | a stored row carries the save's key, page number and file hash |
| SimpleDb.NewRecordFields | modules/simple_db.py:218-240 | every column of a stored row is the save's value or the artifact's field with its default, with `Name` standing in for a missing `Name_EN` |
| SimpleDb.CachedRecord | modules/simple_db.py:120-135 | a rebuilt artifact has the multilingual CSV columns in order, each from its stored column |
| SimpleDb.SavedRecordReadsBack | modules/simple_db.py:120-240 | a saved artifact read back from the cache has each field it was saved with, a missing `Name_EN` read from `Name` and a missing `source_page` the page saved |
| SimpleDb.PageRange | modules/simple_db.py:77-89 | `range(start, end + 1)`: its length and each element |
| SimpleDb.Restored | modules/simple_db.py:119-137 | one rebuilt artifact per stored row, in order |
| SimpleDb.Scan | modules/simple_db.py:100-143 | a scan that does not fail never reports more missing pages than the range holds |
| SimpleDb.ScanFails | modules/simple_db.py:89-157 | the scan fails exactly when the query of some requested page fails |
| SimpleDb.ScanPartition | modules/simple_db.py:100-143 | a page is missing exactly when it is requested and has no stored record; the missing pages ascend; nothing is cached exactly when every page is missing |
| SimpleDb.MissingBound | modules/simple_db.py:100-143 | there are never more missing pages than requested pages |
| SimpleDb.ScanCachedFromTable | modules/simple_db.py:119-140 | every cached artifact is rebuilt from a row stored under a requested page's key |
| SimpleDb.CacheLookup | modules/simple_db.py:68-157 | with the store disabled, no English document or a failing query every page is missing; an empty range has no pages; the counts add up to the range and count the missing pages; pages are looked up under the key as written |
| SimpleDb.LookupPartitions | modules/simple_db.py:68-157 | every missing page is requested; a requested page that is not missing has stored records under its key |
| SimpleDb.Records | modules/simple_db.py:296-300 | one row per artifact, in order |
| SimpleDb.StoredStep | modules/simple_db.py:296-310 | one more artifact's row is appended exactly when the insert accepts it |
| SimpleDb.Put | modules/simple_db.py:304-305 | the key then holds the rows, and every other key is untouched |
| SimpleDb.PutAppend | modules/simple_db.py:304-306 | inserting one more row appends it to the key's rows |
| SimpleDb.SavePageWith | modules/simple_db.py:242-317 | nothing is written when the store is disabled or there are no artifacts; a key with records is left alone and reported saved; success means the key then has records; only the key changes |
| SimpleDb.SavePage | modules/simple_db.py:242-317 | the save under the key as written: a reported save leaves that key with records, a key with records is left as it is, and no other key appears, disappears or changes |
| SimpleDb.RepeatSaveIsNoOp | modules/simple_db.py:284-292 | repeating a successful save changes nothing and again reports success |
| SimpleDb.FreshSaveStoresRecords | modules/simple_db.py:294-313 | into an empty key, every stored row is accepted and built from one of the artifacts; success exactly when some row was stored and every item was an object |
| SimpleDb.StoredRowsComeFromItems | modules/simple_db.py:296-310 | every inserted row is accepted and built from one of the artifacts |
| SimpleDb.VanishedDocumentSaveIsSkipped | modules/simple_db.py:242-292 | as written, a save of a document whose file is gone is skipped and reported saved once another vanished document stored the same page |
| SimpleDb.SavePageCorrected | modules/simple_db.py:242-317 | a save under the corrected key: a reported save leaves that key with records, and a key with records is left as it is |
| SimpleDb.CorrectedSaveKeepsDocumentsApart | modules/simple_db.py:242-317 | under injective hashes and the corrected key, a second vanished document with another core name stores the rows built from its own artifacts although the first one's page is stored |
| SimpleDb.LegacyArtifacts | modules/simple_db.py:370-386 | a list is taken as it is; anything other than a list or an object is refused; what comes out has a length |
| SimpleDb.SaveGroups | modules/simple_db.py:405-413 | the saved count never exceeds the artifacts grouped |
| SimpleDb.SaveGroupsStep | modules/simple_db.py:406-413 | one more group adds its size exactly when its save reports success |
| SimpleDb.SaveGroupsTouchOnly | modules/simple_db.py:405-413 | saving the groups leaves alone every key with records and every key that is not a group's page key |
| SimpleDb.LegacySaveSavesGroups | modules/simple_db.py:364-419 | an enabled save of a payload with artifacts whose pages can be read saves its page groups and succeeds exactly when some artifact was saved |
| Json.GroupByEntries | modules/simple_db.py:393-398 | a grouping that does not raise has groups exactly when there are artifacts, each group non-empty and keyed by some artifact's page |
| SimpleDb.GroupKeysAvoid | modules/simple_db.py:393-406 | a key that is no artifact's page key is no group's page key |
| SimpleDb.LegacySaveTouchesOnlyItsPages | modules/simple_db.py:364-419 | a legacy save leaves alone every key with records and every key that is not one of its artifacts' page keys: stored pages are never overwritten |
| SimpleDb.LegacySaveSkipsStoredPage | modules/simple_db.py:400-413 | as written, a second legacy document's page is skipped and reported saved when the first one's key for that page has records |
| SimpleDb.SaveGroupsAllStored | modules/simple_db.py:405-413 | as written, when every group's page is stored under a first legacy document, a second one's groups are all skipped and all counted as saved |
| SimpleDb.LegacySave | modules/simple_db.py:364-419 | nothing is written and failure is reported when the store is disabled, the payload is refused, it holds no artifacts or some artifact's page cannot be read |
| SimpleDb.LegacySaveOfOtherDocumentIsSkipped | modules/simple_db.py:364-419 | as written, a legacy save of a second document whose pages a first one stored leaves the table as it was, and reports success exactly when it had artifacts whose pages could be read |
| SimpleDb.LegacyDocumentsKeptApart | modules/simple_db.py:400-413 | with the corrected key, legacy documents whose hashes differ in the first eight characters keep their pages apart |
| SimpleDb.RestorePage | modules/simple_db.py:119-137 | the conversion loop gives the rebuilt artifacts of the page's rows |
| SimpleDb.ScanPages | modules/simple_db.py:100-143 | the lookup loop equals the scan specification |
| SimpleDb.SimpleArtifactDB.constructor | modules/simple_db.py:30-54 | a store built with a flag and a table holds them |
| SimpleDb.SimpleArtifactDB.CheckPageLevelCache | modules/simple_db.py:68-157 | the range lookup equals its specification over the store's table |
| SimpleDb.SimpleArtifactDB.InsertRows | modules/simple_db.py:294-310 | the key then holds exactly the accepted rows; the count is their number; an exception is raised exactly when some item is not an object |
| SimpleDb.SimpleArtifactDB.SavePageArtifacts | modules/simple_db.py:242-317 | the reported success and the new table are those of the save under the key as written |
| SimpleDb.SimpleArtifactDB.SaveArtifactsFromData | modules/simple_db.py:364-419 | the reported success and the new table are those of the legacy save specification |
| SimpleDb.SimpleArtifactDB.SaveLegacyGroups | modules/simple_db.py:405-413 | the loop's count and table are those of saving each group in turn |
| SupabaseClient.DbFields | modules/supabase_client.py:99-118 | the seventeen columns of a mapped record, in the order the mapping lists them |
| SupabaseClient.FieldNames | modules/supabase_client.py:100-115 | the columns the other lemmas single out sit where the mapping puts them |
| SupabaseClient.DbFieldsDistinct | modules/supabase_client.py:99-118 | no column is listed twice and none is the id column |
| SupabaseClient.LookupFirstPresent | modules/supabase_client.py:100-117 | a chain of nested `.get` calls yields the value of the first key present |
| SupabaseClient.LookupNonePresent | modules/supabase_client.py:100-117 | a chain of `.get` calls none of whose keys is present yields the innermost default |
| SupabaseClient.DbValues | modules/supabase_client.py:99-118 | one value per column |
| SupabaseClient.MappedColumns | modules/supabase_client.py:121 | a mapped record has only schema columns, none holding `None` |
| SupabaseClient.MapArtifactToDb | modules/supabase_client.py:87-121 | the mapping raises exactly when a path is given and its file cannot be read |
| SupabaseClient.FileColumns | modules/supabase_client.py:92-96 | the digest and base name of a given file, raising exactly when the file cannot be read |
| SupabaseClient.MappedField | modules/supabase_client.py:99-121 | each column holds its value unless that is `None`, when the column is absent; no column twice; no id |
| SupabaseClient.MappedNameEn | modules/supabase_client.py:102-121 | `name_en` is name_english, else name, else Name, else "", and absent when that is `None` |
| SupabaseClient.ArtifactKey | modules/supabase_client.py:340 | the key of an id is an artifact key |
| SupabaseClient.ArtifactKeyInjective | modules/supabase_client.py:340 | different ids are stored under different keys |
| SupabaseClient.IdsUnique | modules/supabase_client.py:337-342 | in a consistent store two artifact records have different ids |
| SupabaseClient.CounterIsFresh | modules/supabase_client.py:339-341 | the counter's key is unused and no record has the counter as id |
| SupabaseClient.AddKeepsConsistent | modules/supabase_client.py:339-341 | an add under the counter's key with the counter as id, the counter then moving on, keeps the store consistent: ids unique and below the counter, each stored under its own key |
| SupabaseClient.ReplaceKeepsConsistent | modules/supabase_client.py:383-388 | replacing a record by one with the same id keeps the store consistent |
| SupabaseClient.AddedIsListedLast | modules/supabase_client.py:423-427 | a record added under an artifact key is listed last |
| SupabaseClient.ListArtifacts | modules/supabase_client.py:423-427 | for a non-negative offset and limit, at most `limit` records, the stored artifact records from `offset` on, and exactly `limit` when that many remain |
| SupabaseClient.SearchResultsPass | modules/supabase_client.py:449-467 | every result passes every filter that is set and is a stored record; every stored record that passes is among the matches before slicing |
| SupabaseClient.Search | modules/supabase_client.py:448-467 | the results are never more than the stored records, nor, for a non-negative offset and limit, more than the limit |
| SupabaseClient.UnfilteredSearchIsListing | modules/supabase_client.py:440-467 | a search with no filter set is the listing |
| SupabaseClient.KeySet | modules/supabase_client.py:518-521 | the set built from the values: no larger than them, holding exactly their keys |
| SupabaseClient.DistinctCount | modules/supabase_client.py:518-521 | `len(set(...))` exists exactly when every value is hashable; it is at most the number of values and 0 only for none |
| SupabaseClient.Column | modules/supabase_client.py:518-521 | `a.get(field, default)` for every record, in order |
| SupabaseClient.StatisticsBounds | modules/supabase_client.py:514-529 | no count exceeds the number of records, and there is a file exactly when there is a record |
| SupabaseClient.GetStatistics | modules/supabase_client.py:514-529 | the total is the number of stored records; each other count is the size of the set of file digests, or of the non-empty categories, creators or origins; it raises exactly when one of those values cannot be hashed; there are no files exactly when there are no records |
| SupabaseClient.NoCategoriesCounted | modules/supabase_client.py:519 | no category is counted exactly when no record has a non-empty category |
| SupabaseClient.MockArtifactStore.constructor | modules/supabase_client.py:49-52 | a mock store starts empty with the counter at 1 |
| SupabaseClient.MockArtifactStore.AddArtifact | modules/supabase_client.py:333-343 | the mapped record gets the counter as id, is stored last under that id's key, the counter moves on; a mapping that raises changes nothing |
| SupabaseClient.MockArtifactStore.GetArtifact | modules/supabase_client.py:362-368 | the first artifact record with that id, or the empty record |
| SupabaseClient.MockArtifactStore.UpdateArtifact | modules/supabase_client.py:381-390 | the first record with the id takes every mapped column, defaults included, and keeps the rest; no such record leaves the store alone |
| SupabaseClient.MockArtifactStore.DeleteArtifact | modules/supabase_client.py:403-411 | the first record with the id is removed and the answer is whether there was one |
| SupabaseClient.MockArtifactStore.SearchArtifacts | modules/supabase_client.py:440-467 | the mock search equals its specification |
| SupabaseClient.MockArtifactStore.CheckPageProcessed | modules/supabase_client.py:540-550 | an unreadable file raises; otherwise the answer is whether some artifact record has the file's digest and that page |
| SupabaseClient.UpdateKeepsId | modules/supabase_client.py:386 | an update overwrites the mapped columns, keeps every other, and keeps the id |
| SupabaseClient.UpdateResetsOcrModel | modules/supabase_client.py:381-390 | an update that says nothing about the OCR model resets it to "default_ocr" |
| SupabaseClient.DeleteKeepsConsistent | modules/supabase_client.py:407 | removing an entry keeps the store consistent |
| SupabaseClient.AddThenGet | modules/supabase_client.py:337-368 | a record just added is the one its id finds |
| SupabaseClient.DeleteThenGet | modules/supabase_client.py:403-411 | after a delete no artifact record has the deleted id |
| SupabaseClient.AddedPageIsProcessed | modules/supabase_client.py:540-550 | a page whose artifact was just added with its file is reported processed |
| SupabaseClient.AddedRecordColumns | modules/supabase_client.py:333-343 | the digest and source page of a mapped record survive the id's assignment |
| Processors.LastNaming | modules/processors.py:308-313 | the last mapping that names an English name, and no later one names it |
| Processors.NameDictLastWins | modules/processors.py:308-313 | a built dictionary gives every name the target name of the last mapping that names it, and nothing for a name no mapping names |
| Processors.NameDictRaises | modules/processors.py:308-313 | building the dictionary raises exactly when some mapping is not an object or names an English name that cannot be a key |
| Processors.NameDictStaysRaised | modules/processors.py:308-313 | once the dictionary of a prefix raises, so does every longer one |
| Processors.BuildNameDict | modules/processors.py:308-313 | the dictionary loop equals its specification |
| Processors.RecordFields | modules/processors.py:588-600 | the eleven keys of a merged record, in order |
| Processors.RecordFieldsDistinct | modules/processors.py:588-600 | no key is listed twice |
| Processors.RecordReads | modules/processors.py:588-600 | every key of a record reads its own value and none is bound twice |
| Processors.MergedRecordFields | modules/processors.py:586-600 | Name_EN is the artifact's Name, Name_AR and Name_FR are what the mappings give it ("" when none does), every metadata field is the artifact's with "" as default |
| Processors.MergePageShape | modules/processors.py:567-603 | one merged record per artifact, in order; the merge raises exactly when a dictionary does or an artifact is not an object |
| Processors.MergeArtifacts | modules/processors.py:585-601 | the merge loop equals its specification |
| Processors.MergeMultilingualNamesForPage | modules/processors.py:567-603 | the page merge equals its specification |
| Processors.FilledItemReads | modules/processors.py:396-401 | a back-filled object reads every non-name key of the pre-validation record from it and every other key from the validator's answer |
| Processors.CopyMetadata | modules/processors.py:398-401 | the inner back-fill loop equals its specification |
| Processors.FillFailure | modules/processors.py:396-401 | every item before it back-fills, and the item at it raises |
| Processors.BackFillItems | modules/processors.py:396-401 | the outer loop updates the items as specified and reports a failure exactly when some item's back-fill raises |
| Processors.ValidatedPageBackFills | modules/processors.py:754-767 | when the validator answers one object per record, the back-fill cannot raise, the step as written and the corrected step agree, and every page record keeps the validator's names and the pre-validation value of every other key |
| Processors.ValidatedPageAsWritten | modules/processors.py:754-770 | as written: an answer without a length, of another length or not a list is kept as the page's records; a list of the right length keeps its length, and every item from the first failed back-fill on is the validator's own |
| Processors.ValidatedPage | modules/processors.py:754-770 | corrected: an answer without a length gives the unvalidated records, one of another length is kept, and otherwise the result is the answer, the unvalidated records or a list of their length |
| Processors.ValidatedPageFallsBack | modules/processors.py:754-770 | the corrected step differs from the step as written only where the back-fill raised, and there gives the unvalidated records |
| Processors.FailedBackFillKeepsValidatorOutput | modules/processors.py:754-770 | as written, a back-fill raising on the second record leaves the validator's output, not the unvalidated records |
| Processors.LoadFromValid | modules/processors.py:331-339 | loading earlier items keeps every record stored once under its own Name_EN |
| Processors.LoadedValid | modules/processors.py:331-339 | the earlier records are always stored once each, under their own Name_EN |
| Processors.LoadPrevious | modules/processors.py:331-340 | the loading loop equals its specification |
| Processors.FirstPositions | modules/processors.py:346-351 | the positions of first occurrences lie within the batch |
| Processors.FirstOccurrencePrefix | modules/processors.py:346-351 | a first occurrence in a prefix is one in the whole batch |
| Processors.FirstPositionsAscend | modules/processors.py:346-351 | the first positions ascend and each is a first occurrence |
| Processors.FirstPositionsComplete | modules/processors.py:346-351 | every first occurrence is among the first positions |
| Processors.FirstPositionsCover | modules/processors.py:346-351 | every artifact's name is that of a first position at or before it |
| Processors.FirstPositionsDistinct | modules/processors.py:346-351 | no two first positions share a name |
| Processors.NewRecordsAtFirstPositions | modules/processors.py:345-379 | the batch's records are those of the first occurrences, in order |
| Processors.RecordSetNames | modules/processors.py:370-373 | assigning a name into a record changes that name only |
| Processors.Records | modules/processors.py:382-385 | one record per earlier entry |
| Processors.RecordsAt | modules/processors.py:382-385 | record `i` is the `i`-th earlier record |
| Processors.RemainingAll | modules/processors.py:382-385 | every earlier record whose name is not in the batch is appended unchanged, in the earlier file's order |
| Processors.NameKeysAppend | modules/processors.py:348-351 | one artifact more adds its name to the processed names; it is a first occurrence exactly when its name was not processed |
| Processors.EnrichRecord | modules/processors.py:367-373 | each name the dictionaries left empty is taken from the earlier record when that one is not empty |
| Processors.NewRecordsStep | modules/processors.py:345-379 | one artifact more adds its record exactly when it is the first with its name |
| Processors.ConsolidateOne | modules/processors.py:346-379 | one pass keeps the processed names, the earlier records left and the records built equal to their specifications |
| Processors.ConsolidateBatch | modules/processors.py:342-379 | the main loop raises exactly when an artifact cannot be read; otherwise it builds one record per new name and deletes the used earlier records |
| Processors.PrefixedCons | modules/processors.py:382-385 | prefixing one more record commutes with the loop's result |
| Processors.AppendRemaining | modules/processors.py:382-385 | the loop over the remaining earlier records equals its specification |
| Processors.ConsolidateRecords | modules/processors.py:308-385 | the records before validation equal their specification |
| Processors.ConsolidatedArtifacts | modules/processors.py:300-401 | the validated, back-filled list equals its specification |
| Processors.CreateConsolidatedDatabase | modules/processors.py:300-418 | the list is appended to the CSV file and returned, unless the writer raises; a raise before it leaves the file alone |
| Processors.LeftoverExact | modules/processors.py:366-385 | the earlier records left are earlier records, stored under their own names, none in the batch; every earlier record whose name is not in the batch is left |
| Processors.RawRecordsRaises | modules/processors.py:308-385 | consolidation raises exactly when a mapping list cannot make a dictionary or an artifact cannot be read; earlier records never make it raise |
| Processors.RawRecordsShape | modules/processors.py:342-385 | one record per English name at its first artifact, in order, then every earlier record whose name the batch lacks, unchanged and in order |
| Processors.ConsolidatedRecordFields | modules/processors.py:353-373 | Name_EN and metadata come from the artifact; a non-empty dictionary name is kept; an empty one takes the earlier record's non-empty name; without an earlier record it is the page merge's record |
| Processors.BackFilledReads | modules/processors.py:396-401 | when the validator answers one object per record, the saved list keeps the validator's names and every other key's pre-validation value |
| Processors.CollectPages | modules/processors.py:71-119 | the loop over the document's page images equals its specification |
| Processors.PagesStayRaised | modules/processors.py:71-119 | once a prefix of the pages raises, so do all the pages |
| Processors.PagesArtifactsAgree | modules/processors.py:71-119 | steps that agree on every page give the same artifacts |
| Processors.ProcessEnglishDocument | modules/processors.py:29-133 | the English document's page loop equals its specification |
| Processors.EnglishDocumentUsesMemo | modules/processors.py:74-119 | a page with saved results is never run again and a raising page counts as one without artifacts |
| Processors.EnglishPagesRaise | modules/processors.py:74-81 | the loop raises exactly when a saved page result does not parse to something iterable |
| Processors.MinPage | modules/processors.py:446 | the smallest listed page |
| Processors.MaxPage | modules/processors.py:447 | the largest listed page |
| Processors.ProcessSpecificPagesEnglish | modules/processors.py:420-501 | the loop over the listed pages equals its specification |
| Processors.SpecificPagesOnlyRunListed | modules/processors.py:455-498 | only the listed pages are run, and the loop itself never raises |
| Processors.PagesNeverRaise | modules/processors.py:469-498 | a step that never raises gives a loop that never raises |
| Processors.SpecificImagesCoverPages | modules/processors.py:445-448 | a PDF's pages are rendered from the smallest to the largest listed page, so each listed page within the document is among the images |
| Processors.SecondField | modules/processors.py:221 | `name.split("_")[1]` is part of the name |
| Processors.LoadStoredNames | modules/processors.py:215-228 | the loop over the results directory equals its specification |
| Processors.StoredNamesIgnoreCurrentPages | modules/processors.py:218-228 | stale name files of the pages being processed are never loaded |
| Processors.PageNumbers | modules/processors.py:193-199 | one page number per page of the batch |
| Processors.ExtractMultilingualNames | modules/processors.py:135-298 | the name extraction for a whole batch equals its specification |
| Processors.MultilingualNamesDependence | modules/processors.py:214-287 | the aligner runs only on pages with artifacts, and stale files of those pages are never loaded |
| Processors.MultilingualNamesRaise | modules/processors.py:143-287 | raises exactly when the batch cannot be grouped or the other document's pages cannot be rendered; a failing page never does |
| Processors.NamesForPage | modules/processors.py:503-565 | the answer always has a length; no artifacts gives the empty list |
| Processors.NamesForPageKeepsAnswer | modules/processors.py:526-561 | with the page rendered, an answer with a length is returned as it is |
| Processors.EnglishBaseNameAsWritten | modules/processors.py:610 | the base name raises exactly when the English entry is present with the value `None` |
| Processors.DocumentSet | modules/processors.py:605-630 | as written: an English entry present as `None` raises and changes nothing; any other group without an English document returns `None` and changes nothing |
| Processors.ProcessPageRecords | modules/processors.py:724-770 | one missing page's records equal their specification, with the validation step as written |
| Processors.NewPagesStayRaised | modules/processors.py:720-780 | once the loop over the missing pages has raised, it stays raised and saves nothing more |
| Processors.ProcessNextPage | modules/processors.py:720-780 | one missing page, with its save, equals its specification |
| Processors.ProcessNewPages | modules/processors.py:718-780 | the loop over the missing pages, with its saves, equals its specification |
| Processors.ProcessMultilingualDocumentSet | modules/processors.py:605-814 | the result and the store are those of the specification as written, the base name first; the CSV file is appended to exactly when a list is written |
| Processors.ProcessMissingPages | modules/processors.py:686-814 | once the cache has left pages missing, the result and the store are those of the specification; the CSV file is appended to exactly when a list is written |
| Processors.EnglishNoneRaisesBeforeCheck | modules/processors.py:610-630 | as written, an English entry present as `None` raises before the check; the run with the check first (`SetRun`) returns `None` and touches nothing |
| Processors.NextPageTouchOnly | modules/processors.py:773-778 | one page leaves alone a key that already has records or is not its key |
| Processors.NewPagesTouchOnlyNewPages | modules/processors.py:718-780 | the page loop leaves alone every key with records and every key that is not a missing page's, and saves nothing when saving is off |
| Processors.NewSetTouchesOnlyMissingPages | modules/processors.py:709-796 | after the English pipeline, the same keys are left alone |
| Processors.MissingPagesTouchOnlyMissingPages | modules/processors.py:690-796 | after the lookup, the same keys are left alone |
| Processors.DocumentSetTouchesOnlyMissingPages | modules/processors.py:605-814 | cached pages are never overwritten: every key with records and every key that is not a missing page's keeps its records; with saving off the store is unchanged |
| Processors.NewSetCachedFirst | modules/processors.py:783 | after the English pipeline the cached artifacts come first |
| Processors.MissingPagesCachedFirst | modules/processors.py:704-783 | after the lookup the cached artifacts come first |
| Processors.DocumentSetCachedFirst | modules/processors.py:651-783 | a run returns the cached artifacts first, in the store's order |
| Processors.AllCachedRunsNothing | modules/processors.py:662-685 | with every page cached the run writes and returns the cached artifacts, changes nothing and consults no page pipeline |
| Processors.NewPagesAgree | modules/processors.py:718-780 | loops whose pages give the same records save the same and add the same |
| Processors.PageRecordsAgree | modules/processors.py:727-746 | a page's records depend on a language's aligner only when its document is given |
| Processors.NewSetDependence | modules/processors.py:709-796 | after the English pipeline, the aligners matter only where a document is given |
| Processors.MissingPagesDependence | modules/processors.py:691-702 | after the lookup, the English pipeline runs only on the missing pages |
| Processors.DocumentSetDependence | modules/processors.py:605-814 | the English pipeline is consulted only on missing pages and each aligner only when its document is given |
| Processors.MissingSettingsRaise | modules/processors.py:691-701 | with pages to process, a run without thresholds or prompts raises before any page is processed |

## Left out

- File and directory I/O is not modelled:
  - writing the JSON outputs (page results, `english_artifacts.json`, the names files, the raw and validated consolidated files);
  - creating directories;
  - deleting stale names files.
  Reads of saved results are parameters instead: the English page memo, the earlier consolidated file, and the results-directory listing with file contents.
- `open()` failures on listed or existing files are not modelled. An `OSError` there would escape the function.
- PDF rendering is not modelled. A document is known only by its page count, which may be unknown (`Option<nat>`); `fitz.open` failures in the orchestrator fall back to 9999, as the source does.
- Model calls are parameters:
  - OCR, correction and the name aligner are oracle functions;
  - the English page pipeline of the orchestrator (OCR, correction and extraction for one page) is the `englishPage` parameter;
  - `extract_multilingual_names_for_page`'s pipeline is the `arNames`/`frNames` parameter.
  Prompt templates and individual per-language thresholds are folded into these oracles.
- `json.loads`, the regular expressions (code fences, object fragments, trailing-comma repair, the orchestrator's base-name suffix) and `int()` are parameters. `os.listdir` order is the order of the listing parameter.
- The orchestrator's base name (`splitext`, the language-suffix regex) only names output files. It is modelled only as far as `os.path.basename` can raise.
- Logging is not modelled, except where building a log line can raise.
- `save_run_statistics`, `search_artifacts`, `get_stats` and `get_simple_db` of the page cache are outside the core. So is the `processing_cache` table.
- The store's `__init__` reads the environment. The model's constructor takes the resulting `enabled` flag and table.
- Real (network) branches of the older client are not modelled, nor are its `mark_file_processed`, `check_file_processed`, page-cache and batch methods, or the first `check_page_processed`, which the later definition overrides.
- MD5 and SHA-256 are functions given as parameters. An unreadable file makes the older client's MD5 yield `None`, so its caller raises; the page cache's `_hash_file` yields "", as in the source.
- `str()` of lists and objects in the mock search is a parameter (`repr`). `str.lower()` is modelled for ASCII letters only, wherever it is used (mock search, language markers, file names).
- Aliasing of validated items is not modelled. In `create_consolidated_database` and the orchestrator, validated objects are updated in place; the model rebuilds them as values with the same contents.
- `ocr_model or model` and `extraction_model or model` are resolved before the model is entered: the run carries the two ids.
- The pages directory of the other-language documents is a function of the document (`pagesDir`), not the path built from the document's name.
- JSON numbers with a fraction or an exponent are not modelled: `Json` holds integers only, so a model reply that `json.loads` would read as a float is outside the model's inputs. Page numbers (`source_page`) are integers in the source too, and are only compared and used as keys.
- TextProcessing.ErrorRecord: the `error` text of the record for an exception is only the prefix "JSON processing error: ". The exception's own message (`str(e)`), which follows it in the source, is not modelled.
- Processors.NamesForPage: its contract states only that the answer always has a length and is empty without artifacts. `Processors.NamesForPageKeepsAnswer` states which answer is returned once the page is rendered.

## Findings

The store and the orchestrator are modelled with each defect below as written. Each
corrected member is a separate variant, with the intended property proved about it.

| source | as written | input that shows it | evidently intended | confidence | as-written member | corrected member |
|---|---|---|---|---|---|---|
| modules/simple_db.py:163-166 | the page key hashes only the documents whose files still exist | two different uploads `a` and `b` whose temporary files are gone, same page, models and thresholds: both get one key, and the second save is skipped and reported saved | each document keeps its own key, using the same name-based identity `save_page_artifacts` falls back to | medium, not executed | SimpleDb.VanishedDocumentSaveIsSkipped | SimpleDb.CorrectedSaveKeepsDocumentsApart |
| modules/simple_db.py:400-413 | legacy saves key their pages by a made-up path `legacy_file_<hash>.pdf`, which does not exist, so a legacy page key ignores the document | two legacy payloads whose file hashes differ in their first eight characters, saving the same page: the second save is skipped and reported saved | each legacy document's pages are stored | medium, not executed | SimpleDb.LegacySaveOfOtherDocumentIsSkipped | SimpleDb.LegacyDocumentsKeptApart |
| modules/processors.py:754-770 | a back-fill that raises after the validator's output replaced the page records keeps that partly back-filled output | two merged records and a validator answer `[{}, 0]`: assigning into `0` raises, and the page keeps `[record, 0]` | the page falls back to the unvalidated records, as the warning says | medium, not executed | Processors.FailedBackFillKeepsValidatorOutput | Processors.ValidatedPageFallsBack |
| modules/processors.py:610-630 | the base name is computed from `doc_group.get("EN", "")` before the check for a missing English document | a group `{"EN": None}`: `os.path.basename(None)` raises `TypeError` | such a group returns `None` without processing, as the check intends | low (callers normally set EN), not executed | Processors.EnglishBaseNameAsWritten | Processors.EnglishNoneRaisesBeforeCheck |
