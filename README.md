# veriscore-rs claim-verification reward pipeline, in Dafny

This project models the core of veriscore-rs, a service that gives a factuality reward to
model completions. Each completion is processed in five stages:

1. **Segmenting.** The response is cut into trimmed, non-empty sentences. Each sentence gets
   a context window: an optional `Question:` line, a `ContextL:` line, the focal
   `<SOS> … <EOS>` line, and a `ContextR:` line when sentences follow.
2. **Extracting.** There is one extraction prompt per window. Each completion is trimmed and
   parsed as a JSON string array; a completion that does not parse gives no claims. The
   claim lists are flattened into `all_claims`.
3. **Retrieving.** Every claim is searched. Failed searches are dropped. The successful
   `(claim, hits)` pairs are collected in the order the searches finish.
4. **Verifying.** There is one judge prompt per evidence entry. Its instruction lists the
   binary or the ternary labels. Only the label `"supported"` counts as Supported. Result
   `i` is zipped back to entry `i`.
5. **Scoring.** Precision is supported claims over `max(1, n)`. Recall is saturated against
   K. F1 is guarded against a zero denominator.

The reward endpoint runs every completion through the pipeline. A finished item is rewarded
with its F1 and a failed item with 0.0.

The external calls are parameters:
- the chat gateway, a function from a batch of prompts to completions or an error;
- web search, a function from a claim to hits or an error;
- the Unicode sentence splitter (section 5 of Unicode Standard Annex #29);
- the JSON parsing of claim arrays and of judge labels.

Completing tasks out of order (`buffer_unordered`) is modelled as a scheduler that picks any
pending task next. It returns the permutation it followed as a ghost value.

Modules: `Wrappers` (Option and Result), `Strings` (join and trim), `Types` (the records),
`Llm` (the chat gateway), `Unordered` (out-of-order collection), `Segments`, `Extraction`,
`Retrieve`, `Verification`, `Scoring` and `Server`.

## Model

| member | source | states |
|---|---|---|
| Strings.Trim | src/segments.rs:5 | The trimmed string is no longer than the input and has no whitespace (Unicode White_Space) at either end |
| Strings.TrimStartSuffix | src/segments.rs:5 | Trimming the front keeps a suffix of the input, and every character dropped is whitespace |
| Strings.TrimEndPrefix | src/segments.rs:5 | Trimming the back keeps a prefix of the input, and every character dropped is whitespace |
| Strings.TrimIsSlice | src/segments.rs:5 | The trim is a contiguous slice of the input, and everything dropped before and after it is whitespace |
| Strings.TrimIdempotent | src/segments.rs:5 | Trimming twice is the same as trimming once |
| Segments.TrimNonEmpty | src/segments.rs:4-7 | Every kept piece is non-empty and is its own trim; there are never more kept pieces than input pieces |
| Segments.SegmentSentences | src/segments.rs:3-8 | Every sentence returned is non-empty and equals its own trim; there are at most as many as the splitter produced |
| Segments.TrimNonEmptyAppend | src/segments.rs:4-7 | Trim-and-filter distributes over concatenation, so sentence order follows piece order |
| Segments.KeptPiece | src/segments.rs:4-7 | A piece whose trim is non-empty has its trim among the sentences |
| Segments.SourcePiece | src/segments.rs:4-7 | Every sentence is the trim of some piece |
| Segments.TrimNonEmptyMembership | src/segments.rs:4-7 | A string is a segmented sentence iff it is non-empty and is the trim of some splitter piece |
| Segments.TrimNonEmptyIdempotent | src/segments.rs:3-8 | Segmenting already-segmented sentences changes nothing |
| Segments.LeftBound | src/segments.rs:19 | Saturating subtraction: the left start is at most `i`, at most `left` below it, and exactly `left` below it unless it is 0 |
| Segments.RightBound | src/segments.rs:20 | The right end is `min(n, i + right + 1)`: bounded by both, equal to one of them |
| Segments.SlidingWindows | src/segments.rs:12-31 | Exactly one window per sentence (none for no sentences); window `i` is the newline-joined line list for sentence `i` |
| Segments.WindowLayout | src/segments.rs:19-28 | Line count and layout: optional question line; a `ContextL:` line that is always present and holds the previous `min(i, left)` sentences joined by spaces; the focal line; and a `ContextR:` line only when `min(right, n-i-1) > 0`, holding those next sentences joined by spaces |
| Segments.FirstLineIsQuestion | src/segments.rs:22-25 | The first line starts with `Question: ` iff `qa_mode` holds and a question is present; otherwise the first line is the `ContextL:` line |
| Segments.ContextRPresence | src/segments.rs:20-27 | A `ContextR:` line exists iff another sentence follows and `right > 0`, which is when `i + 1` is below the right bound |
| Segments.FocalLineRecoversSentence | src/segments.rs:26 | The focal line is `<SOS> ` + sentence + ` <EOS>`, and the sentence can be read back from it |
| Segments.WindowIgnoresLaterSentences | src/segments.rs:18-28 | Sentences past the right bound do not change window `i` |
| Segments.WindowIgnoresEarlierSentences | src/segments.rs:18-28 | Sentences before the left bound do not change window `i` |
| Extraction.ExtractionPrompt | src/extraction.rs:6-15 | Two messages: a system message holding the extraction instructions, then a user message that opens with the window introduction and closes with the request for a JSON claim array |
| Extraction.ExtractionPromptCarriesWindow | src/extraction.rs:6-15 | The prompt is a system message plus a user message, and the window can be read back from the user message |
| Extraction.ParseClaims | src/extraction.rs:27 | A completion's claims are what the parser yields for its trimmed text; a parse failure gives the empty list, not an error |
| Extraction.FlattenAppend | src/extraction.rs:25-29 | Flattening distributes over concatenation of claim lists |
| Extraction.FlattenSnoc | src/extraction.rs:28-29 | Extending `all_claims` by one list's claims flattens the extended `claim_list` |
| Extraction.FlattenLength | src/extraction.rs:25-29 | The length of `all_claims` is the sum of the claim-list lengths |
| Extraction.FlattenPosition | src/extraction.rs:25-29 | Claim `j` of window `i` sits in `all_claims` right after all claims of earlier windows |
| Extraction.CollectClaims | src/extraction.rs:24-30 | One claim list per completion, in completion order; `all_claims` is their flattening |
| Extraction.ExtractionPrompts | src/extraction.rs:18-21 | One prompt per segmented sentence (per window) |
| Extraction.Extracted | src/extraction.rs:17-37 | Err iff the gateway call fails, and then with its error. On success: the input is copied; `abstained` is false; both token counts are absent; there is one claim list per completion, each the parse of that completion; `all_claims` is the flattening of the claim lists, so it has the summed length; with a gateway that returns one completion per prompt, there is one claim list per sentence |
| Extraction.ExtractRecord | src/extraction.rs:17-37 | Segments, windows with left 3, right 1 and question mode iff a question is present, prompts, calls the gateway and collects, producing exactly `Extracted` |
| Retrieve.Successful | src/retrieve.rs:13-16 | Never more entries than claims |
| Retrieve.SuccessfulAppend | src/retrieve.rs:14-16 | Filtering distributes over concatenation of finished searches |
| Retrieve.SuccessfulCount | src/retrieve.rs:15 | Each `(claim, items)` entry occurs exactly as often as searches for that claim returned `Ok(items)`; duplicates are not merged |
| Retrieve.SuccessfulPermutation | src/retrieve.rs:14-16 | The entries, as a multiset, do not depend on the order in which searches finish |
| Retrieve.SuccessfulMembership | src/retrieve.rs:15 | `(c, items)` is an entry iff some search for `c` returned `Ok(items)` |
| Retrieve.FailedClaimDropped | src/retrieve.rs:15 | A claim whose searches all failed has no entry |
| Retrieve.AllSucceeded | src/retrieve.rs:13-16 | When every search succeeds, there is one entry per task, each with that task's claim and hits |
| Retrieve.EntriesWithinTopK | src/retrieve.rs:15 | If searches return at most `top_k` hits, every entry has at most `top_k` hits |
| Retrieve.RetrieveForRecord | src/retrieve.rs:6-19 | Always Ok and carries the extracted record unchanged; the dictionary is the successful entries in some permutation of search order, so it is multiset-equal to the successful entries in claim order |
| Unordered.ReorderMultiset | src/retrieve.rs:14 | Collecting by a permutation keeps every result exactly as often |
| Unordered.TakeOne | src/retrieve.rs:14 | Moving one pending task to the finished list keeps every task accounted for exactly once, and the collected results grow by that task's result |
| Unordered.DrainUnordered | src/retrieve.rs:14 | The results come out in a permutation of the task order and as the same multiset |
| Verification.InstructionAlternatives | src/verification.rs:6-10 | Binary mode offers the quoted labels supported and unsupported, separated by a bar; otherwise supported, contradicted and inconclusive |
| Verification.RenderEvidenceSnoc | src/verification.rs:11 | No hits render as ""; one more hit adds a newline and `- title [link]\nsnippet` |
| Verification.VerifyPrompt | src/verification.rs:5-19 | Two messages: a system message holding the judge instructions, then a user message in which the rendered evidence sits right after the claim and the evidence heading |
| Verification.VerifyPromptLayout | src/verification.rs:5-19 | The prompt is a system message plus a user message; the user message starts with the claim and the evidence heading and ends with the label instruction |
| Verification.VerifyPrompts | src/verification.rs:23 | One prompt per dictionary entry |
| Verification.LabelOf | src/verification.rs:28-29 | The label is the string the reader finds; a parse failure or a missing string label reads as `"inconclusive"` |
| Verification.Judge | src/verification.rs:28-33 | Supported iff the completion's label reads as exactly `"supported"`; any other label, a missing label or a parse failure gives Unsupported |
| Verification.InstructedLabelsCollapse | src/verification.rs:30-33 | Of the labels offered in either mode, only the first (`"supported"`) maps to Supported |
| Verification.Verified | src/verification.rs:21-39 | Err with the gateway's error iff the call fails. Otherwise: the evidence record is returned unchanged; there is one result per completion; result `i` has the claim and hits of dictionary entry `i` and the verdict of completion `i` |
| Verification.VerifyRecord | src/verification.rs:21-39 | The indexed loop produces exactly `Verified` |
| Scoring.CountSupported | src/scoring.rs:6 | The supported count is at most the number of results |
| Scoring.CountAllSupported | src/scoring.rs:6 | The supported count equals the number of results iff every result is Supported |
| Scoring.RatioFacts | src/scoring.rs:8-10 | For `n <= d`, `n/d` is in [0,1]; it is 1 iff `n = d` and 0 iff `n = 0` |
| Scoring.F1Symmetric | src/scoring.rs:11 | F1 does not change when precision and recall swap |
| Scoring.HarmonicBetween | src/scoring.rs:11 | For `0 <= lo <= hi` with a positive sum, F1 lies between `lo` and `hi` and is 0 iff `lo` is |
| Scoring.HarmonicMeanBounds | src/scoring.rs:11 | For p and r in [0,1], F1 is in [0,1], is 0 iff p or r is 0, and lies between `min(p, r)` and `max(p, r)` |
| Scoring.Score | src/scoring.rs:5-13 | `supported` is the number of Supported results and is at most `total`; `total >= 1`, equals n when n > 0, and is 1 for no results; precision is `supported / total`, recall is `min(supported / k, 1)`; precision in [0,1] and 1 iff n > 0 and all results are Supported; recall in [0,1] and 1 iff `supported >= k`; F1 is the guarded harmonic mean of precision and recall, in [0,1] and 0 iff `supported = 0` |
| Scoring.EmptyScore | src/scoring.rs:6-11 | No results score supported 0, total 1 and all three ratios 0 |
| Scoring.OneOfOneAgainstFour | src/scoring.rs:8-11 | One supported claim out of one with K = 4 gives precision 1, recall 0.25 and F1 0.4 |
| Scoring.HalfSupported | src/scoring.rs:8-11 | Three of six supported with K = 6 gives precision, recall and F1 all 0.5 |
| Scoring.RecallSaturates | src/scoring.rs:10-11 | With at least K supported, recall is 1 and F1 is the harmonic mean of precision and 1 |
| Server.ItemOutcome | src/server.rs:41-49 | An extraction failure is the item's error. Otherwise the item fails iff the verification call fails, and then with the gateway's error. On success the extracted record is carried along; the evidence is multiset-equal to the successful searches; there is one verdict per entry and no more entries than claims |
| Server.RunItem | src/server.rs:43-48 | Extract, retrieve, verify with `?` between them: the result is `ItemOutcome` for the order in which its searches finished; an extraction error is returned as is, and a finished item carries the extracted record |
| Server.ItemReward | src/server.rs:55-61 | The reward is in [0,1]; a finished item gets the F1 of its score against K; a failed item gets 0.0; the reward is positive iff the item finished with at least one supported claim |
| Server.Rewards | src/server.rs:54-62 | One reward per result |
| Server.CollectRewards | src/server.rs:51-62 | The loop pushes exactly `Rewards` of the results, in the order they arrive |
| Server.RewardsReorder | src/server.rs:52-62 | Rewarding results collected in another order gives the same rewards in that order |
| Server.RunAll | src/server.rs:41-49 | One task per completion; result `i` is a possible outcome of completion `i` |
| Server.RewardBatch | src/server.rs:36-64 | Always Ok, with one reward per completion, each in [0,1]; the rewards are those of the results in a permutation of completion order, so they match the per-completion rewards only as a multiset |
| Server.RewardBatchInOrder | src/server.rs:36-64 | Always Ok, with one reward per completion, and reward `i` is completion `i`'s reward |
| Server.SwappedRewards | src/server.rs:52-62 | A completion with one supported claim, followed by a failing one that finishes first, gets rewards `[0.0, 0.4]` instead of `[0.4, 0.0]` (K = 4) |
| Server.TwoSupportedCompletions | src/tests/reward_server.rs:73-76 | Two completions, each with one supported claim against K = 4, get rewards `[0.4, 0.4]` whatever order they finish in |

## Left out

- Network I/O is outside the model: the OpenAI client, the Serper HTTP client and its token-bucket rate limiter, the axum routing and serving (src/server.rs:66-74), and the command-line entry point. The gateway, the search and the parsers are function parameters.
- Concurrency bounds are not modelled, because only the order of completion is observable: the `concurrency` arguments of `retrieve_for_record` and `verify_record`, and the engine's `search_concurrency` and `llm_concurrency`. A bound of 0 passed to `buffer_unordered` is not modelled.
- The sentence-boundary rules of section 5 of Unicode Standard Annex #29 are a `Splitter` parameter. `serde_json` parsing is a `ClaimsParser` or `LabelReader` parameter.
- The system-prompt prose is only carried as constants. Only the structure of the prompts is proved.
- Floating point: scores are reals, so f32 rounding is not modelled.
- Scoring.Score: requires `k > 0`. The source does not check `k_median`. With 0, `supported / 0` is infinity or NaN in f32, and `f32::min` turns either into 1.0, so recall is 1 and F1 is `2p/(p+1)` for precision `p`. That case is not modelled.
- Server.RewardBatch: requires `k_median > 0`, so the zero case above is not modelled here either.
- Server.RunItem: requires the verification gateway to return one completion per prompt. Duplicate claims get the same search outcome, because search is a function here, while the source sends one request per occurrence.
- Verification.VerifyRecord: requires that a successful reply has no more completions than the dictionary has entries. With more, the source panics on `claim_snippets_dict[i]`.
- The gateway's order: the model assumes the chat gateway returns completion `i` for prompt `i`. src/llm/openai.rs is not part of this model, and its `chat_many` gathers with `buffer_unordered`.
- `usize` overflow of `i + right + 1` in src/segments.rs:20: integers are unbounded here.
- `ScoreConf` (src/scoring.rs:1) is not used by the core.
- Source that does not compile as written is modelled as evidently intended:
  - src/extraction.rs:1 imports `crate::segment` (the file is `segments.rs`);
  - src/extraction.rs:38 lacks a closing brace;
  - `Engine` (src/server.rs:16-22) has concrete field types, while its test builds it from trait objects.

## Findings

| source | as written | input that shows it | evidently intended | confidence | as-written member | corrected member |
|---|---|---|---|---|---|---|
| src/server.rs:52-62 | Item results are collected with `buffer_unordered` and rewards are pushed in the order the items finish | K = 4; completion 0 ends with one supported claim, completion 1 fails, and completion 1 finishes first: rewards `[0.0, 0.4]` | Reward `i` belongs to completion `i`, i.e. `[0.4, 0.0]` (an order-keeping `buffered` stream) | not executed; follows from the documented `buffer_unordered` semantics | Server.RewardBatch, Server.SwappedRewards | Server.RewardBatchInOrder |
