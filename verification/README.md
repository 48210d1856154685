# Verified model of the RAG backend

A Dafny model of the parts of the backend that compute or keep state: the ranking pipeline, the detection and
masking of personal data, the circuit breaker with retry, section parsing, document indexing, the settings and
response caches, the numeric guardrail and answer streaming. Each module follows one source file; code that works
step by step is a method or a class proved against a function on values, and the theorems are about those functions.
The lemmas named `...Meaning`, `...Mean` and the like say what such a function computes without using it or its helpers.

| module | models |
|---|---|
| Regex, Strings, StableSort, Prelude | Python's `re` on the patterns used, string and list operations, `sorted(..., reverse=True)` |
| Pii, PiiShapes | `guardrails/pii.py`: the nine patterns and what they match, the prioritised scan, masking |
| Resilience, OpenAiLlm | `resilience.py` and the hand-written loop in `generation/openai.py` |
| Rrf, DocumentScope, Reranking, RetrievalGate, Results, HybridSearch | the document flow of `search/hybrid.py`, from the retrieved lists to the gate and the masking |
| SearchMeaning, GateOutcomes | that flow said about the engines' answers; what the score gate decides on it, in general and at the default settings |
| SectionHeaders, PlainSections, MarkdownMeaning, ChunkMeaning | `chunking/header.py`: Markdown headings, guessed headings of plain text, chunks; what counts as a heading, character by character |
| Indexing | `document/processor.py` and `document/indexer.py` over the two stores and the document row |
| RagSettings, SettingsService, SearchCache | `config.py`'s `RAGSettings`, `services/settings.py`, `services/cache.py`, `api/settings.py`, `api/search.py` |
| CacheRuns, AdminPatches, CacheSoundness, CacheStaleness | runs of those services: coherence, staleness, lost updates, cache hits with one writer and with several |
| NumericVerifier, NumericMeaning, Streaming | `guardrails/numeric_verifier.py` and the word chunker of `api/openai_compat.py` |

Where the code does less than its design promises, the model keeps the code and states when it is right:

- a mobile number with exactly one hyphen matches its pattern but makes `mask_value` raise an IndexError
  (Pii.MaskedScan, Pii.OneHyphenRaises), and so fails the whole search request (HybridSearch.MaskDocumentsSpec);
- an unreadable LLM response records a success and then a failure, so such responses never open the breaker
  (OpenAiLlm.MalformedNeverTrips);
- `generate_answer` is not part of the cache key, so a request can be served a response without an answer; the cache is
  right exactly when the storing request carried the same flag (CacheSoundness.RightIffSameFlag,
  CacheSoundness.AnswerIsMissing);
- a `guardrails` patch cannot switch a guardrail: the flat flags overrule it (RagSettings.FlatFlagDecides);
- a second writer of settings overwrites what it has not seen (AdminPatches.UpdateLosesNothingIff,
  AdminPatches.StaleWriterOverwrites), and its change of a setting outside the cache key can be missing from cached
  responses although every service reads it (CacheStaleness.HitIsAlmostCurrent, CacheStaleness.OldCopyOutlivesPatch);
- a half-open probe that is cancelled records nothing, and the breaker then rejects every call until another call
  records an outcome (Resilience.CancelledProbeBlocks);
- a reindexing run that fails and cannot write its failure leaves a row INDEXED with chunks that are gone
  (Indexing.IndexedIsTruthful, Indexing.IndexedButEmpty);
- scope selection with a negative `top_n` is not idempotent (DocumentScope.SelectIdempotent); the PATCH body has no
  `document_scope_top_n` (backend/app/models/schemas.py:178-220), so such a value can only come from the stored row;
- a heading guessed on the last line of a plain text is dropped (PlainSections.PlaintextKeepsLines,
  PlainSections.LastHeadingIsLost);
- streamed chunks lose empty words and, concatenated, the boundary spaces (Streaming.RejoinsExactly,
  Streaming.ConcatenatesExactly);
- a number can be grounded by the join of context texts that each lack it, exactly when it runs over a boundary
  (NumericVerifier.GroundedAcrossTexts, NumericVerifier.SplitNumberPasses);
- the quality gate passes whatever the reranker answers exactly when its thresholds are at most those of
  GateOutcomes.CalibratedGateIff, and fails whatever is retrieved in hybrid mode without a reranker exactly when
  GateOutcomes.HybridGateIff says so; at the shipped defaults both are the case, and the gate being soft, a non-empty
  list then goes on as a soft failure (GateOutcomes.ShippedDefaults).

`Regex.Alphabet` (with `Regex.Sane`) and `PlainSections.Chars` stand for Python's Unicode tables. The sigmoid is any
non-decreasing function into (0, 1). Search engines, the cross encoder, the LLM and the chunk splitter are arbitrary
functions; clocks, durations, jitter and failures are parameters of each step.

## Model

| member | source | states |
|---|---|---|
| Regex.FindIterSpec | backend/app/services/guardrails/pii.py:19-32 | `finditer` gives true matches, in order, non-empty and disjoint, and every position where the pattern could match starts a match or lies inside one |
| Regex.FindIterUnique | backend/app/services/guardrails/pii.py:19-32 | those properties fix the list of matches for the step used |
| Regex.MatchItemsPreferred | backend/app/services/guardrails/pii.py:19-32 | backtracking finds a way to match whenever there is one, and the one that greedy order prefers |
| Pii.RegexScan | backend/app/services/guardrails/pii.py:44-73 | the nested loops over `date_ranges` and `occupied` compute the selection of Pii.Scan, whose meaning ScanSelects and ScanSound give |
| Pii.ScanPattern | backend/app/services/guardrails/pii.py:57-72 | one pattern's loop: the candidates grow by its admitted matches and `occupied` stays exactly the union of the selected spans |
| Pii.ScanSelects | backend/app/services/guardrails/pii.py:44-73 | a match of any pattern is selected if and only if it is not a date-sensitive one touching a date and overlaps no selected match of an earlier pattern |
| Pii.ScanSound | backend/app/services/guardrails/pii.py:44-73 | the selected spans are pairwise disjoint, non-empty, inside the text, and each is a match of its pattern carrying the matched text |
| PiiShapes.ScanRule | backend/app/services/guardrails/pii.py:44-73 | a match of a registration or account number is selected if and only if it shares no position with a date and no selected match of an earlier pattern overlaps it; a match of the six other kinds whatever dates it touches |
| PiiShapes.DatesStay | backend/app/services/guardrails/pii.py:46-63 | no selected registration or account number shares a position with a date: four digits, two and two, with hyphens between, read from left to right |
| PiiShapes.DateAloneStays | backend/app/services/guardrails/pii.py:60-63 | "2024-01-15" is written like an account number and nothing in it is selected |
| PiiShapes.PatternsMean | backend/app/services/guardrails/pii.py:19-29 | a part of a text matches a pattern if and only if it is written like a number of that kind (Template, Address) and nothing that would prolong it stands right before or after |
| Pii.MatchesAreShaped | backend/app/services/guardrails/pii.py:19-29 | how many hyphens a match of each pattern has, and that an e-mail match holds an at sign |
| Pii.MaskValueFails | backend/app/services/guardrails/pii.py:129-184 | on a matched value `mask_value` raises if and only if it is a mobile number with exactly one hyphen |
| Pii.MaskValueMeaning | backend/app/services/guardrails/pii.py:129-184 | a masked value keeps the part before its first hyphen (or the fixed prefix), keeps its hyphens and stars the rest |
| Pii.MaskFallback | backend/app/services/guardrails/pii.py:129-184 | a value without the hyphens of its kind shows its first two characters and its length |
| Pii.MaskEmail | backend/app/services/guardrails/pii.py:159-166 | a masked e-mail is the first letter of the local part, three stars and the domain |
| Pii.Mask | backend/app/services/guardrails/pii.py:186-192 | the loop performs the splices in descending order of start, up to the first value that cannot be masked |
| Pii.MaskIsSimultaneous | backend/app/services/guardrails/pii.py:186-192 | for disjoint maskable spans in any order the result is the simultaneous replacement of every span, gaps unchanged |
| Pii.MaskedScan | backend/app/services/guardrails/pii.py:44-192 | masking a scanned text raises if and only if a one-hyphen mobile number was selected, and otherwise is the simultaneous replacement |
| Pii.MaskingKeepsPositions | backend/app/services/guardrails/pii.py:129-192 | with no e-mail and no one-hyphen mobile number the length is kept and each position holds its character or a star, exactly as its span says |
| Pii.OneHyphenRaises | backend/app/services/guardrails/pii.py:140-144 | a concrete text on which scanning and masking raises |
| Resilience.CircuitBreaker.State | backend/app/services/resilience.py:53-60 | reading the state moves an open breaker to half open once the timeout has passed |
| Resilience.CircuitBreaker.AllowRequest | backend/app/services/resilience.py:62-70 | the new fields and the answer, as the step function of the runs below |
| Resilience.CircuitBreaker.RecordSuccess | backend/app/services/resilience.py:72-76 | the new fields |
| Resilience.CircuitBreaker.RecordFailure | backend/app/services/resilience.py:78-95 | the new fields |
| Resilience.RunRefinesHistory | backend/app/services/resilience.py:39-95 | after any interleaving of calls: closed if and only if fewer failures than the threshold since the last success, the failure count is that number, half open if and only if some later call was made after the timeout |
| Resilience.AdmissionRule | backend/app/services/resilience.py:62-70 | a request is let through if and only if the failures are below the threshold, or the timeout has passed since the last failure and no probe was let through since |
| Resilience.HalfOpenIsMature | backend/app/services/resilience.py:53-60 | half open implies that the recovery timeout has passed since the last failure |
| Resilience.OneProbePerEpisode | backend/app/services/resilience.py:62-70 | until an outcome is recorded at most one request is let through by a tripped breaker, and none once the probe is used, however much time passes |
| Resilience.WithRetry | backend/app/services/resilience.py:124-165 | the attempt loop ends (returned, raised, rejected or cancelled), sleeps, takes time and records on the breaker as Resilience.Call says, and without a breaker as Resilience.Attempts says |
| Resilience.AttemptsMeaning | backend/app/services/resilience.py:133-160 | attempts go on while they fail with an exception on the list, retries are left and no pause is cut short; the last one decides the result; the time slept is exactly the sum of min(base_delay * 2^i, max_delay) * jitter |
| Resilience.CallBounds | backend/app/services/resilience.py:124-165 | a rejected call records nothing; an admitted one makes 1 to max_retries + 1 attempts, records exactly one outcome unless it is cancelled, and then none, and sleeps at most min(base_delay * (2^max_retries - 1), max_retries * max_delay) |
| Resilience.AdmissionBound | backend/app/services/resilience.py:53-165 | when every call is rejected or fails, at most threshold + floor(T / recovery_timeout) are admitted by time T, and at most max_retries + 1 times as many attempts made |
| Resilience.CancelledProbeBlocks | backend/app/services/resilience.py:62-165 | when the call that a tripped breaker lets through as its probe is cancelled, every later call is rejected, however late, as long as no other call records an outcome |
| OpenAiLlm.Generate | backend/app/services/generation/openai.py:53-104 | the loop ends, sleeps, takes time and records on its breaker as OpenAiLlm.CallApi says |
| OpenAiLlm.GenerateIsWithRetry | backend/app/services/generation/openai.py:53-104 | result and breaker equal those of `with_retry` with the same constants if and only if the first reply that is not retried is not an unreadable response, or the call is rejected, or the breaker had nothing to forget; an unreadable reply records two outcomes, a cancelled call none, any other admitted call one |
| OpenAiLlm.MalformedNeverTrips | backend/app/services/generation/openai.py:78-104 | any number of calls that end on an unreadable response, after whatever retries, leaves the breaker closed with a failure count of one |
| OpenAiLlm.SameErrorAgain | backend/app/services/generation/openai.py:15-32 | an admitted call that meets the same error again and again makes four attempts and sleeps 3.5 to 7 seconds if the error is a rate limit, one of five status codes or another API error, and makes one attempt otherwise |
| OpenAiLlm.ClientAdmission | backend/app/services/generation/openai.py:45-70 | the client's breaker lets a request through if and only if fewer than 5 failures came since the last success, or 30 seconds have passed since the last failure and no probe was used |
| Rrf.Combine | backend/app/services/search/rrf.py:21-72 | the dictionaries filled by the two loops give the fused list of Rrf.Fused |
| Rrf.FusedSpec | backend/app/services/search/rrf.py:41-72 | the fused list has distinct chunks, is ranked, drawn from both lists, scores each id by its weighted reciprocal ranks, and holds exactly the retrieved ids |
| Rrf.FusedMeaning | backend/app/services/search/rrf.py:41-72 | each score is the sum of weight / (k + rank + 1) over the hits of the id, each content that of the last vector hit or else the first keyword hit, and equal scores are in order of first appearance |
| Rrf.ScoresAreConserved | backend/app/services/search/rrf.py:41-72 | the scores add up to the weights handed out by both lists, even with repeated ids |
| Rrf.Dominance | backend/app/services/search/rrf.py:41-72 | a chunk ranked above another in every list that holds the other comes strictly before it in the output |
| Rrf.FusedScoreBound | backend/app/services/search/rrf.py:41-72 | every fused score is at most (vector_weight + keyword_weight) / (k + 1) |
| StableSort.StableSortIsUnique | backend/app/services/search/hybrid.py:596 | a descending permutation that keeps the order of equal keys is unique: the one the model's sort computes |
| DocumentScope.Select | backend/app/services/search/document_scope.py:25-50 | the grouping, scoring and filtering loops compute DocumentScope.Selected |
| DocumentScope.SelectIsFirstDocuments | backend/app/services/search/document_scope.py:25-50 | on a ranked list the selection is exactly the chunks of the first top_n distinct documents, in order, ties included |
| DocumentScope.SelectKeepsFirst | backend/app/services/search/document_scope.py:25-50 | on a ranked list with top_n not negative: exactly the chunks whose document has fewer than top_n documents before it, in their order |
| DocumentScope.SelectIdempotent | backend/app/services/search/document_scope.py:25-50 | selecting twice is selecting once if and only if top_n is not negative or nothing is kept |
| DocumentScope.NegativeSelectsLess | backend/app/services/search/document_scope.py:46-50 | three ranked documents on which selecting twice with top_n = -1 keeps fewer |
| Reranking.Rerank | backend/app/services/reranking/korean.py:39-98 | both modes, from index-logit pairs to the rescored slice |
| Reranking.KeepsTheBest | backend/app/services/reranking/korean.py:66-98 | in both modes the results are the inputs with the greatest logits, ties to the earlier one, in that order, as many as `[:top_k]` keeps, scored by the logit or by alpha * sigmoid(logit) + (1 - alpha) / (rank + 1) |
| Reranking.BlendDescends | backend/app/services/reranking/korean.py:87-93 | the blended scores descend already, lie in (0, 1], and the first is at least 1 - alpha |
| Reranking.CalibrationKeepsOrder | backend/app/services/reranking/korean.py:70-98 | calibrated mode returns the documents of replace mode in the same order for every top_k, with the blended score of each rank |
| RetrievalGate.GateOnRanked | backend/app/services/guardrails/retrieval_gate.py:44-80 | on a ranked list the gate passes if and only if some document reaches the top threshold and enough of them qualify |
| RetrievalGate.VerdictMeaning | backend/app/services/guardrails/retrieval_gate.py:44-80 | on any list: when the gate passes, when a failure is soft, the count of qualifying documents, the top score and the reason |
| RetrievalGate.GateByRank | backend/app/services/guardrails/retrieval_gate.py:44-80 | on a ranked list the gate reads two scores: the first against the top threshold, and the one of rank min_doc_count against the document threshold |
| HybridSearch.Deduplicate | backend/app/services/search/hybrid.py:585-596 | the loop over `seen` and the sort compute HybridSearch.Deduped |
| HybridSearch.DedupSpec | backend/app/services/search/hybrid.py:585-596 | distinct chunks, ranked, all from the input, and for every input a result with its id and at least its score |
| SearchMeaning.DedupMeaning | backend/app/services/search/hybrid.py:585-596 | each id once, as the first of its best results; equal scores in order of first appearance |
| HybridSearch.CascadingSearch | backend/app/services/search/hybrid.py:631-723 | the list and the stage at which the cascade stops |
| HybridSearch.SearchDocuments | backend/app/services/search/hybrid.py:194-290 | the document flow from the union of the lists to the gate's decision |
| SearchMeaning.RetrievalMeaning | backend/app/services/search/hybrid.py:170-206 | every document of the union is offered by the search for one of the query strings with exactly its score, and every offer is met by a document of that id and at least that score; Offers says which engine gets which query in each mode, the tests of the cascade and the weights of each fusion |
| SearchMeaning.SoleQueryIds | backend/app/services/search/hybrid.py:525-565 | for the question alone: exactly the chunks the vector engine gives for the hypothetical answer and the keyword engine for the question, or only one of the two by mode |
| SearchMeaning.FlowMeaning | backend/app/services/search/hybrid.py:207-281 | scope selection, the cut to four times top_k, reranking with its fallback, and the gate's three outcomes, each said for itself |
| HybridSearch.GateInvariant | backend/app/services/search/hybrid.py:202-267 | on every path the documents at the gate are distinct, ranked and drawn from the retrieved union, so the score the gate reads is the greatest |
| GateOutcomes.DefaultGateAlwaysPasses | backend/app/services/search/hybrid.py:225-281 | after a successful calibrated rerank of a non-empty list the gate passes, whatever the scores, under the thresholds of CalibratedGateIff |
| GateOutcomes.CalibratedGateIff | backend/app/services/search/hybrid.py:225-281 | the gate passes for every output of the encoder if and only if min_top_score is at most 1 - alpha and min_doc_count is at most 0, or at most the length of the list with min_doc_score at most (1 - alpha) / min_doc_count; the sigmoid comes as close to 0 as one likes |
| GateOutcomes.HybridWithoutRerankNeverPasses | backend/app/services/search/hybrid.py:225-281 | with reranking off in hybrid mode and unique ids per list every score is at most the fusion ceiling, and the gate fails if a threshold it uses is above the ceiling or the scope keeps no document, for any min_doc_count |
| GateOutcomes.HybridGateIff | backend/app/services/search/hybrid.py:196-281 | with min_doc_count at most 1, no retrieved lists pass if and only if a threshold in use is above the fusion ceiling or the scope keeps no document |
| GateOutcomes.CascadeDecidesGate | backend/app/services/search/hybrid.py:631-723 | in cascading mode without reranking, with gate thresholds above what fusion can give and at most the cascade's own, the gate passes if and only if the cascade stopped on a BM25 list |
| GateOutcomes.ShippedDefaults | backend/app/config.py:83-163 | at the default settings: after a rerank the gate passes; in hybrid mode without one it fails, and a non-empty list continues as a soft failure; in cascading mode it passes exactly on BM25 lists |
| HybridSearch.MaskResults | backend/app/services/search/hybrid.py:292-310 | the masking loop over the documents, and when it is switched off |
| HybridSearch.MaskDocumentsSpec | backend/app/services/search/hybrid.py:292-310 | masking raises if and only if some document holds a selected one-hyphen mobile number; otherwise each document keeps its other fields and every selected span of its content is replaced at once |
| SectionHeaders.ParseMarkdown | backend/app/services/chunking/header.py:47-87 | the parser returns the preamble and, per heading, the ancestor path with the stripped gap after it |
| MarkdownMeaning.HeadingMeaning | backend/app/services/chunking/header.py:49-68 | each heading begins a line with as many hash signs as its level and white space, ends where a line ends, and its title is the stripped rest |
| MarkdownMeaning.HeadingsAreFound | backend/app/services/chunking/header.py:49-55 | wherever such a heading is written, a heading found covers it |
| MarkdownMeaning.SectionsMeaning | backend/app/services/chunking/header.py:47-87 | the whole text without headings; else the stripped text before the first heading, if it has ink, and one section for each heading with ink before the next |
| MarkdownMeaning.NestedSections | backend/app/services/chunking/header.py:66-85 | "# A", "## B" and a line of text give the one section "# A > ## B" |
| SectionHeaders.ParseHeadings | backend/app/services/chunking/header.py:61-87 | the heading loop with its stack computes the same sections, though the specification has no stack |
| SectionHeaders.SlotMeaning | backend/app/services/chunking/header.py:70-74 | slot k holds the last heading of level k + 1 with no later heading of smaller level, and is empty if there is none |
| SectionHeaders.BreadcrumbIsAncestorPath | backend/app/services/chunking/header.py:70-77 | the joined slots spell the chain of nearest ancestors of each heading |
| SectionHeaders.SectionsTile | backend/app/services/chunking/header.py:55-82 | preamble, headings and gaps in order are the whole text |
| SectionHeaders.MarkdownKeepsInk | backend/app/services/chunking/header.py:55-87 | the section bodies carry exactly the non-blank characters outside the headings |
| PlainSections.ParsePlaintext | backend/app/services/chunking/header.py:89-121 | the line loop computes PlainSections.Sections |
| ChunkMeaning.HeadingLine | backend/app/services/chunking/header.py:123-148 | a line is a heading if and only if its ink spans at most 80 characters, does not end in a full stop or comma and has something other than spaces and numerals, the next line is not blank and the line before is |
| PlainSections.NoAdjacentHeadings | backend/app/services/chunking/header.py:123-148 | no two adjacent lines are both taken for headings |
| PlainSections.PlaintextKeepsLines | backend/app/services/chunking/header.py:89-148 | the sections show every non-blank line once and in order, except a heading on the last line, lost if and only if a non-blank line precedes it |
| PlainSections.LastHeadingIsLost | backend/app/services/chunking/header.py:99-116 | a body line, a blank line and a title: the title is in no section |
| PlainSections.HeadingsOpenSections | backend/app/services/chunking/header.py:89-148 | every heading not on the last line has a section of its own, at the place its number among the headings gives, whose body shows exactly the non-blank lines (at least one) up to the next heading |
| PlainSections.ChunkSections | backend/app/services/chunking/header.py:21-45 | the chunks are numbered from zero in section order with their breadcrumbs, and a non-blank text gives at least one |
| ChunkMeaning.ContentsMeaning | backend/app/services/chunking/header.py:31-40 | the contents go section by section, one per piece of a body that is not blank, each under its breadcrumb in brackets |
| Indexing.DocumentIndexer.Delete | backend/app/services/document/indexer.py:28-30 | both deletes in order, stopping at one that raises |
| Indexing.DocumentIndexer.Index | backend/app/services/document/indexer.py:14-26 | nothing for no chunks; otherwise both writes in order, stopping at a failure |
| Indexing.DocumentProcessor.ProcessDocument | backend/app/services/document/processor.py:39-59 | the whole system after one run, for a failure at any awaited operation |
| Indexing.Convergence | backend/app/services/document/processor.py:39-59 | after any failed runs, a run that completes leaves Elasticsearch with exactly the chunks, the row INDEXED with their number and other documents untouched; PostgreSQL holds the same if and only if the embedder returned a vector for every chunk |
| Indexing.IndexedIsTruthful | backend/app/services/document/processor.py:39-59 | while failed runs can write their status, through any runs a row that says INDEXED counts exactly the chunks in Elasticsearch |
| Indexing.IndexedButEmpty | backend/app/services/document/processor.py:39-59 | reindexing that fails at the embedding and at the status write leaves both stores empty and the row INDEXED |
| RagSettings.DumpRoundTrip | backend/app/config.py:177-196 | storing and loading gives the same settings if and only if they are ones a constructor makes |
| RagSettings.BuildMeaning | backend/app/config.py:165-196 | every declared setting is what the data gives or else its default; a guardrail flag is the flat flag, else `enabled` of its object, else on |
| RagSettings.PatchIsFieldwise | backend/app/services/settings.py:51-55 | a patch sets exactly what it gives and keeps everything else |
| RagSettings.FlatFlagDecides | backend/app/config.py:177-196 | a guardrail is switched by its flat flag alone, whatever `enabled` the patched `guardrails` object carries |
| RagSettings.NothingLostIff | backend/app/services/settings.py:51-57 | patching an out-of-date copy gives the same as patching the current settings if and only if both agree wherever the patch is silent |
| SettingsService.CacheService.GetEntry | backend/app/services/cache.py:101-115 | the live entry, the counters, and nothing at all when switched off |
| SettingsService.CacheService.SetEntry | backend/app/services/cache.py:117-125 | the entry with its expiry, unless switched off or the lifetime is not positive |
| SettingsService.CacheService.GetSearch | backend/app/services/cache.py:67-84 | the same for a response |
| SettingsService.CacheService.SetSearch | backend/app/services/cache.py:86-97 | the same for a response |
| SettingsService.CacheService.InvalidateSearch | backend/app/services/cache.py:129-131 | every response is dropped, also when switched off |
| SettingsService.CacheService.InvalidateAll | backend/app/services/cache.py:149-154 | settings entry and responses are dropped and the counters reset |
| SettingsService.Service.GetSettings | backend/app/services/settings.py:25-49 | value, own copy, Redis and counters after a read through the three tiers |
| SettingsService.ReadTiers | backend/app/services/settings.py:15-49 | for 60 seconds the own copy and nothing is touched; else the Redis entry until it expires, counted as a hit; else the row or the defaults, counted as a miss and stored for 60 seconds |
| SettingsService.Service.UpdateSettings | backend/app/services/settings.py:51-65 | value, row, own copy, Redis and dropped responses after an update |
| SettingsService.PatchSettings | backend/app/api/settings.py:40-63 | the update, the cleared copy of the search service and the cache switches |
| SettingsService.PatchSwitches | backend/app/api/settings.py:40-63 | after a patch the cache has the new switches, both copies are cleared, the row holds the new settings and Redis neither entry nor responses |
| SearchCache.SearchEndpoint | backend/app/api/search.py:99-147 | response, hit flag and cache contents of one request |
| SearchCache.OverridesMean | backend/app/api/search.py:64-83 | each effective setting is what the request asks for it under its own name, or else the base's; `reranker_top_k` is the request's `top_k` |
| SearchCache.ServedForItsLifetime | backend/app/api/search.py:109-138 | a stored response is served again if and only if caching is on in settings and service and the lifetime, or the default one for 0, is not over |
| SearchCache.RequestsAreCounted | backend/app/services/cache.py:67-97 | a hit or a miss is counted exactly when the cache is asked, and no other key, entry or row changes |
| SearchCache.HashSees | backend/app/services/cache.py:52-65 | two settings hash the same fields if and only if they agree on these sixteen names |
| SearchCache.RawKeyIsInjective | backend/app/services/cache.py:46-50 | with a hash of fixed length, query and hash can be read back from the key text |
| SearchCache.HashedFieldsDecide | backend/app/api/search.py:64-83 | under one base, two requests agree on the hashed fields if and only if they run with the same settings |
| SearchCache.KeyMeaning | backend/app/services/cache.py:46-65 | without digest collisions between them, two requests share a key if and only if query and effective settings agree |
| CacheRuns.EntryFollowsRow | backend/app/services/settings.py:25-65 | in every run, with any number of writers, the Redis entry is absent or equal to the row |
| CacheRuns.StaleByLessThanAMinute | backend/app/services/settings.py:25-49 | in every run, what any service returns was the row's value at a moment of the run less than 60 seconds ago |
| AdminPatches.PatchIsVisible | backend/app/api/settings.py:40-60 | the next read by the admin or the search service after a patch returns the patched settings |
| AdminPatches.PatchesCompose | backend/app/api/settings.py:40-60 | after any run each setting is what the last patch mentioning it says, and unmentioned ones are unchanged: no lost update |
| AdminPatches.UpdateLosesNothingIff | backend/app/services/settings.py:51-65 | after any run with any number of writers, an update patches the current settings if and only if what its writer reads agrees with them wherever the update is silent |
| AdminPatches.StaleWriterOverwrites | backend/app/services/settings.py:51-65 | with a second writer that has read before, the first writer's patch leaves no trace |
| CacheSoundness.CacheHitIsCurrent | backend/app/api/search.py:109-147 | in every run of atomic requests and patches a hit was stored by a request with this query and these effective settings since the cache was last emptied, and is what the pipeline gives that request under the settings in force now; a miss is the pipeline's response |
| CacheSoundness.UniformFlagsAreSound | backend/app/api/search.py:109-147 | if the requests for the same search since then carry one answer flag, the cache never changes the response |
| CacheSoundness.RightIffSameFlag | backend/app/api/search.py:109-147 | after any run, the response is the one computed now, for every pipeline, if and only if there is no live entry under the request's key or the request that stored it carried the same answer flag |
| CacheSoundness.AnswerFlagIsIgnored | backend/app/api/search.py:112-138 | while caching is on, a request repeated with any answer flag gets the very same response |
| CacheSoundness.RepeatIsRightIffSameFlag | backend/app/api/search.py:112-138 | the repeat of a request that found no live entry is right, for every pipeline, if and only if its answer flag is the same |
| CacheSoundness.AnswerIsMissing | backend/app/api/search.py:112-138 | on a fresh system, asking without and then with an answer gives no answer |
| CacheStaleness.HitIsAlmostCurrent | backend/app/api/search.py:109-147 | in every run with any number of writers, a hit answers an earlier request for the same query and hashed fields, under settings that were the row's less than 60 seconds before it was stored; a miss is the pipeline's response under the settings read |
| CacheStaleness.OldCopyOutlivesPatch | backend/app/api/search.py:109-147 | after another service patches a setting outside the key, a response computed under the old settings is still served once the patched ones are read |
| NumericVerifier.Verify | backend/app/services/guardrails/numeric_verifier.py:42-63 | the loop's verdict is that of NumericVerifier.Verified |
| NumericMeaning.VerdictMeaning | backend/app/services/guardrails/numeric_verifier.py:42-70 | an answer passes if and only if every number found in it is grounded in the joined texts; the misses are listed in order and all numbers are counted |
| NumericMeaning.NumbersMean | backend/app/services/guardrails/numeric_verifier.py:20-26 | what counts as a number with a unit: a period or nothing, spaces, digits, digits with separators, spaces, a unit, and no letter or ordinal sign before it |
| NumericMeaning.NumbersAreFound | backend/app/services/guardrails/numeric_verifier.py:64-70 | the first character of every such number lies in one that is checked |
| NumericMeaning.NormalizeMeaning | backend/app/services/guardrails/numeric_verifier.py:95-98 | normalizing drops the commas and the spaces and nothing else |
| NumericMeaning.FormsArePeriods | backend/app/services/guardrails/numeric_verifier.py:28-40 | a form may stand for a word if and only if both name the same of four periods, except that one word has no forms |
| NumericVerifier.GroundingIsMonotone | backend/app/services/guardrails/numeric_verifier.py:42-98 | adding context texts before or after never makes a grounded number ungrounded |
| NumericVerifier.ExtractPasses | backend/app/services/guardrails/numeric_verifier.py:42-98 | an answer that is a contiguous piece of one context text passes |
| NumericVerifier.GroundedByForm | backend/app/services/guardrails/numeric_verifier.py:72-98 | a number is grounded if and only if it, normalized, or an equivalent form occurs in the normalized context: the tests on the raw text decide nothing |
| NumericVerifier.GroundedAcrossTexts | backend/app/services/guardrails/numeric_verifier.py:51-98 | the joined texts ground a number if and only if one text does, or the number or an equivalent form runs over a boundary between texts |
| NumericVerifier.SplitNumberPasses | backend/app/services/guardrails/numeric_verifier.py:42-98 | an answer that passes on two texts and on neither of them alone |
| Streaming.StreamChunks | backend/app/api/openai_compat.py:109-124 | the word loop computes Streaming.Chunks |
| Streaming.RejoinsExactly | backend/app/api/openai_compat.py:109-124 | joining the chunks with single spaces gives the answer back if and only if it is only spaces or no empty word falls between chunks |
| Streaming.LeadingSpaceIsLost | backend/app/api/openai_compat.py:111-119 | an answer that joining does not give back |
| Streaming.TidyAnswerRejoins | backend/app/api/openai_compat.py:109-124 | an answer without leading, trailing or doubled spaces is recovered |
| Streaming.ConcatenatesExactly | backend/app/api/openai_compat.py:109-124 | plain concatenation gives the answer back if and only if it is only spaces, or does not begin with a space and has none from the tenth character on |
| Streaming.BoundarySpaceIsLost | backend/app/api/openai_compat.py:111-122 | an answer that concatenation does not give back |
| Streaming.ChunksKeepText | backend/app/api/openai_compat.py:109-124 | the non-space characters survive in order |
| Streaming.ChunkLengths | backend/app/api/openai_compat.py:109-124 | every chunk but the last has at least ten characters |

## Left out

- Rrf.Combine: requires that no rank makes the denominator k + rank + 1 zero; the source raises ZeroDivisionError there.
- Rrf.Dominance: asks for positive weights, k not negative and unique ids per list, without which it is false.
- Resilience.AdmissionBound: assumes max_retries of at least 0, delays that are not negative and a clock that does not run backwards; with negative max_retries the wrapper makes no attempt and raises.
- Pii.RegexScan: the LLM pass of `detect` that can drop candidates afterwards (pii.py:98-127).
- Reranking.Rerank: the cross encoder's logits are an argument; what it computes from the query and the first 512 characters is not modelled.
- HybridSearch.SearchDocuments: answer generation, evidence rescue, faithfulness and hallucination checks, the injection check and trace steps; a retrieval engine that raises ends the request.
- GateOutcomes.HybridGateIff: for a gate that asks for more than one document only the failing direction is stated (GateOutcomes.HybridWithoutRerankNeverPasses), because how high the second score can get depends on how far the two lists disagree and on how many different variants are searched, not on a bound in the settings.
- Indexing.Convergence: two workers on one document at once, partial bulk errors that do not raise, delayed visibility in Elasticsearch.
- Indexing.DocumentProcessor.ProcessDocument: a failing status write leaves the row as it was.
- SettingsService.Service.GetSettings: one clock reading per call; Redis and the database do not fail, so the fallbacks to defaults and misses are not modelled; values survive JSON unchanged.
- RagSettings.PatchIsFieldwise: values that pydantic rejects or converts.
- CacheRuns.EntryFollowsRow: services built without a database session (which always return defaults) or without the cache (which do not invalidate) are in the methods but not in the runs.
- CacheSoundness.CacheHitIsCurrent: all patches go through the admin's service (several writers are in CacheStaleness); requests are atomic and the index is fixed; a request that is computing while a patch drops the cache can store an outdated response afterwards. Digest collisions with requests whose responses may still be stored are excluded by hypothesis.
- Floating-point rounding and NaN: scores and times are exact reals.
- Result metadata, logging, metrics endpoints and Langfuse spans.
- `delete_document` (backend/app/api/documents.py), which never calls Elasticsearch.
- Authentication, file watching, task scheduling, evaluation, prompts, question classification and the frontend.
