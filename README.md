# Acme Corp HR policy chatbot and attrition analysis — a Dafny model

This project models the core of a retrieval-augmented HR policy chatbot and of
the helper that summarises employee attrition. It also proves properties of that model.

- **Query rewriting** (`QueryRewriter`, `query_rewriter.dfy`). A short follow-up
  question is made standalone by asking the chat-completion service with the
  last two history messages. The result is then split into sub-queries by
  parsing a numbered reply line by line. Each failure falls back to the text
  the stage was given.
- **Prompt assembly** (`PromptAssembly`, `rag_chain.dfy`). This covers the fixed
  system prompt, the numbered source blocks of `_format_context`, and the
  message list of `_build_prompt`, including its `pop(0)` rule.
- **The `POST /chats` turn** (`ChatApi`, `chat_api.dfy`). The handler picks the
  session id, loads the single conversation file, rewrites the question, and
  retrieves a semantic and a keyword answer per sub-query. It then builds the
  prompt, asks for the reply, and overwrites the file with the prompt plus the
  reply. Any failure is HTTP 500 and saves nothing.
- **Document chunking** (`DocumentChunking`, `document_chunker.dfy`, and
  `Chunking`, `chunking.dfy`):
  - sections are detected by the header pattern `^(\d+)\.\s+([A-Z\s&]+):` on
    the stripped line;
  - sections longer than the chunk size are split by the text splitter;
  - chunk ids have the form `<stem>_s<section>_c<index>`.
- **Attrition analysis** (`AttritionAnalysis`, `analysis.dfy`). This covers the
  grouping configuration (rating maps and numeric bands), the grouped counts
  of `analyze_attrition` with pandas' `NaN` behaviour, `top_n`, and the insight
  texts.

`PyText` (`text.dfy`) gives Python's `str.strip`, `str.split`, `'\n'.join`,
`str.split()` word splitting, `int`/`str` conversion and `Path.stem`. Its
blank set is that of `str.isspace`, which is also exactly what `\s` matches in
a `str` regular expression, so `strip` and the header pattern share it. `Wrappers`
and `Chats` (`chats.dfy`) hold `Option`, `FilterMap` and the chat message types.

The services are function-typed parameters:

- the chat-completion service returns `Replied(text)` or `Failed`;
- the embedding service, the vector store, the `uuid4` session id, the
  rendering of the retrieved list into the prompt, and the recursive character
  splitter are oracles too.

Every operation is stated over their answers.

Where the code and the documented intent of the system disagree, the model follows the code:

- The docstring of `chat_endpoint` says the user message is added to the
  conversation. What the code stores is the *prompt* that was sent, plus the
  reply. That includes the question wrapped in its retrieved context, and it
  drops the system message once the window holds more than one message.
  `ChatApi.SessionLengthAfterTurns` proves the consequence over the handler's
  own turns, replayed on one session that starts empty. After n answered turns
  the file holds min(2n+1, 8) messages, not 2n. From the fourth turn on it
  holds no system message, and then the next prompt is sent without one.
- The handler does not call `_format_context`. It renders the raw list of
  retrieved document lists into the prompt, so that rendering is the `render`
  oracle. `PromptAssembly.FormatContext` is modelled on its own.
- Evidence is not deduplicated or fused. Each sub-query contributes its
  semantic and keyword answers in order.
- A reply line starting with `-` that has no `.` keeps its dash, because the
  whole line is what follows "the first `.`".
- `_build_prompt` pops index 0, which is the system message it has just added,
  not the oldest history message.
- A failed embedding or vector-store call is not recovered per sub-query. It
  aborts the turn with HTTP 500.

## Model

| member | source | states |
|---|---|---|
| PyText.StripIsTrimmedSlice | rag_chatbot/utils/query_processor.py:130 | `strip` removes exactly the leading and trailing whitespace: the result is a slice whose ends are not whitespace, with only whitespace cut away |
| PyText.StripIdempotent | rag_chatbot/utils/query_processor.py:127-132 | stripping a stripped string changes nothing |
| PyText.JoinSplit | rag_chatbot/utils/document_processor.py:78-88 | joining the pieces of `split(sep)` with `sep` gives back the text |
| PyText.SplitJoin | rag_chatbot/utils/document_processor.py:78-88 | splitting a join of separator-free pieces gives back the pieces |
| PyText.SplitPiecesLackSeparator | rag_chatbot/utils/query_processor.py:127 | no piece of `split('\n')` contains a newline |
| PyText.WordsOfJoin | rag_chatbot/utils/query_processor.py:64 | `split()` of words joined by single spaces gives back those words |
| PyText.NatToString | rag_chatbot/utils/document_processor.py:146 | a section or chunk number renders as a non-empty string of decimal digits without a leading zero ("0" for zero) |
| PyText.DigitsValueOfNatToString | rag_chatbot/utils/document_processor.py:96 | `int(str(n)) == n` |
| PyText.NatToStringInjective | rag_chatbot/utils/document_processor.py:146 | different numbers render differently |
| PyText.Stem | rag_chatbot/utils/document_processor.py:146 | `Path(name).stem` is the prefix before the last dot when that dot is neither the first nor the last character, and the whole name otherwise, including when there is no dot |
| Wrappers.FilterMapOrigin | rag_chatbot/utils/query_processor.py:129-134 | every kept item comes from some input line |
| Wrappers.FilterMapKept | rag_chatbot/utils/query_processor.py:129-134 | every line that yields an item contributes it |
| Chats.LastN | rag_chatbot/src/rag_chain.py:75 | `xs[-n:]`: the last min(n, len) elements |
| QueryRewriter.ContextualizeRequest | rag_chatbot/utils/query_processor.py:64-85 | the service is skipped iff the history is empty or the query has more than ten words; otherwise the messages are the contextualiser prompt, the last two history messages and the query |
| QueryRewriter.Contextualized | rag_chatbot/utils/query_processor.py:58-97 | `_contextualize_query`: the query itself when the service is skipped (no history, or more than ten words); otherwise the stripped reply to the contextualise request, or the query when that call fails |
| QueryRewriter.ContextualizeSkips | rag_chatbot/utils/query_processor.py:64-65 | with no history or more than ten words, the query is returned unchanged, whatever the service |
| QueryRewriter.ContextualizeAsks | rag_chatbot/utils/query_processor.py:80-97 | otherwise the result is the stripped reply, or the query when the call fails |
| QueryRewriter.LineQueryStripped | rag_chatbot/utils/query_processor.py:130-134 | a sub-query read off a line is non-empty and has no surrounding whitespace |
| QueryRewriter.Decomposition | rag_chatbot/utils/query_processor.py:125-143 | decomposition never yields an empty list |
| QueryRewriter.ParsedQueriesAppend | rag_chatbot/utils/query_processor.py:129-134 | lines are parsed independently and in order |
| QueryRewriter.ParsedQueryOrigin | rag_chatbot/utils/query_processor.py:129-134 | every sub-query comes from one reply line |
| QueryRewriter.ParsedQueryKept | rag_chatbot/utils/query_processor.py:129-134 | every qualifying line contributes its sub-query |
| QueryRewriter.ParsedQueriesShape | rag_chatbot/utils/query_processor.py:129-134 | no more sub-queries than lines; each is non-empty and stripped |
| QueryRewriter.Decompose | rag_chatbot/utils/query_processor.py:99-143 | the line loop computes the declared decomposition, and the result is non-empty |
| QueryRewriter.ProcessQuery | rag_chatbot/utils/query_processor.py:37-56 | process_query decomposes the contextualised query; the list is never empty |
| QueryRewriter.TotalFailureKeepsLiteralQuery | rag_chatbot/utils/query_processor.py:95-97 | when every service call fails, the only sub-query is the user's own text |
| QueryRewriter.TwoNumberedLines | rag_chatbot/utils/query_processor.py:127-139 | a reply `d1. q1` / `d2. q2` decomposes into exactly `[q1, q2]`, dots inside the questions included |
| PromptAssembly.QuestionContentShape | rag_chatbot/src/rag_chain.py:79-82 | the user message holds the context after a fixed prefix and ends with the query |
| PromptAssembly.BuildPrompt | rag_chatbot/src/rag_chain.py:63-86 | the built list equals the declared prompt: the history window, behind the system prompt only when that window has at most one message, then the question |
| PromptAssembly.PromptLength | rag_chatbot/src/rag_chain.py:71-84 | with k = min(6, len(history)), the prompt has k+2 messages when k ≤ 1, else k+1, so always 2..7 |
| PromptAssembly.PromptContents | rag_chatbot/src/rag_chain.py:71-84 | the last message is the question; before it comes the untouched history window, behind the system prompt when k ≤ 1 |
| PromptAssembly.SystemPromptKept | rag_chatbot/src/rag_chain.py:38-50 | the prompt opens with the system prompt iff k ≤ 1 or the window itself starts with it |
| PromptAssembly.SourceBlocksNumbered | rag_chatbot/src/rag_chain.py:56-59 | block i renders passage i under number i+1, with its section title or "Unknown" |
| PromptAssembly.FormatContext | rag_chatbot/src/rag_chain.py:52-61 | the loop gives the blocks joined by blank lines, or "" with no passages |
| ChatApi.Loaded | rag_chatbot/src/main.py:50-67 | a load always returns a conversation of the requested session |
| ChatApi.ConversationStore.Load | rag_chatbot/src/main.py:50-67 | the stored record when it belongs to the session; otherwise an empty conversation, for a missing file, a file that is not valid JSON, or another session's file |
| ChatApi.ConversationStore.Save | rag_chatbot/src/main.py:70-73 | the file afterwards holds exactly the saved conversation |
| ChatApi.SaveThenLoad | rag_chatbot/src/main.py:50-73 | loading the saved session returns what was saved |
| ChatApi.LoadFindsOnlyItsSession | rag_chatbot/src/main.py:54-67 | a non-empty load comes from a record of that very session, and such a record is always found |
| ChatApi.SaveForgetsOtherSessions | rag_chatbot/src/main.py:70-73 | after a save, every other session loads as empty: the single file is overwritten |
| ChatApi.SessionIdFor | rag_chatbot/src/main.py:89 | a non-empty session id is kept; a missing or empty one is replaced by a fresh id |
| ChatApi.CreateEmbeddings | rag_chatbot/utils/azure_client.py:183-210 | an empty text list is refused before the service is called |
| ChatApi.Retrieval | rag_chatbot/src/main.py:110-128 | a successful retrieval contributes exactly two answers |
| ChatApi.EvidenceShape | rag_chatbot/src/main.py:105-128 | two entries per sub-query, semantic then keyword, in sub-query order, nothing merged or dropped |
| ChatApi.EvidenceFails | rag_chatbot/src/main.py:107-128 | evidence fails iff the retrieval of some sub-query fails |
| ChatApi.EvidenceFailureSticks | rag_chatbot/src/main.py:107-128 | once a prefix fails, the whole gathering fails |
| ChatApi.GatherEvidence | rag_chatbot/src/main.py:105-128 | the loop computes the declared evidence |
| ChatApi.ChatEndpoint | rag_chatbot/src/main.py:77-168 | the outcome and the new file are those of the declared turn |
| ChatApi.FailedTurnSavesNothing | rag_chatbot/src/main.py:141-168 | an HTTP 500 turn leaves the conversation file as it was |
| ChatApi.AnsweredTurnSavesPromptAndReply | rag_chatbot/src/main.py:135-164 | an answered turn replies under its session id and stores the prompt that was sent, followed by the reply as an assistant message |
| ChatApi.AnsweredTurnRoles | rag_chatbot/src/main.py:135-158 | the stored roles follow from the loaded roles alone |
| ChatApi.RolesAfterTurns | rag_chatbot/src/main.py:135-158 | n ≥ 1 role steps from an empty conversation give the system message plus n user/assistant pairs for n ≤ 3, then four pairs |
| ChatApi.StoredLengthAfterTurns | rag_chatbot/src/main.py:135-158 | n ≥ 1 role steps give min(2n+1, 8) roles, with no system role from the fourth step on |
| ChatApi.ReplayRoles | rag_chatbot/src/main.py:87-164 | replaying n answered turns of one session that starts empty leaves the file with exactly the roles of n role steps |
| ChatApi.SessionLengthAfterTurns | rag_chatbot/src/main.py:87-164 | after n ≥ 1 answered turns of one session that starts empty, the file holds min(2n+1, 8) messages of that session, none of them a system message from the fourth turn on |
| DocumentChunking.PatternGroupsSound | rag_chatbot/utils/document_processor.py:84 | a match has digits, a dot, whitespace, a title-character run and a colon, and the groups are the digits and the run; the run keeps the blanks `\s+` consumed, which the regular expression's group 2 drops, so the two agree once stripped (as the title is) |
| DocumentChunking.PatternGroupsComplete | rag_chatbot/utils/document_processor.py:84 | every line of that shape matches with those groups |
| DocumentChunking.HeaderIndices | rag_chatbot/utils/document_processor.py:83-86 | header positions are valid header lines, in increasing order |
| DocumentChunking.HeaderIndicesComplete | rag_chatbot/utils/document_processor.py:83-86 | every header line is found |
| DocumentChunking.SectionsBetweenSpec | rag_chatbot/utils/document_processor.py:86-108 | section k runs from header k up to the next header or the end |
| DocumentChunking.SectionsWith | rag_chatbot/utils/document_processor.py:110-115 | detection never returns an empty list |
| DocumentChunking.NoHeaderFallbackWith | rag_chatbot/utils/document_processor.py:110-115 | a text without headers is one section, number 1, titled "Document", holding the unstripped text |
| DocumentChunking.NoHeaderFallback | rag_chatbot/utils/document_processor.py:110-115 | the same for the actual header pattern |
| DocumentChunking.SectionsPerHeaderWith | rag_chatbot/utils/document_processor.py:78-108 | with headers present, one section per header line; each has that header's number and stripped title and the joined, stripped lines from it to the next header; text before the first header is dropped |
| DocumentChunking.ScanSections | rag_chatbot/utils/document_processor.py:78-115 | the line-by-line scan computes the declared sections |
| DocumentChunking.DetectSections | rag_chatbot/utils/document_processor.py:66-118 | detect_sections computes the declared sections for the header pattern |
| Chunking.DefaultChunker | rag_chatbot/utils/document_processor.py:48-64 | the defaults are chunk size 500 and overlap 50 |
| Chunking.SectionChunksAt | rag_chatbot/utils/document_processor.py:144-160 | one chunk per piece; chunk k carries piece k, index k, the piece count, the section's number and title, and id `<stem>_s<n>_c<k>` |
| Chunking.ChunkSection | rag_chatbot/utils/document_processor.py:120-162 | the loop computes the declared chunks of a section |
| Chunking.ShortSectionIsOneChunk | rag_chatbot/utils/document_processor.py:139-140 | content within the chunk size is a single chunk `_c0`, index 0 of 1, holding the whole content |
| Chunking.LongSectionFollowsSplitter | rag_chatbot/utils/document_processor.py:141-142 | longer content is chunked exactly as the splitter cut it |
| Chunking.ChunkSections | rag_chatbot/utils/document_processor.py:182-186 | the loop concatenates the sections' chunks in order |
| Chunking.ChunkDocument | rag_chatbot/utils/document_processor.py:164-190 | chunk_document chunks the detected sections |
| Chunking.ChunkIdInjective | rag_chatbot/utils/document_processor.py:146 | within one file, equal chunk ids mean equal section number and chunk index |
| Chunking.AllChunksOrigin | rag_chatbot/utils/document_processor.py:146-153 | every chunk's id is built from its own section number and index, and that number belongs to a detected section |
| Chunking.SectionIdsDistinct | rag_chatbot/utils/document_processor.py:145-146 | the chunk ids of one section are pairwise distinct |
| Chunking.DocumentIdsDistinct | rag_chatbot/utils/document_processor.py:181-186 | when section numbers are distinct, all chunk ids of a document are distinct |
| Chunking.ChunkCount | rag_chatbot/utils/document_processor.py:181-186 | the chunk count is the total piece count, so one chunk per section when every section is short |
| AttritionAnalysis.BandIndex | notebooks/analysis_utils.py:43-66 | a value falls in the first band whose limit it does not pass, having passed every earlier one |
| AttritionAnalysis.BandLabel | notebooks/analysis_utils.py:43-66 | a bucket is always one of the band's labels |
| AttritionAnalysis.BandIndexCounts | notebooks/analysis_utils.py:43-66 | the band index counts exactly the limits the value passes |
| AttritionAnalysis.BandIndexMonotone | notebooks/analysis_utils.py:43-66 | a larger value never lands in an earlier band |
| AttritionAnalysis.ConfiguredBandsWellFormed | notebooks/analysis_utils.py:43-66 | every configured band list has one label more than limits, with increasing limits |
| AttritionAnalysis.YearsAtCompanyBoundaries | notebooks/analysis_utils.py:43-48 | boundary values 2/3, 5/6 and 10/11 fall as the chained comparisons say, with everything ≤ 2 "New" |
| AttritionAnalysis.AgeBoundaries | notebooks/analysis_utils.py:55-60 | 30, 31, 50 and 51 fall in the stated age bands |
| AttritionAnalysis.MonthlyIncomeBoundaries | notebooks/analysis_utils.py:61-66 | income bands use strict comparisons: 5000 is "Medium", 15000 is "Very High" |
| AttritionAnalysis.RatingLabel | notebooks/analysis_utils.py:15-42 | ratings 1..5 map to "Bad", "Average" or "Great", and every other value maps to nothing |
| AttritionAnalysis.RatingLabelMonotone | notebooks/analysis_utils.py:15-42 | a higher rating never gets a worse label |
| AttritionAnalysis.GroupingFor | notebooks/analysis_utils.py:14-67 | every configured bucketing is well formed |
| AttritionAnalysis.CategoryOf | notebooks/analysis_utils.py:223-232 | the category of a cell: an error (`NotComparable`, the TypeError) iff a bucketing meets text; unchanged for unconfigured columns; a label or NaN for rating maps |
| AttritionAnalysis.Categories | notebooks/analysis_utils.py:223-232 | one category per row, agreeing with CategoryOf; it fails iff some row fails |
| AttritionAnalysis.Distinct | notebooks/analysis_utils.py:236 | the group keys: the same members as the categories, each once |
| AttritionAnalysis.SumOverDistinct | notebooks/analysis_utils.py:235-242 | summing a count over the distinct keys counts every flagged row once |
| AttritionAnalysis.Summarize | notebooks/analysis_utils.py:213-244 | the checks in the source's order: an absent column is `ColumnNotFound`, then a text met by a bucketing is `NotComparable`, then an absent `EmployeeID`, then an absent `Attrition` is `KeyMissing`; otherwise one line per distinct category, in the order of the distinct categories |
| AttritionAnalysis.SummarizeErrors | notebooks/analysis_utils.py:217-242 | the analysis fails iff the column is absent, a bucketed column holds text, or `EmployeeID` or `Attrition` is absent; an absent column is reported as such |
| AttritionAnalysis.SummaryLines | notebooks/analysis_utils.py:235-244 | one line per distinct category, covering every row's category; Total counts ids, Attrited counts "Yes", Retained = Total − Attrited; Retained ≥ 0 when no id is missing |
| AttritionAnalysis.SummaryTotals | notebooks/analysis_utils.py:235-242 | Total sums to the rows with an id; Attrited sums to the leavers |
| AttritionAnalysis.TotalsCoverAllRows | notebooks/analysis_utils.py:235-242 | with no missing id, Total sums to the number of rows |
| AttritionAnalysis.MissingIdCountsNoEmployee | notebooks/analysis_utils.py:238-244 | a leaver without an `EmployeeID` gives a line with Total 0, Attrited 1, Retained −1 |
| AttritionAnalysis.Head | notebooks/analysis_utils.py:249 | `head(n)`: the first n lines, or all but the last −n for negative n |
| AttritionAnalysis.KeepTop | notebooks/analysis_utils.py:248-249 | `None` and 0 keep every line; other values keep the prefix `head` keeps |
| AttritionAnalysis.InsightText | notebooks/analysis_utils.py:329-331 | the column's insight when it has one, else the fixed default sentence |
| AttritionAnalysis.GroupedColumnsHaveInsights | notebooks/analysis_utils.py:14-67 | every column with a configured grouping also has its own insight text |

## Left out

- Services. The chat-completion service, the embedding service, the vector
  store, `uuid4` and the text splitter are oracles: their parameters
  (temperature, token limits, `top_p`) and their internals are not modelled.
- Retrieval errors. A store error, including one the keyword query might
  raise for passing both embeddings and texts, is a failed store call.
- Concurrency and I/O. FastAPI's async machinery, concurrent requests, file
  system errors, logging and `print` are not modelled. A file that cannot be
  opened or decoded as text raises in the handler, which then answers with
  HTTP 500; the model has no such file state. Only a file that is not valid
  JSON falls back to an empty conversation, as `NotJson`.
  A `logger` call with stray arguments only prints a logging error, so it has
  no effect on the outcome.
- ChatApi.ConversationStore.Load: a conversation file that parses as JSON but
  is not an object is treated as `NotJson` (an empty conversation). Python
  would raise on `.get` there, and the turn would fail with HTTP 500.
- Rendering. The rendering of the retrieved list into the prompt (the Python
  `repr` of nested lists) is the `render` oracle.
- The knowledge-base pipeline is not part of this model. That covers
  `DocumentProcessor`, `embed_and_store_chunk`, file hashing and document
  loading.
- `created_at`. The timestamp in chunk metadata is omitted: it comes from the
  clock.
- `chunk_overlap` is carried but only the splitter uses it.
- PyText.IsDigit: `\d` accepts every Unicode decimal digit, and `str.isdigit`
  also accepts superscripts and other Unicode digits such as '²' or '፩'. The
  model accepts only `0`–`9`, for the header pattern and for the test on the
  first character of a reply line alike.
- PyText.Stem models `Path(name).stem` for a bare file name. It does not
  model a name with directory parts.
- Duplicate section numbers. Chunk ids are proved distinct only when section
  numbers are distinct (Chunking.DocumentIdsDistinct). A document that repeats
  a section number gets colliding ids `<stem>_s<n>_c0`.
- Attrition rate. The rate column (`/ Total * 100`, rounded to two places) is
  floating point and is not modelled, and neither is the descending sort by
  rate. The summary keeps the categories in order of first appearance, and
  KeepTop is stated over that order.
- pandas ordering. `groupby`'s sorting of keys is not modelled, since the
  sort by rate follows anyway.
- Plotting. `create_attrition_plot` and the plotting helpers are
  presentation, and `COLUMN_DISPLAY_NAMES` only feeds them.
- Label overlap. The YearsAtCompany label "Veteran (10+ yrs)" starts at 11,
  because the code tests `x <= 10` for "Experienced (6-10 yrs)". The model
  follows the comparisons, not the labels.
