# Rank fusion, routing and the role workflow of a LangChain RAG tutorial, in Dafny

This project models the local, deterministic logic of a set of LangChain
retrieval-augmented-generation scripts, and proves properties of that model.
Every call to a language model, a retriever or a search service is a parameter
of the model: its result is an input.

- **Reciprocal Rank Fusion** (`recipocal_rank_fusion`, identical in
  `source/section6_3_3.py` and `source/section6_5_2.py`). The input is several
  ranked lists of documents. A dictionary from `page_content` to score is filled
  by two nested loops, adding `1 / (rank + k)` for every occurrence (0-based rank,
  default `k = 60`). Its items are then sorted by descending score, with Python's
  stable sort, and the contents are returned without their scores
  (`rank_fusion.dfy`, with the sort in `stable_sort.dfy`).
  - `ReciprocalRankFusion` keeps the imperative form: an insertion-ordered key
    sequence plus a map stand for the dictionary.
  - It is proved against the pure specification `Fuse`, which is built from
    `Keys`, `Score` and `SortByScoreDesc`.
- **Hybrid retrieval** (`source/section6_5_2.py`). The dense (Chroma) list and the
  keyword (BM25) list go side by side, dense first, and are fused at `k = 60`
  (`hybrid.dfy`).
- **Route dispatch** (`source/section6_5.py`, with an identical copy in
  `source/section6_5_1.py`). The two-valued `Route` enum is validated into a
  `RouteOutput`. `routed_retriever` then sends the question to the document
  retriever or to the `k=3` web retriever, and raises `ValueError` otherwise
  (`routing.dfy`).
- **The weather tool** (`source/section2_6.py`). `get_current_weather` does a
  case-insensitive, first-match city lookup. The tool-call loop appends the
  assistant message, then one tool message per call, to a conversation history
  held in a class (`weather.dfy`).
- **The `.mdx` file filter** (`loader.dfy`), whose body is one `endswith` line.
  Six copies sit in the modelled scripts; six identical copies in other scripts
  are outside this model. The six modelled definitions, each with its signature
  and any docstring, are at:
  - `source/section6_3_3.py:41-42`
  - `source/section6_5_2.py:34-35`
  - `source/section6_5.py:34-35`
  - `source/section6_5_1.py:34-35`
  - `source/section7_4.py:47-52`
  - `source/section7_4_1.py:55-74`
- **The test-set upload reshapes** (`source/section7_4.py`, `source/section7_4_1.py`)
  (`testset_upload.dfy`). These are two loops:
  - an in-place copy of each document's `source` metadata into `filename`, over
    an `array`;
  - the loop that builds the parallel `inputs` / `outputs` / `metadatas` lists
    from the test records.
- **The role-selection workflow** (`source/section9_3.py`), in `role_workflow.dfy`:
  - the `ROLES` table and the `State` record;
  - the three node functions, and the way the graph merges their partial
    updates, with `messages` merged through `operator.add`;
  - the graph's edges: `Run` is the run as a function, with a fuel bound;
  - `GraphRun`, a class whose `Invoke` loop executes nodes one at a time and is
    proved equal to `Run`.

Python's `str.lower`, `str.strip`, `str.join` and `str.endswith` are modelled
over ASCII in `text.dfy`. `Result`/`Option` and the Python exceptions raised by
the modelled code are in `wrappers.dfy`.

Fusion is sometimes described as independent of the order of its input lists.
As written, it is not:
- Ties are broken by first-seen order, meaning the dictionary's insertion order
  plus the stable sort.
- Two single-document lists fused in the other order come out swapped.
- The model follows the code. `RankFusion.TiesFollowListOrder` proves the swap,
  and `RankFusion.FuseTiesFirstSeen` proves the tie rule in general.

Likewise, the check→selection loop has no bound in the code, so the model does
not add one:
- `RoleWorkflow.NeverPassNeverFinishes` proves that a judge that never passes
  never lets the run finish, whatever the fuel.
- `RoleWorkflow.FirstPassFromStart` proves that the run stops at the first
  passing judgement.

## Model

| member | source | states |
|---|---|---|
| `Text.LowerChar` | source/section2_6.py:34 | `lower()` on one character maps each ASCII capital to its small letter and leaves every other character alone; the result is never a capital |
| `Text.Lower` | source/section2_6.py:34 | `s.lower()` has the length of `s`, and each of its characters is that character of `s` lowered by `LowerChar` |
| `Text.LowerIdempotent` | source/section2_6.py:34 | lower-casing twice is lower-casing once |
| `Text.EqualIgnoringCaseLower` | source/section2_6.py:34 | two strings that differ only in letter case lower to the same string |
| `Text.Strip` | source/section9_3.py:166 | `strip()` never lengthens its input and leaves the empty string empty; `StripIsTrimmedSlice` gives the full characterisation |
| `Text.StripIsTrimmedSlice` | source/section9_3.py:166 | `strip()` returns a contiguous slice of its input; everything cut off is whitespace, and the result neither starts nor ends with whitespace |
| `Text.StripNoop` | source/section9_3.py:166 | a string with no whitespace at either end is its own `strip()` |
| `Text.Join` | source/section9_3.py:139-141 | `join` of no parts is the empty string, and of a single part is that part |
| `Text.SplitJoin` | source/section9_3.py:139-141 | a newline `join` loses nothing: splitting it on the separator gives back the parts, when no part contains the separator |
| `Loader.FileFilter` | source/section6_3_3.py:41-42 | `file_filter(p)` holds exactly when the last four characters of `p` are ".mdx" |
| `Loader.FileFilterAcceptsMdx` | source/section6_5.py:34-35 | every path ending in ".mdx" is accepted |
| `Loader.FileFilterRejectsOtherSuffix` | source/section6_5_1.py:34-35 | a path whose last four characters are anything but ".mdx" is rejected |
| `Loader.FileFilterExamples` | source/section7_4.py:47-52 | the test is case-sensitive and needs the dot: "index.mdx" passes; "index.MDX", "index.md" and "mdx" do not |
| `StableSort.SortByScoreDesc` | source/section6_3_3.py:166-168 | the sort returns exactly as many items as it was given |
| `StableSort.SortCorrect` | source/section6_3_3.py:166-168 | `sorted(..., key=score, reverse=True)` returns a non-increasing permutation of the items, and for each score value the items of that score keep their input order |
| `StableSort.SortStable` | source/section6_5_2.py:113-115 | two output items of equal score come from input items in the same relative order |
| `StableSort.SortOfSorted` | source/section6_3_3.py:166-168 | items already in non-increasing order come back unchanged |
| `RankFusion.ReciprocalRankFusion` | source/section6_3_3.py:149-169 | the dictionary-and-sort loop fails with ZeroDivisionError exactly when some `rank + k` is zero; otherwise it returns `Fuse`: distinct contents, each occurring content once, in non-increasing score order |
| `RankFusion.Fuse` | source/section6_3_3.py:166-169 | the fused ranking holds one content per key of the dictionary |
| `RankFusion.KeysDistinctAndComplete` | source/section6_3_3.py:157-164 | the dictionary's keys are distinct and are exactly the contents occurring in some list |
| `RankFusion.FuseExactlyOnce` | source/section6_5_2.py:104-116 | the fused output holds every distinct content of every list exactly once, and nothing else |
| `RankFusion.FuseNonIncreasing` | source/section6_3_3.py:166-168 | the output is ordered by non-increasing fused score |
| `RankFusion.FuseTiesFirstSeen` | source/section6_3_3.py:162-168 | contents of equal score are output in the order the dictionary first saw them |
| `RankFusion.FuseEmpty` | source/section6_5_2.py:104-116 | no lists, or only empty lists, give an empty output |
| `RankFusion.ScoreIsSumOverOccurrences` | source/section6_3_3.py:159-164 | a content's score equals an independent definition: the sum of `1 / (rank + k)` over all its (list, 0-based rank) occurrences in loop order |
| `RankFusion.ScoreAppendList` | source/section6_5_2.py:106-111 | the score is additive over lists |
| `RankFusion.ListScoreAppend` | source/section6_3_3.py:160-164 | within a list each occurrence adds its own term, so a repeat counts again |
| `RankFusion.TermPositiveAndDecreasing` | source/section6_3_3.py:151-164 | for k > 0 each term is positive, and a smaller rank gives a strictly larger term |
| `RankFusion.ScoreStrictlyIncreases` | source/section6_3_3.py:159-164 | for k > 0, adding a list that contains a content strictly raises its score |
| `RankFusion.ScorePositive` | source/section6_5_2.py:106-111 | for k > 0 every occurring content has a positive score, and every other content scores zero or more |
| `RankFusion.HigherScoreFirst` | source/section6_3_3.py:166-169 | a strictly higher score puts a content strictly ahead of another |
| `RankFusion.ThreeListExample` | source/section6_3_3.py:149-169 | `[[A,B,C],[B,A,D],[A,C]]` at k = 60 fuses to `[A, B, C, D]` |
| `RankFusion.ThreeListsScore` | source/section6_3_3.py:164 | the exact scores of that example: A = 1/60+1/61+1/60, B = 1/61+1/60, C = 1/62+1/61, D = 1/62 |
| `RankFusion.TiesFollowListOrder` | source/section6_5_2.py:109-116 | two one-element lists `[A]`, `[B]` fuse to `[A, B]`, and in the other order to `[B, A]` |
| `Hybrid.ToLists` | source/section6_5_2.py:136 | the parallel output becomes two lists, the dense (Chroma) list first and the BM25 list second |
| `Hybrid.HybridRetrieve` | source/section6_5_2.py:129-138 | the pair of lists is fused dense-first at k = 60 and never fails; the output is distinct, covers exactly the contents of either list, is non-increasing in score, and never places a dense-list content behind an equal-scored keyword-only one |
| `Hybrid.HybridScoreIsSum` | source/section6_5_2.py:136-137 | the hybrid score is the dense list's score plus the keyword list's score |
| `Hybrid.ScoreIgnoresRetrieverOrder` | source/section6_5_2.py:136 | swapping the two retrievers changes no score |
| `Hybrid.DenseFirstOnTies` | source/section6_5_2.py:136-137 | under equal scores, a content found by the dense retriever comes before one found only by BM25 |
| `Hybrid.AgreeingRetrievers` | source/section6_5_2.py:129-138 | two identical lists of distinct documents fuse to that list's contents in the same order |
| `Hybrid.FoundByBothRanksHigher` | source/section6_5_2.py:111 | a content found by both retrievers outranks one found once by a single retriever at a rank no better than its dense rank (for example `2/(r+60)` against `1/(r+60)`) |
| `Routing.ParseRoute` | source/section6_5.py:111-117 | validation yields a route only from that route's own value, and otherwise fails with ValidationError |
| `Routing.ParseRouteRoundTrip` | source/section6_5.py:111-117 | each `Route` member's value validates back to that member |
| `Routing.ParseRouteExact` | source/section6_5_1.py:111-117 | validation accepts exactly the two member values, "langchain_document" and "web", and rejects everything else |
| `Routing.RoutedRetriever` | source/section6_5.py:139-148 | a missing `question` or `route` raises KeyError; "langchain_document" returns the document retriever's result and "web" returns the web retriever's result, each for the unchanged question, with exactly one retriever called; any other value raises ValueError |
| `Routing.RouteAndRetrieve` | source/section6_5.py:152-159 | in the chain, the only failure is the model's output not validating |
| `Routing.ChainDispatchesChosenRoute` | source/section6_5_1.py:143-148 | in the chain, `routed_retriever`'s ValueError is unreachable, and the question goes to the retriever of the route the model chose |
| `Routing.WebRouteAsksForThree` | source/section6_5.py:100-104 | the web route searches with `k = 3` |
| `Weather.GetCurrentWeather` | source/section2_6.py:18-44 | the unit is echoed; "unknown" is returned exactly when no city matches, with the caller's spelling kept; otherwise the location is one of the three canonical names |
| `Weather.GetCurrentWeatherDefault` | source/section2_6.py:18 | without a unit, the report carries "fahrenheit" |
| `Weather.CaseInsensitive` | source/section2_6.py:34-42 | spellings that differ only in case get the same temperature and, for a known city, the same report |
| `Weather.SurroundingTextIgnored` | source/section2_6.py:37-41 | a city name is found anywhere inside a longer location text |
| `Weather.FirstMatchWins` | source/section2_6.py:37-42 | "tokyo" is tried first, then "san francisco", then "paris", giving 10, 72 and 22 |
| `Weather.TokyoBeforeParis` | source/section2_6.py:37-42 | "Paris or Tokyo?" yields the Tokyo report |
| `Weather.ParisUpperCase` | source/section2_6.py:34-42 | "PARIS, FR" yields the Paris report |
| `Weather.UnknownPlace` | source/section2_6.py:43-44 | "Osaka" comes back unchanged with temperature "unknown" |
| `Weather.Get` | source/section2_6.py:107-110 | `dict.get` gives the value of a present key and `None` for a missing one |
| `Weather.RunToolCall` | source/section2_6.py:99-120 | an unknown function name raises KeyError; a missing location raises AttributeError; otherwise the result is a tool message with the call's id and name whose report is `get_current_weather(location=args["location"], unit=args.get("unit"))` |
| `Weather.MissingUnitIsNone` | source/section2_6.py:107-110 | a call without `unit` reaches the report as `None`, not "fahrenheit" |
| `Weather.RepliesMatchCalls` | source/section2_6.py:113-120 | reply `i` answers call `i`: it carries the call's id and name, and the weather report for the call's location and unit |
| `Weather.AllCallsAnswered` | source/section2_6.py:99-120 | when every call names the weather function with a location, there is exactly one reply per call |
| `Weather.Conversation.constructor` | source/section2_6.py:79 | the history starts with the user message only |
| `Weather.Conversation.HandleResponse` | source/section2_6.py:91-120 | the history becomes the old history, then the assistant message, then the tool messages of the leading calls that run; the first failing call's error is returned; `tool_calls` being `None` raises TypeError |
| `TestsetUpload.WithFilename` | source/section7_4.py:91 | the copied document keeps its content, and its `filename` holds the `source` value |
| `TestsetUpload.WithFilenameEffect` | source/section7_4.py:91 | the copy adds `filename` holding the `source` value and changes no other key and no content |
| `TestsetUpload.WithFilenameIdempotent` | source/section7_4_1.py:115 | doing the copy twice is doing it once |
| `TestsetUpload.CopySourceToFilename` | source/section7_4.py:90-91 | in place, every document before the first one without `source` gets the copy, and the rest are untouched; KeyError is raised exactly when some document lacks `source` |
| `TestsetUpload.CopyComplete` | source/section7_4_1.py:113-115 | when every document has a `source`, all are updated, the count is the same, and `filename == source` everywhere |
| `TestsetUpload.InputOf` | source/section7_4.py:165 | the input dict has the single key `question`, holding the record's question |
| `TestsetUpload.OutputOf` | source/section7_4.py:167-172 | the output dict has exactly the keys `contexts` and `ground_truth`, holding the record's contexts and ground truth |
| `TestsetUpload.MetadataOf` | source/section7_4.py:174-179 | building the metadata fails exactly when the first metadata entry is missing or has no `source` |
| `TestsetUpload.ExampleShape` | source/section7_4.py:165-179 | input has only `question`; output has only `contexts` and `ground_truth`; metadata has only `source` (from the first entry) and `evolution_type`; an empty metadata list raises IndexError and a missing key raises KeyError |
| `TestsetUpload.BuildExamples` | source/section7_4.py:158-179 | the three lists follow record order; up to the first record whose metadata fails, the inputs and outputs are one longer than the metadatas; success exactly when every record builds |
| `TestsetUpload.ExampleRoundTrip` | source/section7_4_1.py:169-185 | an example read back from its three dicts is its record: no field is lost or swapped |
| `TestsetUpload.AllRecordsUploaded` | source/section7_4_1.py:166-185 | with well-formed metadata every record builds, so by `BuildExamples` the loop returns Ok with one entry per record in each of the three lists |
| `RoleWorkflow.RoleKeysAreTheTable` | source/section9_3.py:43-59 | the table has exactly the three keys "1", "2", "3" |
| `RoleWorkflow.RoleTextsLayout` | source/section9_3.py:139-141 | `role_options` is the three "key.name:description" lines in table order, joined by newlines; `role_details` is the "-name:details" lines likewise |
| `RoleWorkflow.Merge` | source/section9_3.py:90-96 | merging a node's dict appends its `messages` (operator.add), replaces each other field it returns, and keeps the query |
| `RoleWorkflow.SelectionNode` | source/section9_3.py:120-169 | the stripped classifier text must be a table key, and gives that role's name as `current_role` only; any other key raises KeyError |
| `RoleWorkflow.SelectionOnlySetsRole` | source/section9_3.py:166-169 | after selection only `current_role` has changed, and it is one of the table's names |
| `RoleWorkflow.SelectionStripsAnswer` | source/section9_3.py:163-166 | a classifier answer " 2\n" selects the generative-AI expert |
| `RoleWorkflow.SelectionRejectsUnknownKey` | source/section9_3.py:166 | an answer of "4" raises KeyError; there is no default |
| `RoleWorkflow.AnsweringNode` | source/section9_3.py:180-205 | returns a one-element `messages` list holding the model's answer for (current role, role details, query), and no other field |
| `RoleWorkflow.AnsweringAppendsOne` | source/section9_3.py:180-205 | answering appends exactly one message and leaves the earlier ones and every other field unchanged |
| `RoleWorkflow.CheckNode` | source/section9_3.py:220-242 | the judge sees the last message; with no messages, IndexError; both judgement fields are returned |
| `RoleWorkflow.CheckOverwritesJudgement` | source/section9_3.py:226-242 | check overwrites both judgement fields with the verdict on the last message, whatever they held |
| `RoleWorkflow.Successor` | source/section9_3.py:262-270 | every edge leaves its node; check leads to END exactly when `current_judge` holds and back to selection exactly when it does not; only selection leads to answering |
| `RoleWorkflow.Step` | source/section9_3.py:259-270 | selection goes to answering, answering to check, and check to END on a passing judgement and otherwise back to selection; the query never changes; a round ends at each check |
| `RoleWorkflow.StepPreservesInv` | source/section9_3.py:92-96 | each node keeps one message per completed round and never drops or changes an earlier message |
| `RoleWorkflow.Run` | source/section9_3.py:259-279 | a run at END returns its state; a finished run kept the question and, if it executed any node, ended on a passing judgement; a run out of fuel stopped short of END with the question unchanged |
| `RoleWorkflow.Continue` | source/section9_3.py:259-279 | after a node execution: its error ends the run as that error; a successor at END finishes with its state; otherwise the rest of the run keeps the question and finishes only on a passing judgement |
| `RoleWorkflow.RunFailsOnlyOnUnknownRole` | source/section9_3.py:226 | in a run, check never sees an empty history, so the only error is the classifier's unknown key |
| `RoleWorkflow.RunFinishesOnPass` | source/section9_3.py:266-270 | a finished run ended on a passing judgement, kept the question, and lost none of the earlier messages |
| `RoleWorkflow.RunOutOfFuelKeepsInv` | source/section9_3.py:251-270 | a run cut short by the fuel bound stops where the message-count invariant holds |
| `RoleWorkflow.RunFuelMonotone` | source/section9_3.py:251-270 | once a run has finished or failed, more fuel changes nothing |
| `RoleWorkflow.StopsAtFirstPass` | source/section9_3.py:262-270 | if the judge first passes in round n, a run from any point of round n or earlier finishes within the node executions left, with n + 1 answers |
| `RoleWorkflow.FinishesNoSooner` | source/section9_3.py:262-270 | under the same judge, any smaller budget runs out of fuel, so with `StopsAtFirstPass` the run takes exactly the node executions left |
| `RoleWorkflow.NeverPassNeverFinishes` | source/section9_3.py:266-270 | a judge that never passes never lets the run finish, whatever the fuel |
| `RoleWorkflow.FirstPassFromStart` | source/section9_3.py:278-279 | from `State(query=...)`, a judge first passing in round n gives a finished run with exactly n + 1 answers and a passing judgement, for any fuel from 3(n+1) on |
| `RoleWorkflow.GraphRun.constructor` | source/section9_3.py:278 | the run starts at selection with the default state |
| `RoleWorkflow.GraphRun.Invoke` | source/section9_3.py:273-279 | executing nodes in place until END, an error or the fuel runs out yields exactly `Run` from the starting point; when finished it is at END with the returned state |

## Left out

- Language-model calls are oracles (`Llm`, `llmRoute`, the assistant's tool calls), and so are the Chroma, BM25 and Tavily retrievers (`Search -> seq<Document>`, `ParallelOutput`). Their answers are inputs. For the role workflow they are functions of the round and the prompt inputs.
- Git cloning, `os.path.exists`, pickle caching, the LangSmith dataset calls, the OpenAI client and `print` are I/O and are not modelled.
- `RunnableParallel` runs the two retrievers concurrently. Only the joined pair of lists is modelled.
- RankFusion.ReciprocalRankFusion: scores are exact reals, not Python floats, so float rounding and the near-ties it can create are not captured.
- Python's `lower()` and `strip()` are modelled over ASCII letters and ASCII whitespace only. Unicode case mapping and Unicode whitespace are not.
- `json.loads` of the tool arguments and `json.dumps` of the report are abstracted:
  - arguments arrive as a decoded string map, so non-string argument values are not modelled;
  - the tool message carries the report record rather than its JSON text.
- Pydantic validation of `RouteOutput` and `Judgement` is modelled only as accept-or-`ValidationError` for the route, and as an already-built `Judgement` for the judge.
- LangGraph's runtime recursion limit (GraphRecursionError) is library behaviour. The model bounds runs by an explicit `fuel` count instead, and a run out of fuel is reported as `OutOfFuel`.
- Lines 171-177 of `source/section9_3.py` follow a `return` and can never run. They are not modelled.
- The Python documents are shared objects mutated through the list. `TestsetUpload.CopySourceToFilename` models them as values in an array, so aliasing between list entries is not captured.
- Query generation, the prompts, reranking and the remaining demo scripts are outside this model.
