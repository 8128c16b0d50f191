# Medicine identification: merging per-image results

This project models the backend of a medicine-identification service (`main.py`).
For each uploaded image, an external vision model returns a JSON guess with two
lenses. `accurate` holds what is read from the packaging text. `guessed` holds what
is inferred from the picture. Each lens has `name`, `dosage`, `manufacturer`,
`usage` and `side_effects`. The endpoint drops the images whose reply is not valid
JSON or is an object with an `error` key. It then merges the rest into one profile:

- every scalar field is decided by a plurality vote, with ties going to the value
  seen first;
- a field nobody supplied becomes `"Unknown"`;
- the side-effect lists are pooled and deduplicated.

Modules:

- `Tally` (tally.dfy): the `collections.Counter` objects as ordered tables of
  `(value, count)` entries in first-seen order, and `most_common(1)`.
- `Merging` (merge.dfy): the data model and `merge_results`. The class `LensTally`
  holds one lens's four Counters and its side-effect list (`merged_data[lens]`).
  `MergeResults` is the loop over the results followed by the selection. It is
  proved equal to the function `Merge`, and the lemmas state what `Merge` promises.
- `ResponseText` (response_text.dfy): the cleaning of the model's reply before
  parsing: `strip`, delete every "```json", delete every "```", `strip` again.
- `Identify` (identify.dfy): `identify_medicine`. A loop keeps the results that are
  not error dicts, then the survivors are merged or the fixed failure is returned.
  It also holds the part of `analyze_image` that follows the model call.
- `Wrappers` (wrappers.dfy): `Option`, for dictionary keys that may be absent.

Three behaviours of the code are easy to miss:

- `merge_results([])` does not raise. It returns a profile whose scalars are all
  `"Unknown"` and whose side-effect lists are empty. Only the caller guards against
  an empty batch (main.py:144-145).
- A reply that parses to a JSON value other than an object is not an error dict.
  It survives the batch filter, and the merge then skips it. So a batch made only
  of such replies yields an all-`"Unknown"` medicine, not the failure
  (`Identify.NonDictReplyIsNotAFailure`).
- A scalar is `"Unknown"` exactly when nobody voted for it, *provided that* no
  result supplied the literal string `"Unknown"`. A vote for `"Unknown"` gives the
  same output as no vote (`Merging.UnknownVoteLooksLikeNoVote`).

Tie-breaking follows CPython. `Counter.most_common(1)` is
`max(items, key=count)`. It keeps the first maximal entry in insertion order, and a
Counter's insertion order is the order in which values were first counted.
`ResponseText.IsSpace` is the set of characters for which Python's `str.isspace`
holds, which is what `str.strip()` removes.

## Model

| member | source | states |
|---|---|---|
| `Tally.Bump` | main.py:90 | `counter[v] += 1` on the ordered table: a tallied value gains one vote where it stands, a new one is appended with one vote; `Tally.BumpTallies` states that this keeps the table exact |
| `Tally.TallyOf` | main.py:84-112 | the Counter of one field after the loop, built by counting that field's votes in result order; `Tally.TallyOfTallies` states that it is exactly their frequency table |
| `Tally.MostCommon` | main.py:116 | `most_common(1)` picks an entry with the largest count, and every entry before it has a strictly smaller count (first maximum in insertion order) |
| `Tally.BumpTallies` | main.py:90 | `counter[v] += 1` keeps the table exact: counts equal vote counts, every voted value has an entry, entries stay in first-vote order |
| `Tally.TallyOfTallies` | main.py:84-112 | counting a vote sequence in order from an empty Counter yields exactly its frequency table in first-seen order |
| `Tally.MostCommonOfVotes` | main.py:116-127 | the value chosen from a non-empty table got a vote, no value got more votes, and every value voted for before its first vote got fewer (ties go to the first seen) |
| `Tally.PluralityWinnerUnique` | main.py:116-127 | plurality with first-seen tie-breaking determines one winner |
| `Tally.WinnerOfDoubled` | main.py:116-127 | casting every vote twice, in order, elects the same winner |
| `Merging.Lenses` | main.py:84-101 | the lenses of one side, in result order, from the dict results holding that key; `Merging.ResultWithoutLensIgnored` and `Merging.NotDictIgnored` state that other results add nothing |
| `Merging.FieldVotes` | main.py:89-112 | the values supplied for one scalar key, in order; `Merging.AbsentFieldCastsNoVote` states that a lens without the key casts no vote |
| `Merging.SideEffectPool` | main.py:93-94 | the `extend`ed side-effect list of one lens; `Merging.PoolMembers` states that it holds exactly the supplied side effects |
| `Merging.AddVote` | main.py:89-90 | a present key adds one vote for its value, an absent key none; `Merging.LensTally.Absorb` and `AddVoteTallies` tie it to counting one more vote |
| `Merging.Choose` | main.py:116 | `most_common(1)[0][0]` of a non-empty Counter, otherwise "Unknown"; `Merging.ScalarIsPlurality` states which value it is |
| `Merging.Summarize` | main.py:114-129 | the returned profile of one lens from its Counters and side-effect list; `Merging.ScalarIsPlurality` and `Merging.SideEffectsAreUnion` state its fields |
| `Merging.ProfileOf` | main.py:84-129 | the profile of one lens after the loop and the selection; `Merging.SidesIndependent` states that it depends on that lens alone |
| `Merging.Merge` | main.py:65-129 | what merge_results returns; `Merging.MergeResults` is proved equal to it, and the lemmas below state its properties |
| `Merging.Distinct` | main.py:118 | `list(set(s))` has no duplicates and holds exactly the elements of `s` |
| `Merging.LensTally.constructor` | main.py:67-82 | a lens starts with four empty Counters and an empty side-effect list |
| `Merging.LensTally.Absorb` | main.py:88-98 | each present scalar key adds one vote for its value, an absent key adds none, and present side effects extend the list; the Counters then match the lenses seen so far |
| `Merging.AbsorbResult` | main.py:85-112 | a dict result is counted into the lens it has a key for, each lens independently; anything else changes nothing |
| `Merging.MergeResults` | main.py:65-129 | the loop and the final selection compute `Merge(results)` |
| `Merging.ScalarIsPlurality` | main.py:114-129 | each scalar is "Unknown" when no result voted for it, and otherwise the plurality winner of the supplied values with ties to the first seen |
| `Merging.UnknownExactlyWhenNoVotes` | main.py:116-127 | when no result supplies the string "Unknown", a scalar is "Unknown" if and only if nobody voted for it |
| `Merging.UnknownVoteLooksLikeNoVote` | main.py:116 | a single result whose `accurate` name is the string "Unknown" yields the same name as no results at all |
| `Merging.PoolMembers` | main.py:93-94 | a side effect is in the pooled list exactly when some result supplied it for that lens |
| `Merging.SideEffectsAreUnion` | main.py:107-125 | the output side effects have no duplicates and are exactly the union of all supplied lists for that lens |
| `Merging.SidesIndependent` | main.py:87-112 | two batches whose results agree, result by result, on one lens give the same profile for it, whatever their other lens and `error` keys hold |
| `Merging.ResultWithoutLensIgnored` | main.py:85-101 | a result without that lens key, or not a dict, changes nothing in that lens's profile wherever it stands |
| `Merging.NotDictIgnored` | main.py:85 | inserting a non-dict result anywhere leaves the whole merge unchanged |
| `Merging.AbsentFieldCastsNoVote` | main.py:89-98 | a lens lacking a scalar key leaves that field's votes and value as if the result were absent |
| `Merging.NoContributionIsAllUnknown` | main.py:67-82 | with no contributing result, including no results at all, every scalar is "Unknown" and both side-effect lists are empty, without failing |
| `Merging.EmptyDictIsAllUnknown` | main.py:114-129 | `[{}]` merges to the all-"Unknown" profile with empty side effects |
| `Merging.MergeTwiceIsSame` | main.py:84-129 | merging `rs + rs` gives the same profile as merging `rs` |
| `Merging.TieGoesToFirstSeen` | main.py:116 | one vote each for names a then b yields a |
| `Merging.MajorityWins` | main.py:117 | dosage votes x, x, y yield x |
| `Merging.SideEffectsMerged` | main.py:118 | side effects `[x]` and `[x, y]` consolidate to exactly {x, y}, each once |
| `ResponseText.LeadEnd` | main.py:58 | scanning forward stops at the first non-whitespace character; everything skipped is whitespace |
| `ResponseText.TrailStart` | main.py:58 | scanning backward stops just after the last non-whitespace character; everything skipped is whitespace |
| `ResponseText.IsSpace` | main.py:58 | the characters `str.strip()` removes: exactly those for which CPython's `str.isspace` holds (space, `\t`–`\r`, U+001C–U+001F, U+0085, U+00A0, U+1680, U+2000–U+200A, U+2028, U+2029, U+202F, U+205F, U+3000) |
| `ResponseText.Strip` | main.py:58 | `strip()` never lengthens the text, and its result neither starts nor ends with whitespace |
| `ResponseText.StripIsSlice` | main.py:58 | `strip()` returns the contiguous part of the input at some offset, with only whitespace before and after it |
| `ResponseText.RemoveAll` | main.py:58 | `str.replace(p, "")`, never lengthening the text; `ResponseText.RemoveAtFirst` and `ResponseText.RemoveAbsent` together determine its result on every input |
| `ResponseText.RemoveAtFirst` | main.py:58 | `replace(p, "")` keeps the text before the first occurrence of `p` unchanged, deletes that occurrence, and continues on the rest |
| `ResponseText.LoneBacktickKept` | main.py:58 | a backtick that does not belong to a fence survives the fence removal: `"`a```"` becomes `"`a"` |
| `ResponseText.RemoveAllAtMatch` | main.py:58 | `replace(p, "")` deletes an occurrence of `p` at the front and continues after it |
| `ResponseText.RemoveAllSkipsPlain` | main.py:58 | `replace(p, "")` keeps unchanged any stretch of text without the first character of `p` |
| `ResponseText.Clean` | main.py:58 | the cleaned reply text; `ResponseText.CleanIsTrimmedAndFenceFree`, `ResponseText.FencedReplyKeepsBody` and `ResponseText.CleanIdempotent` state its properties |
| `ResponseText.RemoveAbsent` | main.py:58 | `replace(p, "")` leaves a text without an occurrence of `p` unchanged |
| `ResponseText.NoFenceAfterRemoval` | main.py:58 | deleting every "```" from left to right leaves no "```" in the text |
| `ResponseText.CleanIsTrimmedAndFenceFree` | main.py:57-58 | the cleaned text has no leading or trailing whitespace and contains neither "```" nor "```json" |
| `ResponseText.CleanIdempotent` | main.py:58 | cleaning an already cleaned text changes nothing |
| `ResponseText.CleanWithoutBackticks` | main.py:58 | a text without backticks is only stripped |
| `ResponseText.FencedReplyKeepsBody` | main.py:57-58 | a reply "```json" + body + "```" with a backtick-free body is cleaned to exactly the stripped body |
| `Identify.AnalyzeImage` | main.py:56-63 | the parsed cleaned reply, or the error dict when the parser rejects it; `Identify.UnparsableReplyDropped` states that such a reply never reaches the merge |
| `Identify.IsErrorResult` | main.py:140 | the filter's test: a result is dropped exactly when it is a dict holding an "error" key; a non-dict reply is never an error result |
| `Identify.Survivors` | main.py:136-142 | the results the loop keeps, in order; `Identify.SurvivorsAppend`, `Identify.ErrorResultDropped`, `Identify.OtherResultKept` and `Identify.SurvivorsEmpty` characterise it |
| `Identify.Identify` | main.py:144-148 | the failure when nothing survives, otherwise the merge of the survivors; `Identify.IdentifyOutcome` states when each happens |
| `Identify.IdentifyMedicine` | main.py:134-148 | the filtering loop and the guard compute `Identify(aiResults)` |
| `Identify.SurvivorsAppend` | main.py:136-142 | the filter distributes over concatenation, so it keeps the input order |
| `Identify.ErrorResultDropped` | main.py:140-141 | a dict containing "error" is skipped wherever it stands |
| `Identify.OtherResultKept` | main.py:142 | every other result is kept, in its place |
| `Identify.SurvivorsEmpty` | main.py:144 | nothing survives exactly when every result is an error dict |
| `Identify.IdentifyOutcome` | main.py:144-148 | the fixed failure is returned iff every result is an error dict (also for an empty batch); a batch without error dicts is merged as it stands |
| `Identify.UnparsableReplyDropped` | main.py:56-63 | a reply the JSON parser rejects becomes the error dict and never reaches the merge |
| `Identify.NonDictReplyIsNotAFailure` | main.py:140-147 | a non-empty batch made only of JSON non-object replies is kept and produces an all-"Unknown" medicine, not the failure |

## Left out

- The Gemini SDK (`genai.configure`, `GenerativeModel`, `generate_content`) and the prompt text: foreign network calls. The reply text is an input.
- `Image.open` and `json.loads`: library parsing. The parser is a parameter of `Identify.AnalyzeImage`, and its outcome is an input to the endpoint.
- Exceptions other than `json.JSONDecodeError`: `analyze_image` (main.py:50-63) catches only that one. An exception from `Image.open` on bytes that are not an image, from the `generate_content` call, or from `response.text` on a reply without text is not caught. It aborts the whole `identify_medicine` request at main.py:138 rather than dropping one image. `Identify.IdentifyMedicine` starts from one result per image and does not model this abort.
- FastAPI routing, reading the uploads (`await file.read()`), dotenv and environment variables: I/O plumbing.
- app.py (Streamlit UI and an HTTP POST): nothing to verify.
- Merging.Distinct: returns the side effects in first-occurrence order. Python's order comes from hashing and is unspecified. Only "no duplicates" and set equality are claimed about the source.
- Merging.MergeTwiceIsSame: it carries over to Python only up to the order of `side_effects`, for the same reason.
- The text of the `error` value ("Invalid AI response"): only the presence of the `error` key is ever read (main.py:140), so `ImageResult.Dict` records it as a flag.
- Python's dynamic typing outside well-formed results is out of scope. This covers a lens that is a string or a list (where `in` becomes a substring or membership test), non-string or unhashable field values (JSON `null`, numbers, lists), and a `side_effects` value that is a string (which `extend` would split into characters).
- ResponseText.RemoveAll: its own contract only bounds the length. `RemoveAtFirst` (a text with an occurrence of `p`) and `RemoveAbsent` (a text without one) fix its result on every input, so a backtick that is not part of a fence survives cleaning (`LoneBacktickKept`); `FencedReplyKeepsBody` states the outcome for a whole fenced reply.
