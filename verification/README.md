# WanderSmart text helpers in Dafny

WanderSmart is a Streamlit travel planner. Its agents return recommendations
as JSON text, often inside a Markdown code fence. This project models the
helpers that turn that text into something the pages can show:

- `clean_json_string` strips the fence off agent output with the Python chain
  ``s.strip("`").lstrip("json").strip("`").strip()``. Each of these strips takes
  a *set of characters*. The model writes Python's strip out exactly
  (`PyStr`), including the full set of characters `str.isspace()` accepts.
  `CleanJson.CleanJsonString` then composes the chain as written.
- `generate_markdown` and `convert_to_markdown` render the decoded
  recommendations document. Each writes a fixed header and then one block per
  recommendation, with defaults for missing fields. The decoded document is
  the `Json` datatype (`PyValues`). The Python operations the renderers apply
  to it are modelled with the exceptions Python raises on a badly shaped
  document, as `Err` results:
  - `.get`;
  - the `for` loop;
  - `key in v`;
  - `v[key]`.

  Both renderers share one skeleton, `Markdown.Render`, over a per-item block
  function. `Markdown.AppendBlocks` is their `+=` loop, proved equal to it.
- `validate_inputs` checks a trip request: name, then destination, then date
  order. The trip planner page applies the same date rule inline. Dates are
  compared as `datetime.date` compares them.

A value that is not a str and goes into an f-string is printed with Python's
`str()`. That conversion is a parameter, `show`, of the renderers; it is not
modelled.

The function's docstring says it removes `"```json"` and a trailing `"```"`. The
code strips character sets instead, and the model follows the code.
`CleanJson.CleanFence` is the literal-fence stripper that the docstring
describes. The findings below compare the two.

## Model

| member | source | states |
|---|---|---|
| PyStr.Strip | src/wandersmart/streamlit_utils.py:119 | `str.strip(chars)` never lengthens its input, and the result neither starts nor ends with a character of the set |
| PyStr.StripTrims | src/wandersmart/streamlit_utils.py:119 | `strip` only removes characters of the set, and only from the two ends: the result is a contiguous piece of the input with set characters on both sides |
| PyStr.StripUnique | src/wandersmart/streamlit_utils.py:119 | conversely, any piece obtained by cutting set characters off both ends that has no set character at either end is exactly `strip`'s result |
| PyStr.StripIdempotent | src/wandersmart/streamlit_utils.py:119 | stripping twice is stripping once |
| PyStr.StripLeft | src/wandersmart/streamlit_utils.py:119 | `lstrip(chars)` returns a suffix of its input, removes only set characters, and the result does not start with one |
| PyStr.StripLeftPrefix | src/wandersmart/streamlit_utils.py:119 | `lstrip(chars)` removes a whole leading run of set characters, of any length and order |
| PyStr.StripRightSuffix | src/wandersmart/streamlit_utils.py:119 | `rstrip(chars)` removes a whole trailing run of set characters |
| PyStr.StripMargins | src/wandersmart/streamlit_utils.py:119 | set characters around a text that has none at either end are exactly what `strip` removes |
| PyStr.HasInfix | src/wandersmart/streamlit_utils.py:186 | `key in s` for strs is true exactly when `key` occurs in `s` at some position |
| PyStr.Decimal | src/wandersmart/streamlit_utils.py:31 | `str(idx)` is a non-empty string of decimal digits without a leading zero |
| PyStr.DecimalRoundTrip | src/wandersmart/streamlit_utils.py:31 | reading `str(idx)` back as a decimal numeral gives `idx` |
| PyStr.DecimalInjective | src/wandersmart/streamlit_utils.py:31 | different block numbers print differently |
| PyValues.Get | src/wandersmart/streamlit_utils.py:24-29 | `v.get(key, default)` succeeds exactly on a dict, giving the key's value or the default; on anything else it raises AttributeError naming the value's type |
| PyValues.Iterate | src/wandersmart/streamlit_utils.py:23 | a `for` loop runs over a list's elements, a str's one-character strs, or an empty dict; a non-empty dict's first key fails on `.get`; None, a bool or an int is not iterable |
| PyValues.Contains | src/wandersmart/streamlit_utils.py:186 | `key in v` works exactly on a dict, list or str: key membership, element equality, substring; anything else raises TypeError |
| PyValues.Subscript | src/wandersmart/streamlit_utils.py:187 | `v[key]` succeeds exactly on a dict holding the key, with its value; a missing key raises KeyError, and a list or str raises because its indices must be integers |
| PyValues.GuardedSubscript | src/wandersmart/streamlit_utils.py:186-187 | after `key in v` is true, `v[key]` succeeds exactly when `v` is a dict, and gives the key's value |
| CleanJson.CleanJsonString | src/wandersmart/streamlit_utils.py:108-121 | the cleaned text is never longer than the input and has no whitespace at either end |
| CleanJson.CleanJsonStringInfix | src/wandersmart/streamlit_utils.py:119 | the cleaned text is a contiguous piece of the input |
| CleanJson.CleanLayers | src/wandersmart/streamlit_utils.py:119 | backticks, then tag letters, then a text that starts with neither and does not end with a backtick, then backticks: the text comes out trimmed |
| CleanJson.FencedInput | src/wandersmart/streamlit_utils.py:118-119 | `"```json" + body + "```"` cleans to `body.strip()` when the body does not start with a backtick or one of j, s, o, n, and does not end with a backtick |
| CleanJson.UnfencedInput | src/wandersmart/streamlit_utils.py:119 | text with no fence characters at its ends is only whitespace-trimmed |
| CleanJson.TagLettersDropped | src/wandersmart/streamlit_utils.py:119 | any leading run of the letters j, s, o and n is dropped, not only the word "json" |
| CleanJson.NullLosesLeadingN | src/wandersmart/streamlit_utils.py:119 | the JSON document `null` cleans to `ull` |
| CleanJson.LeadingWhitespaceKeepsFence | src/wandersmart/streamlit_utils.py:119 | whitespace before `"```json"` shields the opening fence: only the closing fence and the outer whitespace go |
| CleanJson.LeadingSpaceKeepsFence | src/wandersmart/streamlit_utils.py:119 | `" ```json\n{}\n```"` cleans to `"```json\n{}"` |
| CleanJson.CleanFence | src/wandersmart/streamlit_utils.py:110 | the corrected cleaner: never longer than its input, no whitespace at either end |
| CleanJson.CleanFenceFenced | src/wandersmart/streamlit_utils.py:110 | any body inside a `"```json"` fence, with any whitespace around the fence, cleans to `body.strip()` |
| CleanJson.CleanFenceUnfenced | src/wandersmart/streamlit_utils.py:118 | text with no fence at either end is only trimmed |
| CleanJson.CleanFenceKeepsNull | src/wandersmart/streamlit_utils.py:110 | the corrected cleaner keeps `null` |
| CleanJson.CleanFenceIgnoresLeadingSpace | src/wandersmart/streamlit_utils.py:110 | the corrected cleaner turns `" ```json\n{}\n```"` into "{}" |
| Markdown.BlocksOk | src/wandersmart/streamlit_utils.py:23-35 | the rendering loop completes exactly when every item's block renders |
| Markdown.BlocksConcat | src/wandersmart/streamlit_utils.py:23-35 | rendering a list in two parts gives the first part's blocks, then the second part's numbered on; the first error wins |
| Markdown.BlockAt | src/wandersmart/streamlit_utils.py:23-35 | item `i` renders as block `first + i`, placed right after the blocks of the items before it |
| Markdown.AppendBlocks | src/wandersmart/streamlit_utils.py:21-37 | the `+=` loop yields the header followed by the blocks in order, or the first item's error |
| Markdown.Render | src/wandersmart/streamlit_utils.py:21-23 | a rendered document starts with the header; a document that is not a dict raises on `.get` |
| Markdown.RenderEmpty | src/wandersmart/streamlit_utils.py:174-177 | a missing or empty "recommendations" list renders as the header alone |
| Markdown.RenderList | src/wandersmart/streamlit_utils.py:174-177 | with a list of recommendations, the output is the header followed by their blocks, and it fails exactly when their blocks do |
| Markdown.RenderItem | src/wandersmart/streamlit_utils.py:177-195 | the `i`-th recommendation's block sits right after the header and the blocks before it |
| Markdown.VacationText | src/wandersmart/streamlit_utils.py:31-35 | a `generate_markdown` block opens with "## <number>. <title>" and ends with "---" and a blank line |
| Markdown.VacationBlock | src/wandersmart/streamlit_utils.py:24-35 | a recommendation renders exactly when it is a dict whose "cost" is a dict or absent. Otherwise it fails with the `.get` AttributeError for the offending value. The block opens with its number and its title or "No Title" |
| Markdown.VacationBlockOfDict | src/wandersmart/streamlit_utils.py:24-35 | a dict recommendation with a dict or absent "cost" renders its title, description, tour price, total estimate and link, each the field's text or its default when absent |
| Markdown.VacationBlockDefaults | src/wandersmart/streamlit_utils.py:24-29 | an empty recommendation renders "No Title", "No Description", "N/A" twice and link "#" |
| Markdown.GenerateMarkdown | src/wandersmart/streamlit_utils.py:11-37 | the output starts with "# Vacation Recommendations" and a blank line; a non-dict document raises |
| Markdown.GenerateMarkdownEmpty | src/wandersmart/streamlit_utils.py:21-23 | no recommendations gives the header alone |
| Markdown.GenerateMarkdownRenders | src/wandersmart/streamlit_utils.py:23-28 | a list of recommendations renders exactly when each is a dict with a dict or absent "cost" |
| Markdown.GenerateMarkdownItem | src/wandersmart/streamlit_utils.py:23-31 | the `i`-th recommendation (from 0) is block number `i + 1`, right after the header and the earlier blocks |
| Markdown.CostLines | src/wandersmart/streamlit_utils.py:185-193 | dict cost details never fail. Anything else that does not raise yields no lines. None, a bool or an int raises on the first `in` |
| Markdown.CostLinesOfDict | src/wandersmart/streamlit_utils.py:186-193 | for dict cost details, each listed key gets its line if present and nothing if absent, in list order |
| Markdown.PresentLinesOfFour | src/wandersmart/streamlit_utils.py:186-193 | with the four known keys, the lines are link, entry_fees, notes, additional_notes in that order |
| Markdown.RecommendationText | src/wandersmart/streamlit_utils.py:182-195 | a `convert_to_markdown` block opens with "## <title>" and a blank line, and ends with "\n---\n\n" |
| Markdown.RecommendationBlock | src/wandersmart/streamlit_utils.py:178-195 | a non-dict recommendation raises, and one with dict or absent cost details always renders. The block opens with its title or "Untitled" |
| Markdown.RecommendationBlockOfDict | src/wandersmart/streamlit_utils.py:178-195 | a dict recommendation renders as title, description and the present cost lines in fixed order |
| Markdown.RecommendationBlockDefaults | src/wandersmart/streamlit_utils.py:178-180 | an empty recommendation renders "Untitled", "No description available." and no cost lines |
| Markdown.ConvertToMarkdown | src/wandersmart/streamlit_utils.py:164-197 | the output starts with "# Recommendations" and a blank line; a non-dict document raises |
| Markdown.ConvertToMarkdownEmpty | src/wandersmart/streamlit_utils.py:174-177 | no recommendations gives the header alone |
| Markdown.CostLinesOk | src/wandersmart/streamlit_utils.py:186-193 | the cost lines render exactly when the details are a dict, or a str or list that contains none of the keys; a key found in a str or list is subscripted with a str, which raises |
| Markdown.RecommendationBlockOk | src/wandersmart/streamlit_utils.py:178-195 | a recommendation renders exactly when it is a dict whose cost details are a dict, absent, or a str or list containing none of the four keys |
| Markdown.ConvertToMarkdownRenders | src/wandersmart/streamlit_utils.py:177-195 | a list of recommendations renders exactly when every one of them renders on its own |
| Markdown.ConvertToMarkdownShaped | src/wandersmart/streamlit_utils.py:177-195 | dict recommendations whose cost details are dicts or absent always render |
| Markdown.ConvertToMarkdownItem | src/wandersmart/streamlit_utils.py:177-195 | in a rendered output, the `i`-th recommendation renders on its own and its block sits right after the header and the blocks before it |
| Validation.ValidateInputs | src/wandersmart/utils/validation.py:2-9 | the request is accepted exactly when name and destination are non-empty and the start is not after the end. A message is present exactly when the request is refused, and it names the first failing check: name, then destination, then dates |
| Validation.SameDayAccepted | src/wandersmart/utils/validation.py:7-9 | a trip starting and ending on the same day is accepted |
| Validation.MessagesDistinct | src/wandersmart/utils/validation.py:3-8 | the three messages differ, so the message identifies the failed check |
| Validation.AfterIsKeyOrder | src/wandersmart/utils/validation.py:7 | on valid dates, `start_date > end_date` is a comparison of day numbers |
| Validation.AfterTrichotomy | src/wandersmart/utils/validation.py:7 | date `>` is irreflexive and asymmetric, and any two dates are equal or ordered |
| Validation.AfterTransitive | src/wandersmart/utils/validation.py:7 | date `>` is transitive |
| Validation.PlannerStep | src/wandersmart/pages/02_Trip_Planner.py:20-22 | the page shows its error exactly when the start is after the end, and fetches only otherwise and on a click |
| Validation.PlannerAgreesWithValidation | src/wandersmart/pages/02_Trip_Planner.py:20-21 | with a name and destination present, the page refuses exactly the dates `validate_inputs` refuses, with the same message after "Error: " |

## Left out

- `fetch_itinerary` (src/wandersmart/streamlit_utils.py:123-153) is not modelled: it runs the agent crew and prints. Its one pure step is `clean_json_string`, which is modelled.
- `extract_recommendations` (:84-106) and `convert_to_python_dict` (:156-162) are not modelled: they are `json.loads` calls with error wrapping or printing, and JSON text parsing is out of scope.
- `enumerate_dictionary` (:39-47) is not modelled: it only prints.
- `crew_output_to_json` (:50-82) is not modelled: it walks arbitrary Python objects through `__dict__` reflection and tracks visited objects by `id()`. Neither object identity nor reflection has a counterpart in the `Json` datatype.
- `extract_raw_values`, which the trip planner page imports (src/wandersmart/pages/02_Trip_Planner.py:3) and calls on the fetched results (:39), is not part of this model: its definition is not among the modelled files, so nothing can be said about it.
- `crew.py`, `models.py` and the Streamlit pages are not modelled. The exception is the trip planner's date check: on that page, `st.error` and `st.button` become the `PlannerAction` result and the `clicked` input.
- `str()` of a non-str value in an f-string (an int, a list, a dict, None) is the `show` parameter. Python's repr formats are not modelled.
- JSON numbers are integers. Floats and their printing are out of scope.
- A Python dict keeps insertion order, but the model uses a `map`. The renderers only look keys up, so order does not matter there. A `for` loop over a non-empty dict would hand the renderer its first key, a str, whose `.get` raises. The model reports that AttributeError directly, without choosing a key.
- Dates are (year, month, day) triples compared as `datetime.date` compares them. Calendar validity, such as the days in February, is not enforced: it is Streamlit's date picker's job.
- Validation.ValidateInputs: takes `name` and `destination` as strs, which is what the page's text inputs return. Python's truthiness of None or other types for `not name` is not modelled.
- The trip planner's error text is written as "Error: " followed by `validate_inputs`' date message. The page spells the same text out in full.

## Findings

| source | as written | input that shows it | evidently intended | confidence | as-written member | corrected member |
|---|---|---|---|---|---|---|
| src/wandersmart/streamlit_utils.py:119 | `lstrip("json")` drops any leading run of the letters j, s, o, n | the unfenced JSON document `null` comes out as `ull` | remove only a literal "json" tag after the opening fence; `null` stays `null` | not executed | CleanJson.NullLosesLeadingN | CleanJson.CleanFenceKeepsNull |
| src/wandersmart/streamlit_utils.py:119 | the first strip of backticks sees leading whitespace before the fence and removes nothing at the front | `" ```json\n{}\n```"` comes out as `"```json\n{}"` | surrounding whitespace is ignored and the result is `{}` | not executed | CleanJson.LeadingSpaceKeepsFence | CleanJson.CleanFenceIgnoresLeadingSpace |
