# Document comparison tool: a verified model of its decision logic

The tool lets a user upload two PDF invoices or contracts and asks a hosted
language model (Gemini) to list the field-level differences. Under the network
calls and the Streamlit widgets sit three pieces of deterministic logic. This
project models those three in Dafny and proves what they promise.

1. **Variant scheduling and result assembly** (`GeminiAPI.py`, module `Gemini`).
   The custom text and the `include_default` flag decide whether the custom
   variant, the default variant, or both run. The custom variant always runs
   first. A variant whose call or parse raises stores an error sentinel
   `{"differences": [], "error": "<Custom|Default> prompt error: <msg>"}` and
   does not stop the other variant. One result is returned bare; two are keyed
   `custom` and `default`. The default template is chosen only by the
   document type. The remote model together with `json.loads` is an oracle
   `llm: Request -> Reply`, where a `Reply` is either the parsed JSON or the
   exception's message. "Custom text was given" is Python's
   `custom_prompt and custom_prompt.strip()`. `str.strip` and `str.isspace`
   are modelled exactly in module `PyStr`.
2. **Result classification and table building** (`main.py`, module `Display`).
   `Show` maps a stored result to "no differences", invoice header and
   line-item tables, a flat table, "unexpected format", or a render error.
   `Tabulate` builds one row per record, numbered from 1, and reads each
   missing column as `""`. `Dispatch` opens two tabs exactly when Python's
   `in` finds both `custom` and `default` in the result. A render that raises
   ends the rerun: nothing after it is drawn, including the default tab and
   the download and reset buttons.
3. **The session state across reruns** (`main.py`, module `Session`). Each
   step of a rerun is a function on a `State` value. The steps are
   `init_session`, the reset after a download, the reset button, clearing the
   reset flag, processing, and the display guard. `Run` composes them into
   one rerun. The class `SessionState` is `st.session_state`: its fields are
   updated in place, and each of its methods is proved to perform the
   matching function.

JSON is the datatype `Json.Json`. `Json.Truthy` gives Python truthiness,
`Json.Get`/`Json.GetOr` give `dict.get` and `Json.In` gives `in`. Objects are
maps, so key order is not kept.

The model follows the code in three behaviours that a reader might expect
otherwise:
- The custom variant runs when the text is non-blank after `strip()`, not
  merely non-empty.
- Nothing coerces a model answer into the documented shape. The answer is
  stored as parsed. Missing columns are defaulted to `""` only when the table
  is built. An answer without a `differences` key is shown as "no
  differences".
- A result that is not a dictionary makes the page raise (`RenderError`). It
  is not reported as "unexpected format".

Facts the proofs bring out:
- `rescan_clicked` is initialised to `False` and is never set to `True`
  (`Session.RunKeepsRescanCleared`). So the rescan half of the processing
  trigger never fires.
- The dual/single dispatch only applies `in`. A bare single-variant answer
  that happens to hold both a `custom` and a `default` key is shown as two
  tabs (`Display.SingleVariantShownAlone`). A list holding the strings
  `"custom"` and `"default"`, or a string containing both words, also opens
  two tabs and then raises on `differences["custom"]`
  (`Display.ListNamingBothKeysRaises`, `Display.TextNamingBothKeysRaises`).
- A number or boolean stored as the result makes the `in` test itself raise
  (`Display.KeyTestError`).
- An error sentinel has an empty difference list, so a failed variant is
  shown as "no differences" (`Display.SentinelShownAsNoDifferences`).

## Model

| member | source | states |
|---|---|---|
| `Json.In` | main.py:223 | Python's `in` raises exactly on a number, a boolean or None, and on a dictionary tests key membership |
| `Json.ContainsTextAt` | main.py:223 | `in` on two strings holds exactly when some position of the text starts a copy of the word |
| `PyStr.TrimStart` | GeminiAPI.py:54 | the left half of `str.strip()`: the result is the suffix left after removing only leading whitespace, and it does not start with whitespace |
| `PyStr.TrimEnd` | GeminiAPI.py:54 | the right half of `str.strip()`: the result is the prefix left after removing only trailing whitespace, and it does not end with whitespace |
| `PyStr.Strip` | GeminiAPI.py:54 | `str.strip()` is the right trim of the left trim, so it is never longer than its input; what it keeps is stated by the `TrimStart` and `TrimEnd` rows and the two lemmas below |
| `PyStr.TrimStartOfBlank` | GeminiAPI.py:54 | removing leading whitespace from all-whitespace text leaves nothing |
| `PyStr.BlankOfBlankTrim` | GeminiAPI.py:54 | text whose leading-whitespace trim leaves only whitespace was all whitespace to begin with |
| `PyStr.StripEmptyIffBlank` | GeminiAPI.py:84 | `custom_prompt.strip()` is empty (so `not custom_prompt.strip()` holds) exactly for all-whitespace text |
| `PyStr.StripEnds` | GeminiAPI.py:58 | a stripped string neither starts nor ends with whitespace |
| `PyStr.StripIdempotent` | GeminiAPI.py:58 | a general property of `str.strip`, not a second call in the source: the text inserted at this line has nothing left to strip |
| `Gemini.DefaultPrompt` | GeminiAPI.py:104-235 | the invoice template (nested header/line-item shape) is chosen exactly when the document type is "Invoices"; every other value gets the contract template (flat shape) |
| `Gemini.HasCustomTextIffNotBlank` | GeminiAPI.py:54 | `custom_prompt and custom_prompt.strip()` holds exactly when the prompt is not None and not all whitespace (empty text included) |
| `Gemini.WrapCustomPrompt` | GeminiAPI.py:57-71 | the custom prompt carries exactly the user's stripped text, which is never empty, and asks for the flat `{"differences": [...]}` shape whatever the document type |
| `Gemini.CustomInstructionsTrimmed` | GeminiAPI.py:58 | the user's text enters the custom prompt with no whitespace at either end |
| `Gemini.Schedule` | GeminiAPI.py:54-94 | one or two variants run, never zero; custom runs exactly when the text is non-blank; default runs exactly when it is included or there is no custom text; when both run, custom comes first |
| `Gemini.SentinelShape` | GeminiAPI.py:77-94 | the error record has exactly the keys `differences` and `error`, an empty difference list, and a message that opens with the variant's label and ends with the exception's text; the two variants' records never coincide |
| `Gemini.Outcome` | GeminiAPI.py:73-94 | a parsed answer is stored unchanged; an exception stores a dictionary whose `differences` entry is the empty list and that has an `error` entry |
| `Gemini.BlankCustomGivesBareDefault` | GeminiAPI.py:83-98 | with no custom text (None, empty or all whitespace) only the default template is sent, and the default variant's outcome is returned bare |
| `Gemini.CustomOnlyGivesBareCustom` | GeminiAPI.py:54-98 | with custom text and the default excluded only the stripped custom prompt is sent, and the custom variant's outcome is returned bare |
| `Gemini.BothGiveKeyedPair` | GeminiAPI.py:54-101 | with custom text and the default included both variants run, custom first, and the result is a dictionary with exactly the keys `custom` and `default` |
| `Gemini.CompareFollowsSchedule` | GeminiAPI.py:48-101 | the result follows the schedule: one scheduled variant's outcome comes back bare; two give a dictionary whose keys are exactly theirs, each holding its own variant's outcome |
| `Gemini.EntriesCollapse` | GeminiAPI.py:96-101 | returning the only entry of `results` bare, and otherwise the whole dictionary, gives the same value as the decision table |
| `Gemini.Requests` | GeminiAPI.py:73-87 | every request carries both documents in order; with two requests the custom prompt is sent first and the default template second |
| `Gemini.ComparePdfs` | GeminiAPI.py:32-101 | filling `results` entry by entry under the two guarded blocks and then collapsing a single entry yields exactly `Compare` (the decision table the lemmas above describe), and the requests sent are exactly `Requests` in that order |
| `Gemini.FailureIsolated` | GeminiAPI.py:77-94 | with both variants scheduled, a variant that raises stores its own sentinel `"<Label> prompt error: <msg>"` with an empty list, and the other variant keeps its own outcome |
| `Display.Tabulate` | main.py:64-115 | one row per difference record in input order, `S.No` running 1..n; a missing `field`, `file1_value`, `file2_value` or `item_index` reads as `""`; `item_index` appears only in line-item tables; a record that is not a dictionary makes the render raise |
| `Display.Show` | main.py:47-125 | classification: for "Invoices" with dictionary differences, missing header or line-item lists count as empty and both empty means no differences, and each table drawn holds exactly the `Tabulate` rows of its truthy list; otherwise a truthy list gives a flat table holding its `Tabulate` rows, a truthy non-list gives "unexpected format", and empty or absent differences give "no differences"; the render raises exactly when the result is not a dictionary or a truthy list to be tabulated holds a non-dictionary (a truthy non-list header or line-item value included) |
| `Display.Dispatch` | main.py:222-238 | the `in` test raises exactly on a number, boolean or None; two tabs exactly when `in` finds both words; on a list or string the tabs hold a raise and nothing more; on a dictionary the custom tab shows its entry and the default tab is drawn, with its own entry, exactly when the custom tab did not raise; otherwise the whole result goes through the single display |
| `Display.DictionaryTabsIffBothKeys` | main.py:223 | on a dictionary the dispatch opens tabs exactly when both keys exist |
| `Display.ListNamingBothKeysRaises` | main.py:223-230 | a list answer holding the strings "custom" and "default" opens two tabs and raises in the first, so the display does not complete |
| `Display.TextNamingBothKeysRaises` | main.py:223-230 | a string answer containing both words "custom" and "default" opens two tabs and raises in the first, so the display does not complete |
| `Display.SentinelShownAsNoDifferences` | main.py:102-125 | an error sentinel is displayed as "no differences" under either document type |
| `Display.BothVariantsShowTwoTabs` | main.py:223-235 | with non-blank custom text and the default included, the result always opens as two tabs; the custom tab shows the custom outcome; the default tab shows the default outcome when the custom tab did not raise and stays undrawn when it did; a failed custom call shows "no differences", so the default tab is drawn |
| `Display.SingleVariantShownAlone` | main.py:223-238 | a single variant's bare result opens tabs exactly when the model's answer itself passes the `in` test for both words; a failed single call is shown on its own as "no differences" |
| `Session.AddDefaultEffect` | main.py:22-24 | one iteration of the `init_session` loop inserts its key and sets the default only when the key was absent |
| `Session.InitFromEffect` | main.py:22-24 | the loop over the defaults adds exactly the keys it visits and overwrites no key that existed |
| `Session.DefaultKeysAreAll` | main.py:14-21 | the `defaults` dictionary names every one of the six keys the script manages |
| `Session.Init` | main.py:13-24 | after `init_session` every managed key exists |
| `Session.InitEffect` | main.py:13-24 | after `init_session` all six keys exist; each existing key keeps its value; each missing key gets `None`, `"initial"` or `False` |
| `Session.InitIdempotent` | main.py:13-27 | running `init_session` twice equals running it once |
| `Session.DownloadReset` | main.py:29-35 | after the download reset nothing is shown, the download flag is clear and the uploader has the new key; the reset and rescan flags are untouched |
| `Session.Reset` | main.py:38-44 | after `reset_comparison` nothing is shown, the reset flag is set and the uploader has the new key; the rescan and download flags are untouched |
| `Session.ClearedResetFlag` | main.py:154-156 | the reset flag is false afterwards and nothing else changes |
| `Session.UploadBoth` | main.py:171-175 | both uploads must succeed, the first file's reference comes first, and a failed first upload fails the pair |
| `Session.Process` | main.py:158-212 | processing starts only on two uploaded files plus submit, or on a pending rescan; with two stored files and both uploads successful it stores `Compare(..., include_default=True)` and clears `rescan_clicked`; the stored result changes only when two files are stored; an upload failure leaves the result and the rescan flag unchanged; the uploader key, reset flag and download flag are never touched |
| `Session.Shown` | main.py:215-219 | the display guard admits only a stored result that is not None together with exactly two stored files |
| `Session.PageOf` | main.py:214-255 | results are shown exactly under the display guard, and a results page shows the stored result through the dual/single dispatch (`Display.Dispatch`); the count warning appears exactly when the guard fails and the uploader holds a number of files other than zero or two |
| `Session.Run` | main.py:27-252 | after any rerun every managed key exists; results appear only under the display guard, and a results page shows the stored result through `Display.Dispatch`; the download flag is left set exactly when the display ran to its end without raising and the download button was clicked |
| `Session.RaisedDisplayArmsNothing` | main.py:222-248 | a display that raised ends the rerun before the download button, so the download flag stays clear |
| `Session.FreshSessionShowsNothing` | main.py:158-219 | the first rerun of a new session shows no results unless it is a submit on exactly two files |
| `Session.RunKeepsRescanCleared` | main.py:158-212 | `rescan_clicked` is never set: from a state where it is absent or false, every rerun leaves it present and false |
| `Session.ProcessingNeedsSubmit` | main.py:159-166 | without a submit click on exactly two files, a rerun consults neither the uploader nor the model, so its outcome does not depend on them |
| `Session.CustomPromptAlwaysShowsTwoTabs` | main.py:177-208 | `include_default` is forced to true at processing time, so non-blank custom text always yields both variants and two tabs, whatever the toggle says |
| `Session.ResetRunShowsNothing` | main.py:39-44 | after a reset click no results are shown, the stored files and result are `None`, the uploader key is fresh, and `reset_clicked` is already cleared in that same rerun, unless a pending download reset restarts the run |
| `Session.DownloadRunClears` | main.py:30-35 | a rerun that finds `download_triggered` set clears it, sets the files and result to `None`, installs a fresh uploader key and restarts; the reset and rescan flags are not touched |
| `Session.DownloadArmsReset` | main.py:240-248 | a download click on a results page whose display completed makes the next rerun restart with the files and the result cleared |
| `Session.SessionState.InitSession` | main.py:13-24 | the loop over the defaults performs `Init` on the session state |
| `Session.SessionState.SetDefault` | main.py:23-24 | one loop iteration inserts the key with its default when it is absent and otherwise changes nothing (`AddDefault`) |
| `Session.SessionState.ResetAfterDownload` | main.py:29-35 | the download-reset block performs `DownloadReset` when `download_triggered` is set, changes nothing otherwise, and reports whether a rerun is requested |
| `Session.SessionState.ResetComparison` | main.py:38-44 | `reset_comparison` performs `Reset`: the files and the result become `None`, `reset_clicked` is set, the uploader key is replaced, nothing else changes |
| `Session.SessionState.ClearResetFlag` | main.py:154-156 | clears `reset_clicked` and changes nothing else |
| `Session.SessionState.ProcessSubmission` | main.py:158-212 | the processing block, with its uploads and the call to `ComparePdfs`, performs `Process` |
| `Session.SessionState.Rerun` | main.py:27-252 | one rerun from the top performs `Run`: reset callback, `init_session`, download reset, flag clearing, processing, display guard, and the download click only when the display did not raise |

## Left out

- API-key loading, `genai.configure` and the import-time `ValueError` (GeminiAPI.py:8-15) are environment setup.
- `upload_to_gemini`, model construction and `send_message` are remote calls. They become the oracles `upload` and `llm`. An exception raised while the model object is built, outside the per-variant `try`, is not modelled.
- The generation configuration (temperature, top-p, top-k, token limit) is floating-point sampling with no effect on the logic.
- `json.dumps` in `compare_pdfs` followed by `json.loads` in main.py is taken to be the identity. `ComparePdfs` returns the JSON value directly, and JSON parsing itself is part of the `llm` oracle.
- The wording of the two prompt templates and of the custom-prompt directive is not modelled. The model records only which template is chosen and which shape each prompt requests.
- Key order of JSON objects (Python dictionaries keep insertion order) is not modelled. Objects are maps.
- Streamlit rendering is not modelled: headings, prefixes, the `highlight_rows` styling, DataFrames, `scrollable_box`, the prompt expander, spinners, tabs and success/error messages. A `View` records only which outcome is shown and the rows of each table.
- `Display.Show`: when an invoice's header table is drawn and the line-item list then raises, the header table already on the page is not modelled. The whole view is `RenderError`.
- `time.time()` for the uploader key is a pair of inputs of the rerun (`resetKey`, `downloadKey`). The freshness lemmas assume each differs from the previous key.
- Reading file bytes for upload is I/O. An uploaded file is a name and its bytes, and the upload oracle receives it whole.
- `st.rerun()` inside the `reset_comparison` callback is a no-op in Streamlit and is not modelled. The callback itself runs at the start of the next rerun (`Inputs.resetPressed`).
- Widget keys other than the six the script manages are not modelled.
- The inputs of a rerun are not tied to the widgets the previous rerun drew: a reset click (`Inputs.resetPressed`) is accepted even after a page whose display raised before the reset button was drawn.
