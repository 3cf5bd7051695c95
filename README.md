# Preference elicitation core, modelled in Dafny

This project models the sequential core of a preference-elicitation chat bot.
The bot is a `PreferenceManager` holding an insertion-ordered table of preference records. An
`ElicitationBot` sits on top of it and does the following:

- rotates through ten story prompts without repeating one;
- keeps one conversation history per user and sends the LLM the system prompt plus the last ten
  history entries;
- takes preferences from regex captures and from the `PREFERENCE: ...` line of an LLM reply;
- saves each of them through `save_preference`;
- reports one detected preference by fixed precedence;
- writes the stored list into prompts in two slightly different formats.

Files:

- `wrappers.dfy`: `Option`, Python's `None` versus a value.
- `text.dfy`: the string semantics the core relies on. This is `str.strip()` with Python's whitespace
  set, and `repr()` of a string, which is how an f-string shows a string inside a dict.
- `preferences.dfy`: the `PreferenceManager` class, whose `preferences` field is a `seq<Pref>` that
  its methods append to and reassign. It comes with the specification functions `IndexOfId`,
  `Lookup` and `WithoutId` and lemmas about appending, looking up and deleting. It also holds the
  guard of `_load_preferences`.
- `elicitation_bot.dfy`: the `ElicitationBot` class and the pure logic of the bot:
  - the rotation relation;
  - the save guard;
  - the capture filter;
  - the reply parser;
  - the precedence rule;
  - the context window;
  - the two formatters.

Inputs stand in for what the model cannot compute:

- The LLM's replies are arguments of the methods.
- The regex engine's matches are an abstract `seq<seq<Match>>`, one sequence per pattern.
- `uuid4()` and the clock are arguments. `ProcessMessage` and `ProcessInferenceMessage` take them as
  functions `uuids: nat -> string` and `clock: nat -> string` indexed by save number: save `n` uses
  `uuids(2n)` for the dict's id, `uuids(2n+1)` for the table's id and `clock(n)`.
- `random.choice` is a nondeterministic pick (`:|`).

The wiring between the two classes is modelled as the code has it. `save_preference` builds a record
dict `{id, text, source, timestamp}` and passes the whole dict to `add_preference` as its text.
`add_preference` wraps it in a new record with source `"manual_chat"` and a second fresh id
(core/elicitation_bot.py:190-197, core/preference_manager.py:56-61). So a stored record's `text` is a
`Payload`: a plain string or such a dict. The prompt formatters then show the dict's Python repr
(`Preferences.Render`). Every preference the bot itself saves is therefore listed as
`- {'id': '…', 'text': '…', 'source': '…', 'timestamp': '…'}`.

## Model

| member | source | states |
|---|---|---|
| Preferences.PreferenceManager.constructor | core/preference_manager.py:17-20 | the table starts as what `_load_preferences` produced |
| Preferences.LoadPreferences | core/preference_manager.py:23-34 | a missing file, content that is empty after stripping or exactly `{}`, or a decode error all give the empty table; otherwise (the file exists, its stripped content is neither empty nor `{}`, and it decodes) the table is exactly the decoded list |
| Preferences.LoadEmptyObject | core/preference_manager.py:29-31 | `{}` with any whitespace around it loads as the empty table, whatever the decoder would say |
| Preferences.PreferenceManager.AddPreference | core/preference_manager.py:45-63 | appends exactly one record `{text, source, id}` (source defaults to `manual_chat`, no timestamp) after the unchanged earlier records and returns it; under a fresh id, looking that id up finds it and ids stay unique |
| Preferences.LookupAfterAppend | core/preference_manager.py:56-61 | after appending a record with a fresh id, its id looks it up and every other id looks up what it did before |
| Preferences.IndexOfIdAppend | core/preference_manager.py:61 | after an append, the first match for an id is the earlier one if any, else the new record if it matches |
| Preferences.PreferenceManager.GetPreferences | core/preference_manager.py:65-67 | returns the stored list itself |
| Preferences.IndexOfId | core/preference_manager.py:75-77 | the first position holding the id (none earlier does), or the length when no record has it |
| Preferences.Lookup | core/preference_manager.py:73-78 | a found record is in the list and has the requested id; None exactly when no record has that id |
| Preferences.PreferenceManager.GetPreferenceById | core/preference_manager.py:73-78 | the loop returns the first record with the id (`Lookup`), and None exactly when no record has it |
| Preferences.WithoutId | core/preference_manager.py:88 | the comprehension keeps no record with the id and never lengthens the list |
| Preferences.WithoutIdCounts | core/preference_manager.py:88 | every record with the id is removed; every other record is kept exactly as many times as it occurred |
| Preferences.WithoutIdSubset | core/preference_manager.py:88 | every kept record comes from the original list |
| Preferences.WithoutIdConcat | core/preference_manager.py:88 | the filter works record by record, so kept records stay in their relative order |
| Preferences.WithoutIdShrinks | core/preference_manager.py:87-92 | the list gets shorter exactly when some record has the id; when none has it the list is unchanged |
| Preferences.PreferenceManager.DeletePreference | core/preference_manager.py:80-92 | the new list is the filtered old one; returns True exactly when it got shorter, which is exactly when some record had the id; returns False with the list unchanged otherwise; the id then looks up nothing |
| Preferences.LookupAfterDelete | core/preference_manager.py:73-92 | after deleting an id, looking it up gives None |
| Preferences.LookupOtherAfterDelete | core/preference_manager.py:73-92 | deleting one id leaves the lookup of every other id unchanged |
| Preferences.AppendThenDelete | core/preference_manager.py:45-92 | deleting the id of a record just added under a fresh id restores the previous list |
| Preferences.UniqueIdsKept | core/preference_manager.py:56-61 | adding under a fresh id and deleting keep ids unique; with unique ids a delete removes at most one record |
| Preferences.RenderRecordOneLine | core/elicitation_bot.py:155 | the f-string text of a record dict (its repr, also used at line 314) is a single line that opens with `{` and closes with `}`, whatever the dict's fields hold |
| Text.LStrip | core/elicitation_bot.py:186 | the result is no longer than the input and does not start with whitespace |
| Text.RStrip | core/elicitation_bot.py:186 | the result is no longer than the input and does not end with whitespace |
| Text.LStripSlice | core/elicitation_bot.py:186 | `lstrip` keeps a suffix and drops only whitespace |
| Text.RStripSlice | core/elicitation_bot.py:186 | `rstrip` keeps a prefix and drops only whitespace |
| Text.Strip | core/elicitation_bot.py:186 | `strip()` is no longer than its input and starts and ends with non-whitespace |
| Text.StripEmpty | core/preference_manager.py:29-30 | stripping gives the empty string exactly when every character is whitespace |
| Text.StripIdempotent | core/elicitation_bot.py:143 | stripping twice is stripping once |
| Text.StripTrimmed | core/elicitation_bot.py:281 | a string with non-whitespace ends strips to itself |
| Text.StripPadded | core/preference_manager.py:29 | whitespace added around a trimmed string is removed again by `strip()` |
| Text.Escape | core/elicitation_bot.py:155 | the escaped body of a literal holds no newline and is at least as long as the string |
| Text.UnescapeEscapeChar | core/elicitation_bot.py:155 | one escaped character reads back as itself, whatever follows |
| Text.UnescapeEscape | core/elicitation_bot.py:155 | reading an escaped literal body back gives the original string |
| Text.Repr | core/elicitation_bot.py:155 | `repr()` of a string holds no newline and is at least two characters longer |
| Text.ReprReadsBack | core/elicitation_bot.py:155 | `repr()` opens and closes with the same quote, double exactly when the string has a single quote and no double quote, and its body reads back as the string |
| Elicitation.StoryPromptsCount | core/elicitation_bot.py:20-31 | the ten questions are distinct, so the rotation runs over exactly ten prompts |
| Elicitation.Unused | core/elicitation_bot.py:161 | the comprehension holds exactly the questions not yet used |
| Elicitation.ElicitationBot.constructor | core/elicitation_bot.py:109-113 | the bot starts with no used prompts and no conversations |
| Elicitation.ElicitationBot.GetStoryPrompt | core/elicitation_bot.py:158-172 | while some prompt is unused, the prompt returned is an unused one and joins the set; once all are used the set restarts from the prompt returned; the set stays within the ten questions and grows by one or becomes a singleton |
| Elicitation.StoryStep | core/elicitation_bot.py:161-170 | after a call the prompt returned is in the used set, which grew by exactly one or restarted as that one prompt, and stays within the questions |
| Elicitation.RotationNoRepeat | core/elicitation_bot.py:158-172 | from an empty set, up to as many calls as there are questions (ten, by `StoryPromptsCount`) return pairwise distinct prompts, and the used set holds exactly those |
| Elicitation.RotationCompletes | core/elicitation_bot.py:161-166 | after as many calls as there are questions (ten, by `StoryPromptsCount`) from an empty set, every question has been asked, so the next call resets |
| Elicitation.Rejected | core/elicitation_bot.py:186 | the emptiness test adds nothing: a text is rejected exactly when it strips to fewer than three characters |
| Elicitation.RejectedIgnoresPadding | core/elicitation_bot.py:186 | whitespace padding never gets a short text past the guard, nor a long one rejected |
| Elicitation.ElicitationBot.SavePreference | core/elicitation_bot.py:174-199 | returns None with the list unchanged exactly when the text is rejected; otherwise returns the record dict `{id, text, source, timestamp}` and appends exactly one record holding that dict under `manual_chat` and a second id |
| Elicitation.SavedRecordsHead | core/elicitation_bot.py:225-226 | the first text is saved first, with the first uuids and clock reading |
| Elicitation.SavedRecordsSingle | core/elicitation_bot.py:186-197 | saving one text appends nothing when it is rejected, else its record dict under `manual_chat` |
| Elicitation.SavedRecordsConcat | core/elicitation_bot.py:225-226 | saving a list in two parts saves the first part, then the second with the following uuids and clock readings |
| Elicitation.SavedRecordsAccepted | core/elicitation_bot.py:186-197 | every saved record is a record dict under `manual_chat` with the caller's source and a text that passed the guard; at most one record per text |
| Elicitation.SavedRecordsAll | core/elicitation_bot.py:225-226 | when no text is rejected, every text is saved, in order |
| Elicitation.ElicitationBot.SaveCapture | core/elicitation_bot.py:226 | one save appends exactly what `SavedRecords` of that single text says |
| Elicitation.ElicitationBot.SaveEach | core/elicitation_bot.py:225-226 | the loop appends exactly the records `SavedRecords` describes, after the unchanged earlier ones |
| Elicitation.ElicitationBot.GetPreferences | core/elicitation_bot.py:201-203 | returns the manager's list |
| Elicitation.KeptCaptures | core/elicitation_bot.py:141-143 | at most one capture per match |
| Elicitation.KeptCapturesStripped | core/elicitation_bot.py:143 | every kept capture is already stripped |
| Elicitation.KeptCapturesConcat | core/elicitation_bot.py:141-143 | matches are filtered one by one, so the result for a concatenation is the concatenation of results |
| Elicitation.FlattenConcat | core/elicitation_bot.py:139-141 | the matches of two groups of patterns come one group after the other |
| Elicitation.ExtractedPreferences | core/elicitation_bot.py:139-145 | no more preferences than matches, and each one already stripped |
| Elicitation.ExtractedConcat | core/elicitation_bot.py:139-145 | captures of earlier patterns come before those of later patterns |
| Elicitation.SingleMatch | core/elicitation_bot.py:142-143 | a match contributes its stripped capture exactly when it has a group longer than five characters |
| Elicitation.ElicitationBot.ExtractPreferencesWithPattern | core/elicitation_bot.py:115-145 | the nested loops return `ExtractedPreferences`: kept captures, stripped, in pattern order and then match order |
| Elicitation.FirstMarker | core/elicitation_bot.py:279 | the leftmost position where `PREFERENCE: (.+)` matches, or the end when it matches nowhere |
| Elicitation.LineFrom | core/elicitation_bot.py:279 | the greedy `.+` takes the rest of the line: a newline-free slice that ends at a newline or the end |
| Elicitation.ParseReply | core/elicitation_bot.py:279-284 | the parse never yields `NONE` |
| Elicitation.ParseReplyShape | core/elicitation_bot.py:279-284 | with no match the parse is None; a parsed preference is a stripped, newline-free piece of one line |
| Elicitation.ParseFirstLine | core/elicitation_bot.py:279-284 | a reply whose first line is the marker and a statement parses to the stripped statement, or None when that is `NONE`, whatever follows |
| Elicitation.ParseReplyRoundTrip | core/elicitation_bot.py:279-282 | a reply in the requested format, `PREFERENCE: <statement>`, alone or followed by more lines, reads back as the stripped statement |
| Elicitation.ParseReplyNone | core/elicitation_bot.py:282 | `PREFERENCE: NONE`, alone or followed by more lines, parses to None |
| Elicitation.LlmPreference | core/elicitation_bot.py:256-287 | a failed call (the catch-all) gives None; a parsed preference is a stripped, newline-free piece of one line; it is usable exactly when present and non-empty, so the caller's `NONE` test never fires |
| Elicitation.Detected | core/elicitation_bot.py:229-240 | the LLM's preference when non-empty and not `NONE`; else the first pattern capture; else None |
| Elicitation.LastEntries | core/elicitation_bot.py:245 | `[-10:]` keeps the last ten entries, or all of them when there are fewer |
| Elicitation.ElicitationContext | core/elicitation_bot.py:243-246 | the system prompt, then the last ten history entries (all of them when there are fewer), in history order |
| Elicitation.ContextEndsWithMessage | core/elicitation_bot.py:243-246 | the context starts with the system prompt, ends with the new user message, holds at most eleven messages and keeps the history's order |
| Elicitation.ElicitationBot.Remember | core/elicitation_bot.py:217-221 | the user's history, created empty for a new user, gets the entry appended; no other user's history changes |
| Elicitation.ElicitationBot.SaveExtracted | core/elicitation_bot.py:224-232 | every pattern capture is saved, then the LLM's preference when usable; returns the captures and the parsed LLM preference |
| Elicitation.ElicitationBot.ProcessMessage | core/elicitation_bot.py:205-254 | the history map changes at this user only: a new user gets an empty history, which grows by the user message and then the reply; the context is the system prompt and the last ten entries; the detected preference follows `Detected`; the table grows by the saved captures and the usable LLM preference |
| Elicitation.ElicitationBot.FormatPreferencesForPrompt | core/elicitation_bot.py:147-156 | the loop returns `No preferences have been learned yet.` for an empty list, otherwise `- <text>\n` per record in list order |
| Elicitation.PromptLines | core/elicitation_bot.py:153-155 | each record adds at least its dash, space and newline |
| Elicitation.PromptLinesEnds | core/elicitation_bot.py:153-155 | a non-empty listing starts with `- ` and ends with a newline |
| Elicitation.PreferencesForPrompt | core/elicitation_bot.py:149-156 | the sentence `No preferences have been learned yet.` exactly when the list is empty; otherwise the listing, which ends with a newline |
| Elicitation.PromptLinesSingle | core/elicitation_bot.py:155 | one record is listed as one line |
| Elicitation.PromptLinesConcat | core/elicitation_bot.py:154-155 | listing a concatenation lists one part after the other |
| Elicitation.PromptLinesCount | core/elicitation_bot.py:154-155 | when no text renders with a newline, the listing holds exactly one newline per record |
| Elicitation.InferenceLines | core/elicitation_bot.py:314-315 | the joined listing starts with `- ` and holds at least three characters per record, less the missing final newline |
| Elicitation.PreferencesForInference | core/elicitation_bot.py:313-315 | the sentence `No preferences known yet.` exactly when the list is empty |
| Elicitation.FormattersAgree | core/elicitation_bot.py:313-315 | on a non-empty list the prompt formatter's listing is the inference listing plus a final newline; on an empty one they use their two different sentences |
| Elicitation.ElicitationBot.ProcessInferenceMessage | core/elicitation_bot.py:289-328 | the table grows by the captures and the usable LLM preference, saved under the inference sources; the context is the system prompt holding the `\n`-joined listing of every stored preference (or `No preferences known yet.`), then the message |

## Left out

- Preferences.LoadPreferences: the decoder's result is taken to be a list of records. Content that
  strips to something other than the literal `{}` but decodes to a dict (such as `{ }`) would make a
  later append fail in the source; that case is not modelled.
- JSON persistence is not modelled. This covers `_save_preferences`, `mkdir`, `flush`/`fsync`, reading
  the file and `json.loads` (core/preference_manager.py:23-43). Reading the file is a content string
  and a decoder result passed to `LoadPreferences`.
- The exception path in `process_message` (core/elicitation_bot.py:238-240) is not modelled as a
  separate path. `_extract_preference_from_response` catches its own failures, so only a failing save
  (file I/O) reaches it. A failed extraction call (`Extraction.Raised`) gives the same choice: the
  first capture, or None.
- `save_preference` appends before it writes the file, so a write failure leaves the record in
  memory. This is not modelled, because writes never fail here.
- The regex engine and the seventeen patterns are not modelled. Their matches are an input.
- The LLM calls (core/llm_services.py, including its error-string fallback) are not modelled. Their
  replies are inputs, and `async`/`await` is dropped.
- `uuid4()`, `datetime.now()` (`get_timestamp`) and `random.choice` are not computed. They are
  parameters or a nondeterministic choice, and id freshness is a precondition of the lemmas that
  need it.
- The prompt texts are opaque constants, and the substitution into `INFERENCE_SYSTEM_PROMPT` is a
  head/tail concatenation. The story questions and the two "no preferences" sentences are given
  verbatim.
- The `print` calls for logging are not modelled.
- Text.Repr: escapes `\\`, `\n`, `\r`, `\t` and the chosen quote only. Python also writes `\xNN`
  and `\uNNNN` for other non-printable characters.
- Text.IsSpace: lists Python's whitespace characters. Dafny strings hold Unicode scalar values, so
  lengths count code points as Python's `len()` does. A Python str may also hold lone surrogates,
  which a Dafny string cannot; such strings are not modelled.
- Elicitation.ElicitationBot.GetPreferences and Preferences.PreferenceManager.GetPreferences return
  the list as a value. In the source the returned list is the manager's own, so a caller could change
  it in place.
- The bot's constructor takes its `PreferenceManager` as an argument instead of building one.
- app.py (Streamlit UI and voice I/O) and test_preferences.py (an interactive script) are not part of
  this model.
- The unused embedding imports in core/preference_manager.py are not part of this model.
