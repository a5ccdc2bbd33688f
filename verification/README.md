# Treatment-to-diagnosis matching: a Dafny model

The app `main_streamlit.py` asks a language model whether the CPT
(procedure) codes a user enters fit the ICD-10 (diagnosis) codes entered
next to them. This project models the app's logic and proves properties
about it:

- **Code store.** There are two lists of codes. The "Add" button of each panel appends a non-empty entry to its list. "Clear All Codes" empties both lists.
- **Generate branch.** With either list empty, the branch shows a warning and makes no call. Otherwise it makes one lookup with the comma-joined codes and builds a payload with each code's summary. It then makes one completion call with that payload and formats the reply.
- **Reply formatter** (`reformat_bullet_points`). It strips the reply. It puts a newline in front of every `- <digits>` bullet. It removes a trailing period together with the whitespace around it.
- **Verdict.** The heading is "Relevant CPT Codes" exactly when the formatted reply equals the line `- All CPT codes are relevant to ICD codes`. Otherwise it is "Irrelevant CPT Codes".

Modules:

- `Text`: whitespace, digits, `strip()`.
- `Reformat`: the two substitutions and their characterisation. `ReformatCases` holds worked cases for them.
- `Verdict`: the heading choice.
- `CodeStore`: the two lists.
- `Payload`: the lookup query, the summary map and the payload records.
- `Session`: sequences of button presses and the Generate branch.
- `Wrappers`: an `Option` type.

The lookup service and the language model are parameters of the Generate branch:
- `lookup: string -> seq<Entry>` is the `data` list of the service's reply.
- `complete: Payload -> string` is the model's reply.

The branch returns the calls it made, in order, together with what it puts on the page.

### How the two substitutions are modelled

- **The bullet substitution** `re.sub(r"- (\d+)", r"\n- \1", …)` is modelled as Python's left-to-right scan (`SubBullets`). A lemma proves it equal to a per-position definition (`InsertBreaks`): one newline in front of every position holding `-`, a space and a digit. `Unbreak` deletes exactly those newlines and is its inverse.
- **The period substitution** `re.sub(r"\s*\.\s*$", "", …)` is modelled as `DropTrailingPeriod`: trim the end, drop a final `.`, trim the end again. A lemma proves this is the regex's leftmost match. The removed suffix is whitespace, one `.`, and whitespace, and no earlier suffix has that shape. So `"abc.."` loses only its last period.

### Behaviour worth noting

- **The formatter is not idempotent.** It inserts a newline in front of every bullet, even one that already follows a newline. The space in front of a bullet stays where it was, and a reply that starts with a bullet gains a leading newline. So `"- 99201 - 45380"` formats to `"\n- 99201 \n- 45380"`, and formatting that again gives `"\n- 99201 \n\n- 45380"` (`ReformatCases.TwoBulletsOnOneLine`, `ReformatCases.NotIdempotent`).
- **The lists are read once per press.** The Generate branch reads both lists from the session state when the button is pressed, and nothing changes them while it runs. The model passes that store value to `RunGenerate`.
- **Lookup failures are not handled.** On a non-200 status or an exception, `get_code_description` returns an error string. Line 238 then indexes that string with `['data']`, which raises. The branch has no handled failure path, so the model's lookup is a total function.
- **Completion failures are ordinary replies.** When the completion call raises, `evaluate_codes` returns a string starting with `Error: `. That string is formatted and shown under the "Irrelevant CPT Codes" heading (`Verdict.ErrorReplyIrrelevant`).

## Model

| member | source | states |
|---|---|---|
| Text.Strip | main_streamlit.py:141 | computes `str.strip()`; what it returns is stated by `Text.StripCharacterisation` |
| Text.StripCharacterisation | main_streamlit.py:141 | `strip()` returns a slice of the input with only whitespace before and after it, and with no whitespace at either of its own ends |
| Text.StripIdempotent | main_streamlit.py:141 | stripping twice gives the same text as stripping once |
| Text.StripPrependSpace | main_streamlit.py:141 | stripping whitespace followed by a trimmed core returns the core |
| Reformat.SubBulletsIsInsertBreaks | main_streamlit.py:141 | Python's left-to-right bullet substitution, which consumes greedy digit runs, equals inserting one newline before every `-`, space, digit position |
| Reformat.InsertBreaksBroken | main_streamlit.py:141 | after the substitution, every `- <digit>` bullet is directly preceded by a newline |
| Reformat.UnbreakInsertBreaks | main_streamlit.py:141 | deleting the newline in front of each bullet gives back the input, so the substitution changes nothing else |
| Reformat.InsertBreaksUnbreak | main_streamlit.py:141 | conversely, any text whose bullets all follow a newline is the substitution's image of its unbroken form |
| Reformat.DropTrailingPeriodIsLeftmostMatch | main_streamlit.py:142 | the period removal yields a prefix of its input; when it removes something, the removed suffix is whitespace, one `.`, whitespace; no earlier suffix has that shape (the regex's leftmost match) |
| Reformat.ReformatBullets | main_streamlit.py:140-143 | computes `reformat_bullet_points`; what it returns is stated by `Reformat.ReformatCharacterisation` |
| Reformat.ReformatCharacterisation | main_streamlit.py:140-143 | the formatter equals stripping, then period removal, then bullet breaking; undoing the breaks gives the stripped text without its period; every bullet of the result follows a newline |
| Reformat.InsertBreaksOnlyFixes | main_streamlit.py:141 | text without digits is the bullet substitution's image of itself and of nothing else |
| ReformatCases.TwoBulletsOnOneLine | main_streamlit.py:140-143 | `"- 99201 - 45380"` formats to `"\n- 99201 \n- 45380"` |
| ReformatCases.NotIdempotent | main_streamlit.py:140-143 | formatting that result again adds a second newline, so the formatter is not idempotent |
| ReformatCases.TwoPeriods | main_streamlit.py:142 | `"abc.."` formats to `"abc."`, so only one period is removed |
| Reformat.ReformatPlainSentence | main_streamlit.py:140-143 | a non-empty sentence without digits, with no whitespace at either end and not ending in `.`, is unchanged by the formatter; with one period added after it, it loses exactly that period |
| ReformatCases.ReformatTwoCodes | main_streamlit.py:141 | for any two five-digit codes, `"- c1 - c2"` formats to `"\n- c1 \n- c2"` |
| Verdict.Classify | main_streamlit.py:248-251 | computes the heading choice; when it is "Relevant" is stated by `Verdict.ClassifyIff` |
| Verdict.ClassifyIff | main_streamlit.py:246-251 | the verdict is "Relevant" exactly when the stripped reply, without its trailing period, is the all-relevant line |
| Verdict.AllRelevantReply | main_streamlit.py:246-251 | the all-relevant line, with or without a final period, formats to itself without the period and is classified "Relevant" |
| Verdict.ClassifyNeedsDash | main_streamlit.py:246-251 | a reply whose stripped text is empty or does not start with `-` is "Irrelevant" |
| Verdict.ErrorReplyIrrelevant | main_streamlit.py:170-171 | a completion error string `Error: …` is classified "Irrelevant" |
| Verdict.ClassifyCaseSensitive | main_streamlit.py:248 | the comparison is case-sensitive: `"- all CPT codes are relevant to ICD codes."` is "Irrelevant" |
| Verdict.ClassifyCodeList | main_streamlit.py:246-251 | any reply holding a digit anywhere, such as a list of codes, is "Irrelevant" |
| CodeStore.Add | main_streamlit.py:196-214 | in either panel, a non-empty entry is appended at the end of its own list, duplicates included; an empty entry changes nothing; the other list is untouched |
| CodeStore.ClearAll | main_streamlit.py:259-262 | both lists become empty |
| CodeStore.ClearAllIdempotent | main_streamlit.py:259-262 | clearing twice leaves the same store as clearing once |
| Session.Step | main_streamlit.py:196-262 | the effect of one button press; its effect on each list is stated by `Session.StepCodes` and `Session.AfterIsAddedSinceClear` |
| Session.StepCodes | main_streamlit.py:196-214 | a press other than "Clear All Codes" extends each list by exactly the non-empty entry that press makes for that list, if any |
| Session.After | main_streamlit.py:196-262 | the lists after a sequence of presses; their content is stated by `Session.AfterIsAddedSinceClear` |
| Session.AfterIsAddedSinceClear | main_streamlit.py:196-262 | after any sequence of button presses, each list holds exactly the non-empty entries of its kind made since the last clear, in entry order, duplicates included |
| Session.StoreScenario | main_streamlit.py:196-262 | an entry before a clear is dropped, an empty entry is ignored, and later entries are kept in order |
| Payload.Join | main_streamlit.py:236 | computes `",".join`; its inverse relation to the comma split is stated by `Payload.SplitJoin` and `Payload.JoinSplit` |
| Payload.SplitJoin | main_streamlit.py:235-236 | splitting the comma-joined query on commas gives back the non-empty code list when no code contains a comma |
| Payload.JoinSplit | main_streamlit.py:236 | joining the comma-split pieces of any string gives back the string |
| Payload.SummaryMap | main_streamlit.py:238 | the map's keys are exactly the codes in the lookup reply |
| Payload.SummaryMapLastWins | main_streamlit.py:238 | for a code that appears more than once, the map keeps the summary of its last entry |
| Payload.BuildPayload | main_streamlit.py:230-244 | each payload group has one record per entered code, in order. A record has a summary exactly when the lookup returned an entry for its code, and that summary is the last such entry's |
| Session.LookupQueryOrder | main_streamlit.py:235-236 | when the two lists are not both empty and no code contains a comma, the query splits back into the ICD-10 codes followed by the CPT codes |
| Session.QueryScenario | main_streamlit.py:235-236 | codes `A01.0` and `99213` make the query `A01.0,99213` |
| Session.RunGenerate | main_streamlit.py:226-255 | with either list empty: the fixed warning and no call. Otherwise: exactly one lookup with the joined codes, then one completion call on the payload built from that lookup's reply. The shown text is the formatted reply, and the verdict is "Relevant" exactly when that text is the all-relevant line |
| Session.AllRelevantScenario | main_streamlit.py:226-253 | with both lists non-empty and the reply `- All CPT codes are relevant to ICD codes`, with or without a final period, the page shows "Relevant" over the line without the period |
| Session.IrrelevantScenario | main_streamlit.py:226-253 | with both lists non-empty and the reply `- 99201 - 45380`, the page shows "Irrelevant" over `"\n- 99201 \n- 45380"` |

## Left out

- **Page layout.** The logo, headings, CSS, HTML wrappers (`output_message`, `output_final`, `subheader_func`, `warning_message`) and the spinner are presentation only.
- **The list of added codes** (lines 203-207 and 217-221) is display only. Its content is the store's lists.
- **The HTTP lookup** (`get_code_description`) is the parameter `lookup`. It stands for the reply's `data` list of code/summary entries.
  - The non-200 and exception branches are not modelled: their error string would make line 238 raise, so the source has no handled path for them.
  - The unused `payload` dictionary at line 148 is left out.
- **The language-model call** (`evaluate_codes`) is the parameter `complete`. Its prompt template and the model's behaviour are outside the program. An error reply is just a string.
- **Streamlit's rerun model** is abstracted to a sequence of button presses, each applied once. The explicit rerun at line 263 has no effect on the lists.
- **The API key** comes from the environment and is left out.
- **`Text.IsSpace`, `Text.IsDigit`:** Unicode whitespace and Unicode digits are not modelled. Only the ASCII whitespace characters and `0`-`9` are, where Python's `\s`, `\d` and `strip()` accept more.
- **Reformat.DropTrailingPeriod:** the `$` anchor also matches before a final newline. This does not change the result, because `\s*` already takes that newline. The model uses end of text only.
