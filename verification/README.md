# Voice-diary routing core, modelled in Dafny

The voice diary of jassist transcribes an audio note and asks a language
model to classify it. The model answers in a fixed format: blocks of the form
`text: "…"` / `tag: <category>`, with a blank line between blocks. The
routing core turns that answer into typed entries:

- Two parsers split the answer into `{text, tag}` entries: a strict one based
  on regular expressions, and a permissive one that scans lines.
- `save_to_database` stores the transcription, either as one row or as one row
  per entry.
- `route_transcription` saves, parses again when needed, dispatches each entry
  to the handler its tag names, and summarises the outcome.
- The accounts and to-do processors extract amounts, currencies, dates,
  due dates and priorities from the text of an entry.

Three small helpers of the transcription tool are modelled too:

- choosing the transcription model;
- turning `"true"`/`"false"` strings of the config into booleans;
- listing the stored transcriptions.

The modules follow the source files:

| module | models |
|---|---|
| `Text` | `str.strip`, `str.split`, `str.lower`, `in`, and the character classes `\s`, `\w` and `\d` |
| `StrictParser` | `parse_llm_response` |
| `StrictFormat` | the answer format requested in `transcribe/classifier.py` |
| `ComplexParser` | `parse_complex_llm_response` |
| `ParserAgreement` | the two parsers against each other on that format |
| `Collaborators` | the database and the six category handlers, as oracles that log their calls |
| `DbInteractions` | `save_to_database` |
| `Router` | `process_entry_by_tag` and `route_transcription` |
| `Dates` | Python's `date`, `toordinal`, `weekday` and `+ timedelta(days=n)` |
| `Accounts` | the accounts processor |
| `Todo` | the to-do processor |
| `ModelHandler` | `get_transcription_model` |
| `ConfigLoader` | `convert_string_booleans` |
| `CheckDb` | `format_transcription_records` |

The database, the handlers and the to-do store are classes. Each keeps a log
of the calls it receives. It answers the n-th call with an arbitrary but fixed
function of n and of the call. The methods that model the source's loops are
proved against specification functions:

- `Router.RouteTranscription` against `Router.Route`;
- `DbInteractions.SaveToDatabase` against `DbInteractions.PlannedSaves`,
  `DbInteractions.Outcomes` and `DbInteractions.SaveReturn`;
- `StrictParser.ParseLlmResponse` against `StrictParser.StrictEntries`.

The properties are proved about those functions.

Four facts about the code shape the model:

- The strict parser only knows the quoted `text:` form. It has no unquoted
  or multi-line fallback.
- Its text may be empty.
- Handler exceptions are not caught by the router.
- Saved ids are paired with entries by position. After a failed save the
  pairing shifts: see `Router.SavedIdsShiftAfterFailedSave`.

## Model

| member | source | states |
|---|---|---|
| Text.StripStripped | jassist/voice_diary/route_transcription/db_interactions.py:29 | `strip()` leaves no leading and no trailing whitespace |
| Text.StripFacts | jassist/voice_diary/route_transcription/db_interactions.py:29 | `strip()` gives the empty string exactly for all-whitespace input, and leaves a stripped string unchanged |
| Text.SplitPieces | jassist/voice_diary/route_transcription/db_interactions.py:29 | joining the pieces of `split(sep)` with `sep` gives the string back, and no piece contains `sep` |
| Text.SplitJoin | jassist/voice_diary/transcribe/db/check_db.py:54-63 | splitting a join on a one-character separator that no part holds gives the parts back |
| Text.IntToString | jassist/voice_diary/transcribe/db/check_db.py:59 | `str(i)` is non-empty, has no line break, has a leading minus exactly for negatives, and its digits denote the value |
| StrictParser.NonBlank | jassist/voice_diary/route_transcription/db_interactions.py:29 | the blocks are non-empty and stripped, and there are no more of them than pieces |
| StrictParser.TextSearchFrom | jassist/voice_diary/route_transcription/db_interactions.py:33 | the capture of the leftmost match of `text:\s*"([^"]*)"`, with no match before it, or None when it matches nowhere; the capture never holds a double quote |
| StrictParser.TagSearchFrom | jassist/voice_diary/route_transcription/db_interactions.py:34 | the capture of the leftmost match of `tag:\s*(\w+(?:\s+\w+)*)`, with no match before it, or None when it matches nowhere; the capture is runs of word characters separated by whitespace |
| StrictParser.WordsStripLower | jassist/voice_diary/route_transcription/db_interactions.py:34-38 | such a tag is already stripped, and lower-casing it keeps it words and makes it lower case |
| StrictParser.BlockEntry | jassist/voice_diary/route_transcription/db_interactions.py:31-43 | a block yields an entry only with a quote-free stripped text and a non-empty lower-case tag |
| StrictParser.Collect | jassist/voice_diary/route_transcription/db_interactions.py:31-45 | at most one entry per block, each of that shape |
| StrictParser.CollectAppend | jassist/voice_diary/route_transcription/db_interactions.py:31-45 | entries come out in block order: the entries of two block lists are those of the first, then those of the second |
| StrictParser.StrictEntriesAppend | jassist/voice_diary/route_transcription/db_interactions.py:26-45 | the entries of two answers joined by a blank line are the entries of the first followed by those of the second |
| StrictParser.ParseLlmResponse | jassist/voice_diary/route_transcription/db_interactions.py:10-45 | the loop returns `StrictEntries(response)`, with no more entries than blocks, each of the strict shape |
| StrictParser.StrictTagHasNoMarkers | jassist/voice_diary/route_transcription/db_interactions.py:34-38 | a parsed tag never contains `text:` or `tag:` |
| StrictFormat.TextOfRender | jassist/voice_diary/route_transcription/db_interactions.py:33 | in a block in the requested format, the text pattern captures exactly the quoted text |
| StrictFormat.TagOfRender | jassist/voice_diary/route_transcription/db_interactions.py:34 | in such a block, the tag pattern captures exactly the tag |
| StrictFormat.BlockEntryOfRender | jassist/voice_diary/route_transcription/db_interactions.py:31-43 | such a block yields back the entry it was rendered from |
| StrictFormat.RenderParses | jassist/voice_diary/route_transcription/db_interactions.py:10-45 | a one-context answer in the format of `transcribe/classifier.py:31-34` parses to that one entry |
| StrictFormat.FormatParses | jassist/voice_diary/route_transcription/db_interactions.py:10-45 | round trip: an answer of any number of contexts separated by blank lines parses back to those entries, in order |
| ComplexParser.LastWithIff | jassist/voice_diary/route_transcription/route_transcription.py:262-267 | the line kept for a marker is `l` exactly when `l` is the stripped form of the last line starting with that marker |
| ComplexParser.TextLineIsNoTagLine | jassist/voice_diary/route_transcription/route_transcription.py:264-267 | a `text:` line is never taken as the `tag:` line |
| ComplexParser.MarkedLines | jassist/voice_diary/route_transcription/route_transcription.py:262-267 | the inner loop ends with the last `text:` line and the last `tag:` line |
| ComplexParser.UnquoteInverse | jassist/voice_diary/route_transcription/route_transcription.py:271-273 | exactly one pair of surrounding double quotes is removed: putting the pair back gives the content again; content not enclosed in a pair is unchanged; a lone quote leaves the empty string |
| ComplexParser.ReadBlock | jassist/voice_diary/route_transcription/route_transcription.py:251-281 | one turn of the block loop adds the block's entry, or nothing for a blank block, a block of fewer than two lines, or a block without both markers |
| ComplexParser.ComplexEntryShape | jassist/voice_diary/route_transcription/route_transcription.py:251-281 | every entry's text and tag lie within one line, and the tag is stripped |
| ComplexParser.ComplexCollect | jassist/voice_diary/route_transcription/route_transcription.py:250-281 | at most one entry per block, each of that shape |
| ComplexParser.ComplexCollectStep | jassist/voice_diary/route_transcription/route_transcription.py:250-281 | each block appends its own entries after those of the blocks before it |
| ComplexParser.ParseComplexLlmResponse | jassist/voice_diary/route_transcription/route_transcription.py:235-283 | the method returns `ComplexEntries(response)`, with no more entries than blank-line pieces |
| ParserAgreement.SplitFormat | jassist/voice_diary/route_transcription/route_transcription.py:248 | cutting a formatted answer at its blank lines gives back one rendered block per entry |
| ParserAgreement.MarkedLinesOfRender | jassist/voice_diary/route_transcription/route_transcription.py:262-267 | in a rendered block, the first line is the `text:` line and the second is the `tag:` line |
| ParserAgreement.FieldsOfRender | jassist/voice_diary/route_transcription/route_transcription.py:269-276 | what follows the markers, stripped and unquoted, is the original text and tag |
| ParserAgreement.ComplexOfRender | jassist/voice_diary/route_transcription/route_transcription.py:251-281 | a rendered block yields its entry with the tag as written, not lower-cased |
| ParserAgreement.ComplexCollectRenders | jassist/voice_diary/route_transcription/route_transcription.py:250-281 | the block loop reads the rendered blocks back into the entries, in order |
| ParserAgreement.FormatAgreement | jassist/voice_diary/route_transcription/route_transcription.py:235-283 | on a formatted answer whose fields fit on one line, the permissive and the strict parser both return the entries it was made from |
| Collaborators.TranscriptionStore.Save | jassist/voice_diary/route_transcription/db_interactions.py:108-115 | a save call is appended to the store's log and answered by the store's answer function |
| Collaborators.CategoryHandlers.Handle | jassist/voice_diary/route_transcription/route_transcription.py:302-313 | a handler call is appended to the log and answered by the handlers' answer function |
| DbInteractions.PlannedSaves | jassist/voice_diary/route_transcription/db_interactions.py:83-131 | every `save_to_database` plans at least one save |
| DbInteractions.EntrySaves | jassist/voice_diary/route_transcription/db_interactions.py:102-115 | one save per parsed entry, in order, each under the entry's own text and tag |
| DbInteractions.SaveEach | jassist/voice_diary/route_transcription/db_interactions.py:102-120 | the loop makes the entries' saves up to and including the first that raises; with none raising, it keeps the last truthy id |
| DbInteractions.SaveToDatabase | jassist/voice_diary/route_transcription/db_interactions.py:47-142 | an unavailable store means no save and None; otherwise the planned saves are made up to the first exception, and the result is `SaveReturn` of their outcomes |
| DbInteractions.SingleSave | jassist/voice_diary/route_transcription/db_interactions.py:124-138 | a single save returns its id when truthy, else None |
| DbInteractions.LastTruthyFound | jassist/voice_diary/route_transcription/db_interactions.py:117-118 | a kept id is the id of a save that returned a truthy id, with no later save doing so |
| DbInteractions.SaveReturnIff | jassist/voice_diary/route_transcription/db_interactions.py:117-142 | the result is `id` exactly when no save raised and `id` is the last truthy id; it is None exactly when a save raised or no id was truthy |
| DbInteractions.EntrySaveIsSingle | jassist/voice_diary/route_transcription/db_interactions.py:83 | saving a parsed entry under its own tag is one plain save, because the tag never passes the multi-entry test |
| DbInteractions.MultiEntrySaves | jassist/voice_diary/route_transcription/db_interactions.py:83-120 | a tag holding N≥1 strict entries plans exactly N saves, in order, each with that entry's text and tag |
| Router.CategoryOfChain | jassist/voice_diary/route_transcription/route_transcription.py:302-317 | the category a lower-cased tag selects, test by test as the if/elif chain makes them |
| Router.CategoryOfIff | jassist/voice_diary/route_transcription/route_transcription.py:302-317 | a tag selects a category exactly when it is one of that category's names; it selects none exactly when it is nobody's name |
| Router.ProcessEntryByTag | jassist/voice_diary/route_transcription/route_transcription.py:285-317 | at most one handler call, with the text and id unchanged; the result is that handler's answer, or True when no handler is selected |
| Router.HandlerCallIgnoresCase | jassist/voice_diary/route_transcription/route_transcription.py:300 | a tag and its lower-cased form make the same handler call, which carries the entry's own text and id |
| Router.Truncate50 | jassist/voice_diary/route_transcription/route_transcription.py:171 | a text of at most 50 characters is kept; a longer one becomes its first 50 characters and `...` |
| Router.CountTrueIff | jassist/voice_diary/route_transcription/route_transcription.py:176-184 | the success count is positive exactly when some handler succeeded, and full exactly when all did |
| Router.DispatchAll | jassist/voice_diary/route_transcription/route_transcription.py:159-184 | one handler call per dispatch, in order; one record per dispatch with its answer; the count of successes |
| Router.SaveOnce | jassist/voice_diary/route_transcription/route_transcription.py:106-114 | saving a transcription that is not split makes exactly one save, or none when the store is unavailable, and returns its truthy id |
| Router.SaveEntries | jassist/voice_diary/route_transcription/route_transcription.py:79-98 | one save per entry found, in order; the truthy ids are kept in order |
| Router.AllTruthyIds | jassist/voice_diary/route_transcription/route_transcription.py:94-95 | when every save returns a truthy id, the kept ids are exactly the saves' ids, in order |
| Router.TruthyIdsAppend | jassist/voice_diary/route_transcription/route_transcription.py:79-98 | the ids kept from two runs of saves are those of the first run, then those of the second |
| Router.EntriesFromInput | jassist/voice_diary/route_transcription/route_transcription.py:58-71 | the entries of the strict parser on the tag, or else on the text, when the field holds both markers |
| Router.Reparse | jassist/voice_diary/route_transcription/route_transcription.py:127-150 | the second look: the strict parser and then the permissive one, on the tag and then on the text |
| Router.SecondLookIsFallbackParser | jassist/voice_diary/route_transcription/route_transcription.py:127-150 | when the first look found nothing, the entries of the second look are the permissive parser's |
| Router.DispatchRouting | jassist/voice_diary/route_transcription/route_transcription.py:124-224 | once an id is known, the dispatch and the summary are those of `Dispatched` |
| Router.RouteTranscription | jassist/voice_diary/route_transcription/route_transcription.py:16-233 | the result, the saves made and the handler calls made are those of the specification `Route` |
| Router.SaveFailureIsTerminal | jassist/voice_diary/route_transcription/route_transcription.py:116-119 | "Database save failed" appears only without a given id; the result is then the failed summary, and no handler is called |
| Router.NoTruthyIds | jassist/voice_diary/route_transcription/route_transcription.py:94-95 | no id is kept exactly when no save returned a truthy id |
| Router.SaveFailsIffNoTruthyId | jassist/voice_diary/route_transcription/route_transcription.py:73-119 | with no given id and an available store, the routing fails with "Database save failed" exactly when every save it makes returns a falsy id or raises, and then calls no handler |
| Router.UnavailableStoreFails | jassist/voice_diary/route_transcription/route_transcription.py:75-119 | with the store unavailable and no id, nothing is saved, no handler runs, and the routing fails |
| Router.GivenIdIsUsed | jassist/voice_diary/route_transcription/route_transcription.py:187-224 | with a given id, nothing is saved, no failure message appears, and every handler call carries that id |
| Router.SingleEntryRouting | jassist/voice_diary/route_transcription/route_transcription.py:218-224 | with no entries found and an id known, the transcription is dispatched once with its raw text and tag and that id; one entry is counted; the status, `additional_processing` and the success count all follow that one dispatch |
| Router.MultiEntryRouting | jassist/voice_diary/route_transcription/route_transcription.py:152-217 | when entries are dispatched one by one, `entries_processed` is the number of records and positive, `additional_processing == (entries_processed > 0)`, and `success_count` is the number of records marked successful |
| Router.StatusReflectsSuccesses | jassist/voice_diary/route_transcription/route_transcription.py:180-224 | the status is "success" exactly when the success count is positive; successes never exceed the entries processed; there are no more handler calls than entries processed |
| Router.SavesPerEntry | jassist/voice_diary/route_transcription/route_transcription.py:79-114 | without an id, each entry found is saved as its own row, in order; with no entry found, one save of the whole text and raw tag |
| Router.SavedEntriesKeepTheirIds | jassist/voice_diary/route_transcription/route_transcription.py:159-174 | when every save succeeds, entry k is recorded with the id of its own row, and the first id is the routing's id |
| Router.SavedIdsShiftAfterFailedSave | jassist/voice_diary/route_transcription/route_transcription.py:159-168 | when the first save fails and the second succeeds, the first entry is dispatched and recorded with the second entry's id |
| Router.StrictTagsStripped | jassist/voice_diary/route_transcription/route_transcription.py:197 | every tag of the strict parser is already stripped |
| Router.ComplexTagsStripped | jassist/voice_diary/route_transcription/route_transcription.py:197 | every tag of the permissive parser is already stripped |
| Router.DispatchedTagsUnchanged | jassist/voice_diary/route_transcription/route_transcription.py:197 | the `strip()` before dispatch changes no tag of the entries dispatched |
| Dates.NextDay | jassist/voice_diary/todo/todo_processor.py:52 | the next day is the valid date one ordinal later; it is missing exactly after 9999-12-31 |
| Dates.AddDays | jassist/voice_diary/todo/todo_processor.py:61 | `d + timedelta(days=n)`, when it exists, is valid and n ordinals later |
| Dates.AddDaysFails | jassist/voice_diary/todo/todo_processor.py:61 | adding days fails exactly when it would pass 9999-12-31 |
| Dates.AddDaysWeekday | jassist/voice_diary/todo/todo_processor.py:57-61 | adding n days moves the weekday n places on, modulo 7 |
| Dates.OrdinalBound | jassist/voice_diary/todo/todo_processor.py:61 | no valid date lies after 9999-12-31 |
| Accounts.FindWholeWord | jassist/voice_diary/accounts/accounts_processor.py:100 | the leftmost whole-word occurrence of a keyword, and none before it |
| Accounts.HasWholeWordIff | jassist/voice_diary/accounts/accounts_processor.py:100 | `re.search(r'\bkw\b', s)` matches exactly when the keyword occurs somewhere as a whole word |
| Accounts.FirstKeyword | jassist/voice_diary/accounts/accounts_processor.py:99-101 | the first keyword of the list found, and no earlier one found |
| Accounts.DetectEntryType | jassist/voice_diary/accounts/accounts_processor.py:81-104 | income exactly when some income keyword is found as a whole word of the lower-cased text, otherwise expense |
| Accounts.DetectEntryTypeIff | jassist/voice_diary/accounts/accounts_processor.py:81-104 | income exactly when some income keyword is a whole word of the lower-cased text, otherwise expense |
| Accounts.NumberIsNumeral | jassist/voice_diary/accounts/accounts_processor.py:127 | what `\d+(?:[.,]\d+)?` reads is a numeral |
| Accounts.NormaliseNumeral | jassist/voice_diary/accounts/accounts_processor.py:130 | after `replace(',', '.')` a numeral is a decimal with at most one point |
| Accounts.MatchedNumber | jassist/voice_diary/accounts/accounts_processor.py:127-151 | every currency pattern reads its amount as the number starting at some digit of the text |
| Accounts.SearchedNumeral | jassist/voice_diary/accounts/accounts_processor.py:128-130 | the amount group of a match is a numeral |
| Accounts.ExtractAmountAndCurrency | jassist/voice_diary/accounts/accounts_processor.py:106-164 | no amount means EUR; an amount is a decimal with a dot and no comma |
| Accounts.FirstMatchPicks | jassist/voice_diary/accounts/accounts_processor.py:125-162 | the first pattern that matches decides the amount and the currency |
| Accounts.AmountPrecedence | jassist/voice_diary/accounts/accounts_processor.py:117-164 | symbols come first (€ $ £ ¥, each before then after the number), then codes (EUR USD GBP JPY CHF, after then before), then a bare number in EUR; there is an amount exactly when some pattern matches |
| Accounts.AmountIffDigit | jassist/voice_diary/accounts/accounts_processor.py:158-164 | an amount is found exactly when the text holds a digit |
| Accounts.PatternsAnnounce | jassist/voice_diary/accounts/accounts_processor.py:117-155 | every pattern reports the currency of the symbol or code it looks for |
| Accounts.MatchNames | jassist/voice_diary/accounts/accounts_processor.py:127-151 | where a symbol or code pattern matches, its symbol or code is in the text |
| Accounts.CurrencyIsNamed | jassist/voice_diary/accounts/accounts_processor.py:117-155 | any currency other than EUR is named in the text, by its symbol or by its code in any case; the franc, which has no symbol, only by its code |
| Accounts.DateMatchAt | jassist/voice_diary/accounts/accounts_processor.py:184-185 | the three groups of a date pattern are digit runs |
| Accounts.SearchDate | jassist/voice_diary/accounts/accounts_processor.py:189 | the groups of the leftmost match, with no match before it; None only when the pattern matches nowhere |
| Accounts.MonthFirstReading | jassist/voice_diary/accounts/accounts_processor.py:195-198 | a match without a four-digit first group is read month, day, year; a two-digit year falls in 2000-2099 |
| Accounts.DateFromPatterns | jassist/voice_diary/accounts/accounts_processor.py:188-202 | a date found is a valid calendar date |
| Accounts.DateFromPatternsFound | jassist/voice_diary/accounts/accounts_processor.py:188-202 | the date found is that of the first pattern that yields a valid date; an invalid one falls through to the next |
| Accounts.DateFromPatternsNone | jassist/voice_diary/accounts/accounts_processor.py:188-205 | None exactly when no pattern yields a valid date |
| Accounts.ExtractDateAsWritten | jassist/voice_diary/accounts/accounts_processor.py:166-205 | a whole-word "today" gives today before any numeric pattern; otherwise the date is that of the first pattern yielding a valid date, month/day/year before year-first as at lines 183-186 |
| Accounts.ExtractDate | jassist/voice_diary/accounts/accounts_processor.py:166-205 | the same rules, except that without "today" the year-first pattern is tried before the month/day/year one |
| Accounts.IsoDateMatches | jassist/voice_diary/accounts/accounts_processor.py:185 | the year-first pattern reads `YYYY-MM-DD` as its year, month and day |
| Accounts.IsoDateHasNoToday | jassist/voice_diary/accounts/accounts_processor.py:179 | an ISO date never contains the word "today" |
| Accounts.YearFirstDateMisread | jassist/voice_diary/accounts/accounts_processor.py:183-202 | as written, "2001-02-03" is read as 2 January 2003; with the year-first pattern first it is read as 3 February 2001 |
| Accounts.IsoDateIsRead | jassist/voice_diary/accounts/accounts_processor.py:183-202 | with the year-first pattern first, every ISO date, years 1 to 9999 zero-padded to four digits, is read as itself |
| Accounts.AccountsRowFor | jassist/voice_diary/accounts/accounts_processor.py:30-57 | a row is saved exactly when an amount is found; its type is `detect_entry_type(text)`, its amount and currency those `extract_amount_and_currency(text)` gives, its note the whole text, its source transcription `db_id`, and its date the one `extract_date` gives with the pattern order as written |
| Accounts.IsoDatedRowMisdated | jassist/voice_diary/accounts/accounts_processor.py:42 | the note "2001-02-03" is saved with the date 2 January 2003, where the corrected order gives 3 February 2001 |
| Accounts.ProcessAccountsEntry | jassist/voice_diary/accounts/accounts_processor.py:15-79 | success exactly when entry data is returned; the data holds the saved truthy id and the row's type, amount, currency, text and date |
| Accounts.NoAmountNoSave | jassist/voice_diary/accounts/accounts_processor.py:34-37 | a text without a digit gives `(False, None)` and no row, whatever the store would answer |
| Accounts.AccountsSuccessIff | jassist/voice_diary/accounts/accounts_processor.py:34-61 | success exactly when the text holds a digit and the save returns a truthy id |
| Todo.SearchDue | jassist/voice_diary/todo/todo_processor.py:44 | the term (today, tomorrow or a weekday) of the leftmost match of `kw\s+(…)`, with no match before it, or None when nothing matches |
| Todo.DueTermFirstPattern | jassist/voice_diary/todo/todo_processor.py:43-62 | the term comes from the first of by, due, on that matches, and no earlier one matches |
| Todo.NoDueTerm | jassist/voice_diary/todo/todo_processor.py:43-62 | there is no term exactly when none of the three patterns matches |
| Todo.DaysUntil | jassist/voice_diary/todo/todo_processor.py:57-60 | 1 to 7 days, landing on the target weekday, with no earlier such day |
| Todo.DueDateFor | jassist/voice_diary/todo/todo_processor.py:49-61 | a due date computed is a valid date |
| Todo.WeekdayDueDate | jassist/voice_diary/todo/todo_processor.py:53-61 | a weekday term is due 1 to 7 days ahead, on that weekday, and no day in between has it |
| Todo.TomorrowDueDate | jassist/voice_diary/todo/todo_processor.py:51-52 | "tomorrow" is one day later; it is missing only on 9999-12-31 |
| Todo.ReadDueDate | jassist/voice_diary/todo/todo_processor.py:43-62 | the loop with its `break` ends with the outcome of the first matching pattern |
| Todo.PriorityOf | jassist/voice_diary/todo/todo_processor.py:64-68 | high exactly when a high term occurs; low exactly when no high term and some low term occurs; medium otherwise |
| Todo.NotUrgentIsHigh | jassist/voice_diary/todo/todo_processor.py:65 | a note containing "not urgent" is always high priority |
| Todo.TodoRowFor | jassist/voice_diary/todo/todo_processor.py:71-79 | the saved row holds the whole text, `db_id`, the priority, and as due date that of the first matching term (None when no term matches); there is no row exactly when the due date overflows |
| Todo.NoTermNoDueDate | jassist/voice_diary/todo/todo_processor.py:33-79 | with no pattern matching, the task is saved without a due date |
| Todo.OverflowOnlyAtTheEnd | jassist/voice_diary/todo/todo_processor.py:97-99 | the exception path is taken only in the calendar's last week |
| Todo.TodoAnswer | jassist/voice_diary/todo/todo_processor.py:81-95 | success exactly when the save returns a truthy id, and then the task data carries that id and the row |
| Todo.TodoStore.Save | jassist/voice_diary/todo/todo_processor.py:74-79 | a save is appended to the log and answered by the store's answer function |
| Todo.ProcessTodoEntry | jassist/voice_diary/todo/todo_processor.py:15-99 | on overflow, `(False, None)` and no save; otherwise exactly one save of `TodoRowFor`, answered as `TodoAnswer` says |
| ModelHandler.Get | jassist/voice_diary/transcribe/model_handler.py:18-19 | `get` finds a value exactly when some member has the key |
| ModelHandler.DefaultModel | jassist/voice_diary/transcribe/model_handler.py:19 | a missing `default_model` means "whisper-1" |
| ModelHandler.EnabledModels | jassist/voice_diary/transcribe/model_handler.py:22 | no more enabled models than models |
| ModelHandler.EnabledModelsMembers | jassist/voice_diary/transcribe/model_handler.py:22 | a name is enabled exactly when some model of that name has a truthy `enabled` |
| ModelHandler.EnabledModelsAppend | jassist/voice_diary/transcribe/model_handler.py:22 | the enabled list keeps the config's order |
| ModelHandler.GetTranscriptionModel | jassist/voice_diary/transcribe/model_handler.py:14-33 | the default when nothing is enabled; the default when it is enabled; otherwise the first enabled model; an enabled model whenever one exists |
| ModelHandler.ConvertedGet | jassist/voice_diary/transcribe/config_loader.py:20-28 | after conversion, `get` finds the converted value under the same key |
| ModelHandler.ConvertedFalseDisables | jassist/voice_diary/transcribe/model_handler.py:22 | `"enabled": "false"` (any case) enables a model before conversion and disables it after |
| ConfigLoader.ConvertedMembers | jassist/voice_diary/transcribe/config_loader.py:20-28 | the same keys, in the same order |
| ConfigLoader.ConvertStringBooleans | jassist/voice_diary/transcribe/config_loader.py:18-28 | the loop, recursing into nested dictionaries, returns the converted dictionary |
| ConfigLoader.ConvertedValueCases | jassist/voice_diary/transcribe/config_loader.py:21-27 | "true"/"false" in any case become booleans; other strings, other scalars and lists are unchanged; a dictionary stays a dictionary of the same size |
| ConfigLoader.ConversionRemovesBooleanStrings | jassist/voice_diary/transcribe/config_loader.py:21-27 | afterwards no dictionary, at any depth, holds a boolean string |
| ConfigLoader.ConversionIdempotent | jassist/voice_diary/transcribe/config_loader.py:23-27 | converting twice gives what converting once gives |
| CheckDb.Repeat | jassist/voice_diary/transcribe/db/check_db.py:55 | `"-" * n` is n dashes |
| CheckDb.RecordLines | jassist/voice_diary/transcribe/db/check_db.py:59-63 | five lines per record, the last a dash line |
| CheckDb.Formatted | jassist/voice_diary/transcribe/db/check_db.py:51-52 | the no-records message exactly for None or no records |
| CheckDb.FormatTranscriptionRecords | jassist/voice_diary/transcribe/db/check_db.py:41-65 | the loop builds exactly the text `Formatted` describes |
| CheckDb.FormattedHeader | jassist/voice_diary/transcribe/db/check_db.py:54-55 | the text opens with `\nFound N transcription records:\n` and a line of 50 dashes |
| CheckDb.FormattedLines | jassist/voice_diary/transcribe/db/check_db.py:54-63 | when no field holds a line break, the lines are the header, then ID, Filename, Tag, Created at and dashes for each record, in order |
| CheckDb.AllLinesSingle | jassist/voice_diary/transcribe/db/check_db.py:57-63 | each shown line is one line when the fields are |
| CheckDb.DashLineCount | jassist/voice_diary/transcribe/db/check_db.py:55-63 | there are exactly N + 1 dash lines |

## Left out

- The database, the six category handlers, and the accounts and to-do
  stores are oracles. `db_utils/db_manager.py`, `accounts/db/accounts_db.py`,
  `todo/db/todo_db.py` and the category packages behind `insert_into_*` are not
  part of this model.
- `initialize_db()` is the store's constant `available`: it gives the same
  answer to every save of one routing.
- The file name, audio path, duration, model name and `transcribed_at`
  metadata passed to `save_transcription` are not modelled. They do not
  influence any decision.
- Logging is not modelled.
- `isinstance` checks are not modelled: text and tag are always strings here.
- `\s` follows Python's whitespace. `\w`, `\d`, `lower()` and the case folding
  of `re.IGNORECASE` are modelled on ASCII only: other Unicode letters and
  digits are not word characters here, non-ASCII letters are not lower-cased,
  and `re.IGNORECASE` does not fold characters such as 'ſ' (U+017F) to 's', so
  a currency code spelled with one is not recognised.
- Accounts.ExtractAmountAndCurrency: the amount is the normalised decimal
  numeral, not a float. Rounding of `float()` is not modelled.
- Accounts.ExtractDateAsWritten and Accounts.ExtractDate: the date is a calendar date rather than a `datetime` at
  midnight. Its `isoformat()` text is not modelled.
- Accounts.ProcessAccountsEntry and Todo.ProcessTodoEntry: the clock is a
  parameter `today`.
- Accounts.ProcessAccountsEntry: the save is a function of the row only.
  `mark_transcription_processed` is not modelled.
- Router.DispatchAll and Router.ProcessEntryByTag: handlers are total and
  never raise. The router does not catch their exceptions, so an exception
  would end the routing; that case is not modelled.
- ConfigLoader.ConvertStringBooleans: the dictionary is a sequence of members,
  converted on values. Update in place, and the aliasing of nested
  dictionaries that the caller may share, are not captured. The config's file
  I/O and the sample-config writer are not modelled.
- A JSON dictionary is a sequence of members, and distinct keys are not
  required. `ModelHandler.Get` reads the first member with a key, as a Python
  dict would read its only one. `ModelHandler.EnabledModels` lists every
  member, so on a sequence with a repeated key it can list a name twice, which
  no Python dict can produce.
- ModelHandler.GetTranscriptionModel requires that "models", when present, is a
  dictionary of dictionaries. The source would raise on anything else.
- CheckDb.FormatTranscriptionRecords: a record is a four-field row. The
  `created_at` timestamp is taken as its already-formatted text.
- Dates: years outside 1-9999 and the `datetime` type are not modelled; an
  addition past 9999-12-31 is the overflow that `timedelta` raises.

## Findings

| source | as written | input that shows it | evidently intended | confidence | as-written member | corrected member |
|---|---|---|---|---|---|---|
| jassist/voice_diary/accounts/accounts_processor.py:183-202 | the month/day/year pattern is tried first and also matches inside a year-first date | "2001-02-03" matches `01-02-03` and is read as 2 January 2003 | the year-first pattern `YYYY/MM/DD` reads such a date as 3 February 2001 | medium, not executed | Accounts.YearFirstDateMisread | Accounts.IsoDateIsRead |
