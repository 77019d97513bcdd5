# NINFA: verified models of its protocols

NINFA is a decision assistant for hotels. These modules model the parts of it whose correctness cannot be seen by
reading one function, and prove what they keep:

- **Smart Import** (`ImportFlow`, `ImportHook`, `ImportSteps`, `ImportRuns`, `ImportSources`, `ImportTeaching`,
  `MappingDecision`, `MappingStart`, `Answers`): the dialog that puts a file into NINFA. `ImportFlow` is the step machine;
  `ImportHook` is the hook itself, an object whose callbacks change its fields and are proved to take exactly those steps.
  `ImportSteps` says of every act and every answer, without the machine's own functions, what is shown and sent then, and
  brings a file to its import on each route; `ImportRuns`, `ImportSources` and `ImportTeaching` prove what holds in every
  run, with the backend's answers arriving in any order or never. The backend's judgement is an arbitrary answer, kept in a
  log.
- **Mia** (`Conversation`, `Mia`, `MiaHome`, `MiaRuns`, `MiaRetries`, `Text`): the conversation of the Home, with
  requests of abandoned analyses still on their way.
- **The relational core** (`Schema`, `TenantCore`, `TenantKeys`, `TenantRuns`, `TenantStore`): the tables, composite
  tenant keys, RESTRICT deletes and update triggers that migrations 0003 to 0008 leave behind, as a store of unbounded
  rows and guarded statements. `TenantKeys` says what they come to with every column written out.
- **Mia's answers** (`AnswerBlocks`, `AnswerRoundTrip`, `AnswerReprints`): the line parser with its buffers, a printer,
  and how far they undo each other.
- **Dates** (`Calendar`, `BusinessDates`): `Date.UTC` and its getters as section 21.4.1 and
  section 21.4.3.4 of ECMA-262 define them, and the day before a business date.
- **The logo's flight** (`SeededRandom`, `LogoTrail`, `LogoFlight`, `LogoSweep`, `LogoRun`): the generator, the sampling
  of the logo, the particles' flight over the reals with its curve, tangents and sweep, and the callbacks of one run.
- **Screens that count the same feed** (`DecisionLists`, `DecisionTiles`), **the hooks that fetch by key** (`KeyedFetch`) and **the
  dispatcher of the automatic analysis** (`Dispatch`).

Where the source changes state step by step, an object does so here, and its methods are proved against a function of
the state before (`Model()`); the theorems are about that function. Each `Drive` method runs an object through any list
of events, so what is proved of runs holds of the object. `Basics` holds the shared shapes and facts about sequences.

Where the code does less than its documentation or its callers may expect, the exact condition is proved:

- `startingDecision` gives a field two sources when suggestions collide and nothing was saved
  (`StartingDecisionIsSingleSourced`), as with two columns suggested as the check-in (`SuggestionsMayCollide`).
- `teach` never asks about a word that every plain object answers to (`EveryWordIsAskedUnlessInherited`); a question about
  "constructor" alone is never left by teaching (`AnInheritedWordWaits`).
- A retry in Mia is documented to send the history its question originally had
  (`apps/web/components/mia-home.tsx:61-62`); it sends what stands before the question now. The two are the same exactly
  when no exchange told then has been pushed out by a newer question and none before it has been answered since, or the
  words happen to coincide (`ARetrySendsTheSameExactlyWhen`); `ARetryToldMore` and `WordsMayCoincide` are runs in which
  they differ and in which they coincide.
- A question about words whose last word is repeated, or that names no document, waits for ever: its last answer sends
  nothing (`OneAnswerPerWord`; `ARepeatedWordWaits` is a run with one word twice). Only the page's types admit these two:
  the backend of this repository always names a document and sends each word once, as keys of a `Counter` or of
  `dict.fromkeys`, or as the names of different sheets
  (`services/api/app/modules/data_sources/understanding_labor.py:188-204` and `:307-318`).
- A paragraph that looks like a list item does not survive printing and parsing (`ParseUndoesPrint`); an answer has one
  exactly when a bullet mark stands alone above further plain lines (`ReprintingIsStable`).
- `previousBusinessDate` moves the years 0 to 99 to 1900 to 1999 (`PreviousBusinessDateIsTheDayBefore`): the day before
  0050-01-02 is written 1950-01-01 (`TheYear50IsMoved`). Weekdays jump at 0100-01-01 and stand still at 0000-03-01, as
  year 0 is a leap year and 1900 is none, and nowhere else (`WeekdayOfTheDayBefore`).

## Model

| member | source | states |
|---|---|---|
| ImportRuns.ImportsWereAccepted | apps/web/lib/sources/use-import-flow.ts:587-621 | In every run, whatever the order of events and answers, each matched import carries a file and a matching that the backend had, by then, tried together, found without a wrong row and declared importable; an invoice XML had been previewed as importable. |
| ImportRuns.ReferencesAreTheBackends | apps/web/lib/sources/use-import-flow.ts:252-332 | An import whose matching carries a reference to the server's understanding carries the backend's own proposal for that very file, member for member. |
| ImportRuns.HandMatchingCarriesNoReference | apps/web/lib/sources/use-import-flow.ts:252-278 | Whatever is on the matching step, or was sent from it to be tried, carries no reference, and comes back for the preview exactly as it was sent. |
| ImportRuns.ChecksOnScreenAreReal | apps/web/lib/sources/use-import-flow.ts:236-250 | A check shown in the matching step is one the backend gave about the decision on screen, date order and decimal style apart, whatever answers and resets come late. |
| ImportRuns.OnlyConfirmationsWrite | apps/web/lib/sources/use-import-flow.ts:587-621 | A step adds at most one entry to what was heard and sent; it is an import only if the step is a confirmation on a preview, and then of the very file and matching on screen. |
| ImportRuns.NoMoreImportsThanConfirmations | apps/web/lib/sources/use-import-flow.ts:587-621 | No run sends more imports than the person gave confirmations. |
| ImportRuns.AStepSendsAtMostOneRequest | apps/web/lib/sources/use-import-flow.ts:224-652 | A step sends at most one request, leaves every other one waiting as it was, and sends an import only if it is a confirmation. |
| ImportRuns.RunKeeps | apps/web/lib/sources/use-import-flow.ts:224-652 | The invariant behind these results holds after any list of events. |
| ImportSteps.WhatACheckShows | apps/web/lib/sources/use-import-flow.ts:236-250 | A check the backend gives is on screen exactly when it is the latest asked for and its decision is still there; a check that failed leaves none, and any other answer changes nothing. |
| ImportSteps.WhatContinuingSends | apps/web/lib/sources/use-import-flow.ts:538-542 | Continuing sends the file, inspection and decision on screen, once, exactly when the check there is valid and no try is on its way. |
| ImportSteps.AValidCheckLetsGoOn | apps/web/lib/sources/use-import-flow.ts:236-250 | A decision answered as valid, and not busy, leaves on continuing exactly one more waiting request: the try of that file, inspection and decision. |
| ImportSteps.WhatATryByHandLeadsTo | apps/web/lib/sources/use-import-flow.ts:538-575 | A matching tried by hand is ready for its confirmation when every row is fine, whatever is on screen; otherwise its own columns, if they are still there, say what is wrong. |
| ImportSteps.WhatAReadFileLeadsTo | apps/web/lib/sources/use-import-flow.ts:282-418 | What a file that has been read leads to, for every problem, level, format and mode: the step shown and the one request sent. |
| ImportSteps.WhatATryLeadsTo | apps/web/lib/sources/use-import-flow.ts:318-341 | A file tried unasked is ready when every row is fine, remembered as the code says; otherwise its columns are shown with the hints and the notice it got. |
| ImportSteps.WhatAnImportEndsIn | apps/web/lib/sources/use-import-flow.ts:592-625 | An import ends as done exactly when the backend says that it succeeded; otherwise with the backend's problem, or that of the failed call. |
| ImportSteps.WhatALookAtAnInvoiceShows | apps/web/lib/sources/use-import-flow.ts:432-437 | The look at an invoice shows what the backend said of that file, or why the call failed. |
| ImportSteps.WhatChoosingAFileDoes | apps/web/lib/sources/use-import-flow.ts:420-440 | A file whose name has no extension of the domain is refused on the spot; an invoice is looked at, any other is read with nothing said. |
| ImportSteps.WhatRepliesDo | apps/web/lib/sources/use-import-flow.ts:442-500 | A chosen sheet, an answer, a named kind and matching by hand: each reads the file again, shows another kind or shows the columns, and only in the steps that offer it. |
| ImportSteps.WhatAnEditDoes | apps/web/lib/sources/use-import-flow.ts:502-536 | An edit is shown at once; the check it outdates is dropped and asked for anew, except when only the writing of dates or numbers changes. |
| ImportSteps.WhatIsDoneWithAReadyFile | apps/web/lib/sources/use-import-flow.ts:577-631 | Reviewing, remembering, confirming and leaving: a confirmation sends what is on screen exactly when it may be imported. |
| ImportSteps.HandMatchingGoesThrough | apps/web/lib/sources/use-import-flow.ts:236-250 | Checked as valid, continued, tried as fine and confirmed, a matching made by hand is imported exactly as it stood on screen, and ends as the import does. |
| ImportSteps.AnUnderstoodFileGoesThrough | apps/web/lib/sources/use-import-flow.ts:318-341 | A file understood as ready, tried as fine and confirmed is imported with the backend's proposal as it came. |
| ImportSteps.AnInvoiceGoesThrough | apps/web/lib/sources/use-import-flow.ts:420-440 | An invoice chosen, looked at as importable and confirmed is imported itself. |
| ImportSources.EveryFieldHasOneSource | apps/web/lib/sources/use-import-flow.ts:502-536 | In every run in which a file's headers are distinct and what the backend proposes, has saved and suggests gives each field one source, so do the decision on the matching step, the one on the preview and every matching imported, whatever was edited and in whatever order answers came. |
| ImportSources.EditKeepsSources | apps/web/lib/sources/mapping-decision.ts:76-122 | No edit of the dialog gives a field a second source. |
| ImportTeaching.WhatTeachingDoes | apps/web/lib/sources/use-import-flow.ts:462-482 | One answer teaches the first word still asked about, and nothing is sent while another comes after it; the last one sends the file with all that was taught, if the question names a document. |
| ImportTeaching.OneAnswerPerWord | apps/web/lib/sources/use-import-flow.ts:462-482 | A question takes one answer per different word left, nothing being sent before the last; the last answer sends the re-read exactly when the question names a document and the word that comes up last is not repeated, and otherwise the dialog stays on a question that no further answer changes. |
| ImportTeaching.ARepeatedWordWaits | apps/web/lib/sources/use-import-flow.ts:465-472 | In a run from the start, a question with one word twice takes its one answer and then waits for ever. |
| ImportTeaching.EveryWordGetsItsMeaning | apps/web/lib/sources/use-import-flow.ts:475-480 | That re-read gives each word the meaning chosen for it. |
| ImportTeaching.AnswersAddUp | apps/web/lib/sources/use-import-flow.ts:450-494 | Through any row of questions, each answered, taught word by word or settled by naming the kind, the answers kept are all those given, merged in order. |
| ImportTeaching.NoAnswerIsForgotten | apps/web/lib/sources/mapping-decision.ts:150-166 | A single answer, a column or a word given at one question, by answer or by teaching, stands at every later one until the person gives it anew. |
| ImportTeaching.EveryWordIsAskedUnlessInherited | apps/web/lib/sources/use-import-flow.ts:465-467 | Every word of a question is asked about, and gets a meaning in its document, exactly when none is a name inherited by every plain object. |
| ImportTeaching.AnInheritedWordWaits | apps/web/lib/sources/use-import-flow.ts:465-467 | In a run from the start, a question about "constructor" alone is changed by no answer. |
| ImportTeaching.WhichNamesAreInherited | apps/web/lib/sources/use-import-flow.ts:465-465 | The names that a plain object answers to, one by one. |
| ImportHook.Flow.Land | apps/web/lib/sources/use-import-flow.ts:236-250 | Whatever request is answered, its callback does to the object what the step machine does, on the state the object has by then; what that is, answer by answer, is stated in `ImportSteps`. |
| ImportHook.Drive | apps/web/lib/sources/use-import-flow.ts:224-652 | A dialog driven by any events goes through the machine's steps, so its state satisfies the invariant. |
| MappingDecision.SingleSourcedIsAPartialMap | apps/web/lib/sources/mapping-decision.ts:76-114 | With distinct headers, a decision stands for a partial map from field to source exactly when every field has one source, and for only one such map. |
| MappingDecision.WithColumnFieldIsAMapUpdate | apps/web/lib/sources/mapping-decision.ts:76-93 | Giving a column a meaning is one update of that map. |
| MappingDecision.WithConstantIsAMapUpdate | apps/web/lib/sources/mapping-decision.ts:95-114 | Giving a field a fixed value, or taking it away, is one update of that map. |
| MappingDecision.EditsRefineAPartialMap | apps/web/lib/sources/mapping-decision.ts:76-122 | Any sequence of edits keeps every field single-sourced and does to columns and constants what plain map updates do to the map. |
| MappingDecision.FieldsInUse | apps/web/lib/sources/mapping-decision.ts:69-74 | The fields with a column or a fixed value: the domain of the map. |
| MappingDecision.StartingDecisionLoop | apps/web/lib/sources/mapping-decision.ts:38-63 | The loop with its growing set of taken fields computes the starting columns, left to right. |
| MappingDecision.StartingColumnIs | apps/web/lib/sources/mapping-decision.ts:48-55 | Each starting column is the one given by the lookup of its header and, failing that, its suggestion if it is not among the taken fields; `MappingStart.WhereAColumnStarts` says it of the saved configuration itself. |
| MappingStart.WhereAColumnStarts | apps/web/lib/sources/mapping-decision.ts:46-55 | A column starts as the field saved beside its header; one saved as nothing or not at all has its suggestion exactly when it is not locked and no saved column, saved constant or column before it has that field, and else nothing. |
| MappingStart.SavedOnce | apps/web/lib/sources/mapping-decision.ts:46-46 | With distinct headers what is saved of a header is what stands beside it; of several equal headers the last speaks (`SavedAs`). |
| MappingStart.WhatElseIsKept | apps/web/lib/sources/mapping-decision.ts:56-62 | The constants, the date order and the decimal style are those saved, the sheet is the file's, and nothing else is carried over. |
| MappingStart.WhereSuggestionsLead | apps/web/lib/sources/mapping-decision.ts:23-32 | With nothing saved, every column that is not locked starts as suggested, with no constants and nothing said of dates and numbers. |
| MappingStart.EditsTouchOnlyTheirs | apps/web/lib/sources/mapping-decision.ts:76-122 | An edit of columns or constants leaves the rest of a decision alone, and those of date order and decimal style set only these. |
| MappingDecision.StartingDecisionIsSingleSourced | apps/web/lib/sources/mapping-decision.ts:34-63 | With a single-sourced saved configuration every field starts with at most one source; without one, exactly when no two suggestions collide. |
| MappingDecision.SuggestionsMayCollide | apps/web/lib/sources/mapping-decision.ts:34-45 | Two columns both suggested as the check-in start as two sources of it when nothing was saved. |
| Answers.MergeLabels | apps/web/lib/sources/mapping-decision.ts:156-159 | The loop over the newer documents merges their words into the older ones. |
| Answers.MergeAssociates | apps/web/lib/sources/mapping-decision.ts:150-166 | Merging answers is associative. |
| Answers.NewestWins | apps/web/lib/sources/mapping-decision.ts:150-166 | A newer answer replaces exactly what it speaks about: a single answer it does not give, a column or a word it does not mention stay as they were, and nothing else is said. |
| Answers.NothingSaidIsLost | apps/web/lib/sources/mapping-decision.ts:150-152 | Through any number of merges a single answer, a column or a word stands until a later answer speaks about it. |
| MiaRuns.OneLoadingIffInFlight | apps/web/components/mia-home.tsx:61-62 | In every reachable state at most one exchange is loading, and one is exactly when the in-flight flag is set. |
| MiaRuns.AnAnswerChangesItsOwnExchange | apps/web/components/mia-home.tsx:129-135 | An awaited answer changes the one loading exchange whose question it answers; any other changes nothing on screen. |
| MiaRuns.AbandonedRequestsChangeNothing | apps/web/components/mia-home.tsx:96-107 | A request of an abandoned analysis changes nothing, whatever happened since, switching back included. |
| MiaRuns.EveryHistoryIsTrue | apps/web/components/mia-home.tsx:148-164 | Every history sent alternates user and assistant, holds at most three exchanges, oldest first, and each answer in it is the text the backend gave, in this analysis, to the question before it. |
| MiaRuns.ANewQuestionTellsTheScreen | apps/web/components/mia-home.tsx:151-157 | A new question stands behind the newest exchanges there is room for and is told with every answered one of them, and no other. |
| MiaRuns.ARetryTellsWhatStandsBefore | apps/web/components/mia-home.tsx:159-164 | A retry changes only its own exchange and is told with every answered exchange standing before it now. |
| MiaRuns.TheNextQuestionTellsTheAnswer | apps/web/components/mia-home.tsx:151-168 | Whatever the backend answers to the newest question, the history of the next one ends in that question and the visible text given to it, or leaves it out when there is none. |
| MiaRuns.WhenAQuestionIsSent | apps/web/components/mia-home.tsx:140-158 | A question is sent exactly when it is not blank and none is in flight; it stands last and loads, and the oldest of four exchanges makes room. |
| MiaRuns.WhenARetryIsSent | apps/web/components/mia-home.tsx:159-164 | A retry is sent exactly when none is in flight and the exchange can be tried again; only that exchange changes, and loads. |
| MiaRuns.WhatCanBeTriedAgain | apps/web/components/mia-home.tsx:411-430 | What can be tried again is a call that failed or a Mia that was unavailable, and nothing else she said. |
| MiaRuns.WhatLeavingDoes | apps/web/components/mia-home.tsx:99-107 | Starting over empties the screen unless a question is in flight; another property or date always does, frees the composer and outdates the request. |
| MiaRetries.ARetrySendsTheSameExactlyWhen | apps/web/components/mia-home.tsx:138-164 | Whatever happened since, a retry adds the very entry of the first attempt, history included, exactly when no exchange told with it has been pushed out and none before it has been answered since, or the words of one pushed out and one answered coincide. |
| MiaRetries.SameHistoryExactlyWhen | apps/web/components/mia-home.tsx:151-164 | The exchanges told then and now are the same exactly when nothing told was pushed out and nothing before was answered; the histories are the same also when the words coincide. |
| MiaRetries.WordsMayCoincide | apps/web/components/mia-home.tsx:151-164 | In a concrete run the exchanges before a question have changed and its retry still sends the same history. |
| MiaRetries.ARetryRepeatsTheQuestion | apps/web/components/mia-home.tsx:160-164 | With only answers in between, a retry sends the very question and history of the first attempt. |
| MiaRetries.AnEarlierRetryIsTold | apps/web/components/mia-home.tsx:160-164 | Once an earlier failed question is retried and answered, retrying a later one tells Mia one exchange more than before. |
| MiaRetries.ARetryToldMore | apps/web/components/mia-home.tsx:61-62 | In a concrete run two questions fail, the first is retried and answered, and the second, asked with no history, is retried with one of two messages. |
| MiaHome.Home.ScopeEffect | apps/web/components/mia-home.tsx:96-107 | A new property or date empties the conversation, frees the composer and outdates what is on its way. |
| MiaHome.Home.Settle | apps/web/components/mia-home.tsx:129-135 | Sets the state of one exchange of this analysis. |
| MiaHome.Home.Send | apps/web/components/mia-home.tsx:140-166 | Sends a question, new or again, with the history it goes with, unless one is in flight or it is blank. |
| MiaHome.Home.Answered | apps/web/components/mia-home.tsx:166-172 | Settles the exchange and clears the flag only for the latest request. |
| MiaHome.Home.StartOver | apps/web/components/mia-home.tsx:194-198 | Empties the conversation unless a question is in flight. |
| MiaHome.Drive | apps/web/components/mia-home.tsx:75-198 | A page driven by any events goes through the machine's steps, so its state satisfies the invariant. |
| Conversation.AnswerTextOf | apps/web/lib/ask-ninfa/conversation.ts:27-35 | An answer worth remembering is trimmed and not empty; of which responses it is the text is stated by `Conversation.WhatAnExchangeTells`. |
| Conversation.WhatAnExchangeTells | apps/web/lib/ask-ninfa/conversation.ts:27-56 | An exchange adds its question and the trimmed text exactly when the backend answered, or gave its reason, with visible text; nothing for any other response, while it loads or when the call failed. |
| Conversation.WhatAResponseShows | apps/web/lib/ask-ninfa/state.ts:18-29 | What each status of a response, and a failed call, is shown as. |
| Conversation.HistoryTellsTheCompleteOnes | apps/web/lib/ask-ninfa/conversation.ts:42-56 | A history is the question and answer of each complete exchange, in order, and nothing else. |
| TenantRuns.RunKeeps | services/api/alembic/versions/0003_canonical_data_model.py:178-220 | Any sequence of inserts, updates and deletes, refused ones included, keeps every row well formed, every reference satisfied and every key unique. |
| TenantRuns.KeysStayInScope | services/api/alembic/versions/0003_canonical_data_model.py:178-220 | Following any row of foreign keys by the ids alone, each leads to a row, the open data source of an alias apart, and the ends share the workspace, property or data source that all these keys carry. |
| TenantRuns.AnyKeysStayInOneWorkspace | services/api/alembic/versions/0003_canonical_data_model.py:178-184 | In every reachable store, rows joined by the ids of any keys are of one workspace. |
| TenantRuns.InvoiceProvenance | services/api/alembic/versions/0007_invoice_supplier_ingestion.py:299-333 | An invoice's file belongs to its own job, that job to its own source, that source to its own property, all with its supplier in its own workspace. |
| TenantRuns.LaborProvenance | services/api/alembic/versions/0008_labor_ingestion.py:83-130 | The same of the file of a labor snapshot. |
| TenantRuns.BookingBelongings | services/api/alembic/versions/0004_booking_ingestion.py:212-249 | A booking's channel and both its jobs are of its own property, the jobs of its own source, all of its workspace. |
| TenantRuns.OneSnapshotPerSlot | services/api/alembic/versions/0005_booking_snapshots_metrics.py:18-20 | Two snapshots with the same workspace, data source, snapshot day and night are one snapshot, whatever their origins. |
| TenantRuns.EvidenceNeverChanges | services/api/alembic/versions/0005_booking_snapshots_metrics.py:56-64 | A row of evidence that is not deleted is the same, column by column, after any run. |
| TenantRuns.BaselineTargetIsPinned | services/api/alembic/versions/0006_expected_engine.py:116-133 | While a baseline is not deleted, its target is the very same observed snapshot with unchanged figures, of its own data source. |
| TenantRuns.ComparableIsPinned | services/api/alembic/versions/0006_expected_engine.py:244-261 | While a comparable is not deleted, its baseline and snapshot are the very same unchanged rows of one data source. |
| TenantRuns.BookingIdentityNeverChanges | services/api/alembic/versions/0004_booking_ingestion.py:65-83 | The identity columns of a booking that is not deleted never change. |
| TenantKeys.WhatCollides | services/api/alembic/versions/0003_canonical_data_model.py:178-220 | Two rows collide under some unique key of their table exactly when they agree in the columns that make them the same thing, written out table by table. |
| TenantKeys.NothingIsThereTwice | services/api/alembic/versions/0005_booking_snapshots_metrics.py:139-145 | In every reachable store no two rows of a table stand for the same thing. |
| TenantKeys.WhatIsWellFormed | services/api/alembic/versions/0006_expected_engine.py:116-133 | A row is well formed exactly when it has an id and what its table demands: its columns that may not be NULL, an origin that exists, an observed target, two different suppliers. |
| TenantKeys.WhatARowRefersTo | services/api/alembic/versions/0004_booking_ingestion.py:212-249 | The foreign keys of a row are kept exactly when everything it refers to is there: the property, source, job, file, supplier or evidence of its own workspace, property and source, table by table. |
| TenantKeys.WhatIsInOrder | services/api/alembic/versions/0003_canonical_data_model.py:178-220 | The invariant of every run says exactly that each row has its id, says enough, finds everything it refers to, and stands for what no other row of its table stands for. |
| TenantKeys.WhatAStatementDoes | services/api/alembic/versions/0003_canonical_data_model.py:178-220 | A statement that is allowed touches the rows it names and no other; one that is refused touches none. |
| TenantKeys.WhatIsLetIn | services/api/alembic/versions/0005_booking_snapshots_metrics.py:127-149 | A row is let in exactly when it says enough, its id is free, everything it refers to is there, and nothing in its table stands for the same thing. |
| TenantKeys.WhatTriggersRefuse | services/api/alembic/versions/0004_booking_ingestion.py:65-83 | The triggers refuse every change of the seven tables of evidence, and of a booking exactly the changes of its identity. |
| TenantStore.GuardsAreExact | services/api/alembic/versions/0004_booking_ingestion.py:65-83 | A statement is let through exactly when it is harmless: what it leaves has every row well formed, every reference satisfied and every key unique, and changes no evidence and no pinned column. |
| TenantStore.Store.Do | services/api/alembic/versions/0004_booking_ingestion.py:212-249 | Whatever is asked of it the store stays in order: it does what is harmless and refuses, unchanged, everything else. |
| TenantStore.Drive | services/api/alembic/versions/0003_canonical_data_model.py:178-220 | A store asked to do any statements goes through `Run` and is in order after each of them. |
| AnswerBlocks.AnswerBlocksOf | apps/web/lib/ask-ninfa/format-answer.ts:20-53 | The loop with its two buffers and flushes computes the grouping of the lines. |
| AnswerBlocks.Buffers.FlushParagraph | apps/web/lib/ask-ninfa/format-answer.ts:25-28 | Closes the open paragraph, if any. |
| AnswerBlocks.Buffers.FlushList | apps/web/lib/ask-ninfa/format-answer.ts:29-32 | Closes the open list, if any. |
| AnswerRoundTrip.BulletOfIsTheExpression | apps/web/lib/ask-ninfa/format-answer.ts:16-18 | A line is a list item exactly when the whole of it matches the expression, and its text is the match that leaves all white space to the gap. |
| AnswerRoundTrip.LineEndsAreOne | apps/web/lib/ask-ninfa/format-answer.ts:34-34 | A line feed, a return, and a return with its line feed each end one line; what is before and after is read on its own. |
| Text.WhichCharacters | apps/web/lib/ask-ninfa/format-answer.ts:16-18 | The characters of white space and of line ends, as section 12.2 and section 12.3 of ECMA-262 list them. |
| AnswerRoundTrip.ParseOfJoined | apps/web/lib/ask-ninfa/format-answer.ts:34-40 | Parsing two texts joined by a blank line concatenates their blocks, for all texts. |
| AnswerRoundTrip.ParseUndoesPrint | apps/web/lib/ask-ninfa/format-answer.ts:20-53 | For blocks of trimmed, visible, one-line texts, parsing the printed form gives them back exactly when no paragraph looks like a list item. |
| AnswerRoundTrip.ParseIsSound | apps/web/lib/ask-ninfa/format-answer.ts:20-53 | Every block of every answer has trimmed, visible, one-line texts. |
| AnswerReprints.ReprintingIsStable | apps/web/lib/ask-ninfa/format-answer.ts:20-53 | Printing the blocks of any answer and parsing them again changes nothing, exactly when no run of its plain lines begins with a lone bullet mark, has a second line and holds no line end of another kind after it. |
| AnswerReprints.ALoneMarkIsLost | apps/web/lib/ask-ninfa/format-answer.ts:16-18 | A mark alone above a word is such an answer. |
| AnswerReprints.ParagraphsAreRuns | apps/web/lib/ask-ninfa/format-answer.ts:22-52 | The paragraphs are, in order, the runs of neighbouring plain lines, joined by spaces. |
| AnswerRoundTrip.NothingIsLost | apps/web/lib/ask-ninfa/format-answer.ts:6-10 | The texts of the blocks are, in order, those of the lines, and each line is its text between white space, after a bullet mark if it is an item. |
| Calendar.DayNumberIsOrder | apps/web/lib/date/property-date.ts:121-135 | Valid dates are ordered, and told apart, by their day numbers. |
| Calendar.DatesAreDayNumbers | apps/web/lib/date/property-date.ts:130-133 | Reading the date of a day number gives back the date it was made from. |
| Calendar.DayBeforeIsOneLess | apps/web/lib/date/property-date.ts:121-123 | The day before by the rules of the calendar has the day number one less, across months, years and leap days. |
| Calendar.CalendarRepeats | apps/web/lib/date/property-date.ts:130-133 | Dates, their numbers and their weekdays repeat every 400 years of 146097 days, and day 0 is Thursday, 1 January 1970. |
| BusinessDates.PreviousBusinessDateIsTheDayBefore | apps/web/lib/date/property-date.ts:121-135 | For every valid date of the years 0 to 9999 the result writes the one valid date a day before exactly when the year is at least 100. |
| BusinessDates.TheYear50IsMoved | apps/web/lib/date/property-date.ts:121-135 | The day before 0050-01-02 is written 1950-01-01, which is not the day before. |
| BusinessDates.PreviousIsDayBefore | apps/web/lib/date/property-date.ts:121-135 | From year 100 on the result is the text of the calendar's day before. |
| BusinessDates.FieldsOfIso | apps/web/lib/date/property-date.ts:125-134 | A date written with padded digits reads back as itself. |
| BusinessDates.ReadingIsWriting | apps/web/lib/date/property-date.ts:125-129 | A text is read as a date exactly when it is its four, two and two digits with dashes between them. |
| BusinessDates.WhenItThrows | apps/web/lib/date/property-date.ts:125-128 | The day before is refused exactly for a text that is not written so. |
| BusinessDates.WhenThereAreParts | apps/web/lib/data/dates.ts:47-55 | A text has parts exactly when it is written so, with a month from 1 to 12 and a day from 1 to 31. |
| BusinessDates.WeekdayOfTheDayBefore | apps/web/lib/data/dates.ts:47-59 | For every date that can be written but the first, the day before falls on the weekday before, exactly when the date is neither 0100-01-01 nor 0000-03-01. |
| BusinessDates.TextOrderIsTimeOrder | apps/web/lib/decisions/list-view-model.ts:322-324 | Business dates compare as texts exactly as the days they write. |
| SeededRandom.PeriodIsExact | apps/web/lib/motion/logo-trail.ts:94-103 | Two states of the generator are the same exactly when their numbers of calls differ by a multiple of 2^32, for every seed. |
| SeededRandom.EveryStateIsMet | apps/web/lib/motion/logo-trail.ts:94-103 | Every 32-bit state is met within 2^32 calls. |
| SeededRandom.Draw | apps/web/lib/motion/logo-trail.ts:97-102 | Every number given out is at least 0 and less than 1. |
| LogoSweep.FirstWords | apps/web/lib/motion/logo-trail.ts:95-101 | Every number drawn is a 32-bit word scaled to below 1; the first words of the seed the page uses and of the next are these. |
| SeededRandom.Generator.Next | apps/web/lib/motion/logo-trail.ts:97-102 | Each call advances the state by one step and gives the next number of the stream. |
| LogoTrail.SampleLogoPixels | apps/web/lib/motion/logo-trail.ts:149-195 | Samples exactly when the image is decoded, readable and opaque enough, with three draws a sample; nothing is drawn otherwise. |
| LogoTrail.ReadOpaque | apps/web/lib/motion/logo-trail.ts:176-179 | The loop collects the opaque cells in order. |
| LogoTrail.OpaqueCellsAreAll | apps/web/lib/motion/logo-trail.ts:176-179 | A cell is collected exactly when it is opaque enough, and once. |
| LogoTrail.RowsKeepTheProportions | apps/web/lib/motion/logo-trail.ts:163-163 | The rows sampled are those that keep the picture's proportions best, and at least one. |
| LogoTrail.Selected | apps/web/lib/motion/logo-trail.ts:184-184 | The cell a number below 1 selects is always within bounds. |
| LogoTrail.SamplesAreOnTheLogo | apps/web/lib/motion/logo-trail.ts:182-193 | Whatever the numbers, a sample lies in the square of an opaque cell, has its colour, and is a point of the image. |
| LogoTrail.SampleIsOfTheCellDrawn | apps/web/lib/motion/logo-trail.ts:182-193 | The first of its three numbers chooses the opaque cell, the second and third the point within its square. |
| LogoTrail.EaseInOutGrows | apps/web/lib/motion/logo-trail.ts:91-92 | The easing grows from 0 to 1. |
| LogoTrail.SmoothGrows | apps/web/lib/motion/logo-trail.ts:87-90 | The smooth step grows from 0 at one bound to 1 at the other and is constant outside. |
| LogoSweep.SmoothStartsAndEndsFlat | apps/web/lib/motion/logo-trail.ts:87-90 | The smooth step is symmetric about its middle and starts and ends flat. |
| LogoSweep.EasingSpeedsUpAndSlowsDown | apps/web/lib/motion/logo-trail.ts:91-92 | The easing is symmetric about its middle, where it is half way, and grows with the cube until there. |
| LogoTrail.HeroLogoFades | apps/web/lib/motion/logo-trail.ts:105-109 | The hero logo only fades: whole until 0.08, gone from 0.26 on. |
| LogoFlight.BuildParticles | apps/web/lib/motion/logo-trail.ts:197-227 | One particle per sample, from eleven draws each in the order they are made. |
| LogoFlight.ParticlesAreTimed | apps/web/lib/motion/logo-trail.ts:215-217 | Whatever the numbers, a particle is released, lags and flies within bounds that let it land before 0.912. |
| LogoFlight.ProgressGrows | apps/web/lib/motion/logo-trail.ts:246-247 | A particle's progress never goes back, is 0 until its release and 1 once its flight is over. |
| LogoFlight.Placed.Place | apps/web/lib/motion/logo-trail.ts:246-262 | Writes the position and progress into the record given. |
| LogoFlight.FlightsStartAtTheirPixels | apps/web/lib/motion/logo-trail.ts:246-262 | For all samples and numbers, until its release, not before 0.12, a particle is exactly at its pixel of the hero logo. |
| LogoFlight.FlightsLandInTheSlot | apps/web/lib/motion/logo-trail.ts:246-262 | For all samples and numbers, from 0.912 on a particle is exactly at its scaled pixel around the middle of the slot. |
| LogoFlight.LandedLogoFitsTheSlot | apps/web/components/logo-trail-canvas.tsx:93-109 | A landed particle is within the height of the slot. |
| LogoSweep.TheFlightRisesAndSweepsLeft | apps/web/lib/motion/logo-trail.ts:111-131 | To any slot above and to the left, the curve is above and left of the logo from the first moment on, and ends in the slot. |
| LogoSweep.TheFlightLeavesUpwards | apps/web/lib/motion/logo-trail.ts:111-120 | It leaves almost straight up, whatever the way to go. |
| LogoSweep.SlopeIsTheDerivative | apps/web/lib/motion/logo-trail.ts:121-135 | The slope is the derivative of the curve, term by term. |
| LogoSweep.TangentsAreUnit | apps/web/lib/motion/logo-trail.ts:132-138 | A tangent points along the curve and has length 1, or is none where the curve stands still. |
| LogoSweep.TheSweepReleasesInOrder | apps/web/lib/motion/logo-trail.ts:197-215 | Whatever the numbers, particles leave as the sweep reaches them, but for a jitter of 0.012; the first within that of 0.1, the last from 0.22 on. |
| LogoSweep.AParticleIsItsPixel | apps/web/lib/motion/logo-trail.ts:212-223 | A particle keeps its pixel's place around the middle of the logo, and its colour. |
| LogoSweep.ATraitHasItsNumbers | apps/web/lib/motion/logo-trail.ts:209-226 | Each of a particle's eleven numbers makes its own of it, in the order they are drawn, whatever the others are. |
| LogoSweep.ParticlesAreBounded | apps/web/lib/motion/logo-trail.ts:211-222 | What the numbers make of a particle keeps within bounds that grow with the logo. |
| LogoSweep.SwingsAreBounded | apps/web/lib/motion/logo-trail.ts:255-257 | For sines within their bounds, a particle swings by no more than its own width and 2.2 pixels, and by that at the most. |
| LogoSweep.WhereAParticleStrays | apps/web/lib/motion/logo-trail.ts:248-260 | While it flows, a particle leaves the place the logo's shape gives it along the tangent and across it to the left, each as far as it flows. |
| LogoSweep.WhatIsNotKeptFlows | apps/web/lib/motion/logo-trail.ts:250-254 | What a particle does not keep of the logo's shape flows: nothing at both ends, everything exactly from 0.3 to 0.72. |
| LogoRun.CallbacksFireOnce | apps/web/lib/motion/logo-trail.ts:400-413 | Whatever the clock reads: every frame drawn is reported, the arrival once, with the first frame far enough, the end once, after a last complete frame. |
| LogoRun.NothingAfterTheEnd | apps/web/lib/motion/logo-trail.ts:419-423 | After `cancel`, or once it has ended, a trail reports and draws nothing more. |
| LogoRun.WhatEventsDo | apps/web/lib/motion/logo-trail.ts:443-467 | A frame is drawn at the share of the duration gone by, and asks for another exactly until the trail is complete; cancelling takes it back and tells nothing. |
| LogoRun.Drive | apps/web/lib/motion/logo-trail.ts:391-467 | A trail driven by any frames and cancellations goes through `Run` and keeps the invariant behind these results. |
| LogoRun.Trail.Frame | apps/web/lib/motion/logo-trail.ts:444-460 | One frame: its callbacks, and whether another is requested. |
| LogoRun.Trail.Cancel | apps/web/lib/motion/logo-trail.ts:462-467 | Takes back the frame requested, once. |
| DecisionLists.ComparisonIsOrder | apps/web/lib/decisions/list-view-model.ts:325-334 | The comparison is a total preorder; two rows tie exactly when their date and rank are the same. |
| DecisionLists.SortedIsStable | apps/web/lib/decisions/list-view-model.ts:325-334 | The sorted rows are a permutation in order that keeps ties as they came. |
| DecisionLists.StableSortIsUnique | apps/web/lib/decisions/list-view-model.ts:322-324 | No other list is such a sort, so the library's choice of algorithm does not matter. |
| DecisionLists.SortIgnoresTheInputOrder | apps/web/lib/decisions/list-view-model.ts:322-324 | Without ties the sorted list does not depend on the order the rows came in. |
| DecisionLists.SortedByDay | apps/web/lib/decisions/list-view-model.ts:322-324 | Sorted rows run through the days, newest or oldest first, and by rank within a day. |
| DecisionLists.FilterCommutesWithSort | apps/web/components/decisioni-board.tsx:51-55 | Filtering by area what is sorted is sorting what is filtered. |
| DecisionLists.CountByArea | apps/web/lib/decisions/list-view-model.ts:336-340 | Each count is the number of rows its filter shows under any sort, and they add up to all rows. |
| DecisionLists.CountsByDomain | apps/web/lib/home/domain-summary.ts:55-63 | The map holds, area by area, the rows of the feed, and nothing unless action is required. |
| DecisionLists.HomeCountsTheList | apps/web/lib/home/domain-summary.ts:48-63 | The Home's counts add up to the decisions of the feed and are the numbers of rows the list shows. |
| DecisionLists.BuildDomainSummary | apps/web/lib/home/domain-summary.ts:97-106 | Builds the four tiles in order, or none without a run. |
| DecisionLists.ClearMeansEvaluatedAndEmpty | apps/web/lib/home/domain-summary.ts:32-38 | A tile is clear exactly when the run evaluated the area, was not limited by its data, and found nothing there. |
| DecisionTiles.WhatATileSays | apps/web/lib/home/domain-summary.ts:65-106 | A tile counts the decisions of the feed about its area; without any it says skipped, unknown, partial or clear exactly by the last word of the coverage and the state of the run. |
| DecisionTiles.RowsAreDecisions | apps/web/lib/decisions/list-view-model.ts:299-318 | Each row shows its decision, in the order of the feed, under the one area that concerns it. |
| DecisionTiles.WhatSortingDoes | apps/web/lib/decisions/list-view-model.ts:325-334 | By priority the rows stay as given; by date they are stably sorted. |
| DecisionTiles.WhatIsShown | apps/web/components/decisioni-board.tsx:51-55 | With an area chosen, exactly its rows are shown, each as often as it is there. |
| KeyedFetch.ShownIsForTheScreen | apps/web/lib/data/use-data-overview.ts:92-134 | Whatever order loads and refreshes are answered in, data on screen was answered for the property and date on screen; when not busy, for the very request the screen makes. |
| KeyedFetch.EarlierLoadsAreIgnored | apps/web/lib/feed/use-decision-feed.ts:74-88 | Once an effect is superseded, whatever its load is answered leaves no trace: any further run shows what it shows had that answer never come; only the sources still report that a property is gone. |
| KeyedFetch.AnotherRequestSupersedes | apps/web/lib/feed/use-decision-feed.ts:74-88 | A render with another request supersedes every load on its way; the one it starts, for the new request, is awaited instead. |
| KeyedFetch.TheLoadAwaitedIsShown | apps/web/lib/data/use-data-overview.ts:92-105 | The load the screen waits for is shown, and only a refresh keeps it busy. |
| KeyedFetch.AFailedLoadIsShown | apps/web/lib/feed/use-decision-feed.ts:74-115 | The awaited load that fails leaves no data and is shown as failed unless a refresh keeps the screen busy; for a property that is gone the overview and the feed stay busy instead, and exactly then it is reported. |
| KeyedFetch.WhenALoadStarts | apps/web/lib/data/use-data-overview.ts:92-104 | A render starts a load exactly when the property, the date or the period it depends on is another, or in the feed the callback is. |
| KeyedFetch.WhatARefreshDoes | apps/web/lib/feed/use-decision-feed.ts:90-98 | A refresh asks for what is on screen; when it lands the screen is no longer refreshing, and a property that is gone is reported. |
| KeyedFetch.AnotherScreenIsEmpty | apps/web/lib/feed/use-decision-feed.ts:100-114 | What is held for another property or date is not shown, and the screen is busy, not failed. |
| KeyedFetch.WhatAScreenStartsWith | apps/web/lib/feed/use-decision-feed.ts:70-84 | A screen starts busy, with nothing to show, awaiting the load of its request. |
| KeyedFetch.WhatARefreshLeaves | apps/web/lib/sources/use-data-sources.ts:60-67 | A refresh pressed for a screen, landing after any further events: its answer is shown if the screen is still that one, nothing is if not, and a failure leaves only what the sources already had for that property. |
| KeyedFetch.Fetch.Rendered | apps/web/lib/feed/use-decision-feed.ts:74-88 | A new request, or a new callback in the feed, starts a load and outdates the one before. |
| KeyedFetch.Fetch.PressedRefresh | apps/web/lib/feed/use-decision-feed.ts:90-98 | A refresh asks again for what is on screen now. |
| KeyedFetch.Fetch.Answered | apps/web/lib/data/use-data-overview.ts:92-115 | What an answer does to the state, by the kind of its request, as the machine's step; its effect on screen is stated by `TheLoadAwaitedIsShown`, `AFailedLoadIsShown` and `WhatARefreshLeaves`. |
| KeyedFetch.Drive | apps/web/lib/sources/use-data-sources.ts:33-70 | A hook driven by any events goes through the machine's steps and keeps the invariant. |
| Dispatch.OneQueuedJobPerProperty | services/worker/worker/dispatch.py:64-86 | Over any dispatches, aborted ones included, other commands and workers taking jobs, no property has two queued analyses. |
| Dispatch.Drive | services/worker/worker/dispatch.py:64-86 | The queue, driven by any dispatches, other commands and workers, goes through `Run` and keeps the invariant behind that. |
| Dispatch.EachRecordIsRight | services/worker/worker/dispatch.py:64-86 | An evaluation is enqueued exactly when it is eligible, nothing was queued for its property, and none before it in this dispatch was eligible for it; otherwise its record says why. |
| Dispatch.RecordedJobsAreQueued | services/worker/worker/dispatch.py:71-85 | The job a record names is a new analysis of its property in the queue, under its lock, and the jobs from before stay. |
| Dispatch.TakingFreesTheProperty | services/worker/worker/dispatch.py:72-75 | Once a worker has taken its analysis a property can be queued again; before, it cannot. |
| Dispatch.WhatOtherCommandsDo | services/worker/worker/enqueue.py:51-51 | Every other command adds one job of its own, without a lock, and changes nothing else. |
| Dispatch.SummaryAddsUp | services/worker/worker/dispatch.py:99-105 | One record per evaluation, in order; those enqueued and those skipped with a reason add up to all, and no more are enqueued than are eligible. |
| Dispatch.DispatchingTwiceQueuesOnce | services/worker/worker/dispatch.py:72-73 | Dispatching again before a worker took a job enqueues nothing that was eligible before. |
| Dispatch.JobQueue.Defer | services/worker/worker/dispatch.py:74-79 | A job is refused exactly when a queued job holds its lock. |
| Dispatch.JobQueue.Enqueue | services/worker/worker/dispatch.py:64-86 | The loop computes the records of all evaluations; if deferring fails midway there are none, and exactly the jobs before that one stay. |

## Left out

- React, rendering, focus, copy, the HTTP client, the database driver and the canvas are not modelled; calls to the backend become requests whose answers are events.
- A dialog of the import has one property, domain and mode for its life, as it has on the page; `snapshotLocalDate` is passed through and not modelled.
- A user event of the import acts on the step on screen: two callbacks of one render on an outdated step are not modelled.
- The text comparison of two decisions is modelled as equality of contents plus a flag that says the members may be in another order; members set to `undefined` in an answer are not told apart from members left out.
- A validation that lands after the person has left the matching step still shows the preview; it is modelled as it is, and no claim is made that `checking` and `busy` always clear.
- The file a person chooses is its identity and its lower-case name; its bytes are the backend's matter.
- Transactions are one after the other; isolation levels and locks of PostgreSQL are not part of this model.
- Checks on single columns, indexes, users and workspace memberships of the migrations are left out: each is settled by reading one line.
- The tables of later migrations are not part of this model.
- Lone surrogates and the u flag of the list expression are not modelled: characters are compared one by one.
- `propertyLocalDate` and the Italian formatting rest on `Intl`, which is not part of this model.
- The generator is seeded with an integer; `Math.pow(x, 1.5)` is known by its square alone, and floating-point rounding is left out.
- A trail lasts longer than 0 ms, and a screen that fetches is not unmounted.
- The ribbon, energy lines and bloom of the trail are drawing and are left out; so is cancelling a trail from inside its own callback.
- The algorithm of the library's sort is not modelled: an insertion stands for it, and there is only one stable sort of a list.
- KeyedFetch.ShownIsForTheScreen: safety only; a late refresh of an earlier property may leave the screen loading, and nothing is claimed about when it recovers.
- The job queue is known by its lock alone; retries and priorities of Procrastinate are not part of this model.
- The evaluation of the automatic policy itself and what a job does when it runs are not part of this model.
