# CampusFlow web logic: a verified model

A Dafny model of the hardest logic of the web client, with machine-checked theorems about it. Each
module models one source file, or one part of one; programs that work by loops and updates are
methods proved against a specification function, and the theorems are lemmas about that function.

- **Forms.** `FormRules`, `FormBranching`, `FormScoring`, `FormMeaning`: conditional show and hide
  rules, forward jumps, scoring and validation. The specification of branching is a plain walk over
  the ordered fields. The one-pass program with its three skip flags is proved to show exactly the
  fields the walk shows, and answers of hidden fields are proved not to matter.
- **Freshness.** `Freshness`, `FreshnessRuns`, `AnnouncementsPage`: mutations raise events, events
  coalesce into one microtask, the microtask issues a request that aborts and outnumbers the one
  before it, and answers arrive in any order. `Freshness` is the state machine over every interleaving
  with the server and the network; `AnnouncementsPage` holds the race guard and the page as classes,
  each of whose methods is proved to be one transition of that machine.
- **Calendar, streaks, heatmap.** `Calendar`, `DayKeys`, `CodingStreak`, `Heatmap`, `UnifiedHeatmap`:
  the proleptic Gregorian calendar of ECMA-262 (section 21.4.1), `YYYY-MM-DD` keys (sections 5.1 and
  5.6 of RFC 3339), current and longest streak, daily counts, the list of days and its week columns.
- **Timetable.** `TimetableMerge`, `TimetableRange`, `TimetableClashes`, `TimetableMeaning`,
  `ClashMeaning`: weekly templates merged with dated overrides, per day and per range, and clash
  detection.
- **LaTeX.** `LatexEscape`, `LatexNesting`, `LatexText`, `LatexSkills`, `LatexLines`, `LatexBlocks`,
  `TemplateParts`, `SplitTemplate`, `CustomTemplate`, `LatexDocuments`, `SplitLinks`, `LatexMeaning`,
  `LatexContents`, `SplitContents`, `CustomContents`, `CustomHeadings`, `CustomStyle`: the escaping chain with its
  placeholder, the rows of the skill table, and the nesting of braces and environments in whole
  documents of the source-split and the custom template. The templates push plain strings, spelled as
  the source spells them; the lines that begin and end an environment are pushed like any others.
  Nesting is decided by a reader that goes through the finished text one character at a time and knows
  nothing of how the text was made.
- **Sheets.** `SheetMarks`, `SheetProgress`, `SheetMeaning`: manual, automatic and dismissed marks in
  browser storage, and the progress bars computed from them.
- **Queue, résumé skills, passwords.** `StagingQueue`, `ResumeSkills`, `Password` and, for its use of
  remainders, `Residues`.
- **Shared.** `Options` has the option type, `JsText` the string operations, `TextLaws` what they
  mean, and `StableSort` the stable sort that ECMA-262 requires of `Array.prototype.sort`, proved to
  be the only sorted list that keeps ties in order.

## Where the code does not keep its promise

Each is proved as an exact condition, over all inputs, and a lemma shows an input on the failing side.

- The race guard's comment promises no state change after unmount
  (`apps/web/src/hooks/useRaceGuard.ts:15`). A microtask queued at that moment is not cancelled; it
  issues a fresh request that nothing aborts, and its answer is written. Leaving stops all writes if
  and only if no refetch is queued (`Freshness.WritesAfterUnmountIffQueued`, shown by
  `Freshness.WritesAfterLeaving`).
- A page that leaves while its loader is on never turns it off again, if and only if no refetch is
  queued then; the loader can outlive the request it stands for if and only if it was on and a request
  had been made (`Freshness.LoaderStaysOnIff`, `Freshness.LoaderStuckIff`, shown by
  `Freshness.LoaderOutlivesRequest`).
- The escaping chain is the substitution of single characters if and only if the text holds no
  "fake" placeholder: U+E000, `B`, `S`, then U+E000 or a backslash (`LatexEscape.ChainIsPerCharacter`,
  shown by `LatexEscape.PlaceholderInText`). Escaped text is well nested even then
  (`LatexNesting.EscapedIsTame`).
- A printed key is four-digit only from year 1000 on, and parsing rolls impossible dates over:
  parsing and printing a key gives it back if and only if it names a real date from year 1000 on
  (`DayKeys.ParseThenPrint`, shown by `DayKeys.KeysThatChange`).
- `toggleSheetMarkV2` does not check the length that `normalizeSheetKeys` checks: a toggle flips its
  row if and only if the key has at most 120 characters (`SheetMarks.ToggleFlips`, shown by
  `SheetProgress.LongRowNeverFlips`).
- A dismissed row is meant never to be marked automatically again (`apps/web/src/lib/sheets.ts:170-174`).
  When storage refuses a write, as in private mode, the marks live on in memory only, and a reload falls
  back to the last write that storage accepted. A dismissed row that the user does not toggle stays
  dismissed if and only if storage holds it as dismissed or no reload comes before the next accepted
  write (`SheetMarks.DismissedUntilToggled`, shown by `SheetMarks.PrivateModeForgets`); once forgotten,
  the next feed marks it as done again (`SheetMarks.ForgottenIsMarkedAgain`).
- Only `%` and `#` are escaped in link targets (`apps/web/src/lib/resumeLatex.ts:42-44`), so a brace or
  a backslash in one reaches the document. A résumé whose link targets and e-mail addresses are good,
  that is, leave nothing open and close nothing of others when read on their own, gives a well nested
  document. With a certificate's link the only one in doubt, the document is well nested if and only
  if the brace behind the target ends the target's group (`SplitLinks.OneTargetIff`, shown by
  `SplitLinks.BracedLinkBreaks`).
- `filterStagingExpiredOnly` trusts the deadline even when the stamp says fresh; a row is on exactly
  one tab if and only if it is not stamped fresh with a passed deadline (`StagingQueue.TabsPartition`,
  shown by `StagingQueue.OnBothTabs`).
- Exporting, importing and exporting a list of skills again returns the first export if and only if,
  in a list with a colon somewhere, every labelled entry has a keyword and no other entry holds a
  comma; in a list without colons, no entry holds a comma and not all entries are blank; the empty
  list always returns (`ResumeSkills.RoundTripIff`, shown by `ResumeSkills.ListsThatChange`).
- The password shuffle is meant to hide the positions of the drawn characters, but it reuses the
  buffer that drew them. A buffer cell can pick a given character and make a given swap if and only if
  the two agree modulo the greatest common divisor of the pool's size and the number of positions
  (`Password.CellIff`), so all arrangements of a drawn text can come out if and only if it has at most
  one character (`Password.AllReachableIff`, shown by `Password.NeverReached` and
  `Password.DollarStays`).
- A generated password has all four character classes if and only if its length is at least 4
  (`Password.GenerateSecurePassword`, shown by `Password.ShortLacksClass`).
- Two rows share a key if and only if their ids run together to the same text and their orders agree;
  the rows of a step have keys of their own if and only if neither id holds a slash
  (`SheetProgress.CollideIff`, `SheetProgress.OwnKeyIff`, shown by `SheetProgress.SlashedIdsCollide`).

## Model

| member | source | states |
|---|---|---|
| `StableSort.SortSorts` | apps/web/src/lib/formLogic.ts:255-257 | sorting orders the list and keeps every element |
| `StableSort.SortIsTheStableSort` | apps/web/src/lib/formLogic.ts:255-257 | a list is the result of sorting iff it is sorted and keeps the given order among ties, so any engine's stable sort agrees |
| `FormRules.OperatorsAreOpposites` | apps/web/src/lib/formLogic.ts:151-186 | on every answer an operator and its negation disagree, `equals` is `in` with one text, and a condition without operators asks for an answer |
| `FormMeaning.EmptyIff` | apps/web/src/lib/formLogic.ts:129-134 | an answer is empty iff it is missing or white space, item by item in a list; numbers never are |
| `FormMeaning.TokensOfParts` | apps/web/src/lib/formLogic.ts:136-142 | the tokens of a text are those of the parts that a comma, semicolon or newline divides it into |
| `FormMeaning.TokensOfOne` | apps/web/src/lib/formLogic.ts:136-142 | a text without separators is one trimmed token, or none if it is white space |
| `FormMeaning.TokensOfList` | apps/web/src/lib/formLogic.ts:136-142 | the tokens of a list are its items, trimmed, without blank ones |
| `FormMeaning.EqualsIff` | apps/web/src/lib/formLogic.ts:160-169 | a single choice equals a text iff they agree but for white space at the ends; of several choices one must |
| `FormMeaning.ChoiceBesideBlank` | apps/web/src/lib/formLogic.ts:145-163 | one choice beside a blank item is compared as the text of the whole list, comma included |
| `FormMeaning.InIff` | apps/web/src/lib/formLogic.ts:170-181 | membership is equality with one of the texts |
| `FormMeaning.ContainsIff` | apps/web/src/lib/formLogic.ts:182-184 | `contains` finds its text anywhere in the trimmed answer, letters of either case being the same |
| `FormMeaning.FirstOperatorCounts` | apps/web/src/lib/formLogic.ts:158-186 | of several operators the first counts; unset flags and an empty `contains` do not |
| `FormMeaning.ConditionIff` | apps/web/src/lib/formLogic.ts:151-158 | a condition looks at the answer stored for its field, and never holds when it names none |
| `FormRules.HiddenIff` | apps/web/src/lib/formLogic.ts:202-209 | rules hide a field iff one of its show conditions fails, or it has hide conditions and all hold |
| `FormRules.HiddenAgrees` | apps/web/src/lib/formLogic.ts:202-209 | whether rules hide a field depends only on answers its conditions name |
| `FormRules.FirstFiringAgrees` | apps/web/src/lib/formLogic.ts:225-253 | which jump fires depends only on the field's own answer and those its jump conditions name |
| `FormBranching.CollectRuleHidden` | apps/web/src/lib/formLogic.ts:270-273 | collects exactly the ids of fields their own rules hide |
| `FormBranching.SkipPass` | apps/web/src/lib/formLogic.ts:276-309 | the flag machine skips exactly the fields the walk does not visit, and records exactly the jumps of visited, shown fields, each with its target |
| `FormBranching.WalkIsFilter` | apps/web/src/lib/formLogic.ts:266-318 | the goto walk shows exactly the fields that are visited and not rule-hidden, in form order |
| `FormBranching.ShownIff` | apps/web/src/lib/formLogic.ts:266-318 | with unique ids a field is shown iff the walk stops at it, its show conditions all hold, and of its hide conditions, if any, one fails |
| `FormMeaning.WalkOn` | apps/web/src/lib/formLogic.ts:294-308 | from a stop the walk goes to the end, to the later field its jump names, or, for backward, unknown and absent targets and hidden fields, to the next field |
| `FormMeaning.StopsAre` | apps/web/src/lib/formLogic.ts:276-309 | the walk starts at the first field and passes over exactly the fields between two stops |
| `FormMeaning.FirstFiringIff` | apps/web/src/lib/formLogic.ts:225-253 | a field's jump is the target of its first rule whose guard, else own operators, else any answer, is met |
| `FormBranching.Partition` | apps/web/src/lib/formLogic.ts:310-317 | every field is listed once, as visible or as hidden, in order |
| `FormBranching.GetVisibleFields` | apps/web/src/lib/formLogic.ts:266-318 | with unique ids the one-pass program shows what the walk shows, exactly the stops that nothing hides, and fires exactly the jumps of shown fields; for any ids the two lists partition the form and no field that a rule hides is shown |
| `FormBranching.SortByOrderKeeps` | apps/web/src/lib/formLogic.ts:255-257 | ordering the fields keeps them all and keeps ids unique |
| `FormScoring.ResolveOptionPoints` | apps/web/src/lib/formLogic.ts:102-121 | the score map overrides option points, a later option an earlier one; absent labels are worth 0 |
| `FormMeaning.OptionPointsAre` | apps/web/src/lib/formLogic.ts:102-121 | a label is worth what the score map says, else the last option with the label, else nothing |
| `FormMeaning.PointsAre` | apps/web/src/lib/formLogic.ts:320-330 | nothing is worth nothing, a number the points of its text, one choice its points |
| `FormMeaning.PointsOfParts` | apps/web/src/lib/formLogic.ts:331-338 | several choices in a text are worth the sum of what they are worth |
| `FormMeaning.PointsOfList` | apps/web/src/lib/formLogic.ts:331-338 | so are the items of a list |
| `FormScoring.PointsForAnswer` | apps/web/src/lib/formLogic.ts:320-338 | an answer is worth the sum over its tokens, a numeric one the points of its text, an empty one nothing |
| `FormScoring.ComputeScore` | apps/web/src/lib/formLogic.ts:345-372 | the total is the sum of the breakdown, each entry is what the walk lets the field contribute, and hidden fields contribute 0 |
| `FormScoring.BreakdownAddsUp` | apps/web/src/lib/formLogic.ts:345-372 | entries that agree with the contributions add up to the total score |
| `FormScoring.ValidateAnswers` | apps/web/src/lib/formLogic.ts:381-393 | errors are exactly the shown fields that are required now and left empty |
| `FormMeaning.RequiredIff` | apps/web/src/lib/formLogic.ts:211-219 | a field is required now iff nothing hides it and it is marked required or has require conditions that all hold |
| `FormScoring.WalkAgrees` | apps/web/src/lib/formLogic.ts:266-318 | the walk is the same for two answer maps that differ only on fields it does not show and no condition names |
| `FormScoring.HiddenAnswersDoNotMatter` | apps/web/src/lib/formLogic.ts:202-372 | changing answers of hidden fields that no show, hide or jump-if condition names changes neither the shown fields nor any contribution nor the total |
| `Freshness.ApplyKeepsInv` | apps/web/src/lib/entitySync.ts:201-247 | every step of the page, the server or the network keeps the protocol's invariant |
| `Freshness.RunKeepsInv` | apps/web/src/lib/entitySync.ts:201-247 | every run keeps it |
| `Freshness.FreshOnceQuiet` | apps/web/src/pages/AnnouncementsPage.tsx:46-76 | in every run: mounted, quiet and the newest request not failed, the page shows a state at least as new as the last notified change, for its present page and filter, with loading off |
| `Freshness.LoadingOnlyInFlight` | apps/web/src/pages/AnnouncementsPage.tsx:46-66 | after the first request, mounted or not, the loading flag is on only while the newest request is in flight, unless that request has been aborted; a mounted page's newest request never is |
| `Freshness.LoaderStuckIff` | apps/web/src/pages/AnnouncementsPage.tsx:46-66 | after leaving, the loader can be on with its request ended iff it was on at that moment and a request had been made |
| `Freshness.LoaderStaysOnIff` | apps/web/src/hooks/useRaceGuard.ts:25-31 | after leaving, the loader stays on for good iff it was on and no refetch was queued |
| `Freshness.LoaderOutlivesRequest` | apps/web/src/pages/AnnouncementsPage.tsx:60-65 | a run in which the loader stays on after its request has failed: fetch, leave, fail |
| `Freshness.ShownNeverGoesBack` | apps/web/src/hooks/useRaceGuard.ts:33-45 | neither the request number nor the server version of the shown list ever decreases |
| `FreshnessRuns.Opening` | apps/web/src/pages/AnnouncementsPage.tsx:68-70 | a page opens with its fetch effect due and its loader on, nothing queued and no request made |
| `FreshnessRuns.LoaderIff` | apps/web/src/pages/AnnouncementsPage.tsx:46-70 | in every run the loader is on iff no newest request has been answered or has failed since the last fetch for a new page or filter, or since opening |
| `FreshnessRuns.LoaderUntilAnswer` | apps/web/src/pages/AnnouncementsPage.tsx:46-70 | after the fetch for a new page or filter the loader is on until the newest request is answered or fails |
| `FreshnessRuns.LoaderStep` | apps/web/src/pages/AnnouncementsPage.tsx:46-66 | a silent refetch turns the loader neither on nor off |
| `FreshnessRuns.QueryIsLastSet` | apps/web/src/pages/AnnouncementsPage.tsx:68-70 | in every run the page's query is the last one set while it was open |
| `FreshnessRuns.ShowsAllItHeardOf` | apps/web/src/lib/entitySync.ts:201-247 | open, quiet and the newest request not failed, the list is for the last query set and contains every change the page ever heard of |
| `FreshnessRuns.ShownStep` | apps/web/src/pages/AnnouncementsPage.tsx:51-66 | the shown list changes only by the answer to the newest, unaborted request, and by its mark-all-read call |
| `FreshnessRuns.ReadIff` | apps/web/src/pages/AnnouncementsPage.tsx:54-59 | in every run the shown list counts as read iff the call of its own request returned while it was the newest |
| `FreshnessRuns.ServerCountsMutations` | apps/web/src/lib/entitySync.ts:201-247 | the server's version is its first version and the number of mutations since |
| `Freshness.GoneIsFrozen` | apps/web/src/hooks/useRaceGuard.ts:25-31 | once the page has left with nothing queued and all requests aborted, nothing changes its state again |
| `Freshness.WritesAfterUnmountIffQueued` | apps/web/src/hooks/useRaceGuard.ts:25-31 | leaving stops all later writes iff no refetch is queued at that moment |
| `Freshness.WritesAfterLeaving` | apps/web/src/lib/entitySync.ts:202-215 | a run that leaves with a refetch queued and writes afterwards |
| `Freshness.CanAlwaysCatchUp` | apps/web/src/lib/entitySync.ts:201-215 | from every reachable mounted state whose newest request has not failed for good, four more steps make the page fresh |
| `AnnouncementsPage.RaceGuard.NewRequest` | apps/web/src/hooks/useRaceGuard.ts:33-41 | aborts exactly the newest request, if any, and hands out the next number with a fresh signal |
| `AnnouncementsPage.RaceGuard.IsCurrent` | apps/web/src/hooks/useRaceGuard.ts:43-45 | a number is current iff it is the newest and its request has not been aborted |
| `AnnouncementsPage.RaceGuard.Abort` | apps/web/src/hooks/useRaceGuard.ts:47-51 | aborts the newest request, if any, and no other |
| `AnnouncementsPage.Page.FetchAnnouncements` | apps/web/src/pages/AnnouncementsPage.tsx:46-50 | is the machine's fetch transition: a new request, and the loader unless silent |
| `AnnouncementsPage.Page.FetchResolved` | apps/web/src/pages/AnnouncementsPage.tsx:51-65 | is the machine's answer transition: writes only for the newest, unaborted request |
| `AnnouncementsPage.Page.FetchRejected` | apps/web/src/pages/AnnouncementsPage.tsx:60-65 | is the machine's failure transition |
| `AnnouncementsPage.Page.MarkAllReadReturned` | apps/web/src/pages/AnnouncementsPage.tsx:54-59 | marks the shown list read only if its request is still current |
| `AnnouncementsPage.Page.OnEvent` | apps/web/src/lib/entitySync.ts:202-205 | events coalesce: at most one refetch is queued, none after unmount |
| `AnnouncementsPage.Page.Microtask` | apps/web/src/lib/entitySync.ts:205-215 | clears the flag and refetches, mounted or not, and leaves the loader as it is |
| `AnnouncementsPage.Page.SetQuery` | apps/web/src/pages/AnnouncementsPage.tsx:68-70 | sets the query of an open page, and makes the fetch effect due if it is a new one |
| `AnnouncementsPage.Page.Effect` | apps/web/src/pages/AnnouncementsPage.tsx:68-70 | the fetch effect of a render with a new page or filter: a new request, and the loader on |
| `AnnouncementsPage.Page.Unmount` | apps/web/src/hooks/useRaceGuard.ts:25-31 | removes the listeners and aborts the newest request |
| `Calendar.YearLength` | apps/web/src/lib/codingStreak.ts:65-69 | the day numbers of consecutive New Years differ by 366 in leap years and 365 otherwise |
| `Calendar.Epoch` | apps/web/src/lib/codingStreak.ts:65-69 | day 0 is 1970-01-01 |
| `Calendar.NextDay` | apps/web/src/lib/codingStreak.ts:44-69 | one day later is the next date, by the lengths of the months and the leap rule, for every day of every year |
| `Calendar.RollOver` | apps/web/src/lib/codingStreak.ts:65-69 | twelve months more are a year more, and a day more is a day later, also past the end of a month |
| `Calendar.WeekDays` | apps/web/src/lib/codingStreak.ts:142-144 | day 0 is a Thursday, and the week days follow one another |
| `Calendar.DayRoundTrip` | apps/web/src/lib/codingStreak.ts:44-69 | splitting any day number into a date and joining it again gives it back |
| `Calendar.DateRoundTrip` | apps/web/src/lib/codingStreak.ts:44-69 | joining any real date to a day number and splitting it gives it back |
| `Calendar.DateOrder` | apps/web/src/lib/codingStreak.ts:190-201 | real dates are ordered, and equal, as their day numbers are |
| `DayKeys.PrintThenParse` | apps/web/src/lib/codingStreak.ts:44-69 | parsing a printed key gives the day back, for every day of the years 1000 to 9999 |
| `DayKeys.EpochKey` | apps/web/src/lib/codingStreak.ts:44-69 | day 0 prints as 1970-01-01, and that key parses to day 0 |
| `DayKeys.ParsedIs` | apps/web/src/lib/codingStreak.ts:65-69 | a key counts from the day it spells, the years 0000 to 0099 standing for 1900 to 1999 |
| `DayKeys.ParseThenPrint` | apps/web/src/lib/codingStreak.ts:49-69 | printing a parsed key gives the key back iff it is the key of a real date from year 1000 on |
| `DayKeys.KeysThatChange` | apps/web/src/lib/codingStreak.ts:49-69 | 2024-02-31 and 0999-01-01 print differently after parsing |
| `DayKeys.StringOrderIsTimeOrder` | apps/web/src/lib/codingStreak.ts:190-195 | string order and equality of keys are time order and equality of days |
| `DayKeys.UtcKeyInjective` | apps/web/src/lib/codingStreak.ts:44-51 | different days print as different keys, in any year |
| `DayKeys.ParsedToday` | apps/web/src/lib/codingStreak.ts:71-77 | today's key parses back to today |
| `CodingStreak.ActiveKeysAreActiveDays` | apps/web/src/lib/codingStreak.ts:215-223 | looking up a day's printed key finds exactly the active days |
| `CodingStreak.SortedKeysAscend` | apps/web/src/lib/codingStreak.ts:201 | sorting keys as strings lists the active days in ascending order, each once |
| `CodingStreak.LongestRun` | apps/web/src/lib/codingStreak.ts:200-213 | on ascending days the loop finds a run that no run exceeds; on any list a length between 1 and the list's |
| `CodingStreak.CurrentRun` | apps/web/src/lib/codingStreak.ts:215-223 | counts the maximal run that ends today, or yesterday when today is inactive |
| `CodingStreak.PrintedDays` | apps/web/src/lib/codingStreak.ts:215-223 | the finite set of days whose printed key is active, for any keys, so the loop ends |
| `CodingStreak.LastActive` | apps/web/src/lib/codingStreak.ts:190-198 | the greatest well-formed key, none iff there is none |
| `CodingStreak.CalcStreaks` | apps/web/src/lib/codingStreak.ts:182-226 | for any keys: the last well-formed key, the number of well-formed keys, and the run of printed days that ends today or yesterday; when the keys are real dates, longest, current, total and last active as defined on the set of days, with current ≤ longest ≤ total |
| `CodingStreak.CurrentWithinLongest` | apps/web/src/lib/codingStreak.ts:182-226 | the run ending on a given day is at most the longest run, which is at most the number of active days |
| `Heatmap.UtcKeysAreOrdered` | apps/web/src/lib/codingStreak.ts:94 | the future-date filter on keys is a filter on days, and no day outside the years 1000 to 9999 prints as one inside |
| `Heatmap.InstantIsInDay` | apps/web/src/lib/codingStreak.ts:44-62 | an instant is in day d iff it lies within the 86,400 seconds that begin d days after instant 0, also before it |
| `Heatmap.CountIs` | apps/web/src/lib/codingStreak.ts:84-98 | an instant in the days counts once, any other and a missing one not at all, whatever else is counted |
| `Heatmap.LevelsRise` | apps/web/src/lib/codingStreak.ts:101-107 | the level rises exactly at the counts 1, 2, 3 and 5 |
| `Heatmap.MalformedLead` | apps/web/src/lib/codingStreak.ts:142-144 | a malformed first key gives no blanks |
| `Heatmap.BucketWith` | apps/web/src/lib/codingStreak.ts:84-98 | for any order-preserving printer and any instants, each valid day up to today has its true count, later valid days none |
| `Heatmap.BucketParticipationsByDay` | apps/web/src/lib/codingStreak.ts:84-98 | the same for UTC keys; missing and future rows count nowhere, and rows of other centuries do not disturb |
| `Heatmap.BuildHeatmapDays` | apps/web/src/lib/codingStreak.ts:113-132 | a list without holes that ends today, of the window's length (at least 1), with counts and levels |
| `Heatmap.HeatmapConserves` | apps/web/src/lib/codingStreak.ts:84-132 | the cells of a window add up to the participations in it |
| `Heatmap.FillWeeks` | apps/web/src/lib/codingStreak.ts:144-152 | full rows of seven and a shorter rest, together the blanks and then the days |
| `Heatmap.GroupHeatmapByWeeks` | apps/web/src/lib/codingStreak.ts:138-157 | rows of exactly seven; dropping the padding gives the days in order; padding only before the first and, less than a week, after the last |
| `Heatmap.CellOfDay` | apps/web/src/lib/codingStreak.ts:138-157 | the i-th day is at the row and column that its distance from the first cell gives |
| `Heatmap.DaysStandInTheirColumn` | apps/web/src/lib/codingStreak.ts:138-157 | every day stands in the column of its week day, Sunday first |
| `UnifiedHeatmap.BuildUnifiedHeatmapDays` | apps/web/src/lib/codingStreak.ts:315-351 | a list without holes that ends today; raw counts per source, total of the enabled ones |
| `UnifiedHeatmap.UnifiedConserves` | apps/web/src/lib/codingStreak.ts:315-351 | the cells add up to the totals of exactly the sources switched on |
| `UnifiedHeatmap.OneSourceAgrees` | apps/web/src/lib/codingStreak.ts:113-132 | the contests-only heatmap is the unified one with the other sources off |
| `UnifiedHeatmap.MoreSourcesNeverCooler` | apps/web/src/lib/codingStreak.ts:315-351 | switching sources on never lowers a cell and never changes raw counts |
| `TimetableMerge.RangeTestIsByDays` | apps/web/src/lib/timetableMerge.ts:29-35 | comparing keys as strings finds exactly the days of an override's range |
| `TimetableMeaning.ValidFromUntil` | apps/web/src/lib/timetableMerge.ts:10-35 | an override runs from the date its first text begins with to the date its second begins with, both included |
| `TimetableMeaning.DayLists` | apps/web/src/lib/timetableMerge.ts:67-124 | a day lists every template of its week day, as planned iff no valid edit or cancellation names it and else as the first such override says, every temporary class that takes place with the values it gives, and nothing else |
| `TimetableMeaning.TemporaryDefaults` | apps/web/src/lib/timetableMerge.ts:96-116 | a temporary class that gives only its dates is "Temporary class" from 9 to 10 |
| `TimetableMeaning.TemporaryMinutes` | apps/web/src/lib/timetableMerge.ts:103-104 | without minutes of its own it has those that the clock reads off its times |
| `TimetableMeaning.MondayFirst` | apps/web/src/lib/timetableMerge.ts:21-27 | week days count from Monday, 1970-01-05 being one |
| `TimetableMerge.FindChange` | apps/web/src/lib/timetableMerge.ts:73-78 | the first override that is valid, edits or cancels, and names the template |
| `TimetableMerge.EntryFollowsFirstChange` | apps/web/src/lib/timetableMerge.ts:71-92 | a template is listed as planned iff no valid override names it; else the first one decides: unchanged but marked cancelled, or edited |
| `TimetableMerge.PatchLaws` | apps/web/src/lib/timetableMerge.ts:87-91 | an edit that gives nothing changes nothing, one that gives everything leaves only the identity, and editing twice is editing once |
| `TimetableMerge.MergeWith` | apps/web/src/lib/timetableMerge.ts:67-124 | the loops give the merged, sorted list of the day |
| `TimetableRange.MergeTimetableForDate` | apps/web/src/lib/timetableMerge.ts:67-124 | the merge by key comparison is the merge by day numbers; empty for a malformed key |
| `TimetableRange.OnlyValidOverridesMatter` | apps/web/src/lib/timetableMerge.ts:67-124 | overrides that do not cover a day can be removed without changing it |
| `TimetableRange.DayInOrder` | apps/web/src/lib/timetableMerge.ts:117-122 | a day is ordered by start minute |
| `TimetableMeaning.DayByStart` | apps/web/src/lib/timetableMerge.ts:117-122 | a day is in the order of the minutes that are given, else read off the starting times, else 0 |
| `TimetableRange.MergeDays` | apps/web/src/lib/timetableMerge.ts:134-137 | the loop over days concatenates what each day gives, in date order |
| `TimetableRange.MergeTimetableForRange` | apps/web/src/lib/timetableMerge.ts:126-139 | the date-ordered concatenation of the days; empty for malformed, reversed or longer than 63 days |
| `TimetableMeaning.NoRange` | apps/web/src/lib/timetableMerge.ts:126-132 | a malformed or reversed range, and one of more than 63 days, is empty |
| `TimetableMeaning.RangeByDate` | apps/web/src/lib/timetableMerge.ts:133-139 | the entries of a range stand under the dates of its days, in the order of the dates |
| `TimetableRange.RangeYears` | apps/web/src/lib/timetableMerge.ts:133-137 | every day between two keys prints with a four-digit year |
| `TimetableRange.TemplatesAppearWeekly` | apps/web/src/lib/timetableMerge.ts:67-139 | over 7k days each weekly template appears exactly k times, edited, cancelled or neither |
| `TimetableRange.TemporaryClassesAppear` | apps/web/src/lib/timetableMerge.ts:94-116 | each temporary class appears once for each day it covers on its week day, and on no other |
| `TimetableRange.RangeShowsWeekly` | apps/web/src/lib/timetableMerge.ts:126-139 | the result for two keys k weeks apart, k at most 9, shows each weekly template exactly k times |
| `TimetableRange.RangeShowsTemporary` | apps/web/src/lib/timetableMerge.ts:126-139 | the result for two keys at most 63 days apart shows each temporary class once per day it covers |
| `TimetableClashes.FindClashes` | apps/web/src/lib/timetableMerge.ts:141-164 | the warnings are the report on every overlapping pair of valid entries, each once, in order, and on no other pair; a room warning follows exactly when the rooms agree |
| `ClashMeaning.ReportedIff` | apps/web/src/lib/timetableMerge.ts:141-164 | with unique ids two entries are reported iff some minute falls in both, and as a room clash, under the room as the first writes it, iff they also name the same room but for case and white space |
| `TimetableClashes.ReportIsUnique` | apps/web/src/lib/timetableMerge.ts:141-164 | the entries determine that report: two lists of warnings that meet it are equal |
| `TimetableClashes.RoomOnlyWithOverlap` | apps/web/src/lib/timetableMerge.ts:155-160 | a room warning comes only with the overlap warning of the same pair |
| `TimetableClashes.QuietDayFits` | apps/web/src/lib/timetableMerge.ts:141-164 | when nothing is reported for entries within one day, they last at most 1440 minutes in all |
| `LatexEscape.StepsAreSubst` | apps/web/src/lib/resumeLatex.ts:16-30 | the replacement chain before the placeholder is resolved is one substitution per character |
| `LatexEscape.ChainIsPerCharacter` | apps/web/src/lib/resumeLatex.ts:14-32 | the whole chain is one substitution per character iff the text has no fake placeholder |
| `LatexEscape.PlaceholderInText` | apps/web/src/lib/resumeLatex.ts:14-32 | the placeholder itself, as a text, is escaped differently |
| `LatexEscape.EscapeDistributes` | apps/web/src/lib/resumeLatex.ts:14-32 | escaping distributes over concatenation for text without U+E000 |
| `LatexEscape.EscapeRoundTrip` | apps/web/src/lib/resumeLatex.ts:14-32 | of every text without a fake placeholder the decoder recovers the text itself iff it has no typographic characters |
| `LatexEscape.EscapeReadsBack` | apps/web/src/lib/resumeLatex.ts:14-32 | of every text without a fake placeholder the decoder gives the text with dashes, bullets, ellipses and quotes as typed on a keyboard |
| `LatexNesting.FakeInTextAhead` | apps/web/src/lib/resumeLatex.ts:23-31 | what a fake placeholder in the text becomes |
| `LatexNesting.FakeWithSlashAhead` | apps/web/src/lib/resumeLatex.ts:23-31 | what a fake placeholder that a backslash completes becomes |
| `LatexNesting.EscapedIsTame` | apps/web/src/lib/resumeLatex.ts:14-32 | escaped text, of any text at all, opens and closes nothing, even when cut before white space |
| `LatexText.FmtUrlEach` | apps/web/src/lib/resumeLatex.ts:42-44 | the two URL replacements are one substitution per character |
| `LatexNesting.NeutralIff` | apps/web/src/lib/resumeLatex.ts:14-32 | a text leaves any open braces and environments as they are iff it leaves nothing open when read on its own |
| `LatexText.GoodTargetIff` | apps/web/src/lib/resumeLatex.ts:42-44 | a link target is good, which reading it on its own decides, iff wherever it is put it opens and closes nothing |
| `LatexText.PlainUrlIsGood` | apps/web/src/lib/resumeLatex.ts:42-44 | every link target without braces and backslashes is good |
| `LatexText.BoldNeutral` | apps/web/src/lib/resumeLatex.ts:105-117 | a bullet with a bold label is nested properly after trimming |
| `LatexText.SummaryNeutral` | apps/web/src/lib/resumeLatex.ts:74-82 | a formatted summary opens and closes nothing |
| `LatexText.BulletTextNeutral` | apps/web/src/lib/resumeLatex.ts:105-117 | neither does a formatted bullet |
| `LatexMeaning.BulletWithLabel` | apps/web/src/lib/resumeLatex.ts:105-117 | the words up to a colon at the third to the eightieth character are bold |
| `LatexMeaning.BulletWithoutLabel` | apps/web/src/lib/resumeLatex.ts:105-117 | any other bullet is escaped as it is |
| `LatexMeaning.CollapseWords` | apps/web/src/lib/resumeLatex.ts:78 | collapsing white space keeps the words, with single blanks between them |
| `LatexMeaning.ParagraphsOfBoth` | apps/web/src/lib/resumeLatex.ts:74-82 | a paragraph break divides a summary into the paragraphs of its two sides |
| `LatexMeaning.OneParagraph` | apps/web/src/lib/resumeLatex.ts:74-82 | a summary without one is a single paragraph, or none if it is white space |
| `LatexMeaning.UnixIs` | apps/web/src/lib/resumeLatex.ts:75 | a two-character line break counts as one |
| `LatexMeaning.DateIs` | apps/web/src/lib/resumeLatex.ts:34-40 | "present" in any case prints as "Present", another date escaped, white space not at all |
| `LatexMeaning.RangeIs` | apps/web/src/lib/resumeLatex.ts:198 | two dates are joined by a dash, a missing one leaves the other |
| `LatexText.DateRangeNeutral` | apps/web/src/lib/resumeLatex.ts:34-40 | nor a range of dates |
| `LatexSkills.GroupsDetermined` | apps/web/src/lib/resumeLatex.ts:89-101 | a list of entries has exactly one division into groups that keeps the order and starts a new group at exactly the labelled entries (and the first) |
| `LatexSkills.CollectRows` | apps/web/src/lib/resumeLatex.ts:88-101 | the loop gives one row per group: named by the label, or "Other", its value the head's own value and the escaped followers joined with commas |
| `LatexSkills.ParseSkillRowsForLatex` | apps/web/src/lib/resumeLatex.ts:84-103 | with a colon somewhere, the rows of whichever division into groups, without those whose value is empty; without one, a single row of all non-blank skills; none for no skills |
| `LatexMeaning.HeadIs` | apps/web/src/lib/resumeLatex.ts:92-102 | a label is what precedes the first colon, if anything does, and names the row; another entry starts a row named "Other" |
| `LatexMeaning.FlatIs` | apps/web/src/lib/resumeLatex.ts:86-88 | without colons all skills stand in one row named "Skills" |
| `LatexSkills.SkillRowsNeutral` | apps/web/src/lib/resumeLatex.ts:84-103 | names and values of the rows open and close nothing, whatever the entries are |
| `LatexLines.JoinIsEmit` | apps/web/src/lib/resumeLatex.ts:264-265 | joining the pushed lines ends each with a newline |
| `LatexLines.EnvironmentBalanced` | apps/web/src/lib/resumeLatex.ts:182-186 | a pushed begin line, balanced lines and the matching end line are balanced |
| `LatexLines.PushEach` | apps/web/src/lib/resumeLatex.ts:120-266 | a loop that pushes lines per item pushes the lines of the items in order |
| `LatexLines.DocumentNested` | apps/web/src/lib/resumeLatex.ts:263-265 | joining balanced lines makes a text that the character reader finds well nested |
| `TemplateParts.PushSection` | apps/web/src/lib/resumeLatex.ts:191-262 | a section is its heading, the lines of its items in order and an empty line, or nothing when empty |
| `TemplateParts.SkillTableBalanced` | apps/web/src/lib/resumeLatex.ts:182-186 | the table's begin line with its column specification, a line per row, and its end line are balanced |
| `TemplateParts.BulletsBalanced` | apps/web/src/lib/resumeLatex.ts:202-206 | so are the begin line, items and end line of a bullet list, or the gap in its place |
| `SplitTemplate.TitleFormatNeutral` | apps/web/src/lib/resumeLatex.ts:144 | the title format, as spelled, opens and closes nothing |
| `SplitTemplate.PreambleBalanced` | apps/web/src/lib/resumeLatex.ts:128-146 | neither does any other line of the preamble, comments included |
| `SplitTemplate.HeaderBalanced` | apps/web/src/lib/resumeLatex.ts:148-172 | the header with its table is balanced for every name and place, and all links and contacts with good targets |
| `SplitTemplate.ProjectBalanced` | apps/web/src/lib/resumeLatex.ts:212-235 | the lines of a project whose link target is good are balanced, with the table and without |
| `SplitTemplate.SplitNested` | apps/web/src/lib/resumeLatex.ts:120-266 | for every résumé whose link targets and e-mail addresses are good, the joined lines are well nested |
| `SplitTemplate.GenerateSourceSplitLatex` | apps/web/src/lib/resumeLatex.ts:120-266 | pushes exactly those lines, section by section, and the character reader finds the result well nested when the targets are good |
| `SplitContents.PreambleLoads` | apps/web/src/lib/resumeLatex.ts:131-140 | the packages that the preamble loads, in order |
| `SplitContents.SplitSays` | apps/web/src/lib/resumeLatex.ts:120-266 | every field that is not blank stands in the document, in its place: the header's, and for each section with content its title and its items' fields, in order |
| `SplitContents.SummaryIsShown` | apps/web/src/lib/resumeLatex.ts:124-178 | a summary that is not white space is printed |
| `LatexDocuments.OneLineIff` | apps/web/src/lib/resumeLatex.ts:148-265 | a document whose other lines are balanced is well nested iff the remaining line, read inside the document, opens and closes nothing |
| `SplitLinks.CertificateLineIff` | apps/web/src/lib/resumeLatex.ts:248-256 | whatever its other fields, a certificate's line opens and closes nothing iff the brace behind its link target ends the target's group |
| `SplitLinks.OneTargetIff` | apps/web/src/lib/resumeLatex.ts:120-266 | with all other targets good, the document is well nested iff the target of the one certificate ends its group |
| `SplitLinks.BracedLinkBreaks` | apps/web/src/lib/resumeLatex.ts:42-44 | a certificate with the link target `{` gives a document that is not well nested |
| `CustomTemplate.CustomPreambleBalanced` | apps/web/src/lib/resumeLatex.ts:815-836 | the preamble is balanced for every colour, font and density, with dividers and without |
| `CustomStyle.ColorIs` | apps/web/src/lib/resumeLatex.ts:786-790 | six hexadecimal digits, with a hash in front or without, are the accent colour |
| `CustomStyle.OtherColor` | apps/web/src/lib/resumeLatex.ts:786-790 | anything else gives the default colour |
| `CustomStyle.SizesAre` | apps/web/src/lib/resumeLatex.ts:803-813 | name height, line height and heading space are 24, 28 and 6 points, 2 less when compact, 2 more when spacious |
| `CustomStyle.PreambleSays` | apps/web/src/lib/resumeLatex.ts:802-836 | the preamble carries the user's font, margins, colour and heading space |
| `CustomStyle.HeadlineIs` | apps/web/src/lib/resumeLatex.ts:842-843 | the headline, by default FULL STACK DEVELOPER, is in capitals iff the style says so |
| `CustomStyle.DividersIff` | apps/web/src/lib/resumeLatex.ts:830-859 | rules are drawn under headings and header iff dividers are wanted |
| `CustomTemplate.CustomHeaderBalanced` | apps/web/src/lib/resumeLatex.ts:839-859 | so is the header with its centred block, when its link targets are good |
| `CustomTemplate.PushCustomSection` | apps/web/src/lib/resumeLatex.ts:863-935 | the lines of one section, none when it is hidden |
| `CustomTemplate.PushCustomSections` | apps/web/src/lib/resumeLatex.ts:863-935 | sections in the configured order, hidden ones left out |
| `CustomTemplate.CustomNested` | apps/web/src/lib/resumeLatex.ts:792-940 | for every résumé with good targets, section order, hidden set and style the joined lines are well nested |
| `CustomTemplate.GenerateCustomLatex` | apps/web/src/lib/resumeLatex.ts:792-940 | pushes exactly those lines, and the character reader finds the result well nested when the targets are good |
| `CustomContents.OrderIs` | apps/web/src/lib/resumeLatex.ts:799 | the user's order counts; without one, summary, skills, experience, projects, education and certifications |
| `CustomContents.SectionsAreBlocks` | apps/web/src/lib/resumeLatex.ts:861-936 | the sections are one block per entry of the order that is not hidden and has content: its heading, its own lines, and an empty line |
| `CustomHeadings.BodyHeadings` | apps/web/src/lib/resumeLatex.ts:839-936 | the headings of the body are the titles of exactly those entries, in that order; no other line is a heading, whatever the user's texts |
| `CustomHeadings.EscapedHarmless` | apps/web/src/lib/resumeLatex.ts:14-32 | no escaped text can be taken for the start of a section heading |
| `CustomContents.CustomSays` | apps/web/src/lib/resumeLatex.ts:839-936 | every field that is not blank stands in the document, in its place: the header's, and for each section shown, in the user's order, its title and its items' fields |
| `SheetMarks.NormalizeSheetKeys` | apps/web/src/lib/sheets.ts:57-69 | the trimmed, valid, short enough keys, each at its first occurrence |
| `SheetMarks.SheetStore.Load` | apps/web/src/lib/sheets.ts:127-154 | clean marks from storage, migrated from the old list when there are none, empty when corrupt |
| `SheetMarks.SheetStore.Save` | apps/web/src/lib/sheets.ts:156-168 | stores the clean form, or nothing when storage refuses |
| `SheetMarks.SheetStore.ToggleMark` | apps/web/src/lib/sheets.ts:175-195 | the three-way toggle and what it stores; nothing for a malformed key |
| `SheetMarks.SheetStore.ApplyAutoMarks` | apps/web/src/lib/sheets.ts:279-297 | the feed and what it stores |
| `SheetMarks.ToggleTidy` | apps/web/src/lib/sheets.ts:175-195 | a toggle keeps the lists duplicate-free and disjoint, and storable iff the key is short enough or malformed |
| `SheetMarks.ToggleFlips` | apps/web/src/lib/sheets.ts:175-200 | a toggle changes no other row, and flips its own iff the key has at most 120 characters |
| `SheetMeaning.KeyIff` | apps/web/src/lib/sheets.ts:50 | a key is two ids and a number with slashes between them |
| `SheetMeaning.CleanHas` | apps/web/src/lib/sheets.ts:131-146 | cleaning keeps the storable keys; manual marks win over automatic ones, and these over dismissals |
| `SheetMeaning.LoadedHas` | apps/web/src/lib/sheets.ts:127-154 | marks come from the new list, manual ones from the old list when there is no new one, and nowhere from corrupt text |
| `SheetMeaning.ToggleMoves` | apps/web/src/lib/sheets.ts:175-195 | a toggle moves its row from unmarked or dismissed to manual, from manual to unmarked, from automatic to dismissed, and moves no other row |
| `SheetMeaning.FeedMoves` | apps/web/src/lib/sheets.ts:279-297 | a feed moves exactly the storable, unmarked rows it brings to automatic |
| `SheetMeaning.UnmarkedComesBack` | apps/web/src/lib/sheets.ts:170-297 | a manual mark taken off is not held against the row: the next feed marks it again, while an automatic mark taken off is |
| `SheetMarks.FeedOnlyAdds` | apps/web/src/lib/sheets.ts:279-297 | a feed removes no mark, touches neither manual nor dismissed rows, and marks no dismissed row |
| `SheetMarks.FeedsUnite` | apps/web/src/lib/sheets.ts:279-297 | feeding A and then B marks the same rows as feeding both at once |
| `SheetMarks.SaveThenLoad` | apps/web/src/lib/sheets.ts:126-168 | saving and loading returns the same marks iff they are tidy and storable |
| `SheetMarks.SessionsStayTidy` | apps/web/src/lib/sheets.ts:126-195 | over every sequence of loads, saves, toggles and feeds, whichever writes storage refuses, the lists stay duplicate-free and disjoint |
| `SheetMarks.ReloadGivesLastSave` | apps/web/src/lib/sheets.ts:126-168 | over every such sequence a reload gives the marks of the last write that storage accepted |
| `SheetMarks.SessionsStayInStep` | apps/web/src/lib/sheets.ts:126-195 | when storage accepts every write, a reload changes no shown mark |
| `SheetMarks.DismissedUntilToggled` | apps/web/src/lib/sheets.ts:156-297 | over every sequence of operations that does not toggle it, a dismissed row stays dismissed iff storage holds the dismissal or no reload comes before an accepted write |
| `SheetMarks.ForgottenIsMarkedAgain` | apps/web/src/lib/sheets.ts:126-297 | after a reload that forgets a dismissal the next feed marks the row as done |
| `SheetMarks.PrivateModeForgets` | apps/web/src/lib/sheets.ts:156-195 | dismissing a row, a refused write and a reload bring it back |
| `SheetProgress.CollideIff` | apps/web/src/lib/sheets.ts:53-55 | two rows have the same key iff their track and step ids run together to the same text and their orders agree |
| `SheetProgress.OwnKeyIff` | apps/web/src/lib/sheets.ts:53-55 | no row of any other track or step shares a key with a step's rows iff neither of its ids holds a slash |
| `SheetProgress.KeysInjective` | apps/web/src/lib/sheets.ts:53-55 | rows with the same key are the same row when the ids of one of them hold no slash |
| `SheetProgress.SlashedIdsCollide` | apps/web/src/lib/sheets.ts:53-55 | for every id with a slash, another row with the same key |
| `SheetProgress.ItemKeysAreSheetKeys` | apps/web/src/lib/sheets.ts:50-55 | the keys built for rows are keys the marks accept |
| `SheetProgress.LongRowNeverFlips` | apps/web/src/lib/sheets.ts:175-195 | a well-formed row whose key is too long is not flipped by a toggle |
| `SheetProgress.ComputeStep` | apps/web/src/lib/sheets.ts:309-322 | counts exactly the marked rows of the step |
| `SheetProgress.ComputeTrack` | apps/web/src/lib/sheets.ts:329-337 | counts exactly the marked rows of the track, with the count, total and percentage of each step; marks of no row never count |
| `SheetProgress.ToggleMovesOneTrack` | apps/web/src/lib/sheets.ts:175-337 | toggling a row moves its track's count by exactly one and no other track's |
| `SheetProgress.PercentInRange` | apps/web/src/lib/sheets.ts:309-337 | the percentage is within 0 to 100 and within half a point of the ratio |
| `SheetMeaning.PercentIs` | apps/web/src/lib/sheets.ts:309-337 | the percentage is the nearest whole number, halves upwards, and 0 of nothing |
| `SheetProgress.PercentMonotone` | apps/web/src/lib/sheets.ts:309-337 | more marked rows never show a smaller percentage |
| `StagingQueue.TabsPartition` | apps/web/src/lib/stagingExpiry.ts:92-140 | a row is on exactly one tab iff it is not stamped fresh with a passed deadline |
| `StagingQueue.OnBothTabs` | apps/web/src/lib/stagingExpiry.ts:92-140 | a row stamped fresh before its deadline passed is on both tabs |
| `StagingQueue.ExpiredOnce` | apps/web/src/lib/stagingExpiry.ts:41-48 | a row has expired once its deadline lies in the past, not at that very instant, and never without a deadline |
| `StagingQueue.TabsByDeadline` | apps/web/src/lib/stagingExpiry.ts:92-140 | with consistent stamps tabs and badges go by the deadline alone |
| `StagingQueue.StampDecides` | apps/web/src/lib/stagingExpiry.ts:92-140 | a stamp decides, whatever the deadline, for the fresh list and the badges |
| `StagingQueue.SortByIndex` | apps/web/src/lib/stagingExpiry.ts:82 | sorting with index tie-breaks is stable sorting |
| `StagingQueue.FilterStagingExpiredOnly` | apps/web/src/lib/stagingExpiry.ts:117-140 | the expired rows, newest first, list order among equals |
| `StagingQueue.ExpiredOrder` | apps/web/src/lib/stagingExpiry.ts:117-140 | the expired list is sorted newest first and stable |
| `StagingQueue.NewestFirst` | apps/web/src/lib/stagingExpiry.ts:117-140 | later deadlines come first, none counting as the instant 0 |
| `StagingQueue.SortStagingWithExpiredBottom` | apps/web/src/lib/stagingExpiry.ts:69-84 | the rows still open in list order, then the expired ones; with consistent stamps, the fresh list followed by the expired list |
| `StagingQueue.ComputeAdjustedStagingTabCounts` | apps/web/src/lib/stagingExpiry.ts:250-281 | each badge is the server's total less the expired rows of that status, at least 0 |
| `StagingQueue.BucketIs` | apps/web/src/lib/stagingExpiry.ts:245-272 | a row counts as approved or rejected by its status, and as pending with any other |
| `StagingQueue.BadgesMatchLists` | apps/web/src/lib/stagingExpiry.ts:189-281 | with matching totals and consistent stamps (as apps/web/src/pages/AdminOpportunitiesPage.tsx:335-339 makes them) the badges are the lengths of the lists shown |
| `ResumeSkills.ExportSkills` | apps/web/src/lib/resumeJson.ts:88-109 | flat and labelled lists as JSON Resume skills |
| `ResumeSkills.ExportIs` | apps/web/src/lib/resumeJson.ts:88-109 | a list without colons is one skill named "Skills", another is converted entry by entry |
| `ResumeSkills.EntryIs` | apps/web/src/lib/resumeJson.ts:95-105 | an entry with a label gives its name and its keywords, another is a skill named "Other" |
| `ResumeSkills.KeywordsOfBoth` | apps/web/src/lib/resumeJson.ts:100 | the keywords of a text are those of the parts that a comma divides it into |
| `ResumeSkills.ImportSkills` | apps/web/src/lib/resumeJson.ts:179-196 | JSON Resume skills of every accepted form as texts |
| `ResumeSkills.ImportIs` | apps/web/src/lib/resumeJson.ts:180-196 | the texts of all entries in order; when there are none and the first is a text, as many blank texts |
| `ResumeSkills.ImportedIs` | apps/web/src/lib/resumeJson.ts:180-191 | what an entry becomes: a name with its keywords, a name alone, or the texts themselves |
| `ResumeSkills.LabelledThere` | apps/web/src/lib/resumeJson.ts:88-109 | an imported label splits at its first colon and at every comma |
| `ResumeSkills.ReexportIff` | apps/web/src/lib/resumeJson.ts:88-196 | exported skills survive import and re-export iff each has keywords and none holds a comma |
| `ResumeSkills.RoundTripIff` | apps/web/src/lib/resumeJson.ts:88-196 | the user's list exports to the same skills again iff, with a colon somewhere, every labelled entry has a keyword and no other holds a comma, and without, no entry holds a comma and not all are blank |
| `ResumeSkills.ListsThatChange` | apps/web/src/lib/resumeJson.ts:88-196 | a list with a comma in an unlabelled entry and a list of blanks come back changed |
| `Password.ShuffleInPlace` | apps/web/src/lib/password.ts:31-35 | the in-place loop is the shuffle from the last position down |
| `Password.ShufflePermutes` | apps/web/src/lib/password.ts:31-35 | the shuffle is a permutation, for every random buffer |
| `Password.CellIff` | apps/web/src/lib/password.ts:25-34 | one buffer cell can pick character c and swap with position j iff c and j agree modulo the common divisor of pool size and position, and the least such number fits 32 bits |
| `Password.BufferIff` | apps/web/src/lib/password.ts:25-34 | characters and swaps occur together for some buffer iff each position's character and swap are so compatible |
| `Password.GeneratedIff` | apps/web/src/lib/password.ts:14-37 | the passwords that can be generated are exactly the picked texts shuffled by compatible swaps |
| `Password.ReachableIff` | apps/web/src/lib/password.ts:14-37 | drawn characters can come out in a given arrangement iff compatible swaps arrange them so |
| `Password.FreeSwapIff` | apps/web/src/lib/password.ts:31-34 | a position's swap does not depend on its character iff pool size and position have no common divisor |
| `Password.AllReachableIff` | apps/web/src/lib/password.ts:30-35 | all arrangements of a drawn text can come out iff it has at most one character |
| `Password.NeverReached` | apps/web/src/lib/password.ts:25-34 | for every drawn text of two or more characters, an arrangement of it that no buffer drawing it gives |
| `Password.DollarStays` | apps/web/src/lib/password.ts:25-34 | of four characters, a drawn `$` always stays last |
| `Residues.MeetBelowIff` | apps/web/src/lib/password.ts:27-33 | a number below a limit has two given remainders iff they agree modulo the greatest common divisor and the least such number is below it |
| `Password.ShuffleReachesOnce` | apps/web/src/lib/password.ts:31-35 | no arrangement of distinct items is reached by two choices of positions |
| `Password.GeneratedIsStrong` | apps/web/src/lib/password.ts:14-37 | length, alphabet and character classes survive the shuffle |
| `Password.GenerateSecurePassword` | apps/web/src/lib/password.ts:14-37 | for every buffer: the requested length, allowed characters only, and all four classes iff the length is at least 4 |
| `Password.ShortLacksClass` | apps/web/src/lib/password.ts:22-28 | fewer than four positions leave a class out |

## Left out

- React rendering, toasts, styling, routing, and all pages and hooks other than those named above.
- Network, sockets, IndexedDB and `crypto`: requests, answers and failures are steps of the machine in `Freshness`, random bytes are an arbitrary buffer; `localStorage` is the pair of fields of `SheetMarks.SheetStore`.
- JSON parsing: rules, options, marks and résumés are given as parsed values; JSON `null` operands in form conditions and `null` entries in skill lists are not modelled.
- Characters are Unicode scalar values, not UTF-16 code units; lower-casing (in `contains` conditions, room names and the word "present") is ASCII only.
- Scores, counts and percentages are exact reals and integers, so floating-point rounding does not occur.
- FormBranching.GetVisibleFields: with duplicate ids only the partition and the rule-hidden guarantee are stated, because the code finds positions by id.
- CodingStreak.CalcStreaks: for keys of impossible dates and of years before 1000, which parsing rolls over, `longest` is only bounded by the number of keys; today is taken to be in the years 1000 to 9999.
- `toActiveKeySet` and the other input coercions of the heatmap; the year filter of the heatmap.
- Heatmap.BucketParticipationsByDay: the counts of days outside the years 1000 to 9999 are not stated; today is taken to be within them.
- UnifiedHeatmap.BuildUnifiedHeatmapDays: counts are whole numbers at least 0, as the source's `asCount` makes them.
- TimetableMerge.MergeWith: `toMinutes` and `localeCompare` are parameters, arbitrary except that `DayInOrder` asks the collation to be an order; text fields are one list.
- TimetableRange.MergeTimetableForRange: a key that names no real date (2024-02-31) is treated as malformed; the source leaves it to the engine's date parser.
- TimetableClashes.FindClashes: the wording of the messages is not modelled, only which pair and which room.
- AnnouncementsPage.Page.FetchRejected: the toast is not modelled.
- `handleMarkRead`, which patches the shown list without asking the guard, and React Query's invalidation.
- SplitTemplate.SplitNested: for documents with link targets or e-mail addresses that are not good the exact condition is stated for one certificate's link (`SplitLinks.OneTargetIff`), not for header and project links, nor for several bad targets that make up for each other.
- The `asis` passthrough and the compact, classic, modern and minimal templates, which would repeat the proof of nesting; LaTeX semantics beyond nesting.
- SplitTemplate.GenerateSourceSplitLatex: the branch that prints a link without its "Source Code" label is unreachable and omitted.
- CustomContents.CustomSays: states the fields and their order, not the commands, separators and comments between them.
- SplitContents.SplitSays: likewise.
- `mapSolvedToSheetKeys`, which joins solved problems to rows by their URLs.
- StagingQueue.FilterStagingExpiredOnly: parsing of deadlines; the expiry instant of a row is given, absent for missing and invalid deadlines, and statuses are given trimmed and in upper case.
- Sections of a résumé other than skills in the JSON Resume conversion: each is a map over fields.
- The common-password list and the breach query of the password helpers.
