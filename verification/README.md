# Interview calendar: a Dafny model

This project models the interview-scheduling page of the magic-resume dashboard and proves properties of the model:

- **The interview store.** Interviews are kept by id, together with the selected calendar date. The store can add, update, delete and list interviews, and filter them by date.
- **The weekly grid.** The page lays the interviews out on a grid of five weekdays. Each interview gets a column, a top offset and a height. The grid also has the twelve hour rows from 09:00.
- **The event box.** Each box has a height floor. Its text lines appear above height thresholds. Its horizontal placement is given as fractions of the grid width.
- **The form handlers.** The page has handlers to add, edit, open for editing, reset, change fields, pick dates and move between weeks.
- **The AI text parser.** This part covers:
  - the dialog's parse button guard;
  - the check that the selected model is configured;
  - the request the dialog posts;
  - the server route that turns the provider's reply into a patch of form fields;
  - the merge of that patch into the form.

Every handler is a pure function from state to state. The clock, the `Date.now()` id, the provider's reply and the model configuration table are arguments.

Files, one module each:

| file | module | models |
|---|---|---|
| `wrappers.dfy` | `Wrappers` | `Option` |
| `text.dfy` | `Text` | the JavaScript string built-ins the page relies on: `toString`, `padStart`, `parseInt`, `split`, `trim` |
| `calendar.dfy` | `Calendar` | the civil calendar and the date-fns operations used: `addDays`, `startOfWeek`, `format(…, "yyyy-MM-dd")`, `parseISO`, `isSameDay` |
| `interview_types.dfy` | `InterviewTypes` | `types.ts` |
| `interview_store.dfy` | `InterviewStore` | `useInterviewStore.ts` |
| `week_grid.dfy` | `WeekGrid` | the grid layout of `InterviewsClient.tsx` |
| `interview_event.dfy` | `InterviewEvent` | `InterviewEvent.tsx` |
| `interviews_client.dfy` | `InterviewsClient` | the state and handlers of `InterviewsClient.tsx` |
| `parser_route.dfy` | `ParserRoute` | `route.ts` |
| `form_dialog.dfy` | `FormDialog` | the parser part of `InterviewFormDialog.tsx` |

Modelling choices:

- **Records.** An `Interview` is form data plus an id. So "form data plus an id is an interview" holds by construction.
- **Field values.** Every field holds a string, as it does at run time. The status and duration labels have their own tables and parsers.
- **Dates.** A date is a civil year, month and day. A day number counts days from 0000-01-01, so `addDays` is addition and `startOfWeek` is arithmetic on day numbers. Two renderings of a day are kept apart. `toISOString` writes year 0 as `0000`, which is `IsoText`. date-fns `format(…, "yyyy-MM-dd")` writes the year of the era, so year 0 comes out as `0001`, which is `FormatIso`.
- **Pixels.** Pixel arithmetic uses exact `real` numbers.

How the route answers the provider's reply (`src/app/api/interview-parser/route.ts`):

- A failed `fetch`, or a provider body that is not JSON, throws out of the outer `try` (lines 24-67). The route answers with a 500 error (lines 103-106), and `ParserRoute.Respond` gives `Error(500, …)`.
- The route never checks the provider's HTTP status. A JSON error body without `choices[0].message` gives a 200 answer with `{data: {}}` (lines 71-78 and 102).
- A JSON `null` body makes reading `aiResult.choices` throw inside the inner `try` (line 75). So does content that `JSON.parse` rejects or that parses to `null` (lines 79-83). The inner `catch` answers `{status, color}` (lines 94-99).

## Model

| member | source | states |
|---|---|---|
| InterviewTypes.ParseStatus | src/app/app/dashboard/interviews/types.ts:2 | a status label names exactly one of the three statuses, and every status's label parses back to it |
| InterviewTypes.StatusesClosed | src/app/app/dashboard/interviews/types.ts:2 | there are exactly three statuses, all listed, with pairwise distinct labels |
| InterviewTypes.ParseDuration | src/app/app/dashboard/interviews/types.ts:5 | a duration label names exactly one of the six durations, and every duration's label parses back to it |
| InterviewTypes.DurationsClosed | src/app/app/dashboard/interviews/types.ts:5 | there are exactly six durations, all listed, with distinct labels, in strictly increasing length |
| InterviewTypes.AllFormFieldsComplete | src/app/app/dashboard/interviews/types.ts:22-32 | the form has exactly nine fields |
| InterviewTypes.FieldNamed | src/app/app/dashboard/interviews/components/InterviewFormDialog.tsx:126 | `key in formData` holds exactly for the nine field names, and each name denotes its own field |
| InterviewTypes.SetField | src/app/app/dashboard/interviews/components/InterviewsClient.tsx:141-143 | `{ ...prev, [name]: value }` sets the named field and leaves the other eight alone |
| InterviewTypes.FormDataExtensionality | src/app/app/dashboard/interviews/types.ts:22-32 | two forms that agree on all nine fields are equal |
| InterviewTypes.InterviewExtensionality | src/app/app/dashboard/interviews/types.ts:8-19 | two interviews that agree on the id and all nine fields are equal |
| InterviewTypes.FormPatch | src/app/app/dashboard/interviews/components/InterviewsClient.tsx:160 | passing the whole form as an update patch sets every form field to the form's value and never sets the id |
| InterviewStore.AddInterview | src/store/useInterviewStore.ts:27-33 | afterwards the id maps to the interview, the key set gains that id, every other entry and the selected date are unchanged, and an existing entry is overwritten |
| InterviewStore.Merge | src/store/useInterviewStore.ts:44-47 | `{ ...interview, ...interviewData }`: each key in the patch takes the patch's value, and every other key keeps the record's |
| InterviewStore.UpdateInterview | src/store/useInterviewStore.ts:36-50 | an absent id returns the state unchanged and creates no entry; a present id gets the merged record with the same key set, and other ids are untouched |
| InterviewStore.DeleteInterview | src/store/useInterviewStore.ts:53-58 | the key set loses the id, and the remaining entries and the selected date are unchanged |
| InterviewStore.SetSelectedDate | src/store/useInterviewStore.ts:61-62 | only the selected date changes; the interviews are untouched |
| InterviewStore.DeleteIdempotent | src/store/useInterviewStore.ts:53-58 | deleting twice equals deleting once, and deleting an absent id changes nothing |
| InterviewStore.MutationsKeepKeysMatchIds | src/store/useInterviewStore.ts:27-58 | add and delete keep every interview filed under its own id, and so does update with a patch that sets no id or the same id |
| InterviewStore.ForeignIdPatchBreaksKeysMatchIds | src/store/useInterviewStore.ts:41-48 | in any store, an update of a present id whose patch carries another id breaks that invariant: the entry stays under its key but reports the patch's id |
| InterviewStore.ListingIsValues | src/store/useInterviewStore.ts:75-78 | a listing has one record per key, and holds exactly the stored records |
| InterviewStore.AllInterviews | src/store/useInterviewStore.ts:75-78 | `Object.values`: each key is listed exactly once with its own record, and the order is left open |
| InterviewStore.ListedOnce | src/store/useInterviewStore.ts:75-78 | while every interview is filed under its own id, the listing holds each stored interview exactly once |
| InterviewStore.RecordsOn | src/store/useInterviewStore.ts:69-71 | the filter keeps exactly the entries whose date string equals the given one, with their records |
| InterviewStore.InterviewsByDate | src/store/useInterviewStore.ts:65-72 | it lists exactly the stored records whose date string is the queried day string, each once, so the result is part of the full listing |
| InterviewStore.DateStringMatchesDay | src/store/useInterviewStore.ts:67-70 | for a four-digit-year day, a record's date string equals that day's ISO `YYYY-MM-DD` text (year 0 written 0000, as `toISOString` writes it) exactly when it parses to that day |
| Text.PadStart | src/app/app/dashboard/interviews/components/InterviewsClient.tsx:226 | `padStart` gives the longer of the string and the width; the original string is a suffix, and every character before it is the pad character |
| Text.NatToDecimal | src/app/app/dashboard/interviews/components/InterviewsClient.tsx:226 | `toString` of a natural number is a non-empty run of digits |
| Text.DecimalValueOfNatToDecimal | src/app/app/dashboard/interviews/components/InterviewsClient.tsx:226 | reading the decimal text of a number gives the number back |
| Text.DecimalValueInjective | src/app/app/dashboard/interviews/components/InterviewsClient.tsx:226 | two digit strings of the same length with the same value are the same string |
| Text.ZeroPad | src/app/app/dashboard/interviews/components/InterviewsClient.tsx:226 | a zero-padded number is all digits and at least the width long |
| Text.ZeroPadValue | src/app/app/dashboard/interviews/components/InterviewsClient.tsx:226 | zero padding does not change the number the digits denote |
| Text.ZeroPadLength | src/app/app/dashboard/interviews/components/InterviewsClient.tsx:226 | a number below 10^w pads to exactly w characters |
| Text.DecimalValueBound | src/app/app/dashboard/interviews/components/InterviewsClient.tsx:226 | w digits denote a number below 10^w |
| Text.DigitPrefix | src/app/app/dashboard/interviews/components/InterviewsClient.tsx:295-296 | the leading digit run of a string is a prefix, all digits, and maximal |
| Text.ParseIntPrefix | src/app/app/dashboard/interviews/components/InterviewsClient.tsx:295-296 | `parseInt` is NaN exactly when the string is empty or does not start with a digit |
| Text.ParseIntPrefixOfDigits | src/app/app/dashboard/interviews/components/InterviewsClient.tsx:295-296 | `parseInt` of a digit string is its decimal value |
| Text.Split | src/app/app/dashboard/interviews/components/InterviewsClient.tsx:295-296 | `split` gives at least one part, and no part contains the separator |
| Text.JoinSplit | src/app/app/dashboard/interviews/components/InterviewsClient.tsx:295-296 | joining the parts of a split with the separator restores the string |
| Text.SplitFreePrefix | src/app/app/dashboard/interviews/components/InterviewsClient.tsx:295-296 | a separator-free prefix becomes part of the first part of the split |
| Text.SplitJoin | src/app/app/dashboard/interviews/components/InterviewsClient.tsx:295-296 | splitting separator-free parts joined by the separator gives the parts back |
| Text.TrimStartIndex | src/app/app/dashboard/interviews/components/InterviewFormDialog.tsx:82 | `trim` removes a white-space prefix and stops at the first non-white-space character |
| Text.TrimEndIndex | src/app/app/dashboard/interviews/components/InterviewFormDialog.tsx:82 | `trim` removes a white-space suffix and stops at the last non-white-space character |
| Text.TrimEmptyIffBlank | src/app/app/dashboard/interviews/components/InterviewFormDialog.tsx:82 | a string trims to the empty string exactly when every character is white space or a line terminator |
| Calendar.NextDay | src/app/app/dashboard/interviews/components/InterviewsClient.tsx:215-217 | the day after a calendar date is a calendar date |
| Calendar.DayNumberOfNextDay | src/app/app/dashboard/interviews/components/InterviewsClient.tsx:215-217 | the next calendar day has the next day number, across month and year ends, so `addDays(d, 1)` is +1 |
| Calendar.MondayAnchor | src/app/app/dashboard/interviews/components/InterviewsClient.tsx:92-94 | 2025-03-10 is a Monday in the day numbering |
| Calendar.WeekdayOfNextDay | src/app/app/dashboard/interviews/components/InterviewsClient.tsx:92-94 | the weekday advances by one, modulo seven, from each calendar day to the next |
| Calendar.StartOfWeek | src/app/app/dashboard/interviews/components/InterviewsClient.tsx:92-94 | `startOfWeek(d, { weekStartsOn: 1 })` is a Monday at most six days before d |
| Calendar.FormatIso | src/app/app/dashboard/interviews/components/InterviewsClient.tsx:98 | `format(d, "yyyy-MM-dd")` is at least ten characters long |
| Calendar.EraYear | src/app/app/dashboard/interviews/components/InterviewsClient.tsx:98 | the `yyyy` year is at least 1 and equals the year from year 1 on |
| Calendar.YearZeroFormat | src/app/app/dashboard/interviews/components/InterviewsClient.tsx:98 | year 0 is formatted as its ISO text with the year written 0001 |
| Calendar.ParseIsoDate | src/app/app/dashboard/interviews/components/InterviewsClient.tsx:288 | `parseISO` gives a day only for `YYYY-MM-DD` text that names a real calendar date, and an invalid date otherwise |
| Calendar.ParseFormatIso | src/app/app/dashboard/interviews/components/InterviewsClient.tsx:184 | parsing the formatted text of a four-digit-year calendar date gives that date back from year 1 on; a year-0 date comes back as the same day of year 1, or as an invalid date when that day does not exist |
| Calendar.ParseIsoText | src/app/app/dashboard/interviews/components/InterviewsClient.tsx:184 | parsing the ISO text of a four-digit year, month and day gives that day exactly when it is a calendar date, and an invalid date otherwise |
| Calendar.FormatParseIso | src/app/app/dashboard/interviews/components/InterviewFormDialog.tsx:132-135 | formatting a parsed date gives back exactly the text it was parsed from, except that a year written 0000 comes back as 0001 |
| Calendar.IsoTextOfParse | src/app/app/dashboard/interviews/components/InterviewFormDialog.tsx:132-135 | the ISO text of a parsed date is exactly the text it was parsed from |
| WeekGrid.DurationMinutes | src/app/app/dashboard/interviews/components/InterviewsClient.tsx:298-312 | each of the six labels maps to its minutes (30, 60, 90, 120, 150, 180), and any other string maps to 60 |
| WeekGrid.ParseStartTimeOfLabel | src/app/app/dashboard/interviews/components/InterviewsClient.tsx:295-296 | the hour and minute read from a zero-padded `HH:MM` are the ones written |
| WeekGrid.TopOrdering | src/app/app/dashboard/interviews/components/InterviewsClient.tsx:314-317 | the top offset is 0 at 09:00, strictly increases with the start time, is negative exactly before 09:00 with no clipping, and is 4/3 px per minute after 09:00 |
| WeekGrid.GridHeight | src/app/app/dashboard/interviews/components/InterviewsClient.tsx:318-327 | the height handed to the event is the duration's pixels floored at 24 |
| WeekGrid.GridHeightOfDurations | src/app/app/dashboard/interviews/components/InterviewsClient.tsx:315-327 | every known duration is drawn at its own pixel height of at least 40, so the floor never applies; an unknown label is drawn 80 px tall |
| WeekGrid.WeekDates | src/app/app/dashboard/interviews/components/InterviewsClient.tsx:215-217 | `weekDates` is five consecutive days starting at the week start |
| WeekGrid.WeekDatesAreWeekdays | src/app/app/dashboard/interviews/components/InterviewsClient.tsx:215-217 | from a Monday the five days are Monday to Friday, and the second is the calendar's next day |
| WeekGrid.FindDay | src/app/app/dashboard/interviews/components/InterviewsClient.tsx:289-291 | `findIndex` gives -1 exactly when no day matches, and otherwise the first matching position |
| WeekGrid.ColumnOf | src/app/app/dashboard/interviews/components/InterviewsClient.tsx:288-293 | a column exists exactly when the record's date is one of the five days, lies in 1..5, and is the day's offset from the week start plus one |
| WeekGrid.PlaceEvent | src/app/app/dashboard/interviews/components/InterviewsClient.tsx:287-333 | an event is drawn exactly when the record's date is in the shown week; it carries the record, the column `dateIndex + 1` (the day's offset from the week start plus one, in 1..5), the top offset of its `startTime` (none where the source computes NaN) and the floored height of its duration |
| WeekGrid.Layout | src/app/app/dashboard/interviews/components/InterviewsClient.tsx:287-333 | every drawn event is a listed record at its own placement, every listed record in the week is drawn, and there are no more events than records |
| WeekGrid.LayoutMultiplicity | src/app/app/dashboard/interviews/components/InterviewsClient.tsx:287-333 | each record in the week is drawn exactly as many times as the listing holds it, and a record outside the week is never drawn |
| WeekGrid.OutOfWeekNotDrawn | src/app/app/dashboard/interviews/components/InterviewsClient.tsx:293 | a record outside the five days draws no event |
| WeekGrid.TimeSlots | src/app/app/dashboard/interviews/components/InterviewsClient.tsx:224-227 | there are twelve hour rows |
| WeekGrid.TimeSlotRows | src/app/app/dashboard/interviews/components/InterviewsClient.tsx:224-227 | row i is a five-character label that parses back to hour 9+i at minute 0, and an interview starting then is drawn at the top of row i |
| WeekGrid.TimeSlotLabel | src/app/app/dashboard/interviews/components/InterviewsClient.tsx:224-227 | row i is labelled `HH:00`: two digits followed by `:00` |
| WeekGrid.TuesdayScenario | src/app/app/dashboard/interviews/components/InterviewsClient.tsx:50-61 | in the week of Monday 2025-03-10, the sample 腾讯 interview lands in column 2, 400 px down, 120 px tall |
| InterviewEvent.EventHeight | src/app/app/dashboard/interviews/components/InterviewEvent.tsx:33 | the box height is at least 24 and at least the given height, and is one of the two |
| InterviewEvent.EventHeightIdempotent | src/app/app/dashboard/interviews/components/InterviewEvent.tsx:33 | the floor is idempotent, leaves heights of 24 or more alone, and so leaves the grid's floored heights unchanged |
| InterviewEvent.VisibleLines | src/app/app/dashboard/interviews/components/InterviewEvent.tsx:49-59 | the drawn lines are a prefix of company, position, time; the position is drawn exactly above 40 px, and the time exactly above 60 px |
| InterviewEvent.ShowsTimeImpliesPosition | src/app/app/dashboard/interviews/components/InterviewEvent.tsx:50-59 | drawing the time line implies drawing the position line |
| InterviewEvent.LinesByDuration | src/app/app/dashboard/interviews/components/InterviewEvent.tsx:50-59 | a 30分钟 interview shows only its company name, and every other duration label shows all three lines |
| InterviewEvent.ColumnFractions | src/app/app/dashboard/interviews/components/InterviewEvent.tsx:43-44 | the left fraction strictly increases with the column, and columns 1..5 start inside the grid and end within it |
| InterviewEvent.NeighbouringColumnsApart | src/app/app/dashboard/interviews/components/InterviewEvent.tsx:43-44 | at any grid width, the box of the next column starts 47/6 px after this column's box ends |
| InterviewsClient.InitialState | src/app/app/dashboard/interviews/components/InterviewsClient.tsx:87-105 | the page mounts with the default form, no dialog open, and the Monday-started week that contains today |
| InterviewsClient.ResetForm | src/app/app/dashboard/interviews/components/InterviewsClient.tsx:189-203 | the form returns to the defaults dated today, today is selected, no interview is being edited, and the interviews are untouched |
| InterviewsClient.HandleAddInterview | src/app/app/dashboard/interviews/components/InterviewsClient.tsx:145-155 | the form is stored under the fresh id, other entries are kept, the add dialog closes, the form is back to the defaults and today is selected; the week and the edit dialog are untouched |
| InterviewsClient.HandleEditInterview | src/app/app/dashboard/interviews/components/InterviewsClient.tsx:157-164 | with no current interview nothing changes; otherwise the stored record of that id takes every form field and keeps its own id, other entries and the key set are kept, the edit dialog closes, the form resets and today is selected; the week and the add dialog are untouched |
| InterviewsClient.OpenEditDialog | src/app/app/dashboard/interviews/components/InterviewsClient.tsx:171-186 | the record becomes current, its fields fill the form, its parsed date is selected, and the edit dialog opens; the interviews, the week and the add dialog are untouched |
| InterviewsClient.OpenThenSaveIsIdentity | src/app/app/dashboard/interviews/components/InterviewsClient.tsx:157-186 | opening a stored interview and saving it without edits leaves every stored interview as it was |
| InterviewsClient.HandlersKeepKeysMatchIds | src/app/app/dashboard/interviews/components/InterviewsClient.tsx:145-169 | the add, edit and delete handlers keep every interview filed under its own id |
| InterviewsClient.HandleFieldChange | src/app/app/dashboard/interviews/components/InterviewsClient.tsx:134-143 | the changed field takes the value, and every other field and the rest of the page are unchanged |
| InterviewsClient.HandleCalendarSelect | src/app/app/dashboard/interviews/components/InterviewsClient.tsx:109-117 | no date changes nothing; a picked day is selected and becomes the form's formatted date, and nothing else changes |
| InterviewsClient.HandleDeleteInterview | src/app/app/dashboard/interviews/components/InterviewsClient.tsx:166-169 | the id is removed, other entries are kept, and the selected date, form, week and dialogs are untouched |
| InterviewsClient.PrevWeek | src/app/app/dashboard/interviews/components/InterviewsClient.tsx:206-208 | the week start moves back exactly seven days; the store, form, current interview and both dialogs are unchanged |
| InterviewsClient.NextWeek | src/app/app/dashboard/interviews/components/InterviewsClient.tsx:210-212 | the week start moves forward exactly seven days; the store, form, current interview and both dialogs are unchanged |
| InterviewsClient.WeekNavigationInverse | src/app/app/dashboard/interviews/components/InterviewsClient.tsx:206-212 | the previous-week and next-week buttons undo each other and keep the week start's weekday |
| InterviewsClient.SeedDemos | src/app/app/dashboard/interviews/components/InterviewsClient.tsx:119-124 | adding the three samples in order stores each sample under its own id, keeps every entry under any other key, keeps every interview filed under its own id, and leaves the selected date alone |
| InterviewsClient.Mount | src/app/app/dashboard/interviews/components/InterviewsClient.tsx:119-132 | an empty store ends holding exactly the three samples under ids 1, 2 and 3; a non-empty store is untouched; a selected day is copied into the form's date, and otherwise the form is kept; the selected date, current interview, week and dialogs are untouched |
| InterviewsClient.Render | src/app/app/dashboard/interviews/components/InterviewsClient.tsx:287-333 | every drawn event is a stored interview at its placement, every stored interview dated in the shown week is drawn, exactly once while each is filed under its own id, and there are no more events than interviews |
| ParserRoute.FormFieldNamesAreFieldNames | src/app/app/dashboard/interviews/types.ts:22-32 | the route's field-name set is exactly the set of names of the nine form fields |
| ParserRoute.Normalise | src/app/api/interview-parser/route.ts:82-92 | the patch has exactly the nine form keys; six text fields are the extracted value or "" when it is missing or empty; the duration is the extracted value or 1小时; status is always 待面试 and color always #3b82f6 |
| ParserRoute.NormaliseIdempotent | src/app/api/interview-parser/route.ts:82-92 | normalising a normalised patch changes nothing |
| ParserRoute.Respond | src/app/api/interview-parser/route.ts:67-106 | a failed or non-JSON provider reply is a 500 error; a JSON body without a message gives `{}`; a `null` body and unparseable or `null` content give exactly `{status, color}`; an object gives its normalised patch; a message always forces status and colour; data only uses form keys |
| ParserRoute.Route | src/app/api/interview-parser/route.ts:7-106 | a 400 error comes exactly from a missing, non-string or empty text; the provider is called exactly when the text is valid and the model type is configured; a non-JSON body or an unknown model type is a 500 error; the provider receives the config's URL, the key, the chosen model and the text |
| FormDialog.ParseButtonGuard | src/app/app/dashboard/interviews/components/InterviewFormDialog.tsx:165 | the parse button is disabled exactly while parsing or while the text is all white space |
| FormDialog.StartParse | src/app/app/dashboard/interviews/components/InterviewFormDialog.tsx:81-120 | blank text does nothing; a non-doubao model missing from the table fails before any change; an unconfigured model posts nothing; otherwise the dialog is parsing and the request carries the text, the selected provider's key, the chosen model and the model type |
| FormDialog.MergePatch | src/app/app/dashboard/interviews/components/InterviewFormDialog.tsx:125-129 | each field takes the patch's value under its own name when that value is non-empty, and keeps its own otherwise; other keys are ignored |
| FormDialog.ApplyEntries | src/app/app/dashboard/interviews/components/InterviewFormDialog.tsx:125-129 | calling the field handler for every non-empty known entry, in any order, gives exactly the merged form and changes nothing else |
| FormDialog.SelectParsedDate | src/app/app/dashboard/interviews/components/InterviewFormDialog.tsx:132-139 | the parsed value of the returned date is selected; a real day is written into the form formatted, which is the returned text from year 1 on; nothing else changes |
| FormDialog.FinishParse | src/app/app/dashboard/interviews/components/InterviewFormDialog.tsx:122-148 | parsing ends false on every path; an ok response with data merges the patch, writes a returned day formatted into the date field, selects the returned date, and empties and hides the parser, leaving the week, current interview and dialogs alone; any other outcome leaves the page untouched |
| FormDialog.HandleParseText | src/app/app/dashboard/interviews/components/InterviewFormDialog.tsx:81-149 | a click that posts nothing leaves page and dialog unchanged, and one that posts always ends with the parsing flag cleared |
| FormDialog.PostedTextIsNeverRejected | src/app/app/dashboard/interviews/components/InterviewFormDialog.tsx:82-110 | the text the dialog posts always passes the route's 400 check |
| FormDialog.ProviderReceivesConfiguredModel | src/app/app/dashboard/interviews/components/InterviewFormDialog.tsx:99-118 | through the dialog and the route, the provider receives the selected provider's model id when its configuration requires one and the default model otherwise, with the key and the text unchanged |
| FormDialog.SuccessfulParseResetsStatusAndColor | src/app/app/dashboard/interviews/components/InterviewFormDialog.tsx:124-129 | whenever the provider's reply carries a message, the form ends with status 待面试 and colour #3b82f6 |
| FormDialog.FinishForcesStatusAndColor | src/app/app/dashboard/interviews/components/InterviewFormDialog.tsx:124-129 | a successful finish with a patch carrying the default status and colour leaves the form with them |
| FormDialog.ParsedDateIsKept | src/app/app/dashboard/interviews/components/InterviewFormDialog.tsx:124-139 | a returned `YYYY-MM-DD` day is selected and ends up as the form's date text unchanged from year 1 on, and with the year written 0001 when the route returned 0000 |

## Left out

- **Rendering.** React rendering, JSX, dialogs, popovers, selects, toasts and console logging are UI only. The model keeps the state the handlers change and the numbers the grid computes. Button clicks that only open a dialog are not modelled.
- **Week header.** The header text of the week range and the weekday labels are locale formatting. They are not modelled.
- **Floating point.** Pixel arithmetic is exact `real` arithmetic. JavaScript's double rounding of 80/60 and of the `calc` fractions is not modelled, and the CSS `calc` strings are reduced to their numbers.
- Text.ParseIntPrefix: only reads a leading run of decimal digits. `parseInt`'s skipping of leading white space, its sign and its radix handling are not modelled, because start times are `HH:MM` text.
- Calendar.ParseIsoDate: accepts only the complete `YYYY-MM-DD` form with a four-digit year. Other forms that `parseISO` accepts, such as times, week dates, ordinal dates and expanded years, count as invalid dates here.
- **Time zones.** The model has no time zones. `getInterviewsByDate` takes its day as the `YYYY-MM-DD` string. The store's `toISOString` rendering of the queried `Date` would use the UTC day, not the local one, and that is not modelled.
- **Selected date type.** The selected `Date` is modelled as a civil day or an invalid date.
- **Invalid dates.** `format` throws on an invalid date. That happens when parsed text that is not a date is selected in `handleParseText`. The model records the invalid selection and leaves the form's date text as the merge wrote it.
- **Persistence.** zustand `persist` and localStorage serialisation are I/O done by a library. They are not modelled, and neither is a rehydrated selected date arriving as a string.
- **Network and clock.** The `fetch` calls, the provider's HTTP API and `Date.now()` are arguments:
  - the provider's reply is a `ProviderReply`;
  - the dialog's fetch outcome is a `ServerOutcome`;
  - today is a `CivilDate`;
  - the fresh id is a string.
- **Model configuration table.** The contents of `AI_MODEL_CONFIGS` are not part of this model. A configuration is an abstract `ModelConfig` of a URL, `requiresModelId` and `defaultModel`. The provider headers are reduced to the API key they carry.
- **Missing body properties.** The route's body properties `apiKey` and `model` are strings. Missing ones, which would be sent as `undefined`, are not modelled.
- **JSON values.** Only string-valued JSON properties are modelled. A truthy non-string value that the provider returns would pass through the route and into the form. Parsed JSON that is a primitive other than `null` behaves like an object with no properties, and should be given as `ParsedObject(map[])`.
- **Property lookup.** `key in formData` and the store's `interviews[id]` also see properties inherited from `Object.prototype`, such as `constructor`. The model treats both as plain lookups of own keys.
- **Field names.** The field handlers take a `FormField`. The source's handlers accept any property name, but the page only calls them with the nine form names.
- InterviewsClient.Render: states that each in-week interview is drawn exactly once only while every interview is filed under its own id. Two keys holding the same record would list and draw it twice, as `Object.values` does; the handlers never produce that state.
- **Mount sync.** The mount effect's copy of a stored invalid date into the form, where `format` would throw, is modelled as no change.
- **Concurrency.** Interleaving of several parse requests is not modelled, because the parse flow is a single function from click to finish. React's batching of state updates is not modelled either; updates apply in the order they are issued.
