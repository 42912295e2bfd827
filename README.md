# School calendar and lesson planner — a Dafny model

The application is a small web front end for teachers. A shell switches
between a login page, a dashboard and a school calendar. The calendar
(`CalendarView`) shows a window of months with their events, lets a teacher
enter a batch of dated events for a legend category, and prints the year
as two A4 pages. The lesson-plan generator (`LessonPlanGenerator`) collects
a weekly grade of lessons and a period, asks a remote text generator for a
plan, and exports the generated text as a styled document. All data lives
in a SheetDB spreadsheet that the API service reads and writes.

This project restates that core in Dafny and proves what it promises:

- **Batch entry** (`BatchParser`): the unanchored pattern
  `(\d{1,2})\/(\d{1,2})(?:\s*[-–—:]\s*(.*))?` is tried at every position,
  and the leftmost match wins. A line yields an entry exactly when the
  pattern occurs in it. The entry has a zero-padded `DD/MM` key and a label
  of the chosen category. Blank lines never matter, and lines are parsed
  independently in order.
- **Month grid** (`CalendarLayout`, `CalendarView`): which month and year
  an absolute month index denotes, the leading spacers, one cell per day in
  the column of its weekday, and the events filed under each day's key. It
  also covers the colour precedence of a cell. The render loops are proved
  equal to a declarative `MonthSpec`, and the screen state is a class whose
  handlers are specified field by field.
- **Printed year** (`CalendarPdf`): events are bucketed by month. Each
  month becomes rows of exactly seven cells, and the document is title,
  January–June, legend, page break, title, July–December, legend. A printed
  day shows the same events as the screen.
- **Lesson plan** (`LessonPlan`, `PlanExport`): the grade fields, the
  generation gate, the grade summary and the events inside the period,
  including the January roll-over. The export applies the bold and rule
  replacements, splits into lines and classifies each line. That transform
  works line by line.
- **API service** (`ApiService`): login matching with column fallbacks,
  trimming and case folding, the event read mapping, the batch write rows,
  and the result and error messages. Writing a batch and reading it back
  gives the batch's events.
- **Shell** (`App`): the three screens and their four transitions. There is
  no direct move between login and calendar, and the calendar cannot be
  reached without logging in.

JavaScript semantics the code relies on are written out in support
modules:

- `Text`: `trim` with JavaScript white space, `toUpperCase`/`toLowerCase`,
  `split`/`join`, `padStart` and `String(n)`.
- `JsNumber`: `Number(s)` and `parseInt(s)`, with `NaN` as `None`.
- `Gregorian`: `new Date(y, m, d)` with its month and day overflow, years
  0–99 read as 19xx, and `getDay()`.
- `Seqs`: `filter`, `find`, and chunking into weeks.

Network replies, the text generator's reply and the spreadsheet contents are
parameters. `alert` calls are represented by result tags.

## Model

| member | source | states |
|---|---|---|
| Text.Trim | services/apiService.ts:14-15 | the result is the slice of the input between its leading and trailing JavaScript white space; it is empty exactly when the input is all white space, and otherwise starts and ends with a non-space |
| Text.TrimPadded | components/CalendarView.tsx:88 | white space around a trimmed text is removed by `trim` and nothing else is |
| Text.TrimSurrounded | services/apiService.ts:14-15 | adding white space on either side of any string does not change its trimmed form |
| Text.TrimIdempotent | components/CalendarView.tsx:42 | trimming twice is trimming once |
| Text.ToUpper | services/apiService.ts:58 | same length; every lower-case letter becomes its capital, every other character is kept; no lower-case letter remains |
| Text.ToLower | services/apiService.ts:14 | same length; every capital becomes lower case, every other character is kept; no capital remains |
| Text.ToUpperIdempotent | components/CalendarView.tsx:42 | upper-casing twice is upper-casing once |
| Text.TrimToUpper | services/apiService.ts:14 | trimming and upper-casing commute |
| Text.LowerOfUpper | services/apiService.ts:14 | lower-casing after upper-casing is plain lower-casing |
| Text.JoinSplit | components/LessonPlanGenerator.tsx:161-174 | joining the pieces of a split with the separator gives the original text back |
| Text.SplitJoin | components/LessonPlanGenerator.tsx:180 | splitting a join of separator-free pieces gives the pieces back |
| Text.SplitCount | components/LessonPlanGenerator.tsx:161 | a split yields one more piece than there are separators |
| Text.DigitsValueOfNatToString | components/CalendarView.tsx:85 | `String(n)` is a digit string without a leading zero whose value is n |
| JsNumber.Number | components/LessonPlanGenerator.tsx:64 | blank text is 0; a trimmed digit string is its value; text not starting with a digit or sign is NaN |
| JsNumber.NumberOfNatToString | components/LessonPlanGenerator.tsx:64 | `Number(String(n))` is n |
| JsNumber.ParseInt | components/CalendarView.tsx:274 | text whose first non-space character is neither a digit nor a sign is NaN |
| ParseIntFacts.ParseIntNumeral | components/CalendarView.tsx:157 | after leading white space, a numeral is read up to the first non-digit, whatever follows |
| ParseIntFacts.ParseIntNegative | components/LessonPlanGenerator.tsx:245 | a minus sign before a numeral gives the negated value |
| Gregorian.DaysInMonth | components/CalendarView.tsx:76 | 28..31 days; February has 29 exactly in leap years; April, June, September and November have 30, the rest 31 |
| Gregorian.JsYear | components/CalendarView.tsx:76-77 | year arguments 0..99 become 1900..1999, other years are kept |
| Gregorian.LastDayOfMonth | components/CalendarView.tsx:76 | `new Date(y, m + 1, 0)` is the last day of month m, also across December |
| Gregorian.NextMonth | components/CalendarView.tsx:175 | day 1 of the next month is the month's length after day 1 of this one |
| Gregorian.WeekdayOffset | components/CalendarView.tsx:86 | `getDay` advances by one per day, modulo 7 |
| Gregorian.DayInYear | components/LessonPlanGenerator.tsx:100 | every real day of a month lies within its year |
| Seqs.FilterAppend | components/LessonPlanGenerator.tsx:97 | filtering distributes over concatenation, so order is kept |
| Seqs.FilterMembers | components/LessonPlanGenerator.tsx:97-102 | an element is kept exactly when it is in the input and satisfies the predicate |
| Seqs.FilterAll | components/CalendarView.tsx:34 | an all-true input is kept whole and an all-false input is emptied |
| Seqs.FindIndex | services/apiService.ts:18-22 | the index of the first element satisfying the predicate, with none before it; `None` exactly when no element satisfies it |
| Seqs.WeeksFull | components/CalendarView.tsx:195 | a multiple of seven cells splits into rows of exactly seven that concatenate back to the cells |
| Seqs.WeeksOfFlatten | components/CalendarView.tsx:195 | rows of seven are recovered from their concatenation |
| BatchParser.MatchAt | components/CalendarView.tsx:39 | a match at a position has one or two digits on each side of the slash, and the position holds a digit (the group values: `GroupsAt`) |
| BatchParserFacts.MatchAtIffDate | components/CalendarView.tsx:39 | the pattern matches at a position exactly when one or two digits, a '/' and a digit start there; the optional tail never makes it fail |
| BatchParserFacts.GroupsAt | components/CalendarView.tsx:39 | when the digits `d`, a '/' and the digits `mo` stand at a position, and a one-digit `mo` is not followed by another digit, the match there has day `d`, month `mo` and the trailing group read right after `mo` |
| BatchParser.FirstMatchFrom | components/CalendarView.tsx:39 | a date starts at the returned position and at no earlier one; `None` only when none starts anywhere |
| BatchParser.Trailing | components/CalendarView.tsx:39 | the captured trailing text holds no line terminator (its value: `TrailingAfterSeparator`, `TrailingSkipped`) |
| BatchParserFacts.TrailingAfterSeparator | components/CalendarView.tsx:39 | after optional white space, one of `-`, `–`, `—`, `:` and optional white space, the group captures the line from the first non-space character up to the first line terminator |
| BatchParserFacts.TrailingSkipped | components/CalendarView.tsx:39 | when the first non-space character after the date is not one of the separators, or the line ends first, the optional group is skipped |
| BatchParserFacts.MatchIffHasDate | components/CalendarView.tsx:39-40 | `line.match` succeeds exactly when the pattern matches at some position |
| BatchParserFacts.PaddedKey | components/CalendarView.tsx:41 | padding one or two digits on each side gives a canonical `DD/MM` key |
| BatchParserFacts.LabelShape | components/CalendarView.tsx:42-45 | the label is the category, or the category, " - " and a non-empty, trimmed, upper-case text |
| BatchParserFacts.EntryOfShape | components/CalendarView.tsx:39-46 | a line yields an entry exactly when the date pattern occurs in it; the entry's key is canonical and its label belongs to the category |
| BatchParserFacts.EntryAt | components/CalendarView.tsx:39-46 | for the leftmost date, with groups `d` and `mo`, the key is `d` and `mo` each padded to two digits with '0' and joined by '/', and the label is built from the category and the trailing group after `mo` |
| BatchParserFacts.NoRangeCheck | components/CalendarView.tsx:39-46 | "40/13" is kept as the key "40/13", labelled with the bare category: day and month are not range-checked |
| BatchParser.ParseLote | components/CalendarView.tsx:34-48 | the entries are those of the non-blank lines, in line order |
| BatchParser.ParseLinhas | components/CalendarView.tsx:37-48 | the loop pushes exactly the entries of the lines with a date, in order |
| BatchParserFacts.ParsedEntriesAppend | components/CalendarView.tsx:37-48 | entries of two runs of lines are the entries of each run, concatenated |
| BatchParserFacts.ParsedEntriesShape | components/CalendarView.tsx:37-48 | at most one entry per line, each with a canonical key and a label of the category |
| BatchParserFacts.BlankLineYieldsNothing | components/CalendarView.tsx:39 | a blank line holds no date and yields no entry |
| BatchParserFacts.BlankLinesIrrelevant | components/CalendarView.tsx:34 | dropping blank lines first does not change the entries |
| BatchParserFacts.BlankInputYieldsNothing | components/CalendarView.tsx:34-50 | blank input yields no entries, so the "no valid date" alert follows |
| BatchParserFacts.TrailingAfterDash | components/CalendarView.tsx:39 | after " - ", the optional group captures the rest of the line |
| BatchParserFacts.LabelOfTrimmed | components/CalendarView.tsx:42-45 | a non-blank trimmed text is appended upper-cased after " - " |
| BatchParserFacts.CarnavalExample | components/CalendarView.tsx:312 | "16/02 - Carnaval" under FERIADO yields key "16/02" and label "FERIADO - CARNAVAL" |
| CalendarLayout.TwoDigitsValue | components/CalendarView.tsx:85 | a number below 100 is padded to two digits that read back as the number |
| CalendarLayout.DayKeyFields | components/CalendarView.tsx:85 | a day key is two day digits, a slash and two digits of the 1-based month |
| CalendarLayout.DayKeyInjective | components/CalendarView.tsx:85 | different days have different keys |
| CalendarLayout.EventsOn | components/CalendarView.tsx:88 | every event kept has the trimmed date equal to the key |
| CalendarLayout.EventsOnAppend | components/CalendarView.tsx:88 | a day's events keep the order of the event list |
| CalendarLayout.EventsOnExact | components/CalendarView.tsx:88 | an event is on a day exactly when its trimmed date is the day's key |
| CalendarLayout.CaptionsDistinct | components/CalendarView.tsx:120 | a lone event is captioned "Informação"; on a busy day, different events get different captions |
| CalendarLayout.Tips | components/CalendarView.tsx:117-123 | one tooltip line per event, in order, with its caption and its text |
| CalendarLayout.ColourValue | components/CalendarView.tsx:96 | the palette colour when the token has a non-empty entry, else the token when it starts with '#', else none |
| CalendarLayout.CellLook | components/CalendarView.tsx:93-106 | a day with events takes the first event's colour, inline or as a class; otherwise Sunday and Saturday are tinted |
| CalendarLayout.MonthOf | components/CalendarView.tsx:74-75 | month index below 12, and 12 × (year − base) + month is the absolute index |
| CalendarLayout.FirstWeekday | components/CalendarView.tsx:77 | the number of leading spacers lies in 0..6 |
| CalendarLayout.MonthLength | components/CalendarView.tsx:76 | 28..31 days |
| GridFacts.MonthRollover | components/CalendarView.tsx:74-75 | the next absolute month is the next month of the same year, or January of the next year after December |
| GridFacts.DayColumn | components/CalendarView.tsx:77-86 | day d sits in the column of its own weekday |
| GridFacts.DayCellColumn | components/CalendarView.tsx:84-88 | the cell built from `getDay` is the cell built from the column |
| GridFacts.GridCellsShape | components/CalendarView.tsx:79-129 | first spacers, then day d at position first + d − 1 |
| GridFacts.MonthSpecSize | components/CalendarView.tsx:73-84 | month `abs % 12` of year `base + abs / 12`, with spacers plus days as cells |
| GridFacts.MonthSpecSpacers | components/CalendarView.tsx:80-82 | exactly the leading cells are spacers |
| GridFacts.MonthSpecDays | components/CalendarView.tsx:84-129 | each day's cell carries its key and exactly its events, in its weekday's column |
| GridFacts.January2026 | components/CalendarView.tsx:76-77 | January 2026 opens on a Thursday and has 31 days |
| GridFacts.February2026 | components/CalendarView.tsx:76-77 | February 2026 opens on a Sunday and has 28 days |
| GridFacts.TwoDigitYear | components/CalendarView.tsx:76-77 | year 26 is read as 1926 |
| CalendarPdf.PdfMonth | components/CalendarView.tsx:157 | a bucket index is below 12 |
| CalendarPdf.InMonth | components/CalendarView.tsx:156-159 | every event in a bucket names that bucket's month |
| CalendarPdf.BucketByMonth | components/CalendarView.tsx:155-159 | twelve buckets, bucket m holding the events of month m + 1 in list order |
| CalendarPdf.InMonthExact | components/CalendarView.tsx:156-159 | an event is in bucket m exactly when its date names month m + 1 |
| CalendarPdf.PdfMonthOfPieces | components/CalendarView.tsx:157 | a two-digit month piece after the slash selects its bucket |
| CalendarPdf.TrimmedKeyMonth | components/CalendarView.tsx:157 | a date reading `a/b` once trimmed is bucketed by b |
| CalendarPdf.KeyedEventMonth | components/CalendarView.tsx:157-196 | an event keyed to a day of month m falls in bucket m |
| CalendarPdf.BucketKeepsKey | components/CalendarView.tsx:198 | filtering the bucket loses no event of a key that only that month carries |
| CalendarPdf.BucketAgrees | components/CalendarView.tsx:88-198 | a printed day has the same events as the screen shows for it |
| CalendarPdf.PdfBackground | components/CalendarView.tsx:200 | first event's palette colour or token; otherwise green on Sunday, yellow on Saturday, white on weekdays |
| CalendarPdf.PdfText | components/CalendarView.tsx:201 | white text exactly when the day has events, black otherwise |
| CalendarPdf.TrailingPads | components/CalendarView.tsx:206-209 | fewer than seven pads, bringing the count to a multiple of seven |
| CalendarPdf.PdfCells | components/CalendarView.tsx:191-209 | the cell count is a multiple of seven |
| CalendarPdf.PdfCellsShape | components/CalendarView.tsx:191-209 | leading pads, day d at position pSem + d − 1, trailing pads |
| CalendarPdf.Notes | components/CalendarView.tsx:212 | one note per event of the bucket, in order, with its date and caption |
| CalendarPdf.PrintedDayColumn | components/CalendarView.tsx:197 | the printed cell built from `getDay` is the cell of its column |
| CalendarPdf.RenderMesPdf | components/CalendarView.tsx:174-216 | rows of exactly seven cells that concatenate to the month's cells, and the bucket's notes |
| CalendarPdf.LayOutRows | components/CalendarView.tsx:191-210 | the row-closing loops yield rows of seven whose concatenation is the expected cells |
| CalendarPdfFacts.PdfDayPosition | components/CalendarView.tsx:194-203 | day d of the printed month sits in its weekday's column |
| CalendarPdf.LegendLines | components/CalendarView.tsx:165-170 | one legend line per category, in order, with its label and its palette colour or token |
| CalendarPdf.MonthBlocks | components/CalendarView.tsx:222-229 | exactly twelve blocks, block k being month k (January..December) of the displayed year |
| CalendarPdf.RenderMonthBlock | components/CalendarView.tsx:222 | the block of month idx rendered from its bucket |
| CalendarPdf.ExportarPdf | components/CalendarView.tsx:155-230 | the document built by the loops is `PdfDocument` |
| CalendarPdf.PdfDocumentLayout | components/CalendarView.tsx:218-230 | 17 blocks: title, January–June, legend, page break, continuation title, July–December, the same legend |
| CalendarPdf.TwoPages | components/CalendarView.tsx:222-230 | where each part of the two-page document lands |
| CalendarPdf.MonthBlockRows | components/CalendarView.tsx:191-210 | every printed row has seven cells and the rows spell out the month |
| CalendarView.AnoDigitado | components/CalendarView.tsx:274 | never 0; NaN and a parsed 0 both give 2026, any other number is kept |
| CalendarView.AnoDigitadoRoundTrip | components/CalendarView.tsx:274 | a year typed as digits is shown; an empty or zero field gives 2026 |
| CalendarView.AlertsNeverBlank | components/CalendarView.tsx:54-58 | a non-empty batch never reports 0 items; the failure text is the message or the default, never empty |
| CalendarView.FillGrid | components/CalendarView.tsx:79-129 | the spacer and day loops produce exactly the expected cells |
| CalendarView.Calendar.constructor | components/CalendarView.tsx:14-21 | a full year from January 2026, no events, the modal closed and empty |
| CalendarView.Calendar.SetModo | components/CalendarView.tsx:252-256 | the mode becomes n and nothing else changes |
| CalendarView.Calendar.SetMesInicial | components/CalendarView.tsx:262-266 | the starting month becomes i and nothing else changes |
| CalendarView.Calendar.SetAno | components/CalendarView.tsx:271-277 | the year becomes `parseInt(value) || 2026` and nothing else changes |
| CalendarView.Calendar.LoadEventos | components/CalendarView.tsx:23-26 | the events become the fetched list and nothing else changes |
| CalendarView.Calendar.AbrirModal | components/CalendarView.tsx:62-65 | the modal opens for the clicked category, keeping the text |
| CalendarView.Calendar.SetLoteInput | components/CalendarView.tsx:314-316 | the text becomes the typed value and nothing else changes |
| CalendarView.Calendar.FecharModal | components/CalendarView.tsx:67-71 | the modal closes, its text is cleared and no category stays chosen |
| CalendarView.Calendar.HandleSalvarLote | components/CalendarView.tsx:32-60 | no category: nothing; no dated line: nothing is sent; otherwise the parsed entries and the category colour are sent, and the reply is the modelled `salvarLoteDatas` of the POST outcome; its success alert shows `created` or the entry count, its failure the service message; success reloads and closes, failure keeps the state |
| CalendarView.RenderMonth | components/CalendarView.tsx:73-144 | the rendered month equals `MonthSpec` |
| CalendarView.RenderMonths | components/CalendarView.tsx:288 | the months built one by one from `inicio` form exactly the window `Window` of `n` months |
| CalendarView.Calendar.RenderWindow | components/CalendarView.tsx:288 | the rendered months are the window of `modoAtual` months from `mesInicial` |
| GridFacts.WindowPlace | components/CalendarView.tsx:288 | the i-th month of the window is the month `inicio + i` counted from January of the chosen year |
| GridFacts.WindowConsecutive | components/CalendarView.tsx:288 | consecutive months of the window follow each other across the turn of the year |
| LessonPlan.GradeInput | components/LessonPlanGenerator.tsx:245 | the kept count is never negative, and NaN gives 0 |
| LessonPlanFacts.GradeInputRoundTrip | components/LessonPlanGenerator.tsx:245 | a count typed as digits is kept; a negative one becomes 0 |
| LessonPlan.SelectedDays | components/LessonPlanGenerator.tsx:86-87 | only days with a positive count, in strictly increasing key order |
| LessonPlan.SelectedDaysComplete | components/LessonPlanGenerator.tsx:86-87 | every day with a positive count is selected |
| LessonPlan.GradeItem | components/LessonPlanGenerator.tsx:88-90 | the summary entry of a day is never empty |
| LessonPlan.JoinEmpty | components/LessonPlanGenerator.tsx:91 | joining non-empty pieces is empty only for no pieces |
| LessonPlan.ResumoGradeContents | components/LessonPlanGenerator.tsx:86-91 | the summary lists exactly the selected days as "Label (n aulas)", Monday first, and is empty exactly when no day has lessons |
| LessonPlan.ParseLocalDate | components/LessonPlanGenerator.tsx:62-66 | a parsed date names a real day (month 0..11, day within the month) and never a year 0..99 |
| LessonPlanFacts.ParseLocalDateIso | components/LessonPlanGenerator.tsx:62-66 | a date field's value "Y-MM-DD" parses to year Y, month MM − 1 and day DD |
| LessonPlan.EventLines | components/LessonPlanGenerator.tsx:103 | one "data: legenda" line per event, in order |
| LessonPlan.EventosNoPeriodoSpec | components/LessonPlanGenerator.tsx:97-102 | an event is kept exactly when it falls in the period; appending an event appends it exactly when it falls in the period |
| LessonPlan.EventosTextoNenhum | components/LessonPlanGenerator.tsx:103-115 | the request reads "Nenhum." exactly when no event falls in the period |
| LessonPlan.JoinNotNenhum | components/LessonPlanGenerator.tsx:115 | a non-empty list of event lines never reads "Nenhum." |
| LessonPlanFacts.EventDayOfKey | components/LessonPlanGenerator.tsx:98-101 | an event keyed "DD/MM" is placed on day DD of month MM, with the January roll-over |
| LessonPlanFacts.JanuaryRollover | components/LessonPlanGenerator.tsx:99-102 | for 1 Nov 2026 – 28 Feb 2027, "15/01" is kept as January 2027 and "15/02" is dropped |
| LessonPlanForm.PlanGenerator.constructor | components/LessonPlanGenerator.tsx:13-32 | a bimonthly plan, every field empty, no events, all seven counts 0 |
| LessonPlanForm.PlanGenerator.Editar | components/LessonPlanGenerator.tsx:205-257 | exactly the edited field takes the typed value |
| LessonPlanForm.PlanGenerator.CarregarEventos | components/LessonPlanGenerator.tsx:46-56 | the events become the fetched list and nothing else changes |
| LessonPlanForm.PlanGenerator.UpdateGrade | components/LessonPlanGenerator.tsx:58-60 | one day's count is replaced and the other six are kept |
| LessonPlanForm.PlanGenerator.EditarGrade | components/LessonPlanGenerator.tsx:245 | the day's count becomes the clamped typed value and the grade stays non-negative |
| LessonPlanForm.PlanGenerator.PedidoAtual | components/LessonPlanGenerator.tsx:86-115 | the request carries the grade summary and the events line of the period |
| LessonPlanForm.PlanGenerator.Enviar | components/LessonPlanGenerator.tsx:76-138 | the plan is cleared while loading, then becomes the reply (or stays empty on failure), loading ends and the form is kept |
| LessonPlanForm.PlanGenerator.GerarPlano | components/LessonPlanGenerator.tsx:68-139 | blocked unless the five fields are filled and some day has lessons; otherwise the request goes out with a non-empty grade summary, the plan becomes the reply or "", and loading ends |
| PlanExport.Rule | components/LessonPlanGenerator.tsx:160 | the separator is 40 characters without a line break |
| PlanExport.CloseBold | components/LessonPlanGenerator.tsx:159 | the lazy group closes at the first `**` reached before any line terminator; none when every `**` lies past one |
| PlanExport.Classify | components/LessonPlanGenerator.tsx:162-173 | the first test in order that the trimmed line passes decides its kind, each kind exactly when its test passes and every earlier one fails: a date start gives a heading; '•' or '*' a bullet; "Tema:" a topic; a line passing none is plain |
| PlanExport.MapClassify | components/LessonPlanGenerator.tsx:162-173 | one block per line, in order |
| PlanExport.Reverse | components/LessonPlanGenerator.tsx:180 | same length, elements in opposite order |
| PlanExport.ExportarPdf | components/LessonPlanGenerator.tsx:141-189 | the body is the blocks of the plan, and the dates are shown day first |
| PlanExportFacts.CloseBoldLocal | components/LessonPlanGenerator.tsx:159 | a closing `**` is found at the same place when more lines follow |
| PlanExportFacts.ReplaceBoldLines | components/LessonPlanGenerator.tsx:159 | the bold replacement works line by line |
| PlanExportFacts.ReplaceRuleLines | components/LessonPlanGenerator.tsx:160 | the separator replacement works line by line |
| PlanExportFacts.ReplaceBoldNoBreak | components/LessonPlanGenerator.tsx:159 | the bold replacement adds no line break to a line |
| PlanExportFacts.ReplaceRuleNoBreak | components/LessonPlanGenerator.tsx:160 | the separator replacement adds no line break to a line |
| PlanExportFacts.MarkupByLine | components/LessonPlanGenerator.tsx:158-161 | splitting the marked-up plan gives the marked-up lines of the plan |
| PlanExport.MapMarkup | components/LessonPlanGenerator.tsx:158-161 | one marked-up line per line, in order |
| PlanExportFacts.ExportLineByLine | components/LessonPlanGenerator.tsx:158-174 | one block per line of the plan (line breaks + 1), block k being line k marked up and classified |
| PlanExportFacts.ReplaceBoldIdentity | components/LessonPlanGenerator.tsx:159 | text without '*' is left alone |
| PlanExportFacts.ReplaceRuleIdentity | components/LessonPlanGenerator.tsx:160 | text without '_' is left alone |
| PlanExportFacts.BoldRun | components/LessonPlanGenerator.tsx:159 | a starred run on one line becomes a bold run |
| PlanExportFacts.RuleBecomesMark | components/LessonPlanGenerator.tsx:160 | the 40-underscore separator becomes the rule mark |
| PlanExportFacts.ClassifyIgnoresIndent | components/LessonPlanGenerator.tsx:163-169 | indentation does not change a line's kind |
| PlanExportFacts.TaggedLineIsPlain | components/LessonPlanGenerator.tsx:163-172 | a line opening with a tag is plain |
| PlanExportFacts.BoldHeadingIsPlain | components/LessonPlanGenerator.tsx:121-163 | any date heading wrapped in bold markers loses its heading style and is classified plain |
| PlanExportFacts.BoldDateIsPlain | components/LessonPlanGenerator.tsx:121-163 | "16/02" is a heading, but the bold "**16/02**" the prompt asks for is classified plain |
| PlanExportFacts.DisplayDateIso | components/LessonPlanGenerator.tsx:180 | "Y-M-D" is shown as "D/M/Y" |
| ApiService.AutenticarUsuario | services/apiService.ts:7-31 | with the sheet read, success exactly when some row matches, otherwise the credentials error; a non-OK reply or thrown error gives the authentication prefix and its message |
| ApiService.LoginIgnoresPadding | services/apiService.ts:14-21 | white space around the typed e-mail or password does not change the outcome |
| ApiService.LoginIgnoresEmailCase | services/apiService.ts:14-21 | typing the e-mail in capitals does not change the outcome |
| ApiService.LoginFallsBackToLowerCaseColumn | services/apiService.ts:19 | with `Email` blank or missing, the `email` column is used |
| ApiService.PasswordIsCaseSensitive | services/apiService.ts:15-21 | a password with a lower-case letter is rejected in capitals |
| ApiService.RowToEvento | services/apiService.ts:41-45 | each field is the capitalised column when non-empty, else the lower-case column |
| ApiService.MapRows | services/apiService.ts:41-45 | one event per row, in row order |
| ApiService.BuscarDadosCalendario | services/apiService.ts:33-50 | with the sheet read, one event per row in order; on any failure the empty list |
| ApiService.MapRowsAppend | services/apiService.ts:41-45 | reading two runs of rows concatenates their events |
| ApiService.BuildRow | services/apiService.ts:55-59 | a row has exactly the columns Data, Cor and Legenda: the date, the batch colour and the name in capitals |
| ApiService.BuildRows | services/apiService.ts:55-59 | one row per entry, in order |
| ApiService.SalvarLoteDatas | services/apiService.ts:52-78 | success exactly on an OK reply, counting `created` when truthy and else the rows; a failure carries the saving prefix and its message |
| ApiService.RowRoundTrip | services/apiService.ts:42-59 | a written row reads back as its entry with the batch colour and the name in capitals |
| ApiService.SaveThenLoad | services/apiService.ts:33-59 | writing a batch and reading it back gives its events in order |
| App.Shown | App.tsx:15-31 | exactly one page is mounted, the one of the current screen |
| App.Trace | App.tsx:11-30 | the screens of a run start at the first screen and follow each action's step |
| App.Shell.constructor | App.tsx:9 | the first screen is the login page |
| App.Shell.NavigateTo | App.tsx:11-13 | the screen becomes the requested one |
| App.Shell.OnLoginSuccess | App.tsx:17-19 | the login page leads to the dashboard |
| App.Shell.OnSair | App.tsx:21-23 | the dashboard leads back to the login page |
| App.Shell.OnAbrirCalendario | App.tsx:21-24 | the dashboard leads to the calendar |
| App.Shell.OnVoltar | App.tsx:28-30 | the calendar leads back to the dashboard |
| App.Shell.Dispatch | App.tsx:17-30 | an action moves the screen only when the mounted page offers it |
| App.Shell.Run | App.tsx:17-30 | a run of actions ends on the last screen of its trace |
| App.Transitions | App.tsx:17-30 | the screen changes exactly when the mounted page offers the action, and each transition has exactly one trigger |
| App.NoDirectLoginCalendar | App.tsx:17-30 | no action leads directly from login to calendar or back |
| App.CalendarThroughDashboard | App.tsx:21-30 | in any run, the calendar is only entered from and left to the dashboard |
| App.FirstArrival | App.tsx:11-30 | a run that reaches a new screen has a first action that moves onto it |
| App.CalendarNeedsLogin | App.tsx:17-30 | from the login page, every run ending on the calendar holds a login success and, later, the action that opens it |

## Left out

- The PDF and DOM work is not modelled: `html2pdf`, `document.createElement`, inline styles, page options and file saving. Documents are kept as structured values (rows of cells, blocks with a kind).
- The HTTP calls to SheetDB and the calls to the text generator are not modelled. Their outcomes are parameters, and `console.error` is left out.
- React itself is left out: hooks, effects, re-renders, and the race between overlapping loads. The reload after a save, which the source does not await, is an argument of `HandleSalvarLote`.
- `alert` calls appear as result tags, not as effects.
- components/Login.tsx and components/Dashboard.tsx are not part of this model. The login page's only rule is an empty-field check. Only its sign-in call, `autenticarUsuario` (components/Login.tsx:30), reaches the service modelled here. Its sign-up call, `cadastrarUsuario` (components/Login.tsx:21), names a function that services/apiService.ts does not define, so it is not part of this model.
- The constants file is not part of this model. The colour palette and the legend categories are parameters.
- The prompt text sent to the generator is modelled as the structured `LessonPlan.Pedido` holding its computed parts (grade summary, events line), not as one string.
- Text.ToUpper: upper-cases ASCII and Latin-1 letters only. JavaScript also folds letters of other scripts and expands 'ß'.
- Text.ToLower: lower-cases ASCII and Latin-1 capitals only. JavaScript also lower-cases capitals of other scripts, and turns 'İ' into two characters, so the result can be longer than the input.
- Text.LowerOfUpper: holds for the ASCII and Latin-1 casing modelled here, not for JavaScript's full casing. There 'ß' upper-cases to "SS" and lower-cases back to "ss", and 'µ' upper-cases to 'Μ' and lower-cases to 'μ', so lower-casing after upper-casing differs from plain lower-casing.
- ApiService.LoginIgnoresEmailCase: rests on Text.LowerOfUpper, so it holds only for the casing modelled here. An e-mail containing 'ß' or 'µ' typed in capitals can fail to sign in under JavaScript's casing.
- JsNumber.Number: reads signed decimal integers only. Fractions, exponents, hexadecimal, `Infinity` and the other forms JavaScript accepts are read as NaN.
- JsNumber.ParseInt: reads decimal and `0x` numerals without a radix argument, as the source calls it, with unbounded precision.
- LessonPlan.ParseLocalDate: returns `None` for pieces that do not name a real day. JavaScript would instead normalise them (30 February becomes 2 March); date fields only produce real days. `parseLocalDate('')` returns the current clock time, which is excluded: generation is blocked first when a date is empty.
- ApiService.RowToEvento: a field reads as "" where JavaScript gives `undefined`: when its capitalised column (`Data`, `Cor`, `Legenda`) is empty or missing and its lower-case column is missing. An empty cell is how SheetDB sends a blank, so this happens for a row with a blank `Data` cell. The source then fails where the model goes on:
  - the calendar's day filter calls `trim` on `undefined` (components/CalendarView.tsx:88), so the calendar screen throws during render;
  - a first event of a day with `cor` undefined throws at `startsWith` (components/CalendarView.tsx:96), unless `undefined` is a palette key;
  - the PDF export throws at `split` (components/CalendarView.tsx:157);
  - the lesson-plan generator throws at `split` (components/LessonPlanGenerator.tsx:98) inside its `try`, so generation ends in the error alert;
  - an undefined `legenda` prints as the text "undefined" (components/CalendarView.tsx:122 and :212, components/LessonPlanGenerator.tsx:103).
- ApiService.AutenticarUsuario: cells are text. A JSON number in a cell, which `.toString()` would turn into text, is not represented, nor is a non-array reply to the user query.
- CalendarPdf.RenderMesPdf: the table is built from structured cells, not from a growing HTML string.
- Dates are day numbers in the proleptic Gregorian calendar. Time of day, time zones and `Date` objects are not represented.
- CalendarLayout.FirstWeekday: gives a weekday for every year, while JavaScript's `getDay()` is NaN outside the `Date` range (about the years −271821 to 275760), so no spacers are drawn there.
- CalendarLayout.MonthLength: gives 28 to 31 for every year, while a JavaScript `Date` only covers about the years −271821 to 275760. The year field's `min`/`max` are not enforced while typing, so `parseInt(...) || 2026` (components/CalendarView.tsx:274) keeps a year such as 300000. There `new Date(...)` is an Invalid Date, and `getDate()`/`getDay()` give NaN. The spacer and day loops (components/CalendarView.tsx:80, :84) then run zero times, and the month is drawn empty. The model's `MonthSpec` draws a full month of 28 to 31 days instead.
- CalendarPdf.MonthPdfCells: for the same years, the PDF loops (components/CalendarView.tsx:175-176, :191-194) print no days, while the model prints the full month.
