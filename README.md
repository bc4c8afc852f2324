# A verified model of the Sinapsi survey application

The application runs a student questionnaire and its results dashboard. A student enters an
institutional e-mail address on an entry page. The page checks the address's syntax and asks
the server whether the address was already used. It then registers the address and lets the
student into a four-block Likert questionnaire. The questionnaire submits the whole answers map
in one request. Researchers see per-question counts of the four options ("Discordo
Totalmente", "Discordo", "Concordo", "Concordo Totalmente"), filtered by period. They can also
see overall and per-question pie data and download the data as CSV or as a spreadsheet.

This project models, in Dafny:

- the results page's data side: label shortening, the period filter, the counting loop, the chart
  data, the chart height, the period list and the per-period counters;
- the analysis panel: its CSV export, its raw and analysis export rows, and its aggregated and
  per-question pie data;
- the spreadsheet export helpers: column widths, raw rows, and analysis rows with a Total column;
- the cache-key builder;
- the questionnaire page, as a class whose methods update its state;
- the entry page: the e-mail validator, the choice of error message, and the check → register →
  authenticate sequence;
- the API routes over an abstract store: check-email, the two registration routes, the two
  submission routes, the reset route and the responses listing.

JavaScript objects are ordered association lists, `Obj<V>`. Assignment replaces an existing key
in place and appends a new one. Object spread and `reduce`-built objects are folds of that
assignment. Answers are strings. `Number.parseInt` takes an optional sign and the longest digit
prefix, and `None` stands for `NaN`. The default `sort` is the lexicographic order on
characters.

The store has two tables, `used_emails` and `survey_responses`, held by the `Database` class.
Several things are parameters of the routes rather than part of the store:

- store-assigned ids and timestamps;
- store failures other than the uniqueness violation;
- bcrypt's salted hash and its comparison.

The date formatting `toLocaleString("pt-BR")` is a parameter too. Network replies seen by the
pages (check, register, submit) are parameters of the page methods.

## Model

| member | source | states |
|---|---|---|
| Results.FormatQuestionText | app/results/page.tsx:100-105 | a label no longer than maxLength is returned unchanged; a longer one becomes its first maxLength characters followed by "...", maxLength + 3 characters in all |
| Results.FormatQuestionTextIdempotent | app/results/page.tsx:100-105 | shortening an already shortened label changes nothing |
| Results.CountOptions | app/results/page.tsx:233-243 | the counts loop yields, for each option v in 1..4, the number of responses whose answer to the question parses to v |
| Results.TallyOfOne | app/results/page.tsx:237-242 | one response adds one to the slot of its parsed value when that value is 1..4, and nothing otherwise (missing, unparsable, 0, 5, negative) |
| Results.TallyAppend | app/results/page.tsx:236-243 | the counts over two lists of responses are the sums of the counts over each list |
| Results.TallyBound | app/results/page.tsx:236-243 | each response counts at most once, so the four counts of a question sum to at most the number of responses |
| Results.RadioAnswerCounted | app/results/page.tsx:238-241 | an answer written as the decimal string of v in 1..4 parses to v and is counted in option v only |
| Results.UnansweredCountsNothing | app/results/page.tsx:238-239 | responses without an answer to the question (they default to "0") leave all four counts at zero |
| Results.SurveyFormAnswersNeverCounted | app/results/page.tsx:43-97 | answers keyed by the questionnaire's ids ("01".."25") are never counted under any results question id ("q1".."q26"): every count is zero |
| Results.KeepPeriodSpec | app/results/page.tsx:226 | the period filter keeps every response whose period equals the filter, as many times as it occurs, and no other |
| Results.FilterByPeriodSpec | app/results/page.tsx:226 | the filter "all" returns the responses unchanged; any other filter keeps exactly the matching responses with their multiplicity, never more responses than given |
| Results.MissingPeriodOnlyInAll | app/results/page.tsx:189 | a response without a period is labelled "Não informado" yet no filter other than "all" keeps it, not even "Não informado" |
| Results.ChartRowsOfBlock | app/results/page.tsx:232-258 | one chart row per question of the block, in catalog order, each with the question's text, shortened label, id, number and counts |
| Results.BlockRowsBounded | app/results/page.tsx:233-243 | every chart row's four counts sum to at most the number of filtered responses |
| Results.ProcessChartData | app/results/page.tsx:224-264 | the chart data has one entry per block id in catalog order ("bloco1".."bloco4"); each entry holds the rows of that block over the period-filtered responses, with label length 20, 40 or 60 by screen size; every row's counts sum to at most the number of filtered responses |
| Results.QuestionCountUnknown | app/results/page.tsx:389 | a block id missing from the catalog counts as zero questions |
| Results.ChartHeightSpec | app/results/page.tsx:388-401 | the height is max(400, 60 per question) on mobile, max(500, 50 per question) on small screens and 700 otherwise; an unknown block gets 400 / 500 / 700 |
| Results.AvailablePeriodsSpec | app/results/page.tsx:188-191 | the period list is strictly sorted (so without duplicates) and holds exactly the responses' labels, each either "Não informado" or some response's period |
| Results.PeriodCounts | app/results/page.tsx:196-200 | one counter per distinct label, in first-occurrence order; each counter equals the label's number of occurrences and is at least 1; the counters sum to the number of responses |
| Strings.SortStringsCorrect | app/results/page.tsx:191 | the default sort returns an ordered permutation of its input |
| Strings.Dedup | app/results/page.tsx:190 | the first-occurrence filter leaves no duplicates and keeps every value |
| Strings.ParseIntOfNatToString | app/results/page.tsx:239 | parsing the decimal string of n gives back n |
| JsObject.IncrementSum | app/results/page.tsx:199 | incrementing a counter (created at 1 when absent) raises the sum of the counters by exactly one |
| JsObject.AssignGet | components/advanced-analysis.tsx:60-67 | after assigning the fields of a source in order, a key holds the source's last value for it if any, and its old value otherwise |
| Catalog.ResultsBlockIds | app/results/page.tsx:43-97 | the block ids in catalog order, one per block |
| Catalog.ResultsCatalogShape | app/results/page.tsx:43-97 | the results catalog has blocks "bloco1".."bloco4" with 6, 5, 9 and 6 questions |
| Catalog.ResultsIdsStartWithQ | app/results/page.tsx:43-97 | every results question id is "q" followed by at least one character |
| Catalog.SurveyIdsAreDigits | app/survey/page.tsx:13-59 | every questionnaire id is two characters starting with a digit |
| Catalog.SurveyCatalogShape | app/survey/page.tsx:13-59 | the questionnaire has four blocks of 10, 5, 5 and 5 questions |
| AdvancedAnalysis.ExportToExcel | components/advanced-analysis.tsx:23-47 | an empty list fails (the caught error shows the toast) and nothing else does; otherwise the file "<name>.csv" holds the header line and one value line per row |
| AdvancedAnalysis.CsvAsWrittenLines | components/advanced-analysis.tsx:26-28 | with no line break in keys or cells, the CSV splits back into the header line followed by exactly one line per row |
| AdvancedAnalysis.ValueLineFields | components/advanced-analysis.tsx:27 | when no cell holds a comma, a value line splits back into exactly the row's cells |
| AdvancedAnalysis.CommaInCellAddsField | components/advanced-analysis.tsx:27 | a cell holding a comma makes its line split into more fields than the row has columns |
| AdvancedAnalysis.AnalysisCsvCounterexample | components/advanced-analysis.tsx:26-28 | the analysis row of question q3 has seven columns, but its CSV line reads back as at least eight fields |
| AdvancedAnalysis.QuotedCsvShape | components/advanced-analysis.tsx:26-28 | with every field quoted, a CSV reader sees one line break per row after the header and, in each line, one comma fewer than its number of columns, whatever the cells hold |
| AdvancedAnalysis.AnswerColumns | components/advanced-analysis.tsx:60-66 | each answer entry becomes the column "Questão " + its key without the first character, holding the answer, in entry order |
| AdvancedAnalysis.PrepareDataForExcel | components/advanced-analysis.tsx:50-69 | one raw row per response, in response order |
| AdvancedAnalysis.QuestionColumnIsNotFixed | components/advanced-analysis.tsx:56-64 | no answer column is named "ID", "Período" or "Data de Criação" |
| AdvancedAnalysis.FixedColumnKept | components/advanced-analysis.tsx:56-67 | the spread of answer columns never overwrites a fixed column |
| AdvancedAnalysis.AnswerColumnKept | components/advanced-analysis.tsx:60-67 | the column of an answer key exists and holds the last answer renamed to that column |
| AdvancedAnalysis.RawRowSpec | components/advanced-analysis.tsx:50-69 | a raw row starts with ID, Período and Data de Criação (id, period or an empty cell, formatted date); every answer key has its column; without an answers map there are no other columns |
| AdvancedAnalysis.RawRowAnswer | components/advanced-analysis.tsx:60-67 | when no two answer keys map to one column, each answer's column holds that answer |
| AdvancedAnalysis.BlockLabelSpec | components/advanced-analysis.tsx:78 | a block id "bloco" + s is exported as "Bloco " + s |
| AdvancedAnalysis.PrepareAnalysisForExcel | components/advanced-analysis.tsx:72-90 | the analysis rows of every block in entry order, one per question in block order |
| AdvancedAnalysis.AnalysisRowAt | components/advanced-analysis.tsx:75-87 | question j of block b is row Offset(b) + j, with the block label, the question's number and text, and its four counts copied unchanged |
| AdvancedAnalysis.AddBlock | components/advanced-analysis.tsx:117-124 | adding one block's questions adds their counts, option by option, to the running totals |
| AdvancedAnalysis.ProcessAggregatedData | components/advanced-analysis.tsx:108-130 | the pie data is the four option totals over every question of every block, in fixed option order |
| AdvancedAnalysis.AggregateBound | components/advanced-analysis.tsx:108-130 | when every question's counts sum to at most n, the four totals together are at most n times the number of questions |
| AdvancedAnalysis.QuestionEntries | components/advanced-analysis.tsx:132-152 | one pie entry per question, each made of four slices in fixed option order |
| AdvancedAnalysis.AddBlockEntries | components/advanced-analysis.tsx:137-148 | assigning one block's entries continues the in-order assignment of all entries so far |
| AdvancedAnalysis.ProcessQuestionData | components/advanced-analysis.tsx:132-152 | each key "<block>-q<number>" holds the pie data of the last question with that key, always four slices; with distinct keys the result is exactly the list of entries |
| AdvancedAnalysis.QuestionDataSpec | components/advanced-analysis.tsx:147-148 | assigning entries in order: each key holds its last entry's value, and with distinct keys nothing is overwritten |
| AdvancedAnalysis.AnalysisPanel.constructor | components/advanced-analysis.tsx:98-99 | both pies start empty |
| AdvancedAnalysis.AnalysisPanel.Refresh | components/advanced-analysis.tsx:101-106 | with responses and chart data both non-empty, both pies are recomputed; otherwise both are left as they were |
| ExportUtils.MaxKeyLength | lib/export-utils.ts:33-35 | the fold's result is at least its start, at least every key's length, and equal to the start or to some key's length |
| ExportUtils.ColumnWidth | lib/export-utils.ts:33-35 | the width is at least 10, fits every key of the first row, and is 10 or the longest key's length; with no rows it is 10 |
| ExportUtils.ColumnWidths | lib/export-utils.ts:37 | one width per key of the first row, all equal to the column width; none for an empty list |
| ExportUtils.ExportToExcel | lib/export-utils.ts:26-45 | the workbook is "<name>.xlsx" with the single sheet "Respostas" holding the rows unchanged, and the column widths above |
| ExportUtils.PrepareDataForExcel | lib/export-utils.ts:48-71 | one raw row per response, in response order |
| ExportUtils.SameRawRowsAsPanel | lib/export-utils.ts:48-71 | on answers maps with distinct keys, these raw rows equal the analysis panel's raw rows |
| ExportUtils.NoAnswersNoColumns | lib/export-utils.ts:54-68 | a response without an answers map gives only the three fixed columns |
| ExportUtils.PushBlockRows | lib/export-utils.ts:80-95 | one row per question of the block is appended, each with its Total |
| ExportUtils.PrepareAnalysisForExcel | lib/export-utils.ts:74-99 | the rows are the analysis panel's rows, in the same order, each followed by a Total column |
| ExportUtils.AnalysisRowsWithTotal | lib/export-utils.ts:81-94 | there is one row per question; each row starts with the panel's seven columns, and its eighth column "Total" is the sum of the four option counts |
| CacheKey.GenerateCacheKey | lib/cache.ts:30-37 | the key always starts with the prefix; without parameters it is the prefix; with an empty parameter object it is the prefix and ":" |
| CacheKey.SortedKeysSpec | lib/cache.ts:32-33 | the sorted parameter names are strictly increasing and are exactly the object's keys |
| CacheKey.CacheKeyShape | lib/cache.ts:30-37 | with parameters, the key is the prefix, ":" and one "name:value" segment per parameter, names strictly increasing, joined by "|" |
| CacheKey.CacheKeyIgnoresInsertionOrder | lib/cache.ts:32-35 | two parameter objects with the same entries give the same key, whatever their insertion order |
| SurveyPage.BlockComplete | app/survey/page.tsx:86-89 | a block is complete iff every one of its questions has a non-empty answer |
| SurveyPage.AnswerKeepsComplete | app/survey/page.tsx:82-89 | recording a non-empty answer never makes a complete block incomplete |
| SurveyPage.AnswerCompletes | app/survey/page.tsx:82-89 | answering the only unanswered question of a block completes it |
| SurveyPage.SurveyPage.constructor | app/survey/page.tsx:63-80 | no answers, first block, not submitting; a session whose "studentAuthenticated" is not "true" is sent back to the entry page |
| SurveyPage.SurveyPage.HandleResponseChange | app/survey/page.tsx:82-84 | the question's answer becomes the value, every other answer and all other state are unchanged |
| SurveyPage.SurveyPage.HandleNext | app/survey/page.tsx:91-153 | an incomplete block only adds the "answer all questions" toast; a complete block before the last moves forward one block; the complete last block posts the session's period (or "Não informado") and all answers; on success the success toast is shown and both session keys are removed; on failure the error toast is shown and submitting is reset |
| SurveyPage.SurveyPage.HandlePrevious | app/survey/page.tsx:155-160 | moves back one block, never before the first; nothing else changes |
| StudentAuth.ValidateEmail | app/student-auth/page.tsx:22-25 | accepts exactly the strings matching `[a-zA-Z0-9._%+-]+@[a-zA-Z0-9.-]+\.[a-zA-Z]{2,}` as a whole |
| StudentAuth.ValidateEmailComplete | app/student-auth/page.tsx:22-25 | every match places the "@" at the first "@" and the dot at the last dot of the string |
| StudentAuth.EmailError | app/student-auth/page.tsx:33-44 | an empty e-mail gives the "missing" message, a non-empty invalid one the "invalid" message, a valid one no error; the period is never checked |
| StudentAuth.StudentAuthPage.constructor | app/student-auth/page.tsx:16-20 | empty errors, not submitting, nothing sent |
| StudentAuth.StudentAuthPage.HandleSubmit | app/student-auth/page.tsx:27-112 | a validation error returns before any request; the check is sent first; a failed check request or `isUsed` shows its toast and never calls register; a check body without `isUsed` (an error body) still goes on to register; only an ok register reply sets "studentAuthenticated" to "true" and redirects; failures show the server message or the default and reset submitting |
| StudentAuth.SessionHoldsOnlyTheFlag | app/student-auth/page.tsx:97-99 | the only session key the page writes is the authentication flag, so neither the e-mail nor the period is stored |
| Store.RowsWithId | app/api/admin/reset/route.ts:11 | the rows left by `neq("id", id)` are exactly those whose id equals id |
| Store.Database.InsertEmail | app/api/register-email/route.ts:19-23 | a store failure or (under the constraint) an existing value leaves the table unchanged, the latter reported as "23505"; otherwise exactly one row is appended; survey_responses is untouched |
| Store.Database.InsertResponse | app/api/submit-survey/route.ts:21-24 | exactly one row is appended, or none on a failure; used_emails is untouched |
| Store.Database.DeleteEmailsWhereIdNot | app/api/admin/reset/route.ts:11 | every used_emails row with another id is removed, or nothing on a failure; survey_responses is untouched |
| EmailRoutes.MatchCount | app/api/check-email/route.ts:15-19 | the number of rows holding the value is positive iff the value is stored, and at most one when values are distinct |
| EmailRoutes.CheckEmail | app/api/check-email/route.ts:4-34 | 400 iff the e-mail is missing or empty; every non-200 reply is an error body, so a failure is never reported as `isUsed: false`; a 200 verdict's `isUsed` holds iff the lowercased e-mail is stored verbatim, with "Email já utilizado" / "Email disponível" to match; with distinct values and a healthy store the reply is 200 |
| EmailRoutes.CheckEmailCaseInsensitive | app/api/check-email/route.ts:15-19 | two e-mails with the same lowercase form get the same reply |
| EmailRoutes.RegisterEmail | app/api/register-email/route.ts:5-57 | 400 for a missing e-mail, with nothing inserted; otherwise the salted hash of the lowercased e-mail, never the e-mail, is inserted; "23505" gives 409, any other error 500, both with nothing inserted; success gives 201 with exactly one row added to used_emails only |
| EmailRoutes.RegisterLowercased | app/api/emails/register/route.ts:4-53 | 400 for a missing e-mail; otherwise the lowercased e-mail is inserted; "23505" gives 409, any other error 500, success the default 200 with exactly one row added |
| EmailRoutes.RegisterLowercasedTwice | app/api/emails/register/route.ts:15-27 | under the constraint, registering then checking says "used", and registering the same e-mail again in any letter case gives 409 |
| EmailRoutes.ValidEmailHasNoDollar | app/student-auth/page.tsx:22-25 | an address the entry page accepts contains no "$" |
| EmailRoutes.HashedRowsNeverMatch | app/api/check-email/route.ts:15-19 | against a table of bcrypt hashes, an e-mail without "$" is always reported available |
| EmailRoutes.RegisterTwiceAsWritten | app/api/register-email/route.ts:16-19 | an address the entry page accepts registers successfully twice (two salted hashes), and check-email still reports it available |
| EmailRoutes.CheckEmailByHash | lib/utils/email-crypto.ts:15-20 | the corrected check: 400 for a missing e-mail, 500 on a store failure, otherwise `isUsed` iff some stored hash matches the lowercased e-mail |
| EmailRoutes.RegisterThenCheckByHash | lib/utils/email-crypto.ts:7-20 | with the corrected check, registering an e-mail and then checking it says "used", provided bcrypt accepts an e-mail against its own hash |
| SurveyRoutes.SubmitSurvey | app/api/submit-survey/route.ts:4-51 | a missing or empty period, or a missing answers map, gives 400 with nothing inserted; a store error gives 500 with "Erro ao salvar resposta: " and the store message; success appends exactly one row holding the period and the answers unchanged (not validated) and leaves used_emails untouched; app/api/survey/submit/route.ts:4-51 is the same route on the admin client |
| SurveyRoutes.AdminReset | app/api/admin/reset/route.ts:4-47 | "emails" deletes every used_emails row except one with the nil UUID, replying 200, or 500 with nothing deleted on a failure; any other reset type, "all" included, gives 400 and deletes nothing; survey_responses is never touched |
| SurveyRoutes.OrderByCreatedDesc | app/api/survey/responses/route.ts:9-12 | the responses, newest first, as a permutation of the table |
| SurveyRoutes.ListResponses | app/api/survey/responses/route.ts:4-35 | a failing responses query gives 500 before the count; a failing count gives 500; otherwise 200 with every response exactly once, newest first, and the exact number of used_emails rows |
| SurveyRoutes.SubmitThenList | app/api/submit-survey/route.ts:21-24 | after a successful submission the listing holds the new row, one more response than before, and the same e-mail count |

## Left out

- `Number.parseInt`: leading whitespace and other radix prefixes are not modelled. An answer is a string parsed as an optional sign followed by its longest digit prefix.
- Property order: JavaScript enumerates integer-like keys (such as "3") first. The model keeps insertion order for every key.
- String order and case: comparison and the default `sort` are on characters, not UTF-16 code units. `toLowerCase` maps only A–Z. `substring(1)` is taken on characters.
- Date formatting: `new Date(created_at).toLocaleString("pt-BR")` is the parameter `formatDate`. Timestamps are integers.
- Chart rendering is not modelled: charts, pie label geometry (floating point), toasts' styling and the export handlers' try/catch around rendering.
- The xlsx file itself (`json_to_sheet`, `writeFile`) is not serialised. The workbook is described by its name, sheet, rows and widths.
- bcrypt is modelled only by its effects. `bcrypt.hash` is a function parameter standing for one call's salted hash. `bcrypt.compare` is a parameter too. A failure inside bcrypt (which lands in the route's `catch`) is not modelled.
- Request bodies are typed. A value of the wrong JSON type, such as a number where `toLowerCase` is called, is not modelled, and neither is a falsy non-string `period`.
- Network and concurrency are not modelled. Each page method receives the reply of its request. The check-then-register race between two requests is not modelled.
- Client factories and environment are not modelled: the Supabase clients and the `getSupabaseAdmin` failure when variables are missing. The abstract store stands for the database.
- SurveyRoutes.ListResponses: the store's `null` data and `null` count, turned into `[]` and `0` by the route, are not modelled. The abstract store always answers a successful query with a list and a count.
- SurveyRoutes.OrderByCreatedDesc: rows with equal `created_at` come in one fixed order. The database gives no order for them, and the contract states none.
- The `|| 0` defaults in `processAggregatedData` and `processQuestionData` are not modelled. The chart rows are typed, so a count is never missing.
- Answer values are strings, as sent by the questionnaire. Other JSON values in the answers maps are not modelled.
- The page's loading flags, the researcher login and the cache's node-cache wrappers are not part of this model.

## Findings

| source | as written | input that shows it | evidently intended | confidence | as-written member | corrected member |
|---|---|---|---|---|---|---|
| app/api/check-email/route.ts:15-19 | check-email looks up the lowercased e-mail verbatim, while app/api/register-email/route.ts:16-19 stores only a salted bcrypt hash. The lookup never finds a registered address, and each registration's fresh salt defeats the uniqueness constraint. | register "aluno@uni.br" through /api/register-email twice: both give 201, and /api/check-email keeps answering `isUsed: false` | each address answers the questionnaire once: the check compares the e-mail against the stored hashes (`compareEmailWithHash`) | high (not executed) | EmailRoutes.RegisterTwiceAsWritten | EmailRoutes.RegisterThenCheckByHash |
| components/advanced-analysis.tsx:26-28 | the CSV joins keys and cells with "," and "\n" without quoting | the analysis export of question q3, whose text "Quando recebo críticas nos, sou capaz ..." holds a comma: its line has 7 columns but reads back as 8 or more fields | every field quoted, inner quotes doubled, so each line keeps its columns | high (not executed) | AdvancedAnalysis.AnalysisCsvCounterexample | AdvancedAnalysis.QuotedCsvShape |

Three more places where the code and the intended flow disagree; the model follows the code:

- The questionnaire stores answers under "01".."25". The results page counts "q1".."q26". Answers entered through the questionnaire are therefore never counted (`Results.SurveyFormAnswersNeverCounted`).
- The reset route rejects `resetType: "all"` with 400 instead of emptying both tables.
- The entry page does not store the period, because that line is commented out. The questionnaire therefore submits "Não informado" unless the session already holds a period.
