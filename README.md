# QA report: a verified model of its business rules

The QA-report tool takes a spreadsheet of quality checks ("Relatorio"), turns
each line into a normalised record, and posts the records in chunks to a
worker. The worker scores each record from its status ("CONFERE" /
"NÃO CONFERE") and its severity, and stores it. It then serves a dashboard:
one row per analyst, ranked by volume and quality, each with a home-office
status. Filters reach the SQL store through a WHERE-clause builder, and a
paged list of the stored rows is available too. A snapshot stores a named
copy of a dashboard.

This project models that core in Dafny and proves what each part promises.
I/O, the clock, the id generator and the number conversions appear as
parameters.

| module | file | models |
|---|---|---|
| `Text` | text.dfy | the string operations the tool relies on: trim, case mapping, accent stripping, whitespace collapsing, `includes`, `join` |
| `Rows` | rows.dfy | `NormalizedRow`, the filter object, JavaScript truthiness, and `clean` / `norm` (trim, with empty → null) |
| `Scoring`, `ScoringExamples` | scoring.dfy, scoring_examples.dfy | `pointsFor` and `isError` of apps/worker/src/scoring.ts |
| `Ho` | ho.dfy | `hoStatus` of apps/worker/src/ho.ts |
| `Db` | db.dfy | `buildWhere` of apps/worker/src/db.ts: the conditional pushes and the join |
| `Excel`, `ExcelExamples` | excel.dfy, excel_examples.dfy | the row normaliser of apps/web/src/lib/excel.ts: header keys, alias mapping, the real-record filter, the header-row scan and the positional fallback |
| `Query` | query.dfy | `URLSearchParams` as both sides use it: `get`, and `set` in place |
| `Worker` | worker.dfy | the import, paging and snapshot handlers of apps/worker/src/index.ts |
| `Dashboard`, `DashboardExamples` | dashboard.dfy, dashboard_examples.dfy | the dashboard handler: the grouped query as a reference function, the ranking, the HO statuses and the KPIs |
| `Api` | api.dfy | the client of apps/web/src/lib/api.ts: the chunked import against a server object, and the query strings |

Three state-changing loops stay imperative:
- the `mapped` dictionary fill is `Excel.MapKeys`;
- the header-row scan with `break` is `Excel.FindHeaderRow`;
- the chunking loop over an import server that records every body it
  receives is `Api.ImportRows`.

The pushes of `buildWhere` are `Db.PushConditions`. The snapshot's in-place
`searchParams.set` loop is `Worker.ForwardFilters` over a
`Query.SearchParams` object. Each method is proved equal to a
specification function. The properties are proved about that function.

## Model

| member | source | states |
|---|---|---|
| `Scoring.PointsFor` | apps/worker/src/scoring.ts:6-17 | the score is one of 80, 90, 95, 98, 100; it is 100 exactly when the normalised status contains "CONFERE" and not "NAO"; otherwise the first severity word found, in the order GRAVISSIMO, GRAVE, MEDIO, LEVE, gives 80, 90, 95 or 98, and a severity with none of them gives 90; two absent inputs give 90 |
| `Scoring.IsError` | apps/worker/src/scoring.ts:19-22 | an error status is never conforming, and scores below 100 whatever the severity |
| `Scoring.RulesReadWords` | apps/worker/src/scoring.ts:6-22 | both rules read their inputs only through which of the words CONFERE, NAO, GRAVISSIMO, GRAVE, MEDIO, LEVE the normalised text contains |
| `Scoring.PaddingIgnored` | apps/worker/src/scoring.ts:1-4 | white space around a status or severity changes neither the score nor the error flag |
| `Scoring.CaseIgnored` | apps/worker/src/scoring.ts:1-4 | lower-casing a status or severity changes neither the score nor the error flag |
| `Scoring.AccentsIgnored` | apps/worker/src/scoring.ts:1-4 | stripping accents from a status or severity changes neither the score nor the error flag |
| `Scoring.NormStripped` | apps/worker/src/scoring.ts:1-4 | normalising a text equals normalising its accent-stripped form, up to white space at either end |
| `ScoringExamples.ConfereScores` | apps/worker/src/scoring.ts:8 | "CONFERE" scores 100 with any severity and is not an error |
| `ScoringExamples.NaoConfereScores` | apps/worker/src/scoring.ts:11-16 | "NÃO CONFERE" is an error; it scores 90 with GRAVE, 98 with LEVE, and 90 with no severity |
| `ScoringExamples.HandTypedStatus` | apps/worker/src/scoring.ts:1-4 | " não confere " scores like "NAO CONFERE" and is an error |
| `Ho.HoStatusOf` | apps/worker/src/ho.ts:3-11 | HO iff quality ≥ 0.90 and rank ≤ 25; ALERTA iff 0.88 ≤ quality < 0.90; PRESENCIAL iff quality < 0.88, or quality ≥ 0.90 with rank > 25 |
| `Ho.AlertaIgnoresRank` | apps/worker/src/ho.ts:9 | the 0.88 to 0.90 band is ALERTA at every rank |
| `Ho.LowQualityPresencial` | apps/worker/src/ho.ts:10 | below 0.88 every rank is PRESENCIAL |
| `Ho.HoMonotone` | apps/worker/src/ho.ts:8 | better quality or a better rank never loses HO |
| `Ho.Boundaries` | apps/worker/src/ho.ts:8-10 | (0.88, r) is ALERTA, (0.90, 25) is HO, (0.90, 26) is PRESENCIAL, (0.8799, r) is PRESENCIAL |
| `Db.BuildWhere` | apps/worker/src/db.ts:3-20 | the clause and arguments are those of the reference functions `WhereOf` and `ArgsOf` |
| `Db.PushConditions` | apps/worker/src/db.ts:7-14 | the eight conditional pushes give the conditions and arguments of the filters tested so far |
| `Db.UpToActive` | apps/worker/src/db.ts:7-14 | the pushed conditions and arguments are those of the set filters, in the fixed order |
| `Db.ActiveSet` | apps/worker/src/db.ts:7-14 | a filter contributes exactly when it is truthy |
| `Db.ActiveOrdered` | apps/worker/src/db.ts:7-14 | the contributions follow the order dateFrom, dateTo, adesao, operador, group, severidade, minPoints, maxPoints, with none twice |
| `Db.Pairing` | apps/worker/src/db.ts:7-14 | one condition and one argument per set filter, and the i-th argument belongs to the i-th condition |
| `Db.NothingSet` | apps/worker/src/db.ts:16-19 | the clause is "" and there is no argument exactly when no filter is set |
| `Db.OnlySetFiltersMatter` | apps/worker/src/db.ts:7-14 | two filter objects that agree on which fields are truthy, and on those values, give the same clause and arguments |
| `Db.EmptySameAsAbsent` | apps/worker/src/db.ts:7-14 | a field holding "" reads exactly like an absent one |
| `Db.ArgumentShapes` | apps/worker/src/db.ts:9-14 | adesao is passed as is; operador, group and severidade come wrapped in "%…%"; the point bounds are numeric conversions |
| `Db.AnalystAndMinimum` | apps/worker/src/db.ts:16-19 | with an analyst and a minimum score set, the clause is "WHERE operador LIKE ? AND pontos >= ?" with the arguments "%ana%" and 90 |
| `Rows.Clean` | apps/web/src/lib/excel.ts:26-30 | a value cleans to something exactly when it is present and not blank; the result is its trimmed text, non-empty and trimmed |
| `Rows.CleanIdempotent` | apps/web/src/lib/excel.ts:26-30 | cleaning twice is cleaning once |
| `Rows.CleanPadded` | apps/web/src/lib/excel.ts:28 | white space around a value does not change what it cleans to |
| `Excel.NormKeyIsKey` | apps/web/src/lib/excel.ts:4-8 | the repaired key, with accents stripped first, is trimmed, single-spaced, lower-case and free of combining marks |
| `Excel.KeyFixed` | apps/web/src/lib/excel.ts:4-8 | a text with all those properties is its own repaired key |
| `Excel.NormKeyIdempotent` | apps/web/src/lib/excel.ts:4-8 | applying the repaired key again changes nothing |
| `Excel.NormKeyPadded` | apps/web/src/lib/excel.ts:5 | white space around a header does not change its repaired key |
| `Excel.NormKeyCase` | apps/web/src/lib/excel.ts:5 | an upper-cased header has the same repaired key |
| `Excel.MapKeys` | apps/web/src/lib/excel.ts:52-53 | the loop builds the dictionary `KeyMap` of the record, keyed by `normKey` as written |
| `Excel.KeyMapLookup` | apps/web/src/lib/excel.ts:52-53 | a key is in the dictionary exactly when `normKey` as written maps some header to it, and it holds the value of the last such header |
| `Excel.AliasFromRecord` | apps/web/src/lib/excel.ts:55-59 | the `??` lookup gives the first alias's value unless it is null or absent, and only then the second alias's |
| `Excel.AliasPrecedence` | apps/web/src/lib/excel.ts:55-76 | status atendimento over status, operador over analista, adesao over ade, grupo over esteira, manifesto over motivo, each cleaned |
| `Excel.HeaderRow` | apps/web/src/lib/excel.ts:65-76 | `client` is always null in the header path |
| `Excel.ToISODate` | apps/web/src/lib/excel.ts:10-11 | a falsy cell gives a null date |
| `Excel.KeepReal` | apps/web/src/lib/excel.ts:80-82 | every kept row has a status and one of operador, adesao, manifesto; the kept rows are an order-preserving subsequence; every real row is kept, each as many times as it occurs, and no other row |
| `Excel.HeaderScanFrom` | apps/web/src/lib/excel.ts:100-108 | the first header-like line from position i within the first 50 lines, else 0 |
| `Excel.HeaderRowIndex` | apps/web/src/lib/excel.ts:100-108 | the first line among the first min(50, n) whose cells contain "status" and "operador" or "analista", else 0 |
| `Excel.FindHeaderRow` | apps/web/src/lib/excel.ts:100-108 | the loop with `break` computes `HeaderRowIndex` |
| `Excel.DataRows` | apps/web/src/lib/excel.ts:110 | the data starts just after the header row, and is shorter than the matrix |
| `Excel.NoHeaderLine` | apps/web/src/lib/excel.ts:100-110 | with no header-like line, row 0 is still skipped |
| `Excel.PositionalRow` | apps/web/src/lib/excel.ts:112-130 | `campaign` and `client` are null in the positional path |
| `Excel.PositionalReadsColumns` | apps/web/src/lib/excel.ts:113-122 | a positional row depends only on columns 2, 3, 4, 5, 6, 9, 10 and 21 |
| `Excel.PositionalMapped` | apps/web/src/lib/excel.ts:112-130 | one row per data line, in order |
| `Excel.Relatorio` | apps/web/src/lib/excel.ts:86-133 | the header rows when more than 100 are real and one has an operador; otherwise the positional rows, an ordered subsequence of the mapped data lines; "Planilha vazia" exactly when the fallback meets an empty matrix; every row returned is real |
| `Excel.ParseRelatorio` | apps/web/src/lib/excel.ts:86-133 | the parse with its scan loop computes `Relatorio` |
| `ExcelExamples.AsWrittenNotTrimmed` | apps/web/src/lib/excel.ts:4-8 | `normKey` as written gives a key with a leading space for a header that starts with a combining mark and a space |
| `ExcelExamples.AsWrittenNotIdempotent` | apps/web/src/lib/excel.ts:4-8 | `normKey` as written changes that key again when applied twice |
| `ExcelExamples.CorrectedDropsSpace` | apps/web/src/lib/excel.ts:4-8 | with the marks stripped first, the same header gives the key "x" |
| `ExcelExamples.StatusKeyAt` | apps/web/src/lib/excel.ts:4-8 | `normKey` as written maps the header "\u0301 Status" to " status", with a leading space |
| `ExcelExamples.NoStatusHeader` | apps/web/src/lib/excel.ts:53-82 | a record with no header whose key is "status atendimento" or "status" has a null status and is filtered out |
| `ExcelExamples.MarkedStatusDropped` | apps/web/src/lib/excel.ts:53-82 | a record whose status column is headed "\u0301 Status" is filtered out whatever its cells hold, next to any other column whose header is already a key other than the two status aliases |
| `ExcelExamples.StatusKeyRepaired` | apps/web/src/lib/excel.ts:4-8 | the repaired key maps the same header to "status" |
| `Query.SetGet` | apps/web/src/lib/api.ts:32-33 | after `set(k, v)`, `get(k)` is v and exactly one pair is named k |
| `Query.SetOther` | apps/web/src/lib/api.ts:32-33 | `set(k, v)` leaves every other name's value, and every pair not named k, as they were |
| `Query.SetFresh` | apps/web/src/lib/api.ts:32-33 | setting a name that is absent appends one pair |
| `Query.SearchParams.Set` | apps/worker/src/index.ts:178 | the object's pairs become `SetPair` of the old ones; k reads v and other names are unchanged |
| `Worker.Import` | apps/worker/src/index.ts:38-69 | missing or empty rows are refused with 400, "Sem linhas para importar", and nothing is stored; otherwise inserted = number of rows = number stored, all sharing importedAt and the label, each with its own id, the cleaned data, adesao, operador, grupo, status, manifesto and severity of its row, and the score of its status and severity |
| `Worker.LabelDefault` | apps/worker/src/index.ts:43 | a truthy label is kept, otherwise "Import " followed by the time; never empty |
| `Worker.NormBeforeScoring` | apps/worker/src/index.ts:47-49 | scoring the normed status and severity gives the same points and error flag as scoring the raw ones |
| `Worker.RowsLimitAsWritten` | apps/worker/src/index.ts:149 | the limit as written is at most 200, and 50 when none is given |
| `Worker.NegativeLimitPassesCap` | apps/worker/src/index.ts:149 | a negative limit passes the cap unchanged |
| `Worker.RowsLimit` | apps/worker/src/index.ts:149 | the corrected limit is within 0..200, is 50 when none is given, is the number asked for when that lies in range, and is the limit as written clamped at 0 |
| `Worker.RowsOffset` | apps/worker/src/index.ts:150 | the offset is at least 0, is 0 when none is given, and is the number given when that is not negative |
| `Worker.SnapshotName` | apps/worker/src/index.ts:173-174 | refused with "Nome do snapshot é obrigatório" exactly when the trimmed name is empty; an accepted name is the trimmed text, non-empty |
| `Worker.SnapshotNamePadded` | apps/worker/src/index.ts:173 | white space around a snapshot name does not change it |
| `Worker.ForwardFilters` | apps/worker/src/index.ts:177-179 | the loop leaves the search parameters as `Forwarded` of the old ones |
| `Worker.ForwardedGet` | apps/worker/src/index.ts:177-179 | after forwarding, a name reads its last truthy value, or what the request had when there is none |
| `Worker.SnapshotFiltersSameQuery` | apps/worker/src/index.ts:176-186 | the forwarded query gives the dashboard the same WHERE clause and arguments as the posted filters |
| `Dashboard.ImportScored` | apps/worker/src/index.ts:46-63 | every stored row carries the score of its own stored status and severity |
| `Dashboard.KeysDistinct` | apps/worker/src/index.ts:105 | no two groups share an operador |
| `Dashboard.KeysOccur` | apps/worker/src/index.ts:105 | a group exists exactly for each operador value that occurs |
| `Dashboard.GroupsCoverRows` | apps/worker/src/index.ts:99-105 | the group counts add up to the number of selected rows |
| `Dashboard.Grouped` | apps/worker/src/index.ts:97-107 | one result row per group, with its label, COUNT, average and error count |
| `Dashboard.Sort` | apps/worker/src/index.ts:106 | the result is ordered by total, then average, both descending; it is a permutation of the groups; the sum of the totals is kept |
| `Dashboard.QueryResult` | apps/worker/src/index.ts:97-107 | the query result is ordered and a permutation of the groups |
| `Dashboard.ResultCoversRows` | apps/worker/src/index.ts:86-107 | the analysts' totals add up to the KPI's total of selected rows |
| `Dashboard.FirstHasMost` | apps/worker/src/index.ts:106 | the first analyst has the largest total |
| `Dashboard.ErrorsLostPoints` | apps/worker/src/index.ts:102 | counted by `isError`, a group's errors never exceed its rows that scored below 100 |
| `Dashboard.ErrorsIgnoreAccents` | apps/worker/src/scoring.ts:19-22 | counted by `isError`, a group's errors are the same when every status has its accents stripped |
| `Dashboard.SqlErrorIsError` | apps/worker/src/index.ts:102 | every status the SQL test flags, `isError` flags too |
| `Dashboard.SqlErrorsAtMost` | apps/worker/src/index.ts:102 | the SQL error column of a group never exceeds the count `isError` gives |
| `Dashboard.Analysts` | apps/worker/src/index.ts:109-120 | one analyst per result row, in order, with the same figures; rank i+1 and the status `hoStatus(avg, rank)` |
| `Dashboard.RanksDistinct` | apps/worker/src/index.ts:110 | the ranks are 1..n, increasing in list order |
| `Dashboard.RankFollowsTotal` | apps/worker/src/index.ts:106-110 | a better rank never has a smaller total |
| `Dashboard.StatusesPartition` | apps/worker/src/index.ts:122-123 | the HO, ALERTA and PRESENCIAL counts add up to the number of analysts |
| `Dashboard.AtMost25` | apps/worker/src/index.ts:122 | when HO only occurs in the first 25 places, at most 25 analysts are HO |
| `Dashboard.KpisOf` | apps/worker/src/index.ts:86-132 | totalAnalyses is the number of selected rows and avgQuality their average score over 100; hoOk and hoPresencial count the analysts with status HO and PRESENCIAL; together they are at most the number of analysts, and hoOk is at most 25 |
| `Dashboard.CountStatusPositions` | apps/worker/src/index.ts:122-123 | the `filter(...).length` count is the number of positions holding that status |
| `Dashboard.KpisCountPlaces` | apps/worker/src/index.ts:109-123 | hoOk is the number of analysts in the first 25 places with average quality at least 0.90; hoPresencial the number below 0.88, or at least 0.90 beyond place 25 |
| `Dashboard.AverageBounds` | apps/worker/src/index.ts:86-95 | with every score in 80..100 the average quality lies in 0.80..1.00 |
| `DashboardExamples.SqlMissesAccentedNao` | apps/worker/src/index.ts:102 | the SQL test misses "NÃO CONFERE" |
| `DashboardExamples.SqlErrorsMissAccentedRow` | apps/worker/src/index.ts:102 | for one "NÃO CONFERE" row, the SQL column reports 0 errors, while counting by `isError` gives 1 |
| `Api.ImportServer.Post` | apps/web/src/lib/api.ts:11-15 | the server logs the body, and answers with its reply for that request number |
| `Api.ImportRows` | apps/web/src/lib/api.ts:5-21 | the server receives the chunks in order, each with the same label, up to and including the first refused one; the result is `Run`'s |
| `Api.ChunksFlatten` | apps/web/src/lib/api.ts:9-10 | the chunks, put back together, give the rows back in order |
| `Api.ChunkSizes` | apps/web/src/lib/api.ts:7-10 | every chunk holds from 1 to 300 rows |
| `Api.ChunkCount` | apps/web/src/lib/api.ts:9 | the number of requests is ceil(n / 300), and none for an empty list |
| `Api.RunOk` | apps/web/src/lib/api.ts:16-20 | a successful import sent every chunk, every answer was ok, and `inserted` is the sum of the reported counts, a missing count being 0 |
| `Api.RunErr` | apps/web/src/lib/api.ts:16 | a failed import throws the text of the first refusal; the earlier chunks were accepted, and nothing after the refused one was sent |
| `Api.ImportAllInserted` | apps/web/src/lib/api.ts:18-20 | when the server reports each chunk's size, the import reports the number of rows |
| `Api.ImportNothing` | apps/web/src/lib/api.ts:9-20 | an empty list sends nothing and reports 0 |
| `Api.TruthyPairs` | apps/web/src/lib/api.ts:24 | no more pairs than entries, and no pair with an empty value |
| `Api.DashboardQueryGet` | apps/web/src/lib/api.ts:24 | each filter is in the query string exactly when it is truthy, with its own value |
| `Api.DashboardQuerySameWhere` | apps/web/src/lib/api.ts:23-28 | the worker reads back filters with the same WHERE clause and arguments |
| `Api.RowsQueryShape` | apps/web/src/lib/api.ts:31-33 | the rows query is the dashboard query with `limit` (default 200) and `offset` (default 0) appended |
| `Api.RowsQueryReads` | apps/web/src/lib/api.ts:30-37 | the worker reads the same clause and arguments, and `limit` and `offset` as sent |
| `Api.RowsPageSize` | apps/web/src/lib/api.ts:30-32 | a page size in 0..200 reaches the worker intact, both under the limit as written at apps/worker/src/index.ts:149 and under the clamped one, so the client's default 200 applies, never the worker's 50 |

## Left out

- Reading the file: `FileReader`, `XLSX.read`, `sheet_to_json` and the choice
  of sheet, with its "Aba não encontrada" error. The records and the cell
  matrix are inputs.
- Excel.ToISODate: only the falsy → null case is stated. The date parsing
  (`Date`, `SSF.parse_date_code`, `toISOString`) is a parameter `toISO`.
- Cell values are taken as text, already passed through `String(v)`. A numeric
  0 cell would be falsy in JavaScript but "0" here. An array hole
  (`arr[i] || []`) is an empty line.
- Excel.NormKey: the repaired key is proved on its own. `HeaderRow`,
  `Relatorio` and `ParseRelatorio` key the header dictionary with `normKey`
  as written, as the source does.
- `Object.entries` key order for integer-like keys is not modelled; records
  are lists in the order given.
- Full Unicode NFD normalisation and case mapping are not modelled. The model
  uses ASCII and Latin-1 letters, a fixed table of accented Latin-1 letters,
  and removal of U+0300..U+036F.
- Hono routing, CORS, JSON decoding, `crypto.randomUUID` (a parameter
  `uid`), the clock (a parameter `importedAt`) and the D1 database are not
  modelled. The dashboard query is a reference function over the rows the
  WHERE clause selects; SQL itself (`date()`, `LIKE` matching a filter) is not
  executed.
- `Number()` is a parameter `toNumber` to the reals. NaN and IEEE rounding
  of `AVG` are not modelled.
- Dashboard.Sort: the query leaves the order of rows that tie on both keys
  open. The model proves ordering and permutation for one particular order.
  Lemmas about the ranking depend only on the result being ordered.
- Dashboard.Grouped: rows are grouped by the stored `operador`, null
  included, and labelled with COALESCE. A stored operador literally equal to
  "(Sem operador)" would share the null group's label, and the model keeps
  that: the two stay separate groups under one label.
- When a query parameter repeats, the model reads the first value.
- `listSnapshots`, `loadSnapshot` and `saveSnapshot` (apps/web/src/lib/api.ts:39-59)
  are single fetches. The snapshot list and get handlers are single queries.
  The self-request that computes the snapshot's dashboard
  (apps/worker/src/index.ts:181-186) and the snapshot insert are not
  modelled. The forwarded query is modelled.
- The `total` of the rows endpoint is a COUNT query, and its ORDER BY on
  import time is not modelled.
- apps/web/src/ui/App.tsx is not part of this model.

## Findings

| source | as written | input that shows it | evidently intended | confidence | as-written member | corrected member |
|---|---|---|---|---|---|---|
| apps/web/src/lib/excel.ts:4-8 | combining marks are removed after trimming and collapsing spaces, so the space a mark shielded survives; the header mapping keeps this behaviour, and a status column headed "́ Status" is never read | a header "́ x" (a combining acute, a space, x) becomes " x" | a key that is trimmed, single-spaced and stable under normalising again | low, not executed | `ExcelExamples.AsWrittenNotIdempotent` | `Excel.NormKeyIdempotent` |
| apps/worker/src/index.ts:149 | the limit is capped at 200 from above only | `limit=-1` gives LIMIT -1, which SQLite reads as no limit | a page size within 0..200, like the offset clamp on the next line | medium, not executed | `Worker.NegativeLimitPassesCap` | `Worker.RowsLimit` |
| apps/worker/src/index.ts:102 | errors are counted with `upper(status) LIKE '%NAO%'`, which folds neither case nor accents beyond ASCII | a stored status "NÃO CONFERE" counts 0 errors | the error count of `isError`, which strips accents | medium, not executed | `DashboardExamples.SqlErrorsMissAccentedRow` | `Dashboard.ErrorsIgnoreAccents` |
