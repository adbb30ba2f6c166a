# CPL outcome measurement — a Dafny model

The application measures a study programme's graduate learning outcomes
(CPL, *Capaian Pembelajaran Lulusan*). Lecturers upload four CSV tables:

- the CPL list;
- the CPMK list (course-level outcomes);
- the MK list (courses);
- the `nilai` table of student scores per course.

They then edit two weighted mappings, MK → CPMK and CPMK → CPL. From these
the results view computes one score per student and CPL:

- the weights leaving each MK, and each CPMK, are normalised to sum to 1;
- every course score is pushed along each MK → CPMK → CPL path, scaled by
  the two normalised weights.

It then averages each CPL over the students, orders the averages as in the
CPL table, and labels each average with one of four categories.

This project models that core:

- `Csv` — the CSV reader (`parseCSV`): line splitting, the quote-aware field
  scanner, trimming, and dropping empty rows.
- `MappingEditor` — the mapping editor: the unique codes of a table, and a
  `MappingManager` class whose two edge lists are changed in place by add,
  update and remove.
- `Weights`, `Propagation`, `Aggregation`, `Results` — `computeResults`:
  - grouping and weight normalisation;
  - the propagation loop into a per-student dictionary;
  - per-student rows, CPL totals and averages;
  - the sort by the CPL table's order;
  - the category rule.
- `OrderedDict` — JavaScript objects used as dictionaries, with their keys
  kept in insertion order.
- `Common` — shared types and sequence helpers.
- `Scenarios` — whole-pipeline results for one-path and split-path inputs.

Loops in the source are methods with loop invariants. Each is proved
equal to a specification function. The lemmas then state what that
function means:

- the normalised weights of a group sum to 1;
- normalisation is a permutation of the edges;
- a student's score is the sum over their rows and paths of
  `score * w1 * w2`;
- an average is the sum of the scores over the student count;
- the sort is sorted, stable and a permutation;
- the CSV reader reads back what a quoting writer renders.

## Model

| member | source | states |
|---|---|---|
| Common.IndexOf | src/components/CPLResults.jsx:9-12 | -1 exactly when the value is absent; otherwise an index holding it with no earlier occurrence (`indexOf`) |
| Common.Filter | src/components/DataUploader.jsx:32 | the kept elements come from the input and satisfy the predicate, and there are no more of them than inputs |
| Common.FilterSnoc | src/components/DataUploader.jsx:32 | filtering a list with one more element appends that element exactly when it passes |
| Common.FilterAll | src/components/DataUploader.jsx:32 | a filter that every element passes returns the list unchanged |
| OrderedDict.Dict.Put | src/components/CPLResults.jsx:50 | assigning a key keeps a dictionary well formed: every key listed once, and exactly the keys with a value |
| OrderedDict.Dict.Entries | src/components/CPLResults.jsx:55 | `Object.entries` lists one (key, value) pair per key, in key order |
| OrderedDict.AddAllMeaning | src/components/CPLResults.jsx:64-68 | accumulating `o[k] = (o[k] \|\| 0) + x` keeps the dictionary well formed; a key is present iff it was before or some pair names it; its value grows by the sum filed under it |
| OrderedDict.EntriesSumKey | src/components/CPLResults.jsx:65 | the entries of a dictionary filed under a key add up to `o[k] \|\| 0`, since each key occurs once |
| OrderedDict.SumKeyAppend | src/components/CPLResults.jsx:64-68 | the per-key sum over two concatenated lists is the sum of their per-key sums |
| Csv.TrimStart | src/components/DataUploader.jsx:29 | drops exactly the leading white space: what remains is a suffix that does not start with white space |
| Csv.TrimEnd | src/components/DataUploader.jsx:29 | drops exactly the trailing white space: what remains is a prefix that does not end with white space |
| Csv.Trim | src/components/DataUploader.jsx:29 | the result neither starts nor ends with white space |
| Csv.TrimSlice | src/components/DataUploader.jsx:29 | `trim` returns a slice of its input, and everything cut off on either side is white space |
| Csv.TrimBlank | src/components/DataUploader.jsx:6 | a line trims to the empty string iff it is all white space |
| Csv.TrimTrimmed | src/components/DataUploader.jsx:29 | trimming a string without outer white space leaves it unchanged |
| Csv.TrimIdempotent | src/components/DataUploader.jsx:29 | trimming twice is trimming once |
| Csv.TrimAll | src/components/DataUploader.jsx:29 | `result.map(s => s.trim())`: one trimmed field per field, in order |
| Csv.SplitOn | src/components/DataUploader.jsx:6 | `split` always yields at least one piece |
| Csv.SplitOnPieces | src/components/DataUploader.jsx:6 | no piece holds the separator, and every character of a piece comes from the input |
| Csv.JoinSplit | src/components/DataUploader.jsx:6 | joining the pieces of a split with the separator gives back the input |
| Csv.SplitJoin | src/components/DataUploader.jsx:6 | splitting a join of separator-free pieces gives back the pieces |
| Csv.ReplaceCrLf | src/components/DataUploader.jsx:6 | `replace(/\r\n/g, '\n')`: each CRLF pair, scanned left to right, becomes one LF; a CR-free prefix passes through unchanged (Csv.ReplaceCrLfPlain) |
| Csv.ReplaceCr | src/components/DataUploader.jsx:6 | each lone carriage return becomes a line feed and every other character stays |
| Csv.NormalizeBreaks | src/components/DataUploader.jsx:6 | no carriage return survives the two `replace` calls |
| Csv.NormalizeJoin | src/components/DataUploader.jsx:6 | lines joined by any of CRLF, CR or LF normalise to the same lines joined by LF |
| Csv.Lines | src/components/DataUploader.jsx:6 | every line kept is non-blank and holds no line break |
| Csv.Scan | src/components/DataUploader.jsx:12-28 | the fields the character loop collects: `""` inside quotes adds one quote, any other quote toggles quoting, a comma outside quotes ends a field; sizes in Csv.ScanCount, quote handling in Csv.ScanEscaped and Csv.ScanQuoted |
| Csv.Parse | src/components/DataUploader.jsx:8-30 | `parseLine`: the scanned fields, each trimmed; meaning in Csv.ParsePlain, Csv.ParseJoinPlain and Csv.ParseJoinQuoted |
| Csv.ParseLine | src/components/DataUploader.jsx:8-30 | the character loop of `parseLine` computes the fields that `Parse` specifies |
| Csv.ScanCount | src/components/DataUploader.jsx:12-28 | a line yields exactly one field more than its commas outside quotes (`OutsideCommas`), hence at least one and at most one more than all its commas |
| Csv.ParsePlain | src/components/DataUploader.jsx:8-30 | a line without quotes parses to its comma-separated pieces, trimmed |
| Csv.ScanEscaped | src/components/DataUploader.jsx:14-17 | inside quotes a doubled quote reads back as one quote character |
| Csv.ScanQuoted | src/components/DataUploader.jsx:14-20 | a quoted, escaped field reads back as the field itself |
| Csv.ParseJoinPlain | src/components/DataUploader.jsx:8-30 | fields without commas, quotes or outer white space, joined by commas, parse back to the same fields |
| Csv.ParseJoinQuoted | src/components/DataUploader.jsx:8-30 | a line of quoted fields joined by commas parses to those fields, trimmed, whatever commas, quotes or spaces they hold |
| Csv.QuoteAll | src/components/DataUploader.jsx:14-20 | one quoted field per field, in order; a CSV encoder with no counterpart in the source, the partner of the quote handling in the round-trip lemmas |
| Csv.ParseAll | src/components/DataUploader.jsx:32 | `lines.slice(1).map(parseLine)`: one parsed row per line |
| Csv.RowsOf | src/components/DataUploader.jsx:32 | every row kept has a field that is not empty |
| Csv.ParseRows | src/components/DataUploader.jsx:32 | the row loop yields exactly the parsed lines that have a non-empty field, in order |
| Csv.RowsOfAll | src/components/DataUploader.jsx:32 | when every parsed line has a non-empty field, no row is dropped |
| Csv.RowsOfParsed | src/components/DataUploader.jsx:32 | every row is the parse of one of the lines |
| Csv.CsvTable | src/components/DataUploader.jsx:5-33 | `parseCSV`'s result: empty headers and rows without a non-blank line, else the first line parsed as headers and the kept rows of the rest; meaning in Csv.CsvEmpty, Csv.CsvCellsTrimmed, Csv.CsvRoundTrip |
| Csv.ParseCsv | src/components/DataUploader.jsx:4-34 | `parseCSV` returns the table `CsvTable` specifies: headers from the first line, rows from the rest |
| Csv.CsvEmpty | src/components/DataUploader.jsx:6-7 | the headers are empty iff the text has no non-blank line, and then there are no rows |
| Csv.CsvCellsTrimmed | src/components/DataUploader.jsx:29-32 | no header and no cell starts or ends with white space |
| Csv.RenderLines | src/components/DataUploader.jsx:8-30 | one rendered line per row, each its fields quoted and joined by commas; a CSV writer with no counterpart in the source, used only to state the file-level round trip |
| Csv.LinesRendered | src/components/DataUploader.jsx:6 | rendered lines joined by any line break split back into exactly those lines |
| Csv.RowsRendered | src/components/DataUploader.jsx:32 | rendered rows of trimmed, non-empty-somewhere cells parse back to the same rows |
| Csv.CsvRoundTrip | src/components/DataUploader.jsx:4-34 | a header line and rows, rendered with quotes and joined by any line break, read back as the same table |
| Csv.RenderNonBlank | src/components/DataUploader.jsx:6 | a rendered line with at least one field is never blank |
| Csv.RenderNoBreaks | src/components/DataUploader.jsx:6 | a rendered line of break-free fields holds no line break |
| MappingEditor.UniqueOf | src/components/MappingManager.jsx:6-10 | the `Set` of a column's defined, non-empty cells in insertion order; meaning in MappingEditor.UniqueOfMembers and MappingEditor.UniqueOfOrder |
| MappingEditor.GetUniqueValues | src/components/MappingManager.jsx:4-11 | the row loop collects exactly the values that `Unique` specifies; no table gives no values |
| MappingEditor.UniqueOfMembers | src/components/MappingManager.jsx:4-11 | each value once, and a value is collected iff some row has it, non-empty, in that column |
| MappingEditor.UniqueOfOrder | src/components/MappingManager.jsx:10 | values come in the order of their first occurrence in the column (`Set` insertion order) |
| MappingEditor.ColumnOf | src/components/MappingManager.jsx:8 | one cell per row, missing where the row is too short |
| MappingEditor.Codes | src/components/MappingManager.jsx:17-19 | no table, or a table without headers, gives no codes |
| MappingEditor.CodesMeaning | src/components/MappingManager.jsx:17-19 | codes are distinct, and a code is listed iff the table has headers and some row starts with it, non-empty |
| MappingEditor.AddedCodes | src/components/MappingManager.jsx:27 | the code an added edge starts with is either empty or one of the table's codes |
| MappingEditor.UpdatedAt | src/components/MappingManager.jsx:39 | only the edge at the index changes, by the one field; an index out of range changes nothing |
| MappingEditor.UpdateUndo | src/components/MappingManager.jsx:39 | writing a field's old value back undoes an update |
| MappingEditor.RemovedAt | src/components/MappingManager.jsx:52 | the edge at the index is removed and the others keep their order; an index out of range changes nothing |
| MappingEditor.RemoveAdded | src/components/MappingManager.jsx:26-60 | removing the edge just added restores the list |
| MappingEditor.MappingManager.constructor | src/components/MappingManager.jsx:13-15 | both edge lists start empty (as in src/App.jsx:9); the code tables are the ones given at mount |
| MappingEditor.MappingManager.SetTables | src/App.jsx:11-26 | an upload re-renders the editor with new table props: the offered codes change, both edge lists stay as they are, nothing is reported |
| MappingEditor.UploadBetweenAdds | src/components/MappingManager.jsx:14-30 | a row added before the course table is uploaded keeps course code `''`; a row added after takes the table's first code |
| MappingEditor.MappingManager.AddMkToCpmk | src/components/MappingManager.jsx:26-30 | appends an MK → CPMK edge from the first codes (or empty) with weight 100; the other list is unchanged; reports the new mapping |
| MappingEditor.MappingManager.AddCpmkToCpl | src/components/MappingManager.jsx:32-36 | appends a CPMK → CPL edge from the first codes (or empty) with weight 100; the other list is unchanged; reports the new mapping |
| MappingEditor.MappingManager.UpdateMkToCpmk | src/components/MappingManager.jsx:38-42 | the MK → CPMK list becomes its update at the index; the other list is unchanged; reports the new mapping |
| MappingEditor.MappingManager.UpdateCpmkToCpl | src/components/MappingManager.jsx:44-48 | the CPMK → CPL list becomes its update at the index; the other list is unchanged; reports the new mapping |
| MappingEditor.MappingManager.RemoveRow | src/components/MappingManager.jsx:50-60 | kind `a` removes from the MK → CPMK list, any other kind from the CPMK → CPL list; the other list is unchanged; reports the new mapping |
| Weights.KeysOf | src/components/CPLResults.jsx:20-24 | the keys of `groupBy`'s result: each once, and a key is there iff some element has it |
| Weights.GroupBy | src/components/CPLResults.jsx:20 | `groupBy` files each key's elements, in input order, under the key, and its keys in first-seen order |
| Weights.GroupPush | src/components/CPLResults.jsx:20 | one `reduce` step keeps the grouping invariant for one more element |
| Weights.GroupStep | src/components/CPLResults.jsx:20 | pushing an element appends it to its own key's group only, and adds a new key at the end |
| Weights.GroupOfAppend | src/components/CPLResults.jsx:20 | the group of a key in two concatenated lists is the two groups concatenated |
| Weights.GroupOfMembers | src/components/CPLResults.jsx:20 | an element is in a key's group iff it is in the list with that key |
| Weights.SumWeights | src/components/CPLResults.jsx:25 | the `reduce` loop computes the total weight, a weight that is not a number counting 0 |
| Weights.Divisor | src/components/CPLResults.jsx:25 | the divisor `sum \|\| 1` is never zero |
| Weights.Scaled | src/components/CPLResults.jsx:26 | one normalised edge per edge, in order, each with its weight divided by the divisor |
| Weights.NormalizeGroup | src/components/CPLResults.jsx:25-26 | one group's loop pushes its edges scaled by that group's divisor |
| Weights.NormalizeNext | src/components/CPLResults.jsx:24-27 | each step of `Object.values(g).forEach` appends the next group's scaled edges |
| Weights.Normalized | src/components/CPLResults.jsx:20-29 | `normWeights`' result: for each source in first-seen order, its edges in input order with `w` = weight over the group's divisor; meaning in the Normalized* lemmas |
| Weights.NormWeights | src/components/CPLResults.jsx:21-29 | `normWeights` returns what `Normalized` specifies |
| Weights.NormalizedGroup | src/components/CPLResults.jsx:21-29 | in the result, the edges from one source are that source's input edges, in order, scaled by their group's divisor |
| Weights.NormalizedCount | src/components/CPLResults.jsx:21-29 | each edge occurs in the result as often as in the input |
| Weights.NormalizedPermutes | src/components/CPLResults.jsx:21-29 | the result's edges are a permutation of the input edges |
| Weights.NormalizedWeights | src/components/CPLResults.jsx:25-26 | each normalised weight is the edge's weight divided by its source group's divisor |
| Weights.NormalizedSumsToOne | src/components/CPLResults.jsx:25-26 | the normalised weights of a source whose weights do not sum to 0 sum to 1 |
| Weights.NormalizedZeroGroup | src/components/CPLResults.jsx:25 | a source whose weights sum to 0 keeps its weights unscaled (divisor 1), so all-zero weights stay 0 |
| Weights.NormTotalScaled | src/components/CPLResults.jsx:25-26 | the scaled weights of a group add up to its total over the divisor |
| Propagation.Record | src/components/CPLResults.jsx:49-50 | one addition: create `{ name, cplScores: {} }` on a student's first contribution, then add the amount into their CPL score; meaning in Propagation.RecordScores |
| Propagation.Fold | src/components/CPLResults.jsx:37-53 | the additions applied in order; meaning in Propagation.FoldStudents, Propagation.FoldScores, Propagation.FoldName |
| Propagation.StudentTable | src/components/CPLResults.jsx:35-53 | `studentCpl` after the loop: every row's contributions folded into the empty table; meaning in Propagation.StudentTable* lemmas |
| Propagation.Propagate | src/components/CPLResults.jsx:35-53 | the row loop builds exactly the table `StudentTable` specifies |
| Propagation.PropagateRow | src/components/CPLResults.jsx:37-53 | one row's loop records exactly that row's contributions |
| Propagation.PropagateChain | src/components/CPLResults.jsx:45-51 | one MK → CPMK edge's loop records one contribution per CPMK → CPL edge of its CPMK |
| Propagation.AddContribution | src/components/CPLResults.jsx:49-50 | one addition creates the student on first sight and adds the amount into their CPL score |
| Propagation.FoldAppend | src/components/CPLResults.jsx:37-53 | recording two lists of contributions is recording one after the other |
| Propagation.FoldWellFormed | src/components/CPLResults.jsx:49-50 | recording keeps every dictionary, outer and per student, well formed |
| Propagation.FoldStudents | src/components/CPLResults.jsx:49 | a student is present iff they were before or some contribution is theirs |
| Propagation.RecordScores | src/components/CPLResults.jsx:50 | one contribution adds its CPL to its own student only, and adds its amount to that one score |
| Propagation.FoldScores | src/components/CPLResults.jsx:50 | a student's CPL score is present iff it was before or some contribution names both; it grows by the contributions' sum |
| Propagation.FoldName | src/components/CPLResults.jsx:49 | a new student takes the name of their first contribution |
| Propagation.FoldKeepsName | src/components/CPLResults.jsx:49 | a student already present keeps their name |
| Propagation.SumForAppend | src/components/CPLResults.jsx:50 | a student's CPL sum over two lists of contributions is the sum of the two |
| Propagation.ChainContribsSum | src/components/CPLResults.jsx:46-50 | one MK → CPMK edge adds, for its student and a CPL, the sum of `score * w1 * w2` over that CPL's edges |
| Propagation.ChainSumGroup | src/components/CPLResults.jsx:45 | summing over `cpmkToCplMap[cpmk] \|\| []` is summing over the CPMK's edges in the normalised list |
| Propagation.EdgeContribsSum | src/components/CPLResults.jsx:43-51 | a row's MK → CPMK edges add, for its student and a CPL, the sum over their chains |
| Propagation.EdgeSumGroup | src/components/CPLResults.jsx:43 | summing over `filter(m => m.mk === mk)` is summing over the course's edges |
| Propagation.PathTotalNone | src/components/CPLResults.jsx:40-43 | a row without a course cell contributes nothing |
| Propagation.RowContribsSum | src/components/CPLResults.jsx:37-53 | one row adds, for its student and a CPL, the total over every MK → CPMK → CPL path of `score * w1 * w2` |
| Propagation.ChainContribsMembers | src/components/CPLResults.jsx:46-50 | each addition belongs to the row's student and name; a CPL is reached iff the chain has an edge to it; no chain, no addition |
| Propagation.EdgeContribsOwner | src/components/CPLResults.jsx:44-50 | every addition a row makes belongs to that row's student and name |
| Propagation.EdgeContribsTargets | src/components/CPLResults.jsx:43-51 | a row adds to a CPL iff one of its course's CPMKs has an edge to that CPL |
| Propagation.EdgeContribsNonEmpty | src/components/CPLResults.jsx:43-51 | a row adds something iff one of its course's CPMKs has a CPL edge |
| Propagation.RowContribsMembers | src/components/CPLResults.jsx:37-53 | a row's additions are its student's; it adds to a CPL iff it reaches it; it adds anything iff it has a full path |
| Propagation.StudentTableWellFormed | src/components/CPLResults.jsx:35-53 | `studentCpl` and each `cplScores` are well-formed dictionaries |
| Propagation.StudentTableStudents | src/components/CPLResults.jsx:35-53 | a student is in `studentCpl` iff one of their rows has a full MK → CPMK → CPL path |
| Propagation.StudentTableHasScore | src/components/CPLResults.jsx:43-50 | a student has a score for a CPL iff one of their rows reaches that CPL |
| Propagation.StudentTableScores | src/components/CPLResults.jsx:41-50 | a student's CPL score is the sum over their rows of every path total to that CPL |
| Propagation.StudentTableName | src/components/CPLResults.jsx:49 | a student's name is the name on their first row that reaches a CPL |
| Propagation.StudentScoreAppend | src/components/CPLResults.jsx:37 | a student's score over two blocks of rows is the sum of the two |
| Aggregation.PerStudent | src/components/CPLResults.jsx:55-59 | one row per `studentCpl` key, in key order, with that student's name and scores |
| Aggregation.PerStudentDistinct | src/components/CPLResults.jsx:55-59 | no student is listed twice |
| Aggregation.PerStudentListed | src/components/CPLResults.jsx:55-59 | a student is listed iff they are in `studentCpl` |
| Aggregation.Totals | src/components/CPLResults.jsx:62-68 | `cplTotals`: each student's score entries added in, student by student; meaning in Aggregation.TotalsMeaning |
| Aggregation.CplTotals | src/components/CPLResults.jsx:62-68 | the nested loop builds the totals `Totals` specifies |
| Aggregation.AddEntries | src/components/CPLResults.jsx:65-67 | the inner loop adds one student's entries into the totals |
| Aggregation.TotalsMeaning | src/components/CPLResults.jsx:62-68 | totals are well formed; a CPL has a total iff some student has a score for it; the total is the sum of all students' scores for it |
| Aggregation.StudentCount | src/components/CPLResults.jsx:63 | `perStudent.length \|\| 1`: at least 1, and the number of students when there are any |
| Aggregation.Averages | src/components/CPLResults.jsx:69 | one average per total, in key order, each the total over the student count |
| Aggregation.TableOrder | src/components/CPLResults.jsx:72 | the first cell of each CPL table row, missing for an empty row |
| Aggregation.CodesOf | src/components/CPLResults.jsx:72 | without a CPL table the order is the averages' own CPL codes |
| Aggregation.Insert | src/components/CPLResults.jsx:73 | one step of a stable insertion sort: the average is placed after the last element whose rank is not above its own, with the higher-ranked tail after it |
| Aggregation.SortByRank | src/components/CPLResults.jsx:73 | `perCpl.sort` by `indexOf` rank, as a stable insertion sort; meaning in the SortByRank* lemmas |
| Aggregation.InsertPermutes | src/components/CPLResults.jsx:73 | inserting adds exactly the one element |
| Aggregation.InsertSorted | src/components/CPLResults.jsx:73 | inserting into a sorted list keeps it sorted by rank |
| Aggregation.InsertStable | src/components/CPLResults.jsx:73 | inserting puts the element after every element of equal rank |
| Aggregation.SortByRankSorted | src/components/CPLResults.jsx:73 | the sort orders by `cplOrder.indexOf(cpl)` |
| Aggregation.SortByRankPermutes | src/components/CPLResults.jsx:73 | the sort is a permutation of its input |
| Aggregation.SortByRankStable | src/components/CPLResults.jsx:73 | elements of equal rank keep their input order (a stable sort) |
| Aggregation.SortByRankMembers | src/components/CPLResults.jsx:73 | the sort keeps exactly the input's elements |
| Aggregation.SortByRankDistinct | src/components/CPLResults.jsx:73 | a list without a repeated CPL stays so when sorted |
| Aggregation.SortByRankSortedInput | src/components/CPLResults.jsx:73 | an already sorted list is left as it is |
| Aggregation.SortWithoutTable | src/components/CPLResults.jsx:72-73 | without a CPL table the sort by the averages' own order changes nothing |
| Aggregation.UnlistedFirst | src/components/CPLResults.jsx:73 | a CPL missing from the CPL table (rank -1) comes before every listed one |
| Aggregation.CategoryOf | src/components/CPLResults.jsx:114 | Sangat Baik iff the average is at least 85, Baik iff in [70, 85), Cukup iff in [55, 70), Kurang iff below 55 |
| Aggregation.CategoryMonotone | src/components/CPLResults.jsx:114 | a higher average never gets a lower category |
| Aggregation.LabelsDistinct | src/components/CPLResults.jsx:114 | the four categories have four different labels |
| Results.Lower | src/components/CPLResults.jsx:8 | one lower-cased character per character |
| Results.LowerAll | src/components/CPLResults.jsx:8 | one lower-cased header per header |
| Results.LowerIdempotent | src/components/CPLResults.jsx:8 | lower-casing twice is lower-casing once |
| Results.Column | src/components/CPLResults.jsx:9-12 | missing iff no header lower-cases to the name; otherwise an index whose header lower-cases to it |
| Results.FindColumns | src/components/CPLResults.jsx:8-13 | the columns are found iff `nim`, `student_name`, `mk_code` and `score` all appear among the lower-cased headers; each is the first header that lower-cases to its name |
| Results.StudentRows | src/components/CPLResults.jsx:55-59 | every per-student score dictionary is well formed |
| Results.Compute | src/components/CPLResults.jsx:4-76 | `computeResults`' result: empty unless the score rows, the mapping and the four columns are there; else the per-student rows of the propagated table and their averages sorted by the CPL order; meaning in the Compute* lemmas |
| Results.ComputeResults | src/components/CPLResults.jsx:4-76 | the method, step by step, returns the results `Compute` specifies |
| Results.ComputeDegenerate | src/components/CPLResults.jsx:5-13 | no score rows, no mapping, or a missing column gives empty results |
| Results.ComputeStudents | src/components/CPLResults.jsx:35-59 | a student is listed iff one of their rows has a full path to a CPL, and is listed once |
| Results.ComputeScores | src/components/CPLResults.jsx:37-59 | a listed student has a CPL score iff one of their rows reaches it, and the score is the sum over their rows and paths of `score * w1 * w2` |
| Results.ComputeNames | src/components/CPLResults.jsx:49-57 | a listed student's name is the one on their first row that reaches a CPL |
| Results.CplAveragesMeaning | src/components/CPLResults.jsx:62-69 | before sorting: one average per CPL some student scores, each the sum of scores over the student count |
| Results.RankedAverages | src/components/CPLResults.jsx:69-73 | sorting the averages keeps one average per scored CPL, each its mean |
| Results.ComputeAverages | src/components/CPLResults.jsx:61-73 | the averages list exactly the CPLs some student scores, once each, each the sum of students' scores over their number |
| Results.ComputeOrder | src/components/CPLResults.jsx:71-73 | with a CPL table the averages follow its order; without one they keep `cplTotals` key order |
| Scenarios.HeadersFound | src/components/CPLResults.jsx:8-13 | the headers `nim, student_name, mk_code, score` are found as columns 0 to 3 |
| Scenarios.NormOne | src/components/CPLResults.jsx:25-26 | a lone edge of any non-zero weight, negative included, normalises to weight 1 |
| Scenarios.NormHalves | src/components/CPLResults.jsx:25-26 | two edges from one source with the same non-zero weight normalise to 1/2 each |
| Scenarios.NormApart | src/components/CPLResults.jsx:20-26 | two edges of non-zero weight from different sources each normalise to 1 (a zero weight would stay 0) |
| Scenarios.SinglePath | src/components/CPLResults.jsx:4-76 | one score row on a single MK → CPMK → CPL path gives that student the score times both normalised weights (1 each), and that CPL that average |
| Scenarios.SinglePathExample | src/components/CPLResults.jsx:4-76 | student S1 scoring 80 in CS1 on a single path reaches O1 with 80, and O1 averages 80 |
| Scenarios.SplitPath | src/components/CPLResults.jsx:4-76 | a course split evenly over two CPMKs, each to its own CPL, gives the student half the score for each CPL |
| Scenarios.SplitPathExample | src/components/CPLResults.jsx:4-76 | student S2 scoring 90 in CS2 split over two outcomes gets 45 for each, and each averages 45 |

## Left out

- The React components, JSX rendering, state hooks, `useMemo` and the
  category colour (src/components/CPLResults.jsx:115) are not modelled.
  `onMappingChange` becomes the `Mapping` each `MappingManager` method
  returns.
- `toFixed(2)` display rounding (src/components/CPLResults.jsx:119) is not
  modelled; averages are exact.
- Reading the uploaded file (`await file.text()`,
  src/components/DataUploader.jsx:42-46) is not modelled: `parseCSV` takes
  the text.
- Floating point is modelled as `real`. NaN, infinities and rounding error
  are left out; an average of exact reals is exact here.
- JavaScript's `Number(...)` on a cell's text is the parameter
  `num: string -> Option<real>`, with `None` for NaN. Its parsing rules are
  not modelled.
- JavaScript objects keep integer-like keys (such as "12") ahead of other
  keys, in numeric order. The model keeps every key in insertion order, in
  `groupBy`, in `Object.values`/`Object.entries`, and for `studentCpl` and
  `cplTotals`.
- Inherited object properties are not modelled. A code like
  `constructor` or `__proto__` used as a key would look up a prototype
  member in the source; in the model it is an ordinary key.
- `mapping.mkToCpmk || []` (src/components/CPLResults.jsx:16-17): the
  model's `Mapping` always has both lists. A missing list is the empty list.
- `toLowerCase` is modelled on the ASCII letters only.
- `nilaiTable?.rows?.length`: the model's `Table` always has rows. A missing
  score table is `None`.
- `updateMkToCpmk`/`updateCpmkToCpl` take any key name in the source; the
  model's `FieldUpdate` covers the edge's own fields (source code, target
  code, weight) only.
- The weight input's `onChange` stores `Number(e.target.value)`. The model
  stores that as an `Option<real>`, with `None` for NaN. The input's 0-100
  bounds are not enforced, in the source or in the model.
- src/components/Header.jsx is not part of this model (presentation only).
- MappingEditor.Notify: its contract repeats its body (`nextA ?? current`).
  It is a helper of the class methods, not a claim.
