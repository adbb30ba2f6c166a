/** `computeResults` as a whole: the column lookup, the early empty results,
    and the pipeline normalise → propagate → aggregate → order. */
module Results {
  import opened Common
  import opened OrderedDict
  import opened Weights
  import opened Propagation
  import opened Aggregation

  /** `{ perStudent, perCpl }`. */
  datatype Results = Results(perStudent: seq<StudentRow>, perCpl: seq<CplAverage>)

  /** `toLowerCase` on the ASCII letters. */
  function LowerChar(c: char): char
  {
    if 'A' <= c <= 'Z' then (c as int + 32) as char else c
  }

  /** `h.toLowerCase()`. */
  function Lower(s: string): (r: string)
    ensures |r| == |s|
    ensures forall i :: 0 <= i < |s| ==> r[i] == LowerChar(s[i])
  {
    seq(|s|, i requires 0 <= i < |s| => LowerChar(s[i]))
  }

  /** `nilaiTable.headers.map(h => h.toLowerCase())`. */
  function LowerAll(hs: seq<string>): (r: seq<string>)
    ensures |r| == |hs|
    ensures forall i :: 0 <= i < |hs| ==> r[i] == Lower(hs[i])
  {
    seq(|hs|, i requires 0 <= i < |hs| => Lower(hs[i]))
  }

  /** Lower-casing twice changes nothing more, so a header that is already
      lower case matches as written. */
  lemma LowerIdempotent(s: string)
    ensures Lower(Lower(s)) == Lower(s)
  {
  }

  /** The first header that lower-cases to `name`, if any. */
  function Column(hs: seq<string>, name: string): (r: Option<nat>)
    ensures r.None? <==> name !in LowerAll(hs)
    ensures r.Some? ==> r.value < |hs| && Lower(hs[r.value]) == name
                        && forall j :: 0 <= j < r.value ==> Lower(hs[j]) != name
  {
    var i := IndexOf(LowerAll(hs), name);
    if i < 0 then None
    else
      assert forall j :: 0 <= j < i ==> LowerAll(hs)[..i][j] == Lower(hs[j]);
      Some(i)
  }

  /** The four columns the score table must have, found case-insensitively;
      `None` when any of them is missing. */
  function FindColumns(hs: seq<string>): (r: Option<Columns>)
    ensures r.None? <==> "nim" !in LowerAll(hs) || "student_name" !in LowerAll(hs)
                         || "mk_code" !in LowerAll(hs) || "score" !in LowerAll(hs)
    ensures r.Some? ==> && Column(hs, "nim") == Some(r.value.nim)
                        && Column(hs, "student_name") == Some(r.value.name)
                        && Column(hs, "mk_code") == Some(r.value.mk)
                        && Column(hs, "score") == Some(r.value.score)
  {
    match (Column(hs, "nim"), Column(hs, "student_name"), Column(hs, "mk_code"), Column(hs, "score"))
    case (Some(a), Some(b), Some(c), Some(d)) => Some(Columns(a, b, c, d))
    case _ => None
  }

  /** The tables are there, the score table has rows and all four columns. */
  predicate Proceeds(nilai: Option<Table>, mapping: Option<Mapping>)
  {
    nilai.Some? && |nilai.value.rows| > 0 && mapping.Some? && FindColumns(nilai.value.headers).Some?
  }

  /** What the propagation loop reads, once `computeResults` gets that far. */
  function ContextOf(nilai: Option<Table>, mapping: Option<Mapping>, num: string -> Option<real>): Context
    requires Proceeds(nilai, mapping)
  {
    Context(FindColumns(nilai.value.headers).value,
            Normalized(mapping.value.mkToCpmk), Normalized(mapping.value.cpmkToCpl), num)
  }

  /** `cplTable?.rows?.map(r => r[0]) || perCpl.map(x => x.cpl)`. */
  function OrderOf(cplTable: Option<Table>, avgs: seq<CplAverage>): seq<Option<string>>
  {
    if cplTable.Some? then TableOrder(cplTable.value.rows) else CodesOf(avgs)
  }

  /** The per-student rows for the score rows under `ctx`. */
  function StudentRows(rows: seq<seq<string>>, ctx: Context): (r: seq<StudentRow>)
    ensures ScoresValid(r)
  {
    StudentTableWellFormed(rows, ctx);
    PerStudent(StudentTable(rows, ctx))
  }

  /** The per-CPL averages, in `cplTotals` key order, before sorting. */
  function CplAverages(ps: seq<StudentRow>): seq<CplAverage>
    requires ScoresValid(ps)
  {
    TotalsMeaning(ps, "");
    Averages(Totals(ps), StudentCount(|ps|))
  }

  /** `computeResults({ nilaiTable, mapping, cplTable })`. */
  function Compute(nilai: Option<Table>, mapping: Option<Mapping>, cplTable: Option<Table>,
                   num: string -> Option<real>): Results
  {
    if !Proceeds(nilai, mapping) then Results([], [])
    else
      var ps := StudentRows(nilai.value.rows, ContextOf(nilai, mapping, num));
      var avgs := CplAverages(ps);
      Results(ps, SortByRank(avgs, OrderOf(cplTable, avgs)))
  }

  /** Lines 4-76 of `CPLResults.jsx`, step by step. */
  method ComputeResults(nilai: Option<Table>, mapping: Option<Mapping>, cplTable: Option<Table>,
                        num: string -> Option<real>) returns (r: Results)
    ensures r == Compute(nilai, mapping, cplTable, num)
  {
    if nilai.None? || |nilai.value.rows| == 0 || mapping.None? {
      return Results([], []);
    }
    var cols := FindColumns(nilai.value.headers);
    if cols.None? {
      return Results([], []);
    }
    var mkToCpmkN := NormWeights(mapping.value.mkToCpmk);
    var cpmkToCplN := NormWeights(mapping.value.cpmkToCpl);
    var ctx := Context(cols.value, mkToCpmkN, cpmkToCplN, num);
    var studentCpl := Propagate(nilai.value.rows, ctx);
    StudentTableWellFormed(nilai.value.rows, ctx);
    var perStudent := PerStudent(studentCpl);
    var cplTotals := CplTotals(perStudent);
    TotalsMeaning(perStudent, "");
    var perCpl := Averages(cplTotals, StudentCount(|perStudent|));
    var cplOrder := OrderOf(cplTable, perCpl);
    r := Results(perStudent, SortByRank(perCpl, cplOrder));
  }

  // ---------------------------------------------------------------------
  // What the results say
  // ---------------------------------------------------------------------

  /** Without scores, without a mapping, or without one of the four
      columns, both lists are empty. */
  lemma ComputeDegenerate(nilai: Option<Table>, mapping: Option<Mapping>, cplTable: Option<Table>,
                          num: string -> Option<real>)
    requires !Proceeds(nilai, mapping)
    ensures Compute(nilai, mapping, cplTable, num) == Results([], [])
  {
  }

  /** A student is listed exactly when one of their score rows reaches some
      CPL through a full MK → CPMK → CPL path; each is listed once. */
  lemma ComputeStudents(nilai: Option<Table>, mapping: Option<Mapping>, cplTable: Option<Table>,
                        num: string -> Option<real>, nim: string)
    requires Proceeds(nilai, mapping)
    ensures var ps := Compute(nilai, mapping, cplTable, num).perStudent;
            (exists i :: 0 <= i < |ps| && ps[i].nim == nim)
              <==> exists j :: 0 <= j < |nilai.value.rows| && Contributes(nilai.value.rows[j], ContextOf(nilai, mapping, num), nim)
    ensures var ps := Compute(nilai, mapping, cplTable, num).perStudent;
            forall i, j :: 0 <= i < j < |ps| ==> ps[i].nim != ps[j].nim
  {
    var rows := nilai.value.rows;
    var ctx := ContextOf(nilai, mapping, num);
    var t := StudentTable(rows, ctx);
    StudentTableWellFormed(rows, ctx);
    StudentTableStudents(rows, ctx, nim);
    PerStudentListed(t, nim);
    assert Compute(nilai, mapping, cplTable, num).perStudent == PerStudent(t);
  }

  /** Each listed student's score for a CPL is there exactly when one of
      their rows reaches that CPL, and is the sum over their rows of
      `score * w1 * w2` over every path to it. */
  lemma ComputeScores(nilai: Option<Table>, mapping: Option<Mapping>, cplTable: Option<Table>,
                      num: string -> Option<real>, i: int, cpl: string)
    requires Proceeds(nilai, mapping)
    requires 0 <= i < |Compute(nilai, mapping, cplTable, num).perStudent|
    ensures var s := Compute(nilai, mapping, cplTable, num).perStudent[i];
            var ctx := ContextOf(nilai, mapping, num);
            && (cpl in s.scores.vals <==> exists j :: 0 <= j < |nilai.value.rows|
                                                 && NimOf(nilai.value.rows[j], ctx) == s.nim
                                                 && Reaches(nilai.value.rows[j], ctx, cpl))
            && Get(s.scores, cpl) == StudentScore(nilai.value.rows, ctx, s.nim, cpl)
  {
    var rows := nilai.value.rows;
    var ctx := ContextOf(nilai, mapping, num);
    StudentTableWellFormed(rows, ctx);
    var s := PerStudent(StudentTable(rows, ctx))[i];
    StudentTableHasScore(rows, ctx, s.nim, cpl);
    StudentTableScores(rows, ctx, s.nim, cpl);
  }

  /** Each listed student carries the name from their first score row that
      reaches a CPL. */
  lemma ComputeNames(nilai: Option<Table>, mapping: Option<Mapping>, cplTable: Option<Table>,
                     num: string -> Option<real>, i: int, j: int)
    requires Proceeds(nilai, mapping)
    requires 0 <= i < |Compute(nilai, mapping, cplTable, num).perStudent|
    requires 0 <= j < |nilai.value.rows|
    requires Contributes(nilai.value.rows[j], ContextOf(nilai, mapping, num), Compute(nilai, mapping, cplTable, num).perStudent[i].nim)
    requires forall k :: 0 <= k < j ==> !Contributes(nilai.value.rows[k], ContextOf(nilai, mapping, num),
                                                     Compute(nilai, mapping, cplTable, num).perStudent[i].nim)
    ensures Compute(nilai, mapping, cplTable, num).perStudent[i].name == NameOf(nilai.value.rows[j], ContextOf(nilai, mapping, num))
  {
    var rows := nilai.value.rows;
    var ctx := ContextOf(nilai, mapping, num);
    StudentTableWellFormed(rows, ctx);
    var s := PerStudent(StudentTable(rows, ctx))[i];
    StudentTableName(rows, ctx, s.nim, j);
  }

  /** Before sorting: one average per CPL some student has a score for,
      each the sum of all students' scores for it over the number of students. */
  lemma CplAveragesMeaning(ps: seq<StudentRow>, cpl: string)
    requires ScoresValid(ps)
    ensures (exists k :: 0 <= k < |CplAverages(ps)| && CplAverages(ps)[k].cpl == cpl)
              <==> exists i :: 0 <= i < |ps| && cpl in ps[i].scores.vals
    ensures forall k :: 0 <= k < |CplAverages(ps)| ==>
              CplAverages(ps)[k].average == ScoreSum(ps, CplAverages(ps)[k].cpl) / |ps| as real
    ensures CplsDistinct(CplAverages(ps))
  {
    var avgs := CplAverages(ps);
    var totals := Totals(ps);
    TotalsMeaning(ps, cpl);
    forall k | 0 <= k < |avgs|
      ensures avgs[k].average == ScoreSum(ps, avgs[k].cpl) / |ps| as real
    {
      TotalsMeaning(ps, avgs[k].cpl);
      assert totals.keys[k] in totals.vals;
    }
    if cpl in totals.vals {
      var j :| 0 <= j < |totals.keys| && totals.keys[j] == cpl;
      assert avgs[j].cpl == cpl;
    }
  }

  /** Sorting the averages into any order keeps what they say: one per CPL
      some student has a score for, each that CPL's mean. */
  lemma RankedAverages(ps: seq<StudentRow>, order: seq<Option<string>>, cpl: string)
    requires ScoresValid(ps)
    ensures (exists a :: a in SortByRank(CplAverages(ps), order) && a.cpl == cpl)
              <==> exists i :: 0 <= i < |ps| && cpl in ps[i].scores.vals
    ensures forall a :: a in SortByRank(CplAverages(ps), order) ==> a.average == ScoreSum(ps, a.cpl) / |ps| as real
    ensures CplsDistinct(SortByRank(CplAverages(ps), order))
  {
    var avgs := CplAverages(ps);
    var sorted := SortByRank(avgs, order);
    CplAveragesMeaning(ps, cpl);
    SortByRankMembers(avgs, order);
    SortByRankDistinct(avgs, order);
    if exists k :: 0 <= k < |avgs| && avgs[k].cpl == cpl {
      var k :| 0 <= k < |avgs| && avgs[k].cpl == cpl;
      assert avgs[k] in sorted;
    }
    if exists a :: a in sorted && a.cpl == cpl {
      var a :| a in sorted && a.cpl == cpl;
      var k :| 0 <= k < |avgs| && avgs[k] == a;
    }
    forall a | a in sorted
      ensures a.average == ScoreSum(ps, a.cpl) / |ps| as real
    {
      var k :| 0 <= k < |avgs| && avgs[k] == a;
    }
  }

  /** The averages list each CPL some student has a score for, once, and
      nothing else; each average is the sum of all listed students' scores
      for it (0 for a student without one) over the number of students. */
  lemma ComputeAverages(nilai: Option<Table>, mapping: Option<Mapping>, cplTable: Option<Table>,
                        num: string -> Option<real>, cpl: string)
    ensures var r := Compute(nilai, mapping, cplTable, num);
            (exists a :: a in r.perCpl && a.cpl == cpl)
              <==> exists i :: 0 <= i < |r.perStudent| && cpl in r.perStudent[i].scores.vals
    ensures var r := Compute(nilai, mapping, cplTable, num);
            forall a :: a in r.perCpl ==> a.average == ScoreSum(r.perStudent, a.cpl) / |r.perStudent| as real
    ensures CplsDistinct(Compute(nilai, mapping, cplTable, num).perCpl)
  {
    if Proceeds(nilai, mapping) {
      var ps := Compute(nilai, mapping, cplTable, num).perStudent;
      RankedAverages(ps, OrderOf(cplTable, CplAverages(ps)), cpl);
    }
  }

  /** The averages come in the order of the CPL table when there is one
      (unlisted CPLs first), and in `cplTotals` key order otherwise. */
  lemma ComputeOrder(nilai: Option<Table>, mapping: Option<Mapping>, cplTable: Option<Table>,
                     num: string -> Option<real>)
    ensures var r := Compute(nilai, mapping, cplTable, num);
            cplTable.Some? ==> Sorted(r.perCpl, TableOrder(cplTable.value.rows))
    ensures var r := Compute(nilai, mapping, cplTable, num);
            Proceeds(nilai, mapping) && cplTable.None? ==> r.perCpl == CplAverages(r.perStudent)
  {
    if Proceeds(nilai, mapping) {
      var ps := Compute(nilai, mapping, cplTable, num).perStudent;
      var avgs := CplAverages(ps);
      SortByRankSorted(avgs, OrderOf(cplTable, avgs));
      if cplTable.None? {
        TotalsMeaning(ps, "");
        SortWithoutTable(avgs);
      }
    }
  }
}
