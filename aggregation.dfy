/** The second half of `computeResults`: the per-student rows, the per-CPL
    totals and averages, the ordering of the averages by the CPL table, and
    the category the results view gives an average. */
module Aggregation {
  import opened Common
  import opened OrderedDict
  import opened Propagation

  /** An element of `perStudent`: `{ nim, name, cplScores }`. */
  datatype StudentRow = StudentRow(nim: string, name: Option<string>, scores: Dict<real>)

  /** An element of `perCpl`: `{ cpl, average }`. */
  datatype CplAverage = CplAverage(cpl: string, average: real)

  /** `Object.entries(studentCpl).map(…)`: one row per student, in key order. */
  function PerStudent(t: Dict<Student>): (r: seq<StudentRow>)
    requires t.Valid()
    ensures |r| == |t.keys|
    ensures forall i :: 0 <= i < |r| ==> r[i].nim == t.keys[i] && r[i].nim in t.vals
                                          && r[i].name == t.vals[r[i].nim].name && r[i].scores == t.vals[r[i].nim].scores
  {
    seq(|t.keys|, i requires 0 <= i < |t.keys| => StudentRow(t.keys[i], t.vals[t.keys[i]].name, t.vals[t.keys[i]].scores))
  }

  /** Each student appears in `perStudent` once. */
  lemma PerStudentDistinct(t: Dict<Student>, i: int, j: int)
    requires t.Valid() && 0 <= i < j < |t.keys|
    ensures PerStudent(t)[i].nim != PerStudent(t)[j].nim
  {
  }

  /** `perStudent` lists exactly the students that have an entry. */
  lemma PerStudentListed(t: Dict<Student>, nim: string)
    requires t.Valid()
    ensures (exists i :: 0 <= i < |PerStudent(t)| && PerStudent(t)[i].nim == nim) <==> nim in t.vals
  {
    if nim in t.vals {
      var i :| 0 <= i < |t.keys| && t.keys[i] == nim;
      assert PerStudent(t)[i].nim == nim;
    }
  }

  /** Every score dictionary of the rows is well formed. */
  predicate ScoresValid(ps: seq<StudentRow>)
  {
    forall i :: 0 <= i < |ps| ==> ps[i].scores.Valid()
  }

  /** `cplTotals` after the rows `ps` have been added, one student after the
      other and, within a student, in the key order of its scores. */
  function Totals(ps: seq<StudentRow>): Dict<real>
    requires ScoresValid(ps)
    decreases |ps|
  {
    if ps == [] then Empty()
    else AddAll(Totals(ps[..|ps| - 1]), ps[|ps| - 1].scores.Entries())
  }

  /** Lines 62-68 of `computeResults`. */
  method CplTotals(ps: seq<StudentRow>) returns (cplTotals: Dict<real>)
    requires ScoresValid(ps)
    ensures cplTotals == Totals(ps)
  {
    cplTotals := Empty();
    for i := 0 to |ps|
      invariant cplTotals == Totals(ps[..i])
    {
      cplTotals := AddEntries(cplTotals, ps[i].scores.Entries());
      assert ps[..i + 1][..i] == ps[..i];
    }
    assert ps[..|ps|] == ps;
  }

  /** `Object.entries(s.cplScores).forEach(([cpl, val]) => …)` for one student. */
  method AddEntries(d: Dict<real>, es: seq<(string, real)>) returns (r: Dict<real>)
    ensures r == AddAll(d, es)
  {
    r := d;
    for j := 0 to |es|
      invariant r == AddAll(d, es[..j])
    {
      r := AddTo(r, es[j].0, es[j].1);
      assert es[..j + 1][..j] == es[..j];
    }
    assert es[..|es|] == es;
  }

  /** The sum over all students of their score for `cpl`, a student without
      one counting 0. */
  function ScoreSum(ps: seq<StudentRow>, cpl: string): real
    decreases |ps|
  {
    if ps == [] then 0.0 else ScoreSum(ps[..|ps| - 1], cpl) + Get(ps[|ps| - 1].scores, cpl)
  }

  /** A CPL has a total exactly when some student has a score for it, and
      the total is the sum of all students' scores for it. */
  lemma {:induction false} TotalsMeaning(ps: seq<StudentRow>, cpl: string)
    requires ScoresValid(ps)
    ensures Totals(ps).Valid()
    ensures cpl in Totals(ps).vals <==> exists i :: 0 <= i < |ps| && cpl in ps[i].scores.vals
    ensures Get(Totals(ps), cpl) == ScoreSum(ps, cpl)
    decreases |ps|
  {
    if ps != [] {
      var front := ps[..|ps| - 1];
      var last := ps[|ps| - 1];
      var es := last.scores.Entries();
      assert ScoresValid(front);
      TotalsMeaning(front, cpl);
      AddAllMeaning(Totals(front), es, cpl);
      EntriesSumKey(last.scores, cpl);
      assert forall i :: 0 <= i < |front| ==> front[i] == ps[i];
      if cpl in last.scores.vals {
        var j :| 0 <= j < |last.scores.keys| && last.scores.keys[j] == cpl;
        assert es[j].0 == cpl;
      }
    }
  }

  /** `perStudent.length || 1`. */
  function StudentCount(n: nat): (r: nat)
    ensures r >= 1
    ensures n > 0 ==> r == n
  {
    if n == 0 then 1 else n
  }

  /** `Object.entries(cplTotals).map(([cpl, total]) => ({ cpl, average: total / studentCount }))`. */
  function Averages(totals: Dict<real>, count: nat): (r: seq<CplAverage>)
    requires totals.Valid() && count > 0
    ensures |r| == |totals.keys|
    ensures forall i :: 0 <= i < |r| ==> r[i].cpl == totals.keys[i] && r[i].average == Get(totals, r[i].cpl) / count as real
  {
    seq(|totals.keys|, i requires 0 <= i < |totals.keys| => CplAverage(totals.keys[i], totals.vals[totals.keys[i]] / count as real))
  }

  // ---------------------------------------------------------------------
  // `perCpl.sort((a, b) => cplOrder.indexOf(a.cpl) - cplOrder.indexOf(b.cpl))`
  // ---------------------------------------------------------------------

  /** `cplTable.rows.map(r => r[0])`: the first cell of each row of the CPL table. */
  function TableOrder(rows: seq<seq<string>>): (r: seq<Option<string>>)
    ensures |r| == |rows|
    ensures forall i :: 0 <= i < |r| ==> r[i] == Cell(rows[i], 0)
  {
    seq(|rows|, i requires 0 <= i < |rows| => Cell(rows[i], 0))
  }

  /** `perCpl.map(x => x.cpl)`, the order used without a CPL table. */
  function CodesOf(ps: seq<CplAverage>): (r: seq<Option<string>>)
    ensures |r| == |ps|
    ensures forall i :: 0 <= i < |r| ==> r[i] == Some(ps[i].cpl)
  {
    seq(|ps|, i requires 0 <= i < |ps| => Some(ps[i].cpl))
  }

  /** `cplOrder.indexOf(a.cpl)`: -1 for a CPL the order does not list. */
  function Rank(order: seq<Option<string>>, a: CplAverage): int
  {
    IndexOf(order, Some(a.cpl))
  }

  predicate Sorted(s: seq<CplAverage>, order: seq<Option<string>>)
  {
    forall i, j :: 0 <= i < j < |s| ==> Rank(order, s[i]) <= Rank(order, s[j])
  }

  /** The members of `s` of rank `k`, in their order in `s`. */
  function WithRank(s: seq<CplAverage>, order: seq<Option<string>>, k: int): seq<CplAverage>
    decreases |s|
  {
    if s == [] then []
    else WithRank(s[..|s| - 1], order, k) + (if Rank(order, s[|s| - 1]) == k then [s[|s| - 1]] else [])
  }

  /** Puts `x` after every member of the sorted `s` whose rank is not larger. */
  function Insert(s: seq<CplAverage>, x: CplAverage, order: seq<Option<string>>): seq<CplAverage>
    decreases |s|
  {
    if s == [] || Rank(order, s[|s| - 1]) <= Rank(order, x) then s + [x]
    else Insert(s[..|s| - 1], x, order) + [s[|s| - 1]]
  }

  /** `Array.prototype.sort` with the comparator above. The sort is stable,
      and a comparator that subtracts ranks admits one stable result, so any
      stable sort gives this sequence. */
  function SortByRank(s: seq<CplAverage>, order: seq<Option<string>>): seq<CplAverage>
    decreases |s|
  {
    if s == [] then [] else Insert(SortByRank(s[..|s| - 1], order), s[|s| - 1], order)
  }

  lemma {:induction false} InsertPermutes(s: seq<CplAverage>, x: CplAverage, order: seq<Option<string>>)
    ensures multiset(Insert(s, x, order)) == multiset(s) + multiset{x}
    decreases |s|
  {
    if !(s == [] || Rank(order, s[|s| - 1]) <= Rank(order, x)) {
      var front := s[..|s| - 1];
      InsertPermutes(front, x, order);
      assert s == front + [s[|s| - 1]];
    }
  }

  lemma {:induction false} InsertSorted(s: seq<CplAverage>, x: CplAverage, order: seq<Option<string>>)
    requires Sorted(s, order)
    ensures Sorted(Insert(s, x, order), order)
    decreases |s|
  {
    if !(s == [] || Rank(order, s[|s| - 1]) <= Rank(order, x)) {
      var front := s[..|s| - 1];
      var last := s[|s| - 1];
      InsertSorted(front, x, order);
      InsertPermutes(front, x, order);
      var ins := Insert(front, x, order);
      forall i | 0 <= i < |ins|
        ensures Rank(order, ins[i]) <= Rank(order, last)
      {
        assert ins[i] in multiset(ins);
        assert ins[i] in multiset(front) + multiset{x};
        if ins[i] != x {
          assert ins[i] in front;
        }
      }
    }
  }

  lemma {:induction false} WithRankAppend(a: seq<CplAverage>, b: seq<CplAverage>, order: seq<Option<string>>, k: int)
    ensures WithRank(a + b, order, k) == WithRank(a, order, k) + WithRank(b, order, k)
    decreases |b|
  {
    if b == [] {
      assert a + b == a;
    } else {
      assert (a + b)[..|a + b| - 1] == a + b[..|b| - 1];
      WithRankAppend(a, b[..|b| - 1], order, k);
    }
  }

  lemma {:induction false} InsertStable(s: seq<CplAverage>, x: CplAverage, order: seq<Option<string>>, k: int)
    ensures WithRank(Insert(s, x, order), order, k)
         == WithRank(s, order, k) + (if Rank(order, x) == k then [x] else [])
    decreases |s|
  {
    if s == [] || Rank(order, s[|s| - 1]) <= Rank(order, x) {
      WithRankAppend(s, [x], order, k);
      assert [x][..0] == [];
    } else {
      var front := s[..|s| - 1];
      var last := s[|s| - 1];
      InsertStable(front, x, order, k);
      WithRankAppend(Insert(front, x, order), [last], order, k);
      assert [last][..0] == [];
    }
  }

  /** The sorted averages are ordered by rank, so CPLs the table does not
      list (rank -1) come first. */
  lemma {:induction false} SortByRankSorted(s: seq<CplAverage>, order: seq<Option<string>>)
    ensures Sorted(SortByRank(s, order), order)
    decreases |s|
  {
    if s != [] {
      SortByRankSorted(s[..|s| - 1], order);
      InsertSorted(SortByRank(s[..|s| - 1], order), s[|s| - 1], order);
    }
  }

  /** Sorting only reorders the averages. */
  lemma {:induction false} SortByRankPermutes(s: seq<CplAverage>, order: seq<Option<string>>)
    ensures multiset(SortByRank(s, order)) == multiset(s)
    decreases |s|
  {
    if s != [] {
      var front := s[..|s| - 1];
      SortByRankPermutes(front, order);
      InsertPermutes(SortByRank(front, order), s[|s| - 1], order);
      assert s == front + [s[|s| - 1]];
    }
  }

  /** Averages of equal rank keep their relative order. */
  lemma {:induction false} SortByRankStable(s: seq<CplAverage>, order: seq<Option<string>>, k: int)
    ensures WithRank(SortByRank(s, order), order, k) == WithRank(s, order, k)
    decreases |s|
  {
    if s != [] {
      var front := s[..|s| - 1];
      SortByRankStable(front, order, k);
      InsertStable(SortByRank(front, order), s[|s| - 1], order, k);
    }
  }

  /** No CPL is listed twice. */
  predicate CplsDistinct(s: seq<CplAverage>)
  {
    forall k, l :: 0 <= k < l < |s| ==> s[k].cpl != s[l].cpl
  }

  /** Sorting neither adds nor drops an average. */
  lemma SortByRankMembers(s: seq<CplAverage>, order: seq<Option<string>>)
    ensures forall a :: a in SortByRank(s, order) <==> a in s
  {
    SortByRankPermutes(s, order);
    forall a
      ensures a in SortByRank(s, order) <==> a in s
    {
      assert a in SortByRank(s, order) <==> a in multiset(SortByRank(s, order));
      assert a in s <==> a in multiset(s);
    }
  }

  lemma {:induction false} InsertDistinct(s: seq<CplAverage>, x: CplAverage, order: seq<Option<string>>)
    requires CplsDistinct(s)
    requires forall y :: y in s ==> y.cpl != x.cpl
    ensures CplsDistinct(Insert(s, x, order))
    decreases |s|
  {
    if !(s == [] || Rank(order, s[|s| - 1]) <= Rank(order, x)) {
      var front := s[..|s| - 1];
      var last := s[|s| - 1];
      assert CplsDistinct(front);
      InsertDistinct(front, x, order);
      InsertPermutes(front, x, order);
      var ins := Insert(front, x, order);
      forall i | 0 <= i < |ins|
        ensures ins[i].cpl != last.cpl
      {
        assert ins[i] in multiset(front) + multiset{x};
        if ins[i] != x {
          var j :| 0 <= j < |front| && front[j] == ins[i];
        }
      }
    }
  }

  /** Sorting keeps the CPLs distinct. */
  lemma {:induction false} SortByRankDistinct(s: seq<CplAverage>, order: seq<Option<string>>)
    requires CplsDistinct(s)
    ensures CplsDistinct(SortByRank(s, order))
    decreases |s|
  {
    if s != [] {
      var front := s[..|s| - 1];
      var last := s[|s| - 1];
      assert CplsDistinct(front);
      SortByRankDistinct(front, order);
      SortByRankMembers(front, order);
      forall y | y in SortByRank(front, order)
        ensures y.cpl != last.cpl
      {
        var j :| 0 <= j < |front| && front[j] == y;
      }
      InsertDistinct(SortByRank(front, order), last, order);
    }
  }

  /** Averages already in rank order stay where they are. */
  lemma {:induction false} SortByRankSortedInput(s: seq<CplAverage>, order: seq<Option<string>>)
    requires Sorted(s, order)
    ensures SortByRank(s, order) == s
    decreases |s|
  {
    if s != [] {
      var front := s[..|s| - 1];
      var last := s[|s| - 1];
      forall i, j | 0 <= i < j < |front|
        ensures Rank(order, front[i]) <= Rank(order, front[j])
      {
        assert front[i] == s[i] && front[j] == s[j];
      }
      SortByRankSortedInput(front, order);
      if front != [] {
        assert Rank(order, front[|front| - 1]) <= Rank(order, last);
      }
      assert s == front + [last];
    }
  }

  /** Without a CPL table every CPL ranks by its own position, so the
      averages keep the order of `cplTotals`. */
  lemma SortWithoutTable(ps: seq<CplAverage>)
    requires forall i, j :: 0 <= i < j < |ps| ==> ps[i].cpl != ps[j].cpl
    ensures SortByRank(ps, CodesOf(ps)) == ps
  {
    var order := CodesOf(ps);
    forall i | 0 <= i < |ps|
      ensures Rank(order, ps[i]) == i
    {
      assert Distinct(order);
      IndexOfDistinct(order, i);
    }
    SortByRankSortedInput(ps, order);
  }

  /** The CPL that the table lists first among those present comes first,
      and CPLs the table does not list come before all listed ones. */
  lemma UnlistedFirst(s: seq<CplAverage>, order: seq<Option<string>>, i: int, j: int)
    requires 0 <= i < |SortByRank(s, order)| && 0 <= j < |SortByRank(s, order)|
    requires Some(SortByRank(s, order)[i].cpl) !in order
    requires Some(SortByRank(s, order)[j].cpl) in order
    ensures i < j
  {
    SortByRankSorted(s, order);
  }

  // ---------------------------------------------------------------------
  // The category of an average (the results view)
  // ---------------------------------------------------------------------

  datatype Category = SangatBaik | Baik | Cukup | Kurang
  {
    /** The label the view shows. */
    function Label(): string
    {
      match this
      case SangatBaik => "Sangat Baik"
      case Baik => "Baik"
      case Cukup => "Cukup"
      case Kurang => "Kurang"
    }

    /** 3 for the best category down to 0 for the lowest. */
    function Level(): nat
    {
      match this
      case SangatBaik => 3
      case Baik => 2
      case Cukup => 1
      case Kurang => 0
    }
  }

  /** At least 85 is "Sangat Baik", at least 70 "Baik", at least 55 "Cukup",
      anything lower "Kurang". */
  function CategoryOf(avg: real): (c: Category)
    ensures c == SangatBaik <==> avg >= 85.0
    ensures c == Baik <==> 70.0 <= avg < 85.0
    ensures c == Cukup <==> 55.0 <= avg < 70.0
    ensures c == Kurang <==> avg < 55.0
  {
    if avg >= 85.0 then SangatBaik else if avg >= 70.0 then Baik else if avg >= 55.0 then Cukup else Kurang
  }

  /** A higher average never gets a lower category. */
  lemma CategoryMonotone(a: real, b: real)
    requires a <= b
    ensures CategoryOf(a).Level() <= CategoryOf(b).Level()
  {
  }

  /** The labels are distinct, so the label determines the category. */
  lemma LabelsDistinct(c: Category, d: Category)
    requires c.Label() == d.Label()
    ensures c == d
  {
  }
}
