/** The score propagation loop of `computeResults`: every score row is pushed
    along each MK → CPMK edge of its course and each CPMK → CPL edge of that
    CPMK, and `Amount(score, m1.w, m2.w)` is added into `studentCpl[nim].cplScores[cpl]`. */
module Propagation {
  import opened Common
  import opened OrderedDict
  import opened Weights

  /** The positions of the `nim`, `student_name`, `mk_code` and `score` columns. */
  datatype Columns = Columns(nim: nat, name: nat, mk: nat, score: nat)

  /** What the loop reads besides the rows: the columns, both normalised edge
      lists, and JavaScript's `Number` applied to a cell's text (`None` for `NaN`). */
  datatype Context = Context(cols: Columns, n1: seq<NormEdge>, n2: seq<NormEdge>, num: string -> Option<real>)

  /** An entry of `studentCpl`: `{ name, cplScores }`. The name is `None`
      when the row had no such cell. */
  datatype Student = Student(name: Option<string>, scores: Dict<real>)

  /** One path's addition: `Amount(score, m1.w, m2.w)` for student `nim` and outcome `cpl`. */
  datatype Contribution = Contribution(nim: string, name: Option<string>, cpl: string, amount: real)

  /** `score * m1.w * m2.w`: what one path adds. */
  function Amount(score: real, w1: real, w2: real): real
  {
    score * w1 * w2
  }

  /** The property key a cell becomes when it indexes an object:
      a missing cell (`undefined`) becomes the key "undefined". */
  function KeyOf(c: Option<string>): string
  {
    if c.Some? then c.value else "undefined"
  }

  /** `Number(r[idxScore]) || 0`; `Number(undefined)` is `NaN`. */
  function ScoreOf(row: seq<string>, ctx: Context): real
  {
    match Cell(row, ctx.cols.score)
    case None => 0.0
    case Some(s) => Num(ctx.num(s))
  }

  function NimOf(row: seq<string>, ctx: Context): string { KeyOf(Cell(row, ctx.cols.nim)) }
  function NameOf(row: seq<string>, ctx: Context): Option<string> { Cell(row, ctx.cols.name) }

  /** `mkToCpmkN.filter(m => m.mk === mk)`; an `undefined` course code matches no edge. */
  function EdgesFrom(n1: seq<NormEdge>, mk: Option<string>): seq<NormEdge>
  {
    if mk.Some? then GroupOf(n1, NormSource, mk.value) else []
  }

  /** The additions made by `chain.forEach(m2 => …)` for one MK → CPMK edge `m1`. */
  function ChainContribs(nim: string, name: Option<string>, score: real, m1: NormEdge, chain: seq<NormEdge>): seq<Contribution>
    decreases |chain|
  {
    if chain == [] then []
    else
      var m2 := chain[|chain| - 1];
      ChainContribs(nim, name, score, m1, chain[..|chain| - 1]) + [Contribution(nim, name, m2.edge.dst, Amount(score, m1.w, m2.w))]
  }

  /** The additions made by `mkCpmk.forEach(m1 => …)` for one score row. */
  function EdgeContribs(nim: string, name: Option<string>, score: real, m1s: seq<NormEdge>, n2: seq<NormEdge>): seq<Contribution>
    decreases |m1s|
  {
    if m1s == [] then []
    else
      var m1 := m1s[|m1s| - 1];
      EdgeContribs(nim, name, score, m1s[..|m1s| - 1], n2) + ChainContribs(nim, name, score, m1, GroupOf(n2, NormSource, m1.edge.dst))
  }

  /** The additions made for one score row, in the order the loop makes them. */
  function RowContribs(row: seq<string>, ctx: Context): seq<Contribution>
  {
    EdgeContribs(NimOf(row, ctx), NameOf(row, ctx), ScoreOf(row, ctx),
                 EdgesFrom(ctx.n1, Cell(row, ctx.cols.mk)), ctx.n2)
  }

  /** The additions made for all rows, in order. */
  function AllContribs(rows: seq<seq<string>>, ctx: Context): seq<Contribution>
    decreases |rows|
  {
    if rows == [] then [] else AllContribs(rows[..|rows| - 1], ctx) + RowContribs(rows[|rows| - 1], ctx)
  }

  /** One addition: create `studentCpl[nim] = { name, cplScores: {} }` if it
      is missing, then `cplScores[cpl] = (cplScores[cpl] || 0) + contrib`. */
  function Record(t: Dict<Student>, c: Contribution): Dict<Student>
  {
    var s := if c.nim in t.vals then t.vals[c.nim] else Student(c.name, Empty());
    t.Put(c.nim, Student(s.name, AddTo(s.scores, c.cpl, c.amount)))
  }

  /** The additions of `cs` made one after the other, starting from `t`. */
  function Fold(t: Dict<Student>, cs: seq<Contribution>): Dict<Student>
    decreases |cs|
  {
    if cs == [] then t else Record(Fold(t, cs[..|cs| - 1]), cs[|cs| - 1])
  }

  /** The `studentCpl` dictionary the loop over the score rows builds. */
  function StudentTable(rows: seq<seq<string>>, ctx: Context): Dict<Student>
  {
    Fold(Empty(), AllContribs(rows, ctx))
  }

  /** Lines 33-53 of `computeResults`: index the CPMK → CPL edges by CPMK,
      then walk every score row along its paths, recording each addition. */
  method Propagate(rows: seq<seq<string>>, ctx: Context) returns (studentCpl: Dict<Student>)
    ensures studentCpl == StudentTable(rows, ctx)
  {
    var cpmkToCplMap := GroupBy(ctx.n2, NormSource);
    studentCpl := Empty();
    for i := 0 to |rows|
      invariant studentCpl == StudentTable(rows[..i], ctx)
    {
      studentCpl := PropagateRow(studentCpl, rows[i], ctx, cpmkToCplMap);
      assert rows[..i + 1][..i] == rows[..i];
      FoldAppend(Empty(), AllContribs(rows[..i], ctx), RowContribs(rows[i], ctx));
    }
    assert rows[..|rows|] == rows;
  }

  /** The body of `nilaiRows.forEach(r => …)` for one row. */
  method PropagateRow(t: Dict<Student>, r: seq<string>, ctx: Context, cpmkToCplMap: Dict<seq<NormEdge>>)
    returns (studentCpl: Dict<Student>)
    requires cpmkToCplMap.Valid() && cpmkToCplMap.keys == KeysOf(ctx.n2, NormSource)
    requires forall k :: k in cpmkToCplMap.vals ==> cpmkToCplMap.vals[k] == GroupOf(ctx.n2, NormSource, k)
    ensures studentCpl == Fold(t, RowContribs(r, ctx))
  {
    var nim := NimOf(r, ctx);
    var name := NameOf(r, ctx);
    var score := ScoreOf(r, ctx);
    var mkCpmk := EdgesFrom(ctx.n1, Cell(r, ctx.cols.mk));
    studentCpl := t;
    for j := 0 to |mkCpmk|
      invariant studentCpl == Fold(t, EdgeContribs(nim, name, score, mkCpmk[..j], ctx.n2))
    {
      var m1 := mkCpmk[j];
      var chain := if m1.edge.dst in cpmkToCplMap.vals then cpmkToCplMap.vals[m1.edge.dst] else [];
      if m1.edge.dst !in cpmkToCplMap.vals {
        assert m1.edge.dst !in KeysOf(ctx.n2, NormSource);
        GroupOfAbsent(ctx.n2, NormSource, m1.edge.dst);
      }
      ghost var atEdge := studentCpl;
      studentCpl := PropagateChain(studentCpl, nim, name, score, m1, chain);
      EdgeContribsSnoc(nim, name, score, mkCpmk, ctx.n2, j);
      FoldAppend(t, EdgeContribs(nim, name, score, mkCpmk[..j], ctx.n2), ChainContribs(nim, name, score, m1, chain));
    }
    assert mkCpmk[..|mkCpmk|] == mkCpmk;
  }

  /** The body of `chain.forEach(m2 => …)` for one MK → CPMK edge. */
  method PropagateChain(t: Dict<Student>, nim: string, name: Option<string>, score: real, m1: NormEdge, chain: seq<NormEdge>)
    returns (studentCpl: Dict<Student>)
    ensures studentCpl == Fold(t, ChainContribs(nim, name, score, m1, chain))
  {
    studentCpl := t;
    for k := 0 to |chain|
      invariant studentCpl == Fold(t, ChainContribs(nim, name, score, m1, chain[..k]))
    {
      var m2 := chain[k];
      var contrib := Amount(score, m1.w, m2.w);
      ChainContribsSnoc(nim, name, score, m1, chain, k);
      FoldSnoc(t, ChainContribs(nim, name, score, m1, chain[..k]), Contribution(nim, name, m2.edge.dst, contrib));
      studentCpl := AddContribution(studentCpl, nim, name, m2.edge.dst, contrib);
    }
    assert chain[..|chain|] == chain;
  }

  /** One addition, as the loop writes it: create the student's entry if it
      is missing, then add to the outcome's score. */
  method AddContribution(t: Dict<Student>, nim: string, name: Option<string>, cpl: string, contrib: real)
    returns (studentCpl: Dict<Student>)
    ensures studentCpl == Record(t, Contribution(nim, name, cpl, contrib))
  {
    studentCpl := t;
    if nim !in studentCpl.vals {
      studentCpl := studentCpl.Put(nim, Student(name, Empty()));
    }
    var s := studentCpl.vals[nim];
    studentCpl := studentCpl.Put(nim, Student(s.name, AddTo(s.scores, cpl, contrib)));
  }

  lemma ChainContribsSnoc(nim: string, name: Option<string>, score: real, m1: NormEdge, chain: seq<NormEdge>, k: int)
    requires 0 <= k < |chain|
    ensures ChainContribs(nim, name, score, m1, chain[..k + 1])
         == ChainContribs(nim, name, score, m1, chain[..k]) + [Contribution(nim, name, chain[k].edge.dst, Amount(score, m1.w, chain[k].w))]
  {
    assert chain[..k + 1][..k] == chain[..k];
  }

  lemma EdgeContribsSnoc(nim: string, name: Option<string>, score: real, m1s: seq<NormEdge>, n2: seq<NormEdge>, j: int)
    requires 0 <= j < |m1s|
    ensures EdgeContribs(nim, name, score, m1s[..j + 1], n2)
         == EdgeContribs(nim, name, score, m1s[..j], n2) + ChainContribs(nim, name, score, m1s[j], GroupOf(n2, NormSource, m1s[j].edge.dst))
  {
    assert m1s[..j + 1][..j] == m1s[..j];
  }

  lemma FoldSnoc(t: Dict<Student>, cs: seq<Contribution>, c: Contribution)
    ensures Fold(t, cs + [c]) == Record(Fold(t, cs), c)
  {
    assert (cs + [c])[..|cs|] == cs;
  }

  lemma {:induction false} FoldAppend(t: Dict<Student>, a: seq<Contribution>, b: seq<Contribution>)
    ensures Fold(t, a + b) == Fold(Fold(t, a), b)
    decreases |b|
  {
    if b == [] {
      assert a + b == a;
    } else {
      var front := b[..|b| - 1];
      assert a + b == (a + front) + [b[|b| - 1]];
      FoldSnoc(t, a + front, b[|b| - 1]);
      FoldAppend(t, a, front);
    }
  }

  // ---------------------------------------------------------------------
  // What a sequence of additions builds
  // ---------------------------------------------------------------------

  /** Every student entry is well formed, and so is its score dictionary. */
  predicate WellFormed(t: Dict<Student>)
  {
    t.Valid() && forall k :: k in t.vals ==> t.vals[k].scores.Valid()
  }

  /** The scores of `nim`, or an empty dictionary when `nim` has no entry. */
  function ScoresOf(t: Dict<Student>, nim: string): Dict<real>
  {
    if nim in t.vals then t.vals[nim].scores else Empty()
  }

  /** The sum of the amounts of `cs` added for student `nim` and outcome `cpl`. */
  function SumFor(cs: seq<Contribution>, nim: string, cpl: string): real
    decreases |cs|
  {
    if cs == [] then 0.0
    else
      var c := cs[|cs| - 1];
      SumFor(cs[..|cs| - 1], nim, cpl) + (if c.nim == nim && c.cpl == cpl then c.amount else 0.0)
  }

  lemma {:induction false} SumForAppend(a: seq<Contribution>, b: seq<Contribution>, nim: string, cpl: string)
    ensures SumFor(a + b, nim, cpl) == SumFor(a, nim, cpl) + SumFor(b, nim, cpl)
    decreases |b|
  {
    if b == [] {
      assert a + b == a;
    } else {
      assert (a + b)[..|a + b| - 1] == a + b[..|b| - 1];
      SumForAppend(a, b[..|b| - 1], nim, cpl);
    }
  }

  lemma {:induction false} FoldWellFormed(t: Dict<Student>, cs: seq<Contribution>)
    requires WellFormed(t)
    ensures WellFormed(Fold(t, cs))
    decreases |cs|
  {
    if cs != [] {
      FoldWellFormed(t, cs[..|cs| - 1]);
    }
  }

  /** A student has an entry once one of their additions has been made. */
  lemma {:induction false} FoldStudents(t: Dict<Student>, cs: seq<Contribution>, nim: string)
    ensures nim in Fold(t, cs).vals <==> nim in t.vals || exists i :: 0 <= i < |cs| && cs[i].nim == nim
    decreases |cs|
  {
    if cs != [] {
      var front := cs[..|cs| - 1];
      FoldStudents(t, front, nim);
      assert forall i :: 0 <= i < |front| ==> front[i] == cs[i];
    }
  }

  /** One addition changes only the score it names, by its amount. */
  lemma RecordScores(t: Dict<Student>, c: Contribution, nim: string, cpl: string)
    ensures cpl in ScoresOf(Record(t, c), nim).vals <==> cpl in ScoresOf(t, nim).vals || (c.nim == nim && c.cpl == cpl)
    ensures Get(ScoresOf(Record(t, c), nim), cpl)
         == Get(ScoresOf(t, nim), cpl) + (if c.nim == nim && c.cpl == cpl then c.amount else 0.0)
  {
  }

  /** Each outcome score of a student grows by the sum of the additions made
      for it, and has a value once one of them has been made. */
  lemma {:induction false} FoldScores(t: Dict<Student>, cs: seq<Contribution>, nim: string, cpl: string)
    ensures cpl in ScoresOf(Fold(t, cs), nim).vals <==>
              cpl in ScoresOf(t, nim).vals || exists i :: 0 <= i < |cs| && cs[i].nim == nim && cs[i].cpl == cpl
    ensures Get(ScoresOf(Fold(t, cs), nim), cpl) == Get(ScoresOf(t, nim), cpl) + SumFor(cs, nim, cpl)
    decreases |cs|
  {
    if cs != [] {
      var front := cs[..|cs| - 1];
      FoldScores(t, front, nim, cpl);
      RecordScores(Fold(t, front), cs[|cs| - 1], nim, cpl);
      assert forall i :: 0 <= i < |front| ==> front[i] == cs[i];
    }
  }

  /** A student keeps the name given with their first addition. */
  lemma {:induction false} FoldName(t: Dict<Student>, cs: seq<Contribution>, nim: string, nm: Option<string>)
    requires nim in t.vals ==> t.vals[nim].name == nm
    requires forall i :: 0 <= i < |cs| && cs[i].nim == nim ==> cs[i].name == nm
    ensures nim in Fold(t, cs).vals ==> Fold(t, cs).vals[nim].name == nm
    decreases |cs|
  {
    if cs != [] {
      var front := cs[..|cs| - 1];
      FoldName(t, front, nim, nm);
    }
  }

  lemma {:induction false} FoldKeepsName(t: Dict<Student>, cs: seq<Contribution>, nim: string)
    requires nim in t.vals
    ensures nim in Fold(t, cs).vals && Fold(t, cs).vals[nim].name == t.vals[nim].name
    decreases |cs|
  {
    if cs != [] {
      FoldKeepsName(t, cs[..|cs| - 1], nim);
    }
  }

  // ---------------------------------------------------------------------
  // Paths, stated on the edge lists directly
  // ---------------------------------------------------------------------

  /** The sum of `score * w1 * m2.w` over the CPMK → CPL edges `m2` from `cpmk` to `cpl`. */
  function ChainTotal(n2: seq<NormEdge>, cpmk: string, cpl: string, score: real, w1: real): real
    decreases |n2|
  {
    if n2 == [] then 0.0
    else
      var m2 := n2[|n2| - 1];
      ChainTotal(n2[..|n2| - 1], cpmk, cpl, score, w1)
        + (if m2.edge.src == cpmk && m2.edge.dst == cpl then Amount(score, w1, m2.w) else 0.0)
  }

  /** The sum of `score * m1.w * m2.w` over every path `m1`, `m2` with
      `m1.mk == mk`, `m2.cpmk == m1.cpmk` and `m2.cpl == cpl`; duplicate edges
      give separate paths. */
  function PathTotal(n1: seq<NormEdge>, n2: seq<NormEdge>, mk: Option<string>, cpl: string, score: real): real
    decreases |n1|
  {
    if n1 == [] then 0.0
    else
      var m1 := n1[|n1| - 1];
      PathTotal(n1[..|n1| - 1], n2, mk, cpl, score)
        + (if mk == Some(m1.edge.src) then ChainTotal(n2, m1.edge.dst, cpl, score, m1.w) else 0.0)
  }

  /** The score of student `nim` for outcome `cpl` as the sum, over that
      student's rows, of the paths from the row's course to `cpl`. */
  function StudentScore(rows: seq<seq<string>>, ctx: Context, nim: string, cpl: string): real
    decreases |rows|
  {
    if rows == [] then 0.0
    else
      var r := rows[|rows| - 1];
      StudentScore(rows[..|rows| - 1], ctx, nim, cpl)
        + (if NimOf(r, ctx) == nim then PathTotal(ctx.n1, ctx.n2, Cell(r, ctx.cols.mk), cpl, ScoreOf(r, ctx)) else 0.0)
  }

  /** Scores are additive over the score rows: the rows of two uploads
      together give each student the sum of what each gives alone. */
  lemma {:induction false} StudentScoreAppend(a: seq<seq<string>>, b: seq<seq<string>>, ctx: Context, nim: string, cpl: string)
    ensures StudentScore(a + b, ctx, nim, cpl) == StudentScore(a, ctx, nim, cpl) + StudentScore(b, ctx, nim, cpl)
    decreases |b|
  {
    if b == [] {
      assert a + b == a;
    } else {
      assert (a + b)[..|a + b| - 1] == a + b[..|b| - 1];
      StudentScoreAppend(a, b[..|b| - 1], ctx, nim, cpl);
    }
  }

  /** Some path leads from the row's course to outcome `cpl`. */
  ghost predicate Reaches(row: seq<string>, ctx: Context, cpl: string)
  {
    exists m1, m2 :: m1 in ctx.n1 && m2 in ctx.n2 && Cell(row, ctx.cols.mk) == Some(m1.edge.src)
                     && m2.edge.src == m1.edge.dst && m2.edge.dst == cpl
  }

  /** Some path leads from the row's course to an outcome. */
  ghost predicate HasPath(row: seq<string>, ctx: Context)
  {
    exists m1, m2 :: m1 in ctx.n1 && m2 in ctx.n2 && Cell(row, ctx.cols.mk) == Some(m1.edge.src)
                     && m2.edge.src == m1.edge.dst
  }

  /** The row belongs to student `nim` and reaches some outcome. */
  ghost predicate Contributes(row: seq<string>, ctx: Context, nim: string)
  {
    NimOf(row, ctx) == nim && HasPath(row, ctx)
  }

  /** The sum of `score * w1 * m2.w` over the edges of `chain` towards `cpl`. */
  function ChainSum(chain: seq<NormEdge>, cpl: string, score: real, w1: real): real
    decreases |chain|
  {
    if chain == [] then 0.0
    else
      var m2 := chain[|chain| - 1];
      ChainSum(chain[..|chain| - 1], cpl, score, w1) + (if m2.edge.dst == cpl then Amount(score, w1, m2.w) else 0.0)
  }

  lemma {:induction false} ChainContribsSum(nim: string, name: Option<string>, score: real, m1: NormEdge,
                                            chain: seq<NormEdge>, nim': string, cpl: string)
    ensures SumFor(ChainContribs(nim, name, score, m1, chain), nim', cpl)
         == if nim == nim' then ChainSum(chain, cpl, score, m1.w) else 0.0
    decreases |chain|
  {
    if chain != [] {
      var front := chain[..|chain| - 1];
      var m2 := chain[|chain| - 1];
      var c := Contribution(nim, name, m2.edge.dst, Amount(score, m1.w, m2.w));
      ChainContribsSum(nim, name, score, m1, front, nim', cpl);
      var cs := ChainContribs(nim, name, score, m1, front);
      assert (cs + [c])[..|cs|] == cs;
    }
  }

  lemma {:induction false} ChainSumGroup(n2: seq<NormEdge>, cpmk: string, cpl: string, score: real, w1: real)
    ensures ChainSum(GroupOf(n2, NormSource, cpmk), cpl, score, w1) == ChainTotal(n2, cpmk, cpl, score, w1)
    decreases |n2|
  {
    if n2 != [] {
      var front := n2[..|n2| - 1];
      var m2 := n2[|n2| - 1];
      ChainSumGroup(front, cpmk, cpl, score, w1);
      var g := GroupOf(front, NormSource, cpmk);
      if m2.edge.src == cpmk {
        assert GroupOf(n2, NormSource, cpmk) == g + [m2];
        assert (g + [m2])[..|g|] == g;
      } else {
        assert GroupOf(n2, NormSource, cpmk) == g;
      }
    }
  }

  /** The sum of the chain totals of the MK → CPMK edges `m1s`. */
  function EdgeSum(m1s: seq<NormEdge>, n2: seq<NormEdge>, cpl: string, score: real): real
    decreases |m1s|
  {
    if m1s == [] then 0.0
    else
      var m1 := m1s[|m1s| - 1];
      EdgeSum(m1s[..|m1s| - 1], n2, cpl, score) + ChainTotal(n2, m1.edge.dst, cpl, score, m1.w)
  }

  lemma {:induction false} EdgeContribsSum(nim: string, name: Option<string>, score: real, m1s: seq<NormEdge>,
                                           n2: seq<NormEdge>, nim': string, cpl: string)
    ensures SumFor(EdgeContribs(nim, name, score, m1s, n2), nim', cpl)
         == if nim == nim' then EdgeSum(m1s, n2, cpl, score) else 0.0
    decreases |m1s|
  {
    if m1s != [] {
      var front := m1s[..|m1s| - 1];
      var m1 := m1s[|m1s| - 1];
      var chain := GroupOf(n2, NormSource, m1.edge.dst);
      EdgeContribsSum(nim, name, score, front, n2, nim', cpl);
      ChainContribsSum(nim, name, score, m1, chain, nim', cpl);
      ChainSumGroup(n2, m1.edge.dst, cpl, score, m1.w);
      SumForAppend(EdgeContribs(nim, name, score, front, n2), ChainContribs(nim, name, score, m1, chain), nim', cpl);
    }
  }

  lemma {:induction false} EdgeSumGroup(n1: seq<NormEdge>, n2: seq<NormEdge>, mk: string, cpl: string, score: real)
    ensures EdgeSum(GroupOf(n1, NormSource, mk), n2, cpl, score) == PathTotal(n1, n2, Some(mk), cpl, score)
    decreases |n1|
  {
    if n1 != [] {
      var front := n1[..|n1| - 1];
      var m1 := n1[|n1| - 1];
      EdgeSumGroup(front, n2, mk, cpl, score);
      var g := GroupOf(front, NormSource, mk);
      if m1.edge.src == mk {
        assert GroupOf(n1, NormSource, mk) == g + [m1];
        assert (g + [m1])[..|g|] == g;
      } else {
        assert GroupOf(n1, NormSource, mk) == g;
      }
    }
  }

  lemma {:induction false} PathTotalNone(n1: seq<NormEdge>, n2: seq<NormEdge>, cpl: string, score: real)
    ensures PathTotal(n1, n2, None, cpl, score) == 0.0
    decreases |n1|
  {
    if n1 != [] { PathTotalNone(n1[..|n1| - 1], n2, cpl, score); }
  }

  /** The additions made for one row add up, for its own student, to the
      row's path total, and to nothing for any other student. */
  lemma RowContribsSum(row: seq<string>, ctx: Context, nim: string, cpl: string)
    ensures SumFor(RowContribs(row, ctx), nim, cpl)
         == if NimOf(row, ctx) == nim then PathTotal(ctx.n1, ctx.n2, Cell(row, ctx.cols.mk), cpl, ScoreOf(row, ctx)) else 0.0
  {
    var mk := Cell(row, ctx.cols.mk);
    var m1s := EdgesFrom(ctx.n1, mk);
    EdgeContribsSum(NimOf(row, ctx), NameOf(row, ctx), ScoreOf(row, ctx), m1s, ctx.n2, nim, cpl);
    if mk.Some? {
      EdgeSumGroup(ctx.n1, ctx.n2, mk.value, cpl, ScoreOf(row, ctx));
    } else {
      PathTotalNone(ctx.n1, ctx.n2, cpl, ScoreOf(row, ctx));
    }
  }

  lemma {:induction false} ChainContribsMembers(nim: string, name: Option<string>, score: real, m1: NormEdge,
                                                chain: seq<NormEdge>, cpl: string)
    ensures forall c :: c in ChainContribs(nim, name, score, m1, chain) ==> c.nim == nim && c.name == name
    ensures (exists c :: c in ChainContribs(nim, name, score, m1, chain) && c.cpl == cpl)
        <==> exists m2 :: m2 in chain && m2.edge.dst == cpl
    ensures ChainContribs(nim, name, score, m1, chain) == [] <==> chain == []
    decreases |chain|
  {
    if chain != [] {
      var front := chain[..|chain| - 1];
      var m2 := chain[|chain| - 1];
      ChainContribsMembers(nim, name, score, m1, front, cpl);
      assert chain == front + [m2];
    }
  }

  lemma {:induction false} EdgeContribsOwner(nim: string, name: Option<string>, score: real, m1s: seq<NormEdge>,
                                             n2: seq<NormEdge>)
    ensures forall c :: c in EdgeContribs(nim, name, score, m1s, n2) ==> c.nim == nim && c.name == name
    decreases |m1s|
  {
    if m1s != [] {
      var m1 := m1s[|m1s| - 1];
      EdgeContribsOwner(nim, name, score, m1s[..|m1s| - 1], n2);
      ChainContribsMembers(nim, name, score, m1, GroupOf(n2, NormSource, m1.edge.dst), "");
    }
  }

  /** Some addition of `cs` goes to outcome `cpl`. */
  ghost predicate Targets(cs: seq<Contribution>, cpl: string)
  {
    exists c :: c in cs && c.cpl == cpl
  }

  /** Some edge of `m1s` continues along `n2` to outcome `cpl`. */
  ghost predicate Leads(m1s: seq<NormEdge>, n2: seq<NormEdge>, cpl: string)
  {
    exists m1, m2 :: m1 in m1s && m2 in n2 && m2.edge.src == m1.edge.dst && m2.edge.dst == cpl
  }

  lemma TargetsAppend(a: seq<Contribution>, b: seq<Contribution>, cpl: string)
    ensures Targets(a + b, cpl) <==> Targets(a, cpl) || Targets(b, cpl)
  {
    if Targets(a + b, cpl) {
      var c :| c in a + b && c.cpl == cpl;
    }
    if Targets(b, cpl) {
      var c :| c in b && c.cpl == cpl;
      assert c in a + b;
    }
  }

  lemma LeadsSnoc(front: seq<NormEdge>, m1: NormEdge, n2: seq<NormEdge>, cpl: string)
    ensures Leads(front + [m1], n2, cpl)
        <==> Leads(front, n2, cpl) || exists m2 :: m2 in GroupOf(n2, NormSource, m1.edge.dst) && m2.edge.dst == cpl
  {
    GroupOfMembers(n2, NormSource, m1.edge.dst);
    if Leads(front + [m1], n2, cpl) {
      var x1, x2 :| x1 in front + [m1] && x2 in n2 && x2.edge.src == x1.edge.dst && x2.edge.dst == cpl;
      if x1 != m1 {
        assert x1 in front;
      }
    }
    if Leads(front, n2, cpl) {
      var x1, x2 :| x1 in front && x2 in n2 && x2.edge.src == x1.edge.dst && x2.edge.dst == cpl;
      assert x1 in front + [m1];
    }
    if exists m2 :: m2 in GroupOf(n2, NormSource, m1.edge.dst) && m2.edge.dst == cpl {
      var m2 :| m2 in GroupOf(n2, NormSource, m1.edge.dst) && m2.edge.dst == cpl;
      assert m1 in front + [m1];
    }
  }

  lemma {:induction false} EdgeContribsTargets(nim: string, name: Option<string>, score: real, m1s: seq<NormEdge>,
                                               n2: seq<NormEdge>, cpl: string)
    ensures Targets(EdgeContribs(nim, name, score, m1s, n2), cpl) <==> Leads(m1s, n2, cpl)
    decreases |m1s|
  {
    if m1s != [] {
      var front := m1s[..|m1s| - 1];
      var m1 := m1s[|m1s| - 1];
      var chain := GroupOf(n2, NormSource, m1.edge.dst);
      EdgeContribsTargets(nim, name, score, front, n2, cpl);
      ChainContribsMembers(nim, name, score, m1, chain, cpl);
      TargetsAppend(EdgeContribs(nim, name, score, front, n2), ChainContribs(nim, name, score, m1, chain), cpl);
      assert m1s == front + [m1];
      LeadsSnoc(front, m1, n2, cpl);
    }
  }

  /** Some edge of `m1s` continues along some edge of `n2`. */
  ghost predicate Joins(m1s: seq<NormEdge>, n2: seq<NormEdge>)
  {
    exists m1, m2 :: m1 in m1s && m2 in n2 && m2.edge.src == m1.edge.dst
  }

  lemma JoinsSnoc(front: seq<NormEdge>, m1: NormEdge, n2: seq<NormEdge>)
    ensures Joins(front + [m1], n2) <==> Joins(front, n2) || GroupOf(n2, NormSource, m1.edge.dst) != []
  {
    var chain := GroupOf(n2, NormSource, m1.edge.dst);
    GroupOfMembers(n2, NormSource, m1.edge.dst);
    if Joins(front + [m1], n2) {
      var x1, x2 :| x1 in front + [m1] && x2 in n2 && x2.edge.src == x1.edge.dst;
      if x1 == m1 {
        assert x2 in chain;
      } else {
        assert x1 in front;
      }
    }
    if Joins(front, n2) {
      var x1, x2 :| x1 in front && x2 in n2 && x2.edge.src == x1.edge.dst;
      assert x1 in front + [m1];
    }
    if chain != [] {
      assert chain[0] in chain;
      assert m1 in front + [m1];
    }
  }

  lemma {:induction false} EdgeContribsNonEmpty(nim: string, name: Option<string>, score: real, m1s: seq<NormEdge>,
                                                n2: seq<NormEdge>)
    ensures EdgeContribs(nim, name, score, m1s, n2) != [] <==> Joins(m1s, n2)
    decreases |m1s|
  {
    if m1s != [] {
      var front := m1s[..|m1s| - 1];
      var m1 := m1s[|m1s| - 1];
      EdgeContribsNonEmpty(nim, name, score, front, n2);
      ChainContribsMembers(nim, name, score, m1, GroupOf(n2, NormSource, m1.edge.dst), "");
      assert m1s == front + [m1];
      JoinsSnoc(front, m1, n2);
    }
  }

  /** The additions made for one row all carry the row's student and name;
      there is one towards `cpl` exactly when some path reaches `cpl`, and
      there is one at all exactly when some path exists. */
  lemma RowContribsMembers(row: seq<string>, ctx: Context, cpl: string)
    ensures forall c :: c in RowContribs(row, ctx) ==> c.nim == NimOf(row, ctx) && c.name == NameOf(row, ctx)
    ensures (exists c :: c in RowContribs(row, ctx) && c.cpl == cpl) <==> Reaches(row, ctx, cpl)
    ensures RowContribs(row, ctx) != [] <==> HasPath(row, ctx)
  {
    var mk := Cell(row, ctx.cols.mk);
    var m1s := EdgesFrom(ctx.n1, mk);
    EdgeContribsOwner(NimOf(row, ctx), NameOf(row, ctx), ScoreOf(row, ctx), m1s, ctx.n2);
    EdgeContribsTargets(NimOf(row, ctx), NameOf(row, ctx), ScoreOf(row, ctx), m1s, ctx.n2, cpl);
    EdgeContribsNonEmpty(NimOf(row, ctx), NameOf(row, ctx), ScoreOf(row, ctx), m1s, ctx.n2);
    if mk.Some? {
      GroupOfMembers(ctx.n1, NormSource, mk.value);
    }
  }

  // ---------------------------------------------------------------------
  // What `studentCpl` holds after the loop
  // ---------------------------------------------------------------------

  lemma {:induction false} StudentTableWellFormed(rows: seq<seq<string>>, ctx: Context)
    ensures WellFormed(StudentTable(rows, ctx))
  {
    FoldWellFormed(Empty(), AllContribs(rows, ctx));
  }

  /** One row adds something for student `nim` exactly when it is `nim`'s
      row and some path leads from it. */
  lemma RowRecordsStudent(r: seq<string>, ctx: Context, nim: string)
    ensures (exists i :: 0 <= i < |RowContribs(r, ctx)| && RowContribs(r, ctx)[i].nim == nim) <==> Contributes(r, ctx, nim)
  {
    var added := RowContribs(r, ctx);
    RowContribsMembers(r, ctx, "");
    if exists i :: 0 <= i < |added| && added[i].nim == nim {
      var i :| 0 <= i < |added| && added[i].nim == nim;
      assert added[i] in added;
    }
    if Contributes(r, ctx, nim) {
      assert added[0] in added;
    }
  }

  lemma ContributesSnoc(rows: seq<seq<string>>, ctx: Context, nim: string)
    requires rows != []
    ensures (exists i :: 0 <= i < |rows| && Contributes(rows[i], ctx, nim))
        <==> var front := rows[..|rows| - 1];
             (exists i :: 0 <= i < |front| && Contributes(front[i], ctx, nim)) || Contributes(rows[|rows| - 1], ctx, nim)
  {
    var front := rows[..|rows| - 1];
    if exists i :: 0 <= i < |rows| && Contributes(rows[i], ctx, nim) {
      var i :| 0 <= i < |rows| && Contributes(rows[i], ctx, nim);
      if i < |front| {
        assert front[i] == rows[i];
      }
    }
    if exists i :: 0 <= i < |front| && Contributes(front[i], ctx, nim) {
      var i :| 0 <= i < |front| && Contributes(front[i], ctx, nim);
      assert rows[i] == front[i];
    }
  }

  /** A student has an entry exactly when one of their rows reaches an
      outcome through a full path. */
  lemma {:induction false} StudentTableStudents(rows: seq<seq<string>>, ctx: Context, nim: string)
    ensures nim in StudentTable(rows, ctx).vals <==> exists i :: 0 <= i < |rows| && Contributes(rows[i], ctx, nim)
    decreases |rows|
  {
    if rows != [] {
      var front := rows[..|rows| - 1];
      var r := rows[|rows| - 1];
      StudentTableStudents(front, ctx, nim);
      FoldAppend(Empty(), AllContribs(front, ctx), RowContribs(r, ctx));
      FoldStudents(StudentTable(front, ctx), RowContribs(r, ctx), nim);
      RowRecordsStudent(r, ctx, nim);
      ContributesSnoc(rows, ctx, nim);
    }
  }

  /** One row adds something for student `nim` and outcome `cpl` exactly
      when it is `nim`'s row and reaches `cpl`. */
  lemma RowRecords(r: seq<string>, ctx: Context, nim: string, cpl: string)
    ensures (exists i :: 0 <= i < |RowContribs(r, ctx)| && RowContribs(r, ctx)[i].nim == nim && RowContribs(r, ctx)[i].cpl == cpl)
        <==> ReachesFor(r, ctx, nim, cpl)
  {
    var added := RowContribs(r, ctx);
    RowContribsMembers(r, ctx, cpl);
    if exists i :: 0 <= i < |added| && added[i].nim == nim && added[i].cpl == cpl {
      var i :| 0 <= i < |added| && added[i].nim == nim && added[i].cpl == cpl;
      assert added[i] in added;
    }
    if ReachesFor(r, ctx, nim, cpl) {
      var c :| c in added && c.cpl == cpl;
      var i :| 0 <= i < |added| && added[i] == c;
    }
  }

  /** The row is student `nim`'s and reaches outcome `cpl`. */
  ghost predicate ReachesFor(row: seq<string>, ctx: Context, nim: string, cpl: string)
  {
    NimOf(row, ctx) == nim && Reaches(row, ctx, cpl)
  }

  lemma ReachesForSnoc(rows: seq<seq<string>>, ctx: Context, nim: string, cpl: string)
    requires rows != []
    ensures (exists i :: 0 <= i < |rows| && ReachesFor(rows[i], ctx, nim, cpl))
        <==> var front := rows[..|rows| - 1];
             (exists i :: 0 <= i < |front| && ReachesFor(front[i], ctx, nim, cpl)) || ReachesFor(rows[|rows| - 1], ctx, nim, cpl)
  {
    var front := rows[..|rows| - 1];
    if exists i :: 0 <= i < |rows| && ReachesFor(rows[i], ctx, nim, cpl) {
      var i :| 0 <= i < |rows| && ReachesFor(rows[i], ctx, nim, cpl);
      if i < |front| {
        assert front[i] == rows[i];
      }
    }
    if exists i :: 0 <= i < |front| && ReachesFor(front[i], ctx, nim, cpl) {
      var i :| 0 <= i < |front| && ReachesFor(front[i], ctx, nim, cpl);
      assert rows[i] == front[i];
    }
  }

  /** A student has a score for an outcome exactly when one of their rows
      reaches that outcome. */
  lemma {:induction false} StudentTableHasScore(rows: seq<seq<string>>, ctx: Context, nim: string, cpl: string)
    ensures cpl in ScoresOf(StudentTable(rows, ctx), nim).vals <==>
              exists i :: 0 <= i < |rows| && ReachesFor(rows[i], ctx, nim, cpl)
    decreases |rows|
  {
    if rows != [] {
      var front := rows[..|rows| - 1];
      var r := rows[|rows| - 1];
      StudentTableHasScore(front, ctx, nim, cpl);
      FoldAppend(Empty(), AllContribs(front, ctx), RowContribs(r, ctx));
      FoldScores(StudentTable(front, ctx), RowContribs(r, ctx), nim, cpl);
      RowRecords(r, ctx, nim, cpl);
      ReachesForSnoc(rows, ctx, nim, cpl);
    }
  }

  /** A student's score for an outcome is the sum over their rows of
      `score * m1.w * m2.w` over every path to it. */
  lemma {:induction false} StudentTableScores(rows: seq<seq<string>>, ctx: Context, nim: string, cpl: string)
    ensures Get(ScoresOf(StudentTable(rows, ctx), nim), cpl) == StudentScore(rows, ctx, nim, cpl)
    decreases |rows|
  {
    if rows != [] {
      var front := rows[..|rows| - 1];
      var r := rows[|rows| - 1];
      StudentTableScores(front, ctx, nim, cpl);
      FoldAppend(Empty(), AllContribs(front, ctx), RowContribs(r, ctx));
      FoldScores(StudentTable(front, ctx), RowContribs(r, ctx), nim, cpl);
      RowContribsSum(r, ctx, nim, cpl);
    }
  }

  /** A student's stored name is that of their first row that reaches an
      outcome, which need not be their first row. */
  lemma {:induction false} StudentTableName(rows: seq<seq<string>>, ctx: Context, nim: string, i: int)
    requires 0 <= i < |rows| && Contributes(rows[i], ctx, nim)
    requires forall j :: 0 <= j < i ==> !Contributes(rows[j], ctx, nim)
    ensures nim in StudentTable(rows, ctx).vals
    ensures StudentTable(rows, ctx).vals[nim].name == NameOf(rows[i], ctx)
    decreases |rows|
  {
    var front := rows[..|rows| - 1];
    var r := rows[|rows| - 1];
    var added := RowContribs(r, ctx);
    var t := StudentTable(front, ctx);
    FoldAppend(Empty(), AllContribs(front, ctx), added);
    StudentTableStudents(rows, ctx, nim);
    if i < |rows| - 1 {
      StudentTableName(front, ctx, nim, i);
      FoldKeepsName(t, added, nim);
    } else {
      StudentTableStudents(front, ctx, nim);
      RowContribsMembers(r, ctx, "");
      assert nim !in t.vals;
      forall k | 0 <= k < |added| && added[k].nim == nim
        ensures added[k].name == NameOf(r, ctx)
      {
        assert added[k] in added;
      }
      FoldName(t, added, nim, NameOf(r, ctx));
    }
  }
}
