/** Two small uploads worked through `computeResults` end to end: one
    course fully mapped along a single path, and one course split evenly
    between two sub-outcomes. */
module Scenarios {
  import opened Common
  import opened OrderedDict
  import opened Weights
  import opened Propagation
  import opened Aggregation
  import opened Results

  const Headers: seq<string> := ["nim", "student_name", "mk_code", "score"]

  lemma LowerPlain(s: string)
    requires forall i :: 0 <= i < |s| ==> !('A' <= s[i] <= 'Z')
    ensures Lower(s) == s
  {
  }

  /** The four column names, written in lower case, are found in order. */
  lemma HeadersFound()
    ensures FindColumns(Headers) == Some(Columns(0, 1, 2, 3))
  {
    LowerPlain(Headers[0]);
    LowerPlain(Headers[1]);
    LowerPlain(Headers[2]);
    LowerPlain(Headers[3]);
    assert LowerAll(Headers) == Headers;
    assert Column(Headers, "nim") == Some(0);
    assert Column(Headers, "student_name") == Some(1);
    assert Column(Headers, "mk_code") == Some(2);
    assert Column(Headers, "score") == Some(3);
  }

  // ---------------------------------------------------------------------
  // Normalising small mapping lists
  // ---------------------------------------------------------------------

  lemma ScaledOne(e: Edge, d: real)
    requires d != 0.0
    ensures Scaled([e], d) == [NormEdge(e, WeightOf(e) / d)]
  {
    assert [e][..0] == [];
  }

  lemma ScaledTwo(e1: Edge, e2: Edge, d: real)
    requires d != 0.0
    ensures Scaled([e1, e2], d) == [NormEdge(e1, WeightOf(e1) / d), NormEdge(e2, WeightOf(e2) / d)]
  {
    assert [e1, e2][..1] == [e1];
    ScaledOne(e1, d);
  }

  lemma GroupOne(e: Edge)
    ensures GroupOf([e], EdgeSource, e.src) == [e]
    ensures WeightTotal([e]) == WeightOf(e)
  {
    assert [e][..0] == [];
  }

  lemma GroupTwo(e1: Edge, e2: Edge)
    requires e1.src == e2.src
    ensures GroupOf([e1, e2], EdgeSource, e1.src) == [e1, e2]
    ensures WeightTotal([e1, e2]) == WeightOf(e1) + WeightOf(e2)
  {
    assert [e1, e2][..1] == [e1];
    GroupOne(e1);
  }

  /** A course mapped to a single CPMK (or a CPMK to a single CPL) with a
      non-zero weight, positive or negative, passes all of its score on: `w = 1`. */
  lemma NormOne(e: Edge)
    requires WeightOf(e) != 0.0
    ensures GroupOf(Normalized([e]), NormSource, e.src) == [NormEdge(e, 1.0)]
  {
    NormalizedGroup([e], e.src);
    GroupOne(e);
    ScaledOne(e, WeightOf(e));
    DivSelf(WeightOf(e));
  }

  /** A course split evenly between two CPMKs, with any equal non-zero
      weight, passes half to each. */
  lemma NormHalves(e1: Edge, e2: Edge)
    requires e1.src == e2.src && e1.weight == e2.weight && WeightOf(e1) != 0.0
    ensures GroupOf(Normalized([e1, e2]), NormSource, e1.src) == [NormEdge(e1, 0.5), NormEdge(e2, 0.5)]
  {
    var w := WeightOf(e1);
    NormalizedGroup([e1, e2], e1.src);
    GroupTwo(e1, e2);
    ScaledTwo(e1, e2, w + w);
    assert w / (w + w) == 0.5;
  }

  // ---------------------------------------------------------------------
  // Contributions of one score row
  // ---------------------------------------------------------------------

  lemma ChainOne(nim: string, name: Option<string>, score: real, m1: NormEdge, m2: NormEdge)
    ensures ChainContribs(nim, name, score, m1, [m2]) == [Contribution(nim, name, m2.edge.dst, Amount(score, m1.w, m2.w))]
  {
    assert [m2][..0] == [];
  }

  lemma EdgeOne(nim: string, name: Option<string>, score: real, m1: NormEdge, n2: seq<NormEdge>)
    ensures EdgeContribs(nim, name, score, [m1], n2) == ChainContribs(nim, name, score, m1, GroupOf(n2, NormSource, m1.edge.dst))
  {
    assert [m1][..0] == [];
  }

  lemma EdgeTwo(nim: string, name: Option<string>, score: real, m1: NormEdge, m1': NormEdge, n2: seq<NormEdge>)
    ensures EdgeContribs(nim, name, score, [m1, m1'], n2)
         == ChainContribs(nim, name, score, m1, GroupOf(n2, NormSource, m1.edge.dst))
          + ChainContribs(nim, name, score, m1', GroupOf(n2, NormSource, m1'.edge.dst))
  {
    assert [m1, m1'][..1] == [m1];
    EdgeOne(nim, name, score, m1, n2);
  }

  // ---------------------------------------------------------------------
  // Recording contributions and averaging
  // ---------------------------------------------------------------------

  lemma PutFresh<V>(k: string, v: V)
    ensures Empty<V>().Put(k, v) == Dict([k], map[k := v])
  {
    assert Empty<V>().keys + [k] == [k];
  }

  lemma PutSecond<V>(k1: string, v1: V, k2: string, v2: V)
    requires k1 != k2
    ensures Dict([k1], map[k1 := v1]).Put(k2, v2) == Dict([k1, k2], map[k1 := v1, k2 := v2])
  {
  }

  lemma FoldOne(c: Contribution)
    ensures Fold(Empty(), [c]) == Dict([c.nim], map[c.nim := Student(c.name, Dict([c.cpl], map[c.cpl := c.amount]))])
  {
    assert [c][..0] == [];
    PutFresh(c.cpl, 0.0 + c.amount);
    PutFresh(c.nim, Student(c.name, Dict([c.cpl], map[c.cpl := c.amount])));
  }

  lemma FoldTwo(c1: Contribution, c2: Contribution)
    requires c1.nim == c2.nim && c1.cpl != c2.cpl
    ensures Fold(Empty(), [c1, c2])
         == Dict([c1.nim], map[c1.nim := Student(c1.name, Dict([c1.cpl, c2.cpl], map[c1.cpl := c1.amount, c2.cpl := c2.amount]))])
  {
    assert [c1, c2][..1] == [c1];
    FoldOne(c1);
    PutSecond(c1.cpl, c1.amount, c2.cpl, 0.0 + c2.amount);
  }

  lemma AddAllOne(k: string, x: real)
    ensures Dict([k], map[k := x]).Entries() == [(k, x)]
    ensures AddAll(Empty(), [(k, x)]) == Dict([k], map[k := x])
  {
    assert [(k, x)][..0] == [];
    PutFresh(k, 0.0 + x);
  }

  lemma EntriesTwo(k1: string, x1: real, k2: string, x2: real)
    requires k1 != k2
    ensures Dict([k1, k2], map[k1 := x1, k2 := x2]).Entries() == [(k1, x1), (k2, x2)]
  {
  }

  lemma AddAllTwo(k1: string, x1: real, k2: string, x2: real)
    requires k1 != k2
    ensures AddAll(Empty(), [(k1, x1), (k2, x2)]) == Dict([k1, k2], map[k1 := x1, k2 := x2])
  {
    assert [(k1, x1), (k2, x2)][..1] == [(k1, x1)];
    AddAllOne(k1, x1);
    PutSecond(k1, x1, k2, 0.0 + x2);
  }

  // ---------------------------------------------------------------------
  // One course, one full path
  // ---------------------------------------------------------------------

  /** The mapping of a single path `mk` → `cpmk` → `cpl` with positive weights. */
  function PathMapping(mk: string, cpmk: string, cpl: string, w1: real, w2: real): Mapping
  {
    Mapping([Edge(mk, cpmk, Some(w1))], [Edge(cpmk, cpl, Some(w2))])
  }

  /** A score table with headers `hs` and the one row `nim, name, mk, s`. */
  function OneRow(hs: seq<string>, nim: string, name: string, mk: string, s: string): Table
  {
    Table(hs, [[nim, name, mk, s]])
  }

  /** A one-row score table with the four columns in order always proceeds. */
  lemma OneRowContext(hs: seq<string>, nim: string, name: string, mk: string, s: string, m: Mapping,
                      num: string -> Option<real>)
    requires FindColumns(hs) == Some(Columns(0, 1, 2, 3))
    ensures Proceeds(Some(OneRow(hs, nim, name, mk, s)), Some(m))
    ensures ContextOf(Some(OneRow(hs, nim, name, mk, s)), Some(m), num)
         == Context(Columns(0, 1, 2, 3), Normalized(m.mkToCpmk), Normalized(m.cpmkToCpl), num)
    ensures AllContribs(OneRow(hs, nim, name, mk, s).rows, ContextOf(Some(OneRow(hs, nim, name, mk, s)), Some(m), num))
         == RowContribs([nim, name, mk, s], ContextOf(Some(OneRow(hs, nim, name, mk, s)), Some(m), num))
  {
    assert [[nim, name, mk, s]][..0] == [];
  }

  lemma PathRow(nim: string, name: string, mk: string, s: string, x: real, ctx: Context, e1: Edge, e2: Edge)
    requires ctx.cols == Columns(0, 1, 2, 3) && ctx.num(s) == Some(x)
    requires GroupOf(ctx.n1, NormSource, mk) == [NormEdge(e1, 1.0)]
    requires GroupOf(ctx.n2, NormSource, e1.dst) == [NormEdge(e2, 1.0)]
    ensures RowContribs([nim, name, mk, s], ctx) == [Contribution(nim, Some(name), e2.dst, x)]
  {
    var row := [nim, name, mk, s];
    assert EdgesFrom(ctx.n1, Cell(row, 2)) == [NormEdge(e1, 1.0)];
    EdgeOne(nim, Some(name), x, NormEdge(e1, 1.0), ctx.n2);
    ChainOne(nim, Some(name), x, NormEdge(e1, 1.0), NormEdge(e2, 1.0));
    assert ScoreOf(row, ctx) == x;
    assert NimOf(row, ctx) == nim;
    assert NameOf(row, ctx) == Some(name);
    assert Amount(x, 1.0, 1.0) == x;
  }

  /** The per-student rows of a single student with a single score. */
  lemma OneStudent(rows: seq<seq<string>>, ctx: Context, c: Contribution)
    requires AllContribs(rows, ctx) == [c]
    ensures StudentRows(rows, ctx) == [StudentRow(c.nim, c.name, Dict([c.cpl], map[c.cpl := c.amount]))]
  {
    FoldOne(c);
  }

  /** The averages over a single student with a single score. */
  lemma OneAverage(nim: string, name: Option<string>, cpl: string, x: real)
    ensures var ps := [StudentRow(nim, name, Dict([cpl], map[cpl := x]))];
            ScoresValid(ps) && CplAverages(ps) == [CplAverage(cpl, x)]
  {
    var ps := [StudentRow(nim, name, Dict([cpl], map[cpl := x]))];
    AddAllOne(cpl, x);
    assert ps[..0] == [];
    assert Totals(ps) == Dict([cpl], map[cpl := x]);
  }

  /** Results of an upload, without a CPL table, whose rows give one
      student one score. */
  lemma OneScoreCompute(nilai: Option<Table>, mapping: Option<Mapping>, num: string -> Option<real>,
                        nim: string, name: Option<string>, cpl: string, a: real)
    requires Proceeds(nilai, mapping)
    requires StudentRows(nilai.value.rows, ContextOf(nilai, mapping, num))
          == [StudentRow(nim, name, Dict([cpl], map[cpl := a]))]
    ensures Compute(nilai, mapping, None, num)
         == Results([StudentRow(nim, name, Dict([cpl], map[cpl := a]))], [CplAverage(cpl, a)])
  {
    OneAverage(nim, name, cpl, a);
    SortWithoutTable([CplAverage(cpl, a)]);
  }

  /** Whatever the (positive) weights, a course mapped along a single path
      passes its whole score to the path's CPL: the student's score for it
      is the course score, and so is the CPL's average. */
  lemma SinglePath(hs: seq<string>, nim: string, name: string, mk: string, cpmk: string, cpl: string,
                   w1: real, w2: real, s: string, x: real, num: string -> Option<real>)
    requires FindColumns(hs) == Some(Columns(0, 1, 2, 3))
    requires w1 > 0.0 && w2 > 0.0 && num(s) == Some(x)
    ensures Compute(Some(OneRow(hs, nim, name, mk, s)), Some(PathMapping(mk, cpmk, cpl, w1, w2)), None, num)
         == Results([StudentRow(nim, Some(name), Dict([cpl], map[cpl := x]))], [CplAverage(cpl, x)])
  {
    var m := PathMapping(mk, cpmk, cpl, w1, w2);
    var nilai := Some(OneRow(hs, nim, name, mk, s));
    var e1 := Edge(mk, cpmk, Some(w1));
    var e2 := Edge(cpmk, cpl, Some(w2));
    NormOne(e1);
    NormOne(e2);
    OneRowContext(hs, nim, name, mk, s, m, num);
    PathRow(nim, name, mk, s, x, ContextOf(nilai, Some(m), num), e1, e2);
    OneStudent(nilai.value.rows, ContextOf(nilai, Some(m), num), Contribution(nim, Some(name), cpl, x));
    OneScoreCompute(nilai, Some(m), num, nim, Some(name), cpl, x);
  }

  /** Course `CS1` maps fully to `SO1`, `SO1` fully to `O1`, and student `S1`
      scores 80 in `CS1`: `S1` gets 80 for `O1`, the average for `O1` is 80,
      and its category is "Baik". */
  lemma SinglePathExample(num: string -> Option<real>)
    requires num("80") == Some(80.0)
    ensures var r := Compute(Some(OneRow(Headers, "S1", "Ani", "CS1", "80")), Some(PathMapping("CS1", "SO1", "O1", 100.0, 100.0)), None, num);
            && r.perStudent == [StudentRow("S1", Some("Ani"), Dict(["O1"], map["O1" := 80.0]))]
            && r.perCpl == [CplAverage("O1", 80.0)]
            && CategoryOf(r.perCpl[0].average).Label() == "Baik"
  {
    HeadersFound();
    SinglePath(Headers, "S1", "Ani", "CS1", "SO1", "O1", 100.0, 100.0, "80", 80.0, num);
  }

  // ---------------------------------------------------------------------
  // One course split evenly between two sub-outcomes
  // ---------------------------------------------------------------------

  /** Two edges from different sources, each with its own non-zero weight,
      are normalised apart: each passes all of its score on. */
  lemma NormApart(f1: Edge, f2: Edge)
    requires f1.src != f2.src && WeightOf(f1) != 0.0 && WeightOf(f2) != 0.0
    ensures GroupOf(Normalized([f1, f2]), NormSource, f1.src) == [NormEdge(f1, 1.0)]
    ensures GroupOf(Normalized([f1, f2]), NormSource, f2.src) == [NormEdge(f2, 1.0)]
  {
    NormalizedGroup([f1, f2], f1.src);
    NormalizedGroup([f1, f2], f2.src);
    assert [f1, f2][..1] == [f1];
    GroupOne(f1);
    assert GroupOf([f1], EdgeSource, f2.src) == [] by {
      assert [f1][..0] == [];
    }
    assert GroupOf([f1, f2], EdgeSource, f1.src) == [f1];
    assert GroupOf([f1, f2], EdgeSource, f2.src) == [f2];
    GroupOne(f2);
    ScaledOne(f1, WeightOf(f1));
    ScaledOne(f2, WeightOf(f2));
    DivSelf(WeightOf(f1));
    DivSelf(WeightOf(f2));
  }

  /** `mk` maps 50/50 to `cpmk1` and `cpmk2`; each of those maps fully to
      its own CPL. */
  function SplitMapping(mk: string, cpmk1: string, cpmk2: string, cpl1: string, cpl2: string): Mapping
  {
    Mapping([Edge(mk, cpmk1, Some(50.0)), Edge(mk, cpmk2, Some(50.0))],
            [Edge(cpmk1, cpl1, Some(100.0)), Edge(cpmk2, cpl2, Some(100.0))])
  }

  lemma HalvesContribs(nim: string, name: Option<string>, x: real, h: real, m1: NormEdge, m1': NormEdge, n2: seq<NormEdge>,
                        f1: Edge, f2: Edge)
    requires m1.w == 0.5 && m1'.w == 0.5 && x == h + h
    requires GroupOf(n2, NormSource, m1.edge.dst) == [NormEdge(f1, 1.0)]
    requires GroupOf(n2, NormSource, m1'.edge.dst) == [NormEdge(f2, 1.0)]
    ensures EdgeContribs(nim, name, x, [m1, m1'], n2)
         == [Contribution(nim, name, f1.dst, h), Contribution(nim, name, f2.dst, h)]
  {
    EdgeTwo(nim, name, x, m1, m1', n2);
    ChainOne(nim, name, x, m1, NormEdge(f1, 1.0));
    ChainOne(nim, name, x, m1', NormEdge(f2, 1.0));
    assert Amount(x, 0.5, 1.0) == h;
  }

  lemma HalvesRow(nim: string, name: string, mk: string, s: string, x: real, h: real, ctx: Context,
                  e1: Edge, e2: Edge, f1: Edge, f2: Edge)
    requires ctx.cols == Columns(0, 1, 2, 3) && ctx.num(s) == Some(x) && x == h + h
    requires GroupOf(ctx.n1, NormSource, mk) == [NormEdge(e1, 0.5), NormEdge(e2, 0.5)]
    requires GroupOf(ctx.n2, NormSource, e1.dst) == [NormEdge(f1, 1.0)]
    requires GroupOf(ctx.n2, NormSource, e2.dst) == [NormEdge(f2, 1.0)]
    ensures RowContribs([nim, name, mk, s], ctx)
         == [Contribution(nim, Some(name), f1.dst, h), Contribution(nim, Some(name), f2.dst, h)]
  {
    var row := [nim, name, mk, s];
    assert EdgesFrom(ctx.n1, Cell(row, 2)) == [NormEdge(e1, 0.5), NormEdge(e2, 0.5)];
    HalvesContribs(nim, Some(name), x, h, NormEdge(e1, 0.5), NormEdge(e2, 0.5), ctx.n2, f1, f2);
    assert ScoreOf(row, ctx) == x;
    assert NimOf(row, ctx) == nim;
    assert NameOf(row, ctx) == Some(name);
  }

  /** The per-student rows of a single student with two scores. */
  lemma OneStudentTwoScores(rows: seq<seq<string>>, ctx: Context, c1: Contribution, c2: Contribution)
    requires c1.nim == c2.nim && c1.name == c2.name && c1.cpl != c2.cpl
    requires AllContribs(rows, ctx) == [c1, c2]
    ensures StudentRows(rows, ctx)
         == [StudentRow(c1.nim, c1.name, Dict([c1.cpl, c2.cpl], map[c1.cpl := c1.amount, c2.cpl := c2.amount]))]
  {
    FoldTwo(c1, c2);
  }

  /** The averages over a single student with two scores. */
  lemma TwoAverages(nim: string, name: Option<string>, cpl1: string, x1: real, cpl2: string, x2: real)
    requires cpl1 != cpl2
    ensures var ps := [StudentRow(nim, name, Dict([cpl1, cpl2], map[cpl1 := x1, cpl2 := x2]))];
            ScoresValid(ps) && CplAverages(ps) == [CplAverage(cpl1, x1), CplAverage(cpl2, x2)]
  {
    var ps := [StudentRow(nim, name, Dict([cpl1, cpl2], map[cpl1 := x1, cpl2 := x2]))];
    EntriesTwo(cpl1, x1, cpl2, x2);
    AddAllTwo(cpl1, x1, cpl2, x2);
    assert ps[..0] == [];
    assert Totals(ps) == Dict([cpl1, cpl2], map[cpl1 := x1, cpl2 := x2]);
  }

  /** Results of an upload, without a CPL table, whose rows give one
      student two scores. */
  lemma TwoScoresCompute(nilai: Option<Table>, mapping: Option<Mapping>, num: string -> Option<real>,
                         nim: string, name: Option<string>, cpl1: string, a1: real, cpl2: string, a2: real)
    requires Proceeds(nilai, mapping) && cpl1 != cpl2
    requires StudentRows(nilai.value.rows, ContextOf(nilai, mapping, num))
          == [StudentRow(nim, name, Dict([cpl1, cpl2], map[cpl1 := a1, cpl2 := a2]))]
    ensures Compute(nilai, mapping, None, num)
         == Results([StudentRow(nim, name, Dict([cpl1, cpl2], map[cpl1 := a1, cpl2 := a2]))],
                    [CplAverage(cpl1, a1), CplAverage(cpl2, a2)])
  {
    var avgs := [CplAverage(cpl1, a1), CplAverage(cpl2, a2)];
    TwoAverages(nim, name, cpl1, a1, cpl2, a2);
    SortWithoutTable(avgs);
  }

  /** A course whose normalised edges are two halves, each leading through
      its CPMK to a single CPL with weight 1, passes half of its score to
      each of the two CPLs. */
  lemma SplitPath(hs: seq<string>, nim: string, name: string, mk: string, s: string, x: real, h: real,
                  num: string -> Option<real>, m: Mapping, e1: Edge, e2: Edge, f1: Edge, f2: Edge)
    requires FindColumns(hs) == Some(Columns(0, 1, 2, 3)) && num(s) == Some(x) && x == h + h
    requires GroupOf(Normalized(m.mkToCpmk), NormSource, mk) == [NormEdge(e1, 0.5), NormEdge(e2, 0.5)]
    requires GroupOf(Normalized(m.cpmkToCpl), NormSource, e1.dst) == [NormEdge(f1, 1.0)]
    requires GroupOf(Normalized(m.cpmkToCpl), NormSource, e2.dst) == [NormEdge(f2, 1.0)]
    requires f1.dst != f2.dst
    ensures Compute(Some(OneRow(hs, nim, name, mk, s)), Some(m), None, num)
         == Results([StudentRow(nim, Some(name), Dict([f1.dst, f2.dst], map[f1.dst := h, f2.dst := h]))],
                    [CplAverage(f1.dst, h), CplAverage(f2.dst, h)])
  {
    var nilai := Some(OneRow(hs, nim, name, mk, s));
    OneRowContext(hs, nim, name, mk, s, m, num);
    HalvesRow(nim, name, mk, s, x, h, ContextOf(nilai, Some(m), num), e1, e2, f1, f2);
    OneStudentTwoScores(nilai.value.rows, ContextOf(nilai, Some(m), num),
                        Contribution(nim, Some(name), f1.dst, h), Contribution(nim, Some(name), f2.dst, h));
    TwoScoresCompute(nilai, Some(m), num, nim, Some(name), f1.dst, h, f2.dst, h);
  }

  /** `CS2` maps 50/50 to `SO1` and `SO2`, `SO1` fully to `O1` and `SO2`
      fully to `O2`; student `S2` scores 90 in `CS2` and gets 45 for each
      of `O1` and `O2`. */
  lemma SplitPathExample(num: string -> Option<real>)
    requires num("90") == Some(90.0)
    ensures var r := Compute(Some(OneRow(Headers, "S2", "Budi", "CS2", "90")), Some(SplitMapping("CS2", "SO1", "SO2", "O1", "O2")), None, num);
            && r.perStudent == [StudentRow("S2", Some("Budi"), Dict(["O1", "O2"], map["O1" := 45.0, "O2" := 45.0]))]
            && r.perCpl == [CplAverage("O1", 45.0), CplAverage("O2", 45.0)]
  {
    HeadersFound();
    var e1 := Edge("CS2", "SO1", Some(50.0));
    var e2 := Edge("CS2", "SO2", Some(50.0));
    var f1 := Edge("SO1", "O1", Some(100.0));
    var f2 := Edge("SO2", "O2", Some(100.0));
    NormHalves(e1, e2);
    NormApart(f1, f2);
    SplitPath(Headers, "S2", "Budi", "CS2", "90", 90.0, 45.0, num, SplitMapping("CS2", "SO1", "SO2", "O1", "O2"), e1, e2, f1, f2);
  }
}
