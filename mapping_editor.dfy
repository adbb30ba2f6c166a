/** The mapping editor: the code lists offered for selection and the two
    weighted edge lists (MK → CPMK and CPMK → CPL) the user adds, edits and
    removes, each change handed on as the new mapping. */
module MappingEditor {
  import opened Common

  // ---------------------------------------------------------------------
  // `getUniqueValues`
  // ---------------------------------------------------------------------

  /** The distinct non-empty values of column `col`, in order of first
      appearance. */
  function UniqueOf(rows: seq<seq<string>>, col: nat): seq<string>
    decreases |rows|
  {
    if rows == [] then []
    else
      var u := UniqueOf(rows[..|rows| - 1], col);
      var c := Cell(rows[|rows| - 1], col);
      if c.Some? && c.value != "" && c.value !in u then u + [c.value] else u
  }

  /** `getUniqueValues(table, colIndex)`: no values without a table. */
  function Unique(table: Option<Table>, col: nat): seq<string>
  {
    if table.None? then [] else UniqueOf(table.value.rows, col)
  }

  /** Lines 4-11 of `MappingManager.jsx`: a `Set` filled row by row, then
      listed in insertion order. */
  method GetUniqueValues(table: Option<Table>, col: nat) returns (values: seq<string>)
    ensures values == Unique(table, col)
  {
    if table.None? {
      return [];
    }
    var rows := table.value.rows;
    var seen: seq<string> := [];
    for i := 0 to |rows|
      invariant seen == UniqueOf(rows[..i], col)
    {
      var r := rows[i];
      if col < |r| && r[col] != "" && r[col] !in seen {
        seen := seen + [r[col]];
      }
      assert rows[..i + 1][..i] == rows[..i];
    }
    assert rows[..|rows|] == rows;
    values := seen;
  }

  /** Column `col` of every row, `undefined` where a row is too short. */
  function ColumnOf(rows: seq<seq<string>>, col: nat): (r: seq<Option<string>>)
    ensures |r| == |rows|
    ensures forall i :: 0 <= i < |rows| ==> r[i] == Cell(rows[i], col)
  {
    seq(|rows|, i requires 0 <= i < |rows| => Cell(rows[i], col))
  }

  /** Each value is listed once; a value is listed exactly when it is not
      empty and some row has it in column `col`. */
  lemma {:induction false} UniqueOfMembers(rows: seq<seq<string>>, col: nat)
    ensures Distinct(UniqueOf(rows, col))
    ensures forall v :: v in UniqueOf(rows, col) <==> v != "" && Some(v) in ColumnOf(rows, col)
    decreases |rows|
  {
    if rows != [] {
      var front := rows[..|rows| - 1];
      UniqueOfMembers(front, col);
      assert ColumnOf(rows, col) == ColumnOf(front, col) + [Cell(rows[|rows| - 1], col)];
    }
  }

  lemma {:induction false} IndexOfSnoc<T>(s: seq<T>, x: T, v: T)
    ensures v in s ==> IndexOf(s + [x], v) == IndexOf(s, v)
    ensures v !in s && x == v ==> IndexOf(s + [x], v) == |s|
    decreases |s|
  {
    if s != [] {
      assert (s + [x])[1..] == s[1..] + [x];
      IndexOfSnoc(s[1..], x, v);
    }
  }

  /** The values of `u` first occur in `column` in the order of `u`. */
  predicate FirstOrdered(u: seq<string>, column: seq<Option<string>>)
  {
    forall i, j :: 0 <= i < j < |u| ==> IndexOf(column, Some(u[i])) < IndexOf(column, Some(u[j]))
  }

  /** Another row keeps the first positions of the values already seen and
      puts a new value after them all. */
  lemma OrderedSnoc(u: seq<string>, cf: seq<Option<string>>, last: Option<string>)
    requires FirstOrdered(u, cf)
    requires forall v :: v in u ==> Some(v) in cf
    ensures FirstOrdered(u, cf + [last])
    ensures last.Some? && last !in cf ==> FirstOrdered(u + [last.value], cf + [last])
  {
    forall v | v in u
      ensures IndexOf(cf + [last], Some(v)) == IndexOf(cf, Some(v)) < |cf|
    {
      IndexOfSnoc(cf, last, Some(v));
    }
    if last.Some? && last !in cf {
      IndexOfSnoc(cf, last, last);
      var u' := u + [last.value];
      forall i, j | 0 <= i < j < |u'|
        ensures IndexOf(cf + [last], Some(u'[i])) < IndexOf(cf + [last], Some(u'[j]))
      {
        assert u'[i] in u;
        if j < |u| {
          assert u'[j] in u;
        }
      }
    }
  }

  /** Values are listed in the order of their first row. */
  lemma {:induction false} UniqueOfOrder(rows: seq<seq<string>>, col: nat)
    ensures FirstOrdered(UniqueOf(rows, col), ColumnOf(rows, col))
    decreases |rows|
  {
    if rows != [] {
      var front := rows[..|rows| - 1];
      var last := Cell(rows[|rows| - 1], col);
      UniqueOfOrder(front, col);
      UniqueOfMembers(front, col);
      assert ColumnOf(rows, col) == ColumnOf(front, col) + [last];
      OrderedSnoc(UniqueOf(front, col), ColumnOf(front, col), last);
    }
  }

  /** `table?.headers?.length ? getUniqueValues(table, 0) : []`. */
  function Codes(table: Option<Table>): (r: seq<string>)
    ensures table.None? || |table.value.headers| == 0 ==> r == []
  {
    if table.Some? && |table.value.headers| > 0 then Unique(table, 0) else []
  }

  /** `codes[0] || ''`: the first code, or the empty string. */
  function FirstOr(codes: seq<string>): string
  {
    if |codes| > 0 then codes[0] else ""
  }

  // ---------------------------------------------------------------------
  // Editing a list of edges
  // ---------------------------------------------------------------------

  /** The field an edit sets, with its new value: the source code, the
      target code, or the weight as `Number(e.target.value)`. */
  datatype FieldUpdate = SetSource(src: string) | SetTarget(dst: string) | SetWeight(weight: Option<real>)

  /** `{ ...it, [key]: val }`. */
  function Apply(e: Edge, u: FieldUpdate): Edge
  {
    match u
    case SetSource(s) => e.(src := s)
    case SetTarget(d) => e.(dst := d)
    case SetWeight(w) => e.(weight := w)
  }

  /** `list.map((it, i) => i === idx ? { ...it, [key]: val } : it)`. */
  function UpdatedAt(list: seq<Edge>, idx: int, u: FieldUpdate): (r: seq<Edge>)
    ensures 0 <= idx < |list| ==> r == list[idx := Apply(list[idx], u)]
    ensures !(0 <= idx < |list|) ==> r == list
    decreases |list|
  {
    if list == [] then []
    else
      var last := list[|list| - 1];
      var front := UpdatedAt(list[..|list| - 1], idx, u);
      assert list == list[..|list| - 1] + [last];
      front + [if idx == |list| - 1 then Apply(last, u) else last]
  }

  /** `list.filter((_, i) => i !== idx)`. */
  function RemovedAt(list: seq<Edge>, idx: int): (r: seq<Edge>)
    ensures 0 <= idx < |list| ==> r == list[..idx] + list[idx + 1..]
    ensures !(0 <= idx < |list|) ==> r == list
    decreases |list|
  {
    if list == [] then []
    else
      var last := list[|list| - 1];
      var front := RemovedAt(list[..|list| - 1], idx);
      assert list == list[..|list| - 1] + [last];
      front + (if idx == |list| - 1 then [] else [last])
  }

  /** A row just added and then removed leaves the list as it was. */
  lemma RemoveAdded(list: seq<Edge>, e: Edge)
    ensures RemovedAt(list + [e], |list|) == list
  {
    assert (list + [e])[..|list|] == list;
  }

  /** An edit changes one field of one row, and an edit of the same field
      with the old value undoes it. */
  lemma UpdateUndo(list: seq<Edge>, idx: int, u: FieldUpdate)
    requires 0 <= idx < |list|
    ensures var back := match u
                        case SetSource(_) => SetSource(list[idx].src)
                        case SetTarget(_) => SetTarget(list[idx].dst)
                        case SetWeight(_) => SetWeight(list[idx].weight);
            UpdatedAt(UpdatedAt(list, idx, u), idx, back) == list
  {
  }

  /** `notify(nextA, nextB)`: `nextA ?? mkToCpmk`, `nextB ?? cpmkToCpl`. */
  function Notify(current: Mapping, nextA: Option<seq<Edge>>, nextB: Option<seq<Edge>>): (r: Mapping)
    ensures r.mkToCpmk == (if nextA.Some? then nextA.value else current.mkToCpmk)
    ensures r.cpmkToCpl == (if nextB.Some? then nextB.value else current.cpmkToCpl)
  {
    Mapping(if nextA.Some? then nextA.value else current.mkToCpmk,
            if nextB.Some? then nextB.value else current.cpmkToCpl)
  }

  /** The two row kinds `removeRow` tells apart: `'a'` is MK → CPMK, any
      other value CPMK → CPL. */
  predicate IsFirstList(kind: string)
  {
    kind == "a"
  }

  /** The `MappingManager` component: the three code tables it is currently
      given, which the application replaces as files are uploaded, and the
      two lists it keeps across those changes. */
  class MappingManager {
    var mkTable: Option<Table>
    var cpmkTable: Option<Table>
    var cplTable: Option<Table>
    var mkToCpmk: seq<Edge>
    var cpmkToCpl: seq<Edge>

    /** Both lists start empty. */
    constructor (mkTable: Option<Table>, cpmkTable: Option<Table>, cplTable: Option<Table>)
      ensures this.mkTable == mkTable && this.cpmkTable == cpmkTable && this.cplTable == cplTable
      ensures mkToCpmk == [] && cpmkToCpl == []
    {
      this.mkTable := mkTable;
      this.cpmkTable := cpmkTable;
      this.cplTable := cplTable;
      mkToCpmk := [];
      cpmkToCpl := [];
    }

    function MkCodes(): seq<string> reads this { Codes(mkTable) }
    function CpmkCodes(): seq<string> reads this { Codes(cpmkTable) }
    function CplCodes(): seq<string> reads this { Codes(cplTable) }

    /** The three code tables. */
    function Tables(): (Option<Table>, Option<Table>, Option<Table>)
      reads this
    {
      (mkTable, cpmkTable, cplTable)
    }

    /** A re-render with new table props: the codes offered change, the
      rows already entered stay, and nothing is reported. */
    method SetTables(mkTable: Option<Table>, cpmkTable: Option<Table>, cplTable: Option<Table>)
      modifies this
      ensures Tables() == (mkTable, cpmkTable, cplTable)
      ensures mkToCpmk == old(mkToCpmk) && cpmkToCpl == old(cpmkToCpl)
    {
      this.mkTable := mkTable;
      this.cpmkTable := cpmkTable;
      this.cplTable := cplTable;
    }

    /** The mapping the lists currently make. */
    function Current(): Mapping
      reads this
    {
      Mapping(mkToCpmk, cpmkToCpl)
    }

    /** `addMkToCpmk`: a new row from the first course to the first CPMK,
      weight 100. */
    method AddMkToCpmk() returns (data: Mapping)
      modifies this
      ensures Tables() == old(Tables())
      ensures mkToCpmk == old(mkToCpmk) + [Edge(FirstOr(MkCodes()), FirstOr(CpmkCodes()), Some(100.0))]
      ensures cpmkToCpl == old(cpmkToCpl)
      ensures data == Current()
    {
      var next := mkToCpmk + [Edge(FirstOr(MkCodes()), FirstOr(CpmkCodes()), Some(100.0))];
      data := Notify(Current(), Some(next), None);
      mkToCpmk := next;
    }

    /** `addCpmkToCpl`: a new row from the first CPMK to the first CPL,
      weight 100. */
    method AddCpmkToCpl() returns (data: Mapping)
      modifies this
      ensures Tables() == old(Tables())
      ensures cpmkToCpl == old(cpmkToCpl) + [Edge(FirstOr(CpmkCodes()), FirstOr(CplCodes()), Some(100.0))]
      ensures mkToCpmk == old(mkToCpmk)
      ensures data == Current()
    {
      var next := cpmkToCpl + [Edge(FirstOr(CpmkCodes()), FirstOr(CplCodes()), Some(100.0))];
      data := Notify(Current(), None, Some(next));
      cpmkToCpl := next;
    }

    /** `updateMkToCpmk(idx, key, val)`: one field of row `idx`; nothing
      changes when there is no such row. */
    method UpdateMkToCpmk(idx: int, u: FieldUpdate) returns (data: Mapping)
      modifies this
      ensures Tables() == old(Tables())
      ensures mkToCpmk == UpdatedAt(old(mkToCpmk), idx, u)
      ensures cpmkToCpl == old(cpmkToCpl)
      ensures data == Current()
    {
      var next := UpdatedAt(mkToCpmk, idx, u);
      data := Notify(Current(), Some(next), None);
      mkToCpmk := next;
    }

    /** `updateCpmkToCpl(idx, key, val)`. */
    method UpdateCpmkToCpl(idx: int, u: FieldUpdate) returns (data: Mapping)
      modifies this
      ensures Tables() == old(Tables())
      ensures cpmkToCpl == UpdatedAt(old(cpmkToCpl), idx, u)
      ensures mkToCpmk == old(mkToCpmk)
      ensures data == Current()
    {
      var next := UpdatedAt(cpmkToCpl, idx, u);
      data := Notify(Current(), None, Some(next));
      cpmkToCpl := next;
    }

    /** `removeRow(type, idx)`: drops row `idx` of the list `type` names;
      nothing changes when there is no such row. */
    method RemoveRow(kind: string, idx: int) returns (data: Mapping)
      modifies this
      ensures Tables() == old(Tables())
      ensures IsFirstList(kind) ==> mkToCpmk == RemovedAt(old(mkToCpmk), idx) && cpmkToCpl == old(cpmkToCpl)
      ensures !IsFirstList(kind) ==> cpmkToCpl == RemovedAt(old(cpmkToCpl), idx) && mkToCpmk == old(mkToCpmk)
      ensures data == Current()
    {
      if kind == "a" {
        var next := RemovedAt(mkToCpmk, idx);
        data := Notify(Current(), Some(next), None);
        mkToCpmk := next;
      } else {
        var next := RemovedAt(cpmkToCpl, idx);
        data := Notify(Current(), None, Some(next));
        cpmkToCpl := next;
      }
    }
  }

  /** Adding a row before the course table is uploaded and another after:
      the first row keeps the empty course code, the second takes the
      uploaded table's first code. */
  method UploadBetweenAdds(mk: Table) returns (rows: seq<Edge>)
    ensures rows == [Edge("", "", Some(100.0)), Edge(FirstOr(Codes(Some(mk))), "", Some(100.0))]
  {
    var m := new MappingManager(None, None, None);
    var _ := m.AddMkToCpmk();
    m.SetTables(Some(mk), None, None);
    var _ := m.AddMkToCpmk();
    rows := m.mkToCpmk;
  }

  /** The codes offered are the table's distinct non-empty first cells, in
      the order of their first row, and nothing without headers. */
  lemma CodesMeaning(table: Option<Table>)
    ensures Distinct(Codes(table))
    ensures forall v :: v in Codes(table) <==>
              table.Some? && |table.value.headers| > 0 && v != "" && Some(v) in ColumnOf(table.value.rows, 0)
  {
    if table.Some? {
      UniqueOfMembers(table.value.rows, 0);
    }
  }

  /** A new row's codes are ones the tables offer, or empty when a table
      offers none. */
  lemma AddedCodes(table: Option<Table>)
    ensures FirstOr(Codes(table)) == "" || FirstOr(Codes(table)) in Codes(table)
  {
  }
}
