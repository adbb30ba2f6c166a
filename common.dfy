/** Values shared by the upload, mapping and results components: parsed CSV
    tables, weighted mapping edges, JavaScript's `undefined`, `indexOf` and
    the `Number(x) || 0` idiom. */
module Common {

  /** A JavaScript value that may be `undefined` (or, for numbers, `NaN`). */
  datatype Option<+T> = None | Some(value: T)

  /** A parsed CSV file: header names and rows of cells, each a string. */
  datatype Table = Table(headers: seq<string>, rows: seq<seq<string>>)

  /** One weighted mapping row. In `mkToCpmk` the source is the MK (course)
      code and the target the CPMK code; in `cpmkToCpl` the source is the CPMK
      code and the target the CPL code. `weight` is a JavaScript number, and
      `None` stands for `NaN`. */
  datatype Edge = Edge(src: string, dst: string, weight: Option<real>)

  /** The two mapping lists handed from the mapping editor to the results. */
  datatype Mapping = Mapping(mkToCpmk: seq<Edge>, cpmkToCpl: seq<Edge>)

  /** `Number(x) || 0` once `Number(x)` is known: `NaN` becomes 0. */
  function Num(x: Option<real>): real
  {
    if x.Some? then x.value else 0.0
  }

  /** `row[i]`, which is `undefined` past the end of the row. */
  function Cell(row: seq<string>, i: int): (r: Option<string>)
    ensures r.Some? <==> 0 <= i < |row|
    ensures r.Some? ==> r.value == row[i]
  {
    if 0 <= i < |row| then Some(row[i]) else None
  }

  /** `s.indexOf(x)`: the first position of `x`, or -1. */
  function IndexOf<T(==)>(s: seq<T>, x: T): (r: int)
    ensures r == -1 <==> x !in s
    ensures r != -1 ==> 0 <= r < |s| && s[r] == x && x !in s[..r]
  {
    if s == [] then -1
    else if s[0] == x then 0
    else
      var k := IndexOf(s[1..], x);
      assert k != -1 ==> s[..k+1] == [s[0]] + s[1..][..k];
      if k == -1 then -1 else k + 1
  }

  /** No value occurs twice. */
  predicate Distinct<T(==)>(s: seq<T>)
  {
    forall i, j :: 0 <= i < j < |s| ==> s[i] != s[j]
  }

  /** In a sequence without repeats, `indexOf` gives back each position. */
  lemma IndexOfDistinct<T>(s: seq<T>, i: int)
    requires Distinct(s) && 0 <= i < |s|
    ensures IndexOf(s, s[i]) == i
  {
  }

  /** `s.filter(p)`: the members of `s` that satisfy `p`, in order. */
  function Filter<T>(s: seq<T>, p: T -> bool): (r: seq<T>)
    ensures |r| <= |s|
    ensures forall x :: x in r ==> x in s && p(x)
    decreases |s|
  {
    if s == [] then []
    else
      var front := s[..|s| - 1];
      assert forall x :: x in front ==> x in s;
      Filter(front, p) + (if p(s[|s| - 1]) then [s[|s| - 1]] else [])
  }

  lemma FilterSnoc<T>(s: seq<T>, x: T, p: T -> bool)
    ensures Filter(s + [x], p) == Filter(s, p) + (if p(x) then [x] else [])
  {
    assert (s + [x])[..|s|] == s;
  }

  /** A filter that every member passes keeps them all, in order. */
  lemma {:induction false} FilterAll<T>(s: seq<T>, p: T -> bool)
    requires forall k :: 0 <= k < |s| ==> p(s[k])
    ensures Filter(s, p) == s
    decreases |s|
  {
    if s != [] {
      var front := s[..|s| - 1];
      assert forall k :: 0 <= k < |front| ==> front[k] == s[k];
      FilterAll(front, p);
      assert s == front + [s[|s| - 1]];
    }
  }
}
