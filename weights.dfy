/** The `groupBy` and `normWeights` helpers of `computeResults`: mapping
    rows are grouped by their source code, and each weight is divided by the
    weight total of its group (or by 1 when that total is 0). */
module Weights {
  import opened Common
  import opened OrderedDict

  /** An edge with its normalised weight added: `{ ...it, w }`. */
  datatype NormEdge = NormEdge(edge: Edge, w: real)

  function EdgeSource(e: Edge): string { e.src }
  function NormSource(n: NormEdge): string { n.edge.src }
  function NormTarget(n: NormEdge): string { n.edge.dst }

  /** `Number(it.weight) || 0`. */
  function WeightOf(e: Edge): real { Num(e.weight) }

  /** The distinct keys of `s`, in order of first appearance. */
  function KeysOf<T>(s: seq<T>, key: T -> string): (r: seq<string>)
    ensures Distinct(r)
    ensures forall k :: k in r <==> exists i :: 0 <= i < |s| && key(s[i]) == k
    decreases |s|
  {
    if s == [] then []
    else
      var front := s[..|s| - 1];
      var ks := KeysOf(front, key);
      assert forall i :: 0 <= i < |s| - 1 ==> front[i] == s[i];
      if key(s[|s| - 1]) in ks then ks else ks + [key(s[|s| - 1])]
  }

  /** The members of `s` whose key is `k`, in their original order. */
  function GroupOf<T>(s: seq<T>, key: T -> string, k: string): seq<T>
    decreases |s|
  {
    if s == [] then []
    else GroupOf(s[..|s| - 1], key, k) + (if key(s[|s| - 1]) == k then [s[|s| - 1]] else [])
  }

  /** `groupBy(arr, key)`: one list per key, keys in order of first
      appearance, each list holding exactly the members with that key in
      their original order. */
  method GroupBy<T>(arr: seq<T>, key: T -> string) returns (g: Dict<seq<T>>)
    ensures Grouped(g, arr, key)
  {
    g := Empty();
    for i := 0 to |arr|
      invariant Grouped(g, arr[..i], key)
    {
      g := GroupPush(g, arr, i, key);
    }
    assert arr[..|arr|] == arr;
  }

  /** The body of `groupBy`'s loop on the element at `i`:
      `(acc[k] ||= []).push(x)`. */
  method GroupPush<T>(g: Dict<seq<T>>, arr: seq<T>, i: nat, key: T -> string) returns (g': Dict<seq<T>>)
    requires i < |arr| && Grouped(g, arr[..i], key)
    ensures Grouped(g', arr[..i + 1], key)
  {
    var x := arr[i];
    var k := key(x);
    var list := if k in g.vals then g.vals[k] else [];
    GroupStep(g, arr[..i], key, x);
    assert arr[..i + 1] == arr[..i] + [x];
    g' := g.Put(k, list + [x]);
  }

  /** `g` is what `groupBy(s, key)` returns: the keys in order of first
      appearance, each holding exactly its group. */
  ghost predicate Grouped<T>(g: Dict<seq<T>>, s: seq<T>, key: T -> string)
  {
    && g.Valid()
    && g.keys == KeysOf(s, key)
    && forall k :: k in g.vals ==> g.vals[k] == GroupOf(s, key, k)
  }

  /** One step of `groupBy`: pushing `x` onto its key's list. */
  lemma GroupStep<T>(g: Dict<seq<T>>, s: seq<T>, key: T -> string, x: T)
    requires Grouped(g, s, key)
    ensures var k := key(x);
            Grouped(g.Put(k, (if k in g.vals then g.vals[k] else []) + [x]), s + [x], key)
  {
    var k := key(x);
    var g' := g.Put(k, (if k in g.vals then g.vals[k] else []) + [x]);
    assert (s + [x])[..|s|] == s;
    assert k in g.vals <==> k in KeysOf(s, key);
    forall k' | k' in g'.vals
      ensures g'.vals[k'] == GroupOf(s + [x], key, k')
    {
      if k' == k && k !in g.vals {
        GroupOfAbsent(s, key, k);
      }
    }
  }

  /** The sum of `Number(it.weight) || 0` over a list. */
  function WeightTotal(list: seq<Edge>): real
    decreases |list|
  {
    if list == [] then 0.0 else WeightTotal(list[..|list| - 1]) + WeightOf(list[|list| - 1])
  }

  /** `list.reduce((s, it) => s + (Number(it.weight) || 0), 0)`. */
  method SumWeights(list: seq<Edge>) returns (sum: real)
    ensures sum == WeightTotal(list)
  {
    sum := 0.0;
    for i := 0 to |list|
      invariant sum == WeightTotal(list[..i])
    {
      assert list[..i + 1][..i] == list[..i];
      sum := sum + WeightOf(list[i]);
    }
    assert list[..|list|] == list;
  }

  /** `sum || 1`: the weight total, or 1 when it is 0. */
  function Divisor(list: seq<Edge>): (d: real)
    ensures d != 0.0
  {
    if WeightTotal(list) == 0.0 then 1.0 else WeightTotal(list)
  }

  /** Each edge of `list` with `w = weight / d`. */
  function Scaled(list: seq<Edge>, d: real): (r: seq<NormEdge>)
    requires d != 0.0
    ensures |r| == |list|
    ensures forall i :: 0 <= i < |r| ==> r[i] == NormEdge(list[i], WeightOf(list[i]) / d)
    decreases |list|
  {
    if list == [] then []
    else
      var last := list[|list| - 1];
      Scaled(list[..|list| - 1], d) + [NormEdge(last, WeightOf(last) / d)]
  }

  /** The scaled groups of the keys `ks`, one after the other. */
  function NormGroups(edges: seq<Edge>, ks: seq<string>): seq<NormEdge>
    decreases |ks|
  {
    if ks == [] then []
    else
      var group := GroupOf(edges, EdgeSource, ks[|ks| - 1]);
      NormGroups(edges, ks[..|ks| - 1]) + Scaled(group, Divisor(group))
  }

  /** What `normWeights(arr, 'mk')` (or `'cpmk'`) returns: the groups in
      order of first appearance of their source code, each scaled by its
      own divisor. */
  function Normalized(edges: seq<Edge>): seq<NormEdge>
  {
    NormGroups(edges, KeysOf(edges, EdgeSource))
  }

  /** The body of the `forEach` in `normWeights`: the group's weight sum,
      replaced by 1 when it is 0, then every member of the group pushed with
      `w = weight / sum`. Returns what this pushes onto `out`. */
  method NormalizeGroup(list: seq<Edge>) returns (pushed: seq<NormEdge>)
    ensures pushed == Scaled(list, Divisor(list))
  {
    var sum := SumWeights(list);
    if sum == 0.0 {
      sum := 1.0;
    }
    pushed := [];
    for i := 0 to |list|
      invariant pushed == Scaled(list[..i], sum)
    {
      assert list[..i + 1][..i] == list[..i];
      pushed := pushed + [NormEdge(list[i], WeightOf(list[i]) / sum)];
    }
    assert list[..|list|] == list;
  }

  /** `normWeights`: groups the edges by source code and normalises each
      group in turn, in the order the groups were created. */
  method NormWeights(arr: seq<Edge>) returns (out: seq<NormEdge>)
    ensures out == Normalized(arr)
  {
    var g := GroupBy(arr, EdgeSource);
    out := [];
    for j := 0 to |g.keys|
      invariant out == NormGroups(arr, g.keys[..j])
    {
      out := NormalizeNext(out, arr, g, j);
    }
    assert g.keys[..|g.keys|] == g.keys;
  }

  /** One turn of the `forEach` over the groups: the `j`-th group's edges,
      normalised, pushed onto `out`. */
  method NormalizeNext(out: seq<NormEdge>, arr: seq<Edge>, g: Dict<seq<Edge>>, j: nat) returns (out': seq<NormEdge>)
    requires Grouped(g, arr, EdgeSource) && j < |g.keys|
    requires out == NormGroups(arr, g.keys[..j])
    ensures out' == NormGroups(arr, g.keys[..j + 1])
  {
    assert g.keys[..j + 1][..j] == g.keys[..j];
    assert g.keys[j] in g.vals;
    var pushed := NormalizeGroup(g.vals[g.keys[j]]);
    out' := out + pushed;
  }

  // ---------------------------------------------------------------------
  // Properties of the normalised edges
  // ---------------------------------------------------------------------

  lemma {:induction false} GroupOfAppend<T>(a: seq<T>, b: seq<T>, key: T -> string, k: string)
    ensures GroupOf(a + b, key, k) == GroupOf(a, key, k) + GroupOf(b, key, k)
    decreases |b|
  {
    if b == [] {
      assert a + b == a;
    } else {
      assert (a + b)[..|a + b| - 1] == a + b[..|b| - 1];
      GroupOfAppend(a, b[..|b| - 1], key, k);
    }
  }

  lemma {:induction false} GroupOfMembers<T>(s: seq<T>, key: T -> string, k: string)
    ensures forall x :: x in GroupOf(s, key, k) <==> x in s && key(x) == k
    decreases |s|
  {
    if s != [] {
      GroupOfMembers(s[..|s| - 1], key, k);
      assert s == s[..|s| - 1] + [s[|s| - 1]];
    }
  }

  lemma {:induction false} GroupOfScaled(list: seq<Edge>, d: real, k: string, k': string)
    requires d != 0.0
    requires forall e :: e in list ==> e.src == k'
    ensures GroupOf(Scaled(list, d), NormSource, k) == if k == k' then Scaled(list, d) else []
    decreases |list|
  {
    var r := Scaled(list, d);
    if list != [] {
      var front := list[..|list| - 1];
      assert r[..|r| - 1] == Scaled(front, d);
      GroupOfScaled(front, d, k, k');
    }
  }

  lemma {:induction false} GroupOfNormGroups(edges: seq<Edge>, ks: seq<string>, k: string)
    requires Distinct(ks)
    ensures GroupOf(NormGroups(edges, ks), NormSource, k)
         == if k in ks then Scaled(GroupOf(edges, EdgeSource, k), Divisor(GroupOf(edges, EdgeSource, k))) else []
    decreases |ks|
  {
    if ks != [] {
      var last := ks[|ks| - 1];
      var front := ks[..|ks| - 1];
      var group := GroupOf(edges, EdgeSource, last);
      GroupOfNormGroups(edges, front, k);
      GroupOfAppend(NormGroups(edges, front), Scaled(group, Divisor(group)), NormSource, k);
      GroupOfMembers(edges, EdgeSource, last);
      GroupOfScaled(group, Divisor(group), k, last);
      assert k in ks <==> k in front || k == last;
      assert last !in front;
    }
  }

  lemma {:induction false} GroupOfAbsent<T>(s: seq<T>, key: T -> string, k: string)
    requires forall i :: 0 <= i < |s| ==> key(s[i]) != k
    ensures GroupOf(s, key, k) == []
    decreases |s|
  {
    if s != [] { GroupOfAbsent(s[..|s| - 1], key, k); }
  }

  /** The normalised edges of one source code are exactly that code's input
      edges, in their input order, each with `w = weight / (sum || 1)`. */
  lemma NormalizedGroup(edges: seq<Edge>, k: string)
    ensures GroupOf(Normalized(edges), NormSource, k)
         == Scaled(GroupOf(edges, EdgeSource, k), Divisor(GroupOf(edges, EdgeSource, k)))
  {
    var ks := KeysOf(edges, EdgeSource);
    GroupOfNormGroups(edges, ks, k);
    if k !in ks {
      GroupOfAbsent(edges, EdgeSource, k);
    }
  }

  /** The sum of the `w` fields of a list of normalised edges. */
  function NormTotal(ns: seq<NormEdge>): real
    decreases |ns|
  {
    if ns == [] then 0.0 else NormTotal(ns[..|ns| - 1]) + ns[|ns| - 1].w
  }

  lemma {:induction false} NormTotalScaled(list: seq<Edge>, d: real)
    requires d != 0.0
    ensures NormTotal(Scaled(list, d)) == WeightTotal(list) / d
    decreases |list|
  {
    if list != [] {
      var front := list[..|list| - 1];
      var r := Scaled(list, d);
      assert r[..|r| - 1] == Scaled(front, d);
      NormTotalScaled(front, d);
      DivAdd(WeightTotal(front), WeightOf(list[|list| - 1]), d);
    }
  }

  lemma DivAdd(a: real, b: real, d: real)
    requires d != 0.0
    ensures a / d + b / d == (a + b) / d
  {
  }

  /** A source code whose weights do not add up to 0 gets normalised weights
      adding up to exactly 1. */
  lemma NormalizedSumsToOne(edges: seq<Edge>, k: string)
    requires WeightTotal(GroupOf(edges, EdgeSource, k)) != 0.0
    ensures NormTotal(GroupOf(Normalized(edges), NormSource, k)) == 1.0
  {
    var group := GroupOf(edges, EdgeSource, k);
    NormalizedGroup(edges, k);
    NormTotalScaled(group, Divisor(group));
    DivSelf(WeightTotal(group));
  }

  lemma DivSelf(t: real)
    requires t != 0.0
    ensures t / t == 1.0
  {
  }

  /** A source code whose weights add up to 0 is divided by 1: each member
      keeps its raw weight as `w`, so a group of zero weights gets `w = 0`
      throughout. */
  lemma NormalizedZeroGroup(edges: seq<Edge>, k: string)
    requires WeightTotal(GroupOf(edges, EdgeSource, k)) == 0.0
    ensures forall n :: n in GroupOf(Normalized(edges), NormSource, k) ==> n.w == WeightOf(n.edge)
    ensures (forall e :: e in edges && e.src == k ==> WeightOf(e) == 0.0) ==>
              forall n :: n in GroupOf(Normalized(edges), NormSource, k) ==> n.w == 0.0
  {
    var group := GroupOf(edges, EdgeSource, k);
    NormalizedGroup(edges, k);
    GroupOfMembers(edges, EdgeSource, k);
    var ns := Scaled(group, 1.0);
    forall n | n in ns
      ensures n.w == WeightOf(n.edge) && n.edge in group
    {
      var i :| 0 <= i < |ns| && ns[i] == n;
    }
  }

  /** The edges carried by a list of normalised edges. */
  function EdgesOf(ns: seq<NormEdge>): (r: seq<Edge>)
    ensures |r| == |ns|
    ensures forall i :: 0 <= i < |ns| ==> r[i] == ns[i].edge
  {
    seq(|ns|, i requires 0 <= i < |ns| => ns[i].edge)
  }

  lemma {:induction false} EdgesOfGroup(ns: seq<NormEdge>, k: string)
    ensures EdgesOf(GroupOf(ns, NormSource, k)) == GroupOf(EdgesOf(ns), EdgeSource, k)
    decreases |ns|
  {
    if ns != [] {
      var front := ns[..|ns| - 1];
      assert EdgesOf(ns)[..|ns| - 1] == EdgesOf(front);
      EdgesOfGroup(front, k);
      assert EdgesOf(GroupOf(ns, NormSource, k))
          == EdgesOf(GroupOf(front, NormSource, k)) + EdgesOf(if NormSource(ns[|ns| - 1]) == k then [ns[|ns| - 1]] else []);
    }
  }

  lemma {:induction false} CountInGroup<T>(s: seq<T>, key: T -> string, x: T)
    ensures multiset(s)[x] == multiset(GroupOf(s, key, key(x)))[x]
    decreases |s|
  {
    if s != [] {
      var front := s[..|s| - 1];
      CountInGroup(front, key, x);
      assert s == front + [s[|s| - 1]];
    }
  }

  /** Each edge occurs in the output of `normWeights` as often as in its input. */
  lemma NormalizedCount(edges: seq<Edge>, e: Edge)
    ensures multiset(EdgesOf(Normalized(edges)))[e] == multiset(edges)[e]
  {
    var ns := Normalized(edges);
    var group := GroupOf(edges, EdgeSource, e.src);
    CountInGroup(EdgesOf(ns), EdgeSource, e);
    EdgesOfGroup(ns, e.src);
    NormalizedGroup(edges, e.src);
    assert EdgesOf(Scaled(group, Divisor(group))) == group;
    CountInGroup(edges, EdgeSource, e);
  }

  /** `normWeights` outputs every input edge exactly as often as it occurs
      in the input, with its fields unchanged. */
  lemma NormalizedPermutes(edges: seq<Edge>)
    ensures multiset(EdgesOf(Normalized(edges))) == multiset(edges)
  {
    forall e: Edge
      ensures multiset(EdgesOf(Normalized(edges)))[e] == multiset(edges)[e]
    {
      NormalizedCount(edges, e);
    }
  }

  /** `normWeights` gives each edge the weight of its own group:
      `w = weight / (sum || 1)`. */
  lemma NormalizedWeights(edges: seq<Edge>)
    ensures forall n :: n in Normalized(edges) ==>
              n.w == WeightOf(n.edge) / Divisor(GroupOf(edges, EdgeSource, n.edge.src))
  {
    var ns := Normalized(edges);
    forall n | n in ns
      ensures n.w == WeightOf(n.edge) / Divisor(GroupOf(edges, EdgeSource, n.edge.src))
    {
      GroupOfMembers(ns, NormSource, n.edge.src);
      NormalizedGroup(edges, n.edge.src);
    }
  }
}
