/** A plain JavaScript object used as a dictionary (`{}` with `o[k] = v`),
    keeping its keys in the order they were first assigned, and the
    `(o[k] || 0) + x` accumulation the results component performs on it. */
module OrderedDict {
  import opened Common

  datatype Dict<V> = Dict(keys: seq<string>, vals: map<string, V>)
  {
    /** Every key is listed once, and exactly the keys with a value are listed. */
    predicate Valid()
    {
      && Distinct(keys)
      && (forall k :: k in vals ==> k in keys)
      && (forall k :: k in keys ==> k in vals)
    }

    /** `o[k] = v`: a new key goes to the end of the key order. */
    function Put(k: string, v: V): (r: Dict<V>)
      ensures Valid() ==> r.Valid()
    {
      if k in vals then Dict(keys, vals[k := v]) else Dict(keys + [k], vals[k := v])
    }

    /** `Object.entries(o)`. */
    function Entries(): (r: seq<(string, V)>)
      requires Valid()
      ensures |r| == |keys|
      ensures forall i :: 0 <= i < |r| ==> r[i].0 == keys[i] && keys[i] in vals && r[i].1 == vals[keys[i]]
    {
      seq(|keys|, i requires 0 <= i < |keys| => (keys[i], vals[keys[i]]))
    }
  }

  function Empty<V>(): (r: Dict<V>)
    ensures r.Valid()
  {
    Dict([], map[])
  }

  /** `o[k] || 0` on a dictionary of numbers. */
  function Get(d: Dict<real>, k: string): real
  {
    if k in d.vals then d.vals[k] else 0.0
  }

  /** `o[k] = (o[k] || 0) + x`. */
  function AddTo(d: Dict<real>, k: string, x: real): Dict<real>
  {
    d.Put(k, Get(d, k) + x)
  }

  /** Adds the pairs of `ps` into `d` one after the other, in order. */
  function AddAll(d: Dict<real>, ps: seq<(string, real)>): Dict<real>
    decreases |ps|
  {
    if ps == [] then d
    else
      var last := ps[|ps| - 1];
      AddTo(AddAll(d, ps[..|ps| - 1]), last.0, last.1)
  }

  /** The sum of the amounts of `ps` filed under key `k`. */
  function SumKey(ps: seq<(string, real)>, k: string): real
    decreases |ps|
  {
    if ps == [] then 0.0
    else SumKey(ps[..|ps| - 1], k) + (if ps[|ps| - 1].0 == k then ps[|ps| - 1].1 else 0.0)
  }

  lemma {:induction false} SumKeyAppend(a: seq<(string, real)>, b: seq<(string, real)>, k: string)
    ensures SumKey(a + b, k) == SumKey(a, k) + SumKey(b, k)
    decreases |b|
  {
    if b == [] {
      assert a + b == a;
    } else {
      assert (a + b)[..|a + b| - 1] == a + b[..|b| - 1];
      SumKeyAppend(a, b[..|b| - 1], k);
    }
  }

  /** Accumulating pairs keeps the dictionary well formed; a key is present
      exactly when it was present before or some pair names it, and its
      value grows by the sum of the amounts filed under it. */
  lemma {:induction false} AddAllMeaning(d: Dict<real>, ps: seq<(string, real)>, k: string)
    requires d.Valid()
    ensures AddAll(d, ps).Valid()
    ensures k in AddAll(d, ps).vals <==> k in d.vals || exists i :: 0 <= i < |ps| && ps[i].0 == k
    ensures Get(AddAll(d, ps), k) == Get(d, k) + SumKey(ps, k)
    decreases |ps|
  {
    if ps != [] {
      var front := ps[..|ps| - 1];
      AddAllMeaning(d, front, k);
      AddAllMeaning(d, front, ps[|ps| - 1].0);
      if k !in d.vals && (exists i :: 0 <= i < |ps| && ps[i].0 == k) {
        var i :| 0 <= i < |ps| && ps[i].0 == k;
        if i < |ps| - 1 { assert front[i].0 == k; }
      }
    }
  }

  /** Every key of a well-formed dictionary occurs once among its entries,
      so the entries filed under `k` add up to `o[k] || 0`. */
  lemma {:induction false} EntriesSumKey(d: Dict<real>, k: string)
    requires d.Valid()
    ensures SumKey(d.Entries(), k) == Get(d, k)
  {
    var es := d.Entries();
    if k in d.vals {
      var j :| 0 <= j < |d.keys| && d.keys[j] == k;
      SumKeySingle(es, j, k);
    } else {
      SumKeyNone(es, k);
    }
  }

  lemma {:induction false} SumKeyNone(ps: seq<(string, real)>, k: string)
    requires forall i :: 0 <= i < |ps| ==> ps[i].0 != k
    ensures SumKey(ps, k) == 0.0
    decreases |ps|
  {
    if ps != [] { SumKeyNone(ps[..|ps| - 1], k); }
  }

  lemma {:induction false} SumKeySingle(ps: seq<(string, real)>, j: int, k: string)
    requires 0 <= j < |ps| && ps[j].0 == k
    requires forall i :: 0 <= i < |ps| && i != j ==> ps[i].0 != k
    ensures SumKey(ps, k) == ps[j].1
    decreases |ps|
  {
    var front := ps[..|ps| - 1];
    if j == |ps| - 1 {
      SumKeyNone(front, k);
    } else {
      SumKeySingle(front, j, k);
    }
  }
}
