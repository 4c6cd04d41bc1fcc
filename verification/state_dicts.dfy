/** `state_to_dict` and `dict_to_state` of `landia/common.py`: a state is a
  * dict from names to lists of `(key, value)` pairs, its dict form a dict
  * from the same names to dicts. An inner dict keeps Python's insertion
  * order, so it is written as a list of pairs with distinct keys. */
module StateDicts {
  import opened Base

  /** An insertion-ordered dict: its entries, oldest key first. */
  type Dict<V> = seq<(string, V)>

  /** `k in d`. */
  predicate HasKey<V>(d: Dict<V>, k: string)
  {
    exists i :: 0 <= i < |d| && d[i].0 == k
  }

  /** No key appears twice, as in any Python dict. */
  predicate UniqueKeys<V>(d: Dict<V>)
  {
    forall i, j :: 0 <= i < j < |d| ==> d[i].0 != d[j].0
  }

  /** `d[k] = v`: an existing key keeps its place and takes the new value;
    * a new key goes to the end. */
  function Put<V>(d: Dict<V>, k: string, v: V): (r: Dict<V>)
    requires UniqueKeys(d)
    ensures !HasKey(d, k) ==> r == d + [(k, v)]
    ensures HasKey(d, k) ==> |r| == |d| && forall i :: 0 <= i < |d| ==> r[i] == if d[i].0 == k then (k, v) else d[i]
  {
    if d == [] then [(k, v)]
    else if d[0].0 == k then [(k, v)] + d[1..]
    else
      assert HasKey(d, k) <==> HasKey(d[1..], k);
      [d[0]] + Put(d[1..], k, v)
  }

  /** An assignment keeps the keys distinct. */
  lemma PutUnique<V>(d: Dict<V>, k: string, v: V)
    requires UniqueKeys(d)
    ensures UniqueKeys(Put(d, k, v))
  {
    var r := Put(d, k, v);
    if HasKey(d, k) {
      forall i, j | 0 <= i < j < |r| ensures r[i].0 != r[j].0 {
        assert r[i].0 == d[i].0 && r[j].0 == d[j].0;
      }
    }
  }

  /** The dict built by assigning the pairs of `ps` in order. */
  function FromPairs<V>(ps: seq<(string, V)>): (d: Dict<V>)
    ensures UniqueKeys(d)
  {
    if ps == [] then []
    else
      var prefix := FromPairs(ps[..|ps| - 1]);
      PutUnique(prefix, ps[|ps| - 1].0, ps[|ps| - 1].1);
      Put(prefix, ps[|ps| - 1].0, ps[|ps| - 1].1)
  }

  /** The value the last pair for `k` in `ps` carries. */
  function LastValue<V>(ps: seq<(string, V)>, k: string): Option<V>
  {
    if ps == [] then None
    else if ps[|ps| - 1].0 == k then Some(ps[|ps| - 1].1)
    else LastValue(ps[..|ps| - 1], k)
  }

  /** The value `d` holds for `k`. */
  function Lookup<V>(d: Dict<V>, k: string): Option<V>
  {
    if d == [] then None else if d[0].0 == k then Some(d[0].1) else Lookup(d[1..], k)
  }

  lemma {:induction false} LookupPut<V>(d: Dict<V>, k: string, v: V, j: string)
    requires UniqueKeys(d)
    ensures Lookup(Put(d, k, v), j) == if j == k then Some(v) else Lookup(d, j)
    decreases |d|
  {
    if d != [] {
      LookupPut(d[1..], k, v, j);
    }
  }

  /** Assigning pairs one by one leaves each key with the value of its last
    * pair, and no other key. */
  lemma {:induction false} FromPairsLastWins<V>(ps: seq<(string, V)>, k: string)
    ensures Lookup(FromPairs(ps), k) == LastValue(ps, k)
    decreases |ps|
  {
    if ps != [] {
      var n := |ps| - 1;
      LookupPut(FromPairs(ps[..n]), ps[n].0, ps[n].1, k);
      FromPairsLastWins(ps[..n], k);
    }
  }

  /** Pairs whose keys are already distinct come back as they were, in the
    * same order. */
  lemma {:induction false} FromUniquePairs<V>(ps: seq<(string, V)>)
    requires UniqueKeys(ps)
    ensures FromPairs(ps) == ps
    decreases |ps|
  {
    if ps != [] {
      var n := |ps| - 1;
      FromUniquePairs(ps[..n]);
      assert !HasKey(ps[..n], ps[n].0);
      assert ps[..n] + [ps[n]] == ps;
    }
  }

  /** A state: name -> list of `(key, value)` pairs. */
  type State<V> = map<string, seq<(string, V)>>

  /** A dict form: name -> dict. */
  type DictForm<V> = map<string, Dict<V>>

  /** Every inner dict of `d` has distinct keys. */
  predicate WellFormed<V>(d: DictForm<V>)
  {
    forall n :: n in d ==> UniqueKeys(d[n])
  }

  /** `state_to_dict`: every name keeps its entry, whose pairs are
    * assigned in order into a fresh dict. */
  method StateToDict<V>(state: State<V>) returns (r: DictForm<V>)
    ensures r.Keys == state.Keys
    ensures forall n :: n in r ==> r[n] == FromPairs(state[n])
  {
    r := map[];
    var todo := state.Keys;
    while todo != {}
      invariant todo <= state.Keys && r.Keys == state.Keys - todo
      invariant forall n :: n in r ==> r[n] == FromPairs(state[n])
      decreases todo
    {
      var n :| n in todo;
      var pairs := state[n];
      var inner: Dict<V> := [];
      var i := 0;
      while i < |pairs|
        invariant 0 <= i <= |pairs|
        invariant inner == FromPairs(pairs[..i])
      {
        assert pairs[..i + 1][..i] == pairs[..i];
        inner := Put(inner, pairs[i].0, pairs[i].1);
        i := i + 1;
      }
      assert pairs[..i] == pairs;
      r := r[n := inner];
      todo := todo - {n};
    }
  }

  /** `dict_to_state`: every name keeps its entry, listing its dict's
    * pairs in the dict's order. */
  method DictToState<V>(data: DictForm<V>) returns (r: State<V>)
    ensures r.Keys == data.Keys
    ensures forall n :: n in r ==> r[n] == data[n]
  {
    r := map[];
    var todo := data.Keys;
    while todo != {}
      invariant todo <= data.Keys && r.Keys == data.Keys - todo
      invariant forall n :: n in r ==> r[n] == data[n]
      decreases todo
    {
      var n :| n in todo;
      var d := data[n];
      var list: seq<(string, V)> := [];
      var i := 0;
      while i < |d|
        invariant 0 <= i <= |d| && list == d[..i]
      {
        list := list + [d[i]];
        i := i + 1;
      }
      assert d[..i] == d;
      r := r[n := list];
      todo := todo - {n};
    }
  }

  /** `state_to_dict(dict_to_state(d)) == d` for every dict form. */
  lemma DictRoundTrip<V>(d: DictForm<V>)
    requires WellFormed(d)
    ensures (map n | n in d :: FromPairs(d[n])) == d
  {
    forall n | n in d ensures FromPairs(d[n]) == d[n] {
      FromUniquePairs(d[n]);
    }
  }

  /** `dict_to_state(state_to_dict(s)) == s` when no list repeats a key. */
  lemma StateRoundTrip<V>(s: State<V>)
    requires forall n :: n in s ==> UniqueKeys(s[n])
    ensures (map n | n in s :: FromPairs(s[n])) == s
  {
    forall n | n in s ensures FromPairs(s[n]) == s[n] {
      FromUniquePairs(s[n]);
    }
  }

  /** A list that repeats a key does not come back: the dict form keeps
    * one pair per key. */
  lemma RepeatedKeyCollapses<V>(v: V, w: V)
    ensures FromPairs([("k", v), ("k", w)]) == [("k", w)]
  {
    assert [("k", v), ("k", w)][..1] == [("k", v)];
    assert [("k", v)][..0] == [];
    assert FromPairs([("k", v)]) == [("k", v)];
  }
}
