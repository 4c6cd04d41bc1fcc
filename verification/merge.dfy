/** `merged_dict` of `simpleland/utils.py`: a recursive, right-biased merge
  * of nested configuration dictionaries into a copy of the left one. */
module MergeDict {
  import opened Base

  /** A configuration value: a nested dictionary or anything else. */
  datatype Value = Scalar(text: string) | Dict(entries: map<string, Value>)

  /** The merged entry for a key present on the right: two dictionaries
    * merge recursively, otherwise the right value wins. */
  function MergedEntry(d1: map<string, Value>, k: string, v: Value): Value
    decreases v, 1
  {
    if k in d1 && d1[k].Dict? && v.Dict? then Dict(Merged(d1[k].entries, v.entries)) else v
  }

  /** Reference definition of the merge of `d2` into `d1`. */
  function Merged(d1: map<string, Value>, d2: map<string, Value>): (r: map<string, Value>)
    ensures r.Keys == d1.Keys + d2.Keys
    decreases Dict(d2), 0
  {
    map k | k in d1.Keys + d2.Keys :: if k in d2 then MergedEntry(d1, k, d2[k]) else d1[k]
  }

  /** `d2` restricted to the keys in `done`. */
  function Restrict(d2: map<string, Value>, done: set<string>): map<string, Value>
  {
    map k | k in d2.Keys && k in done :: d2[k]
  }

  /** `merged_dict(d1, d2)`: `None` on the left is an empty dictionary and
    * `None` on the right returns (a copy of) the left. The caller's `d1`
    * is a value here, so it cannot be changed by the merge. */
  method MergedDictionary(d1: Option<map<string, Value>>, d2: Option<map<string, Value>>)
    returns (r: map<string, Value>)
    ensures d2.None? ==> r == (if d1.None? then map[] else d1.value)
    ensures d2.Some? ==> r == Merged(if d1.None? then map[] else d1.value, d2.value)
  {
    var left := if d1.None? then map[] else d1.value;
    if d2.None? {
      return left;
    }
    r := MergeInto(left, d2.value);
  }

  /** The loop of `merged_dict` over the items of `d2`, recursing into
    * pairs of nested dictionaries. */
  method MergeInto(d1: map<string, Value>, d2: map<string, Value>) returns (r: map<string, Value>)
    ensures r == Merged(d1, d2)
    decreases Dict(d2)
  {
    r := d1;
    var todo := d2.Keys;
    while todo != {}
      invariant todo <= d2.Keys
      invariant r == Merged(d1, Restrict(d2, d2.Keys - todo))
      decreases todo
    {
      var k :| k in todo;
      var v := d2[k];
      ghost var done := d2.Keys - todo;
      if k in r && r[k].Dict? && v.Dict? {
        assert k in d1 && r[k] == d1[k];
        var inner := MergeInto(r[k].entries, v.entries);
        r := r[k := Dict(inner)];
      } else {
        r := r[k := v];
      }
      RestrictStep(d1, d2, done, k);
      todo := todo - {k};
      assert d2.Keys - todo == done + {k};
    }
    assert Restrict(d2, d2.Keys) == d2;
  }

  /** Merging one more right-hand key updates exactly that key. */
  lemma RestrictStep(d1: map<string, Value>, d2: map<string, Value>, done: set<string>, k: string)
    requires k in d2 && k !in done && done <= d2.Keys
    ensures Merged(d1, Restrict(d2, done + {k}))
         == Merged(d1, Restrict(d2, done))[k := MergedEntry(d1, k, d2[k])]
  {
    var a := Merged(d1, Restrict(d2, done + {k}));
    var b := Merged(d1, Restrict(d2, done))[k := MergedEntry(d1, k, d2[k])];
    assert a.Keys == b.Keys;
    forall j | j in a.Keys ensures a[j] == b[j] {
      if j != k && j in d1 && j !in done {
        assert j !in Restrict(d2, done + {k});
      }
    }
  }

  /** A key only on the left keeps its value; a key on the right whose two
    * values are not both dictionaries takes the right value. */
  lemma MergedValues(d1: map<string, Value>, d2: map<string, Value>, k: string)
    ensures k in d1 && k !in d2 ==> Merged(d1, d2)[k] == d1[k]
    ensures k in d2 && !(k in d1 && d1[k].Dict? && d2[k].Dict?) ==> Merged(d1, d2)[k] == d2[k]
    ensures k in d1 && k in d2 && d1[k].Dict? && d2[k].Dict?
            ==> Merged(d1, d2)[k] == Dict(Merged(d1[k].entries, d2[k].entries))
  {
  }

  /** Merging nothing into a dictionary gives it back unchanged. */
  lemma MergedEmptyRight(d1: map<string, Value>)
    ensures Merged(d1, map[]) == d1
  {
    assert Merged(d1, map[]).Keys == d1.Keys;
  }

  /** Merging a dictionary into itself changes nothing, at every depth. */
  lemma {:induction false} MergedIdempotent(d: map<string, Value>)
    ensures Merged(d, d) == d
    decreases Dict(d)
  {
    var m := Merged(d, d);
    forall k | k in d ensures m[k] == d[k] {
      assert m[k] == MergedEntry(d, k, d[k]);
      if d[k].Dict? {
        MergedIdempotent(d[k].entries);
        assert m[k] == Dict(d[k].entries);
      }
    }
    assert m.Keys == d.Keys;
  }

  /** Merging the same right-hand dictionary twice is the same as once:
    * the right side always wins. */
  lemma {:induction false} MergedRightAbsorbs(d1: map<string, Value>, d2: map<string, Value>)
    ensures Merged(Merged(d1, d2), d2) == Merged(d1, d2)
    decreases Dict(d2)
  {
    var once := Merged(d1, d2);
    var twice := Merged(once, d2);
    forall k | k in once ensures twice[k] == once[k] {
      if k in d2 {
        assert twice[k] == MergedEntry(once, k, d2[k]);
        assert once[k] == MergedEntry(d1, k, d2[k]);
        if once[k].Dict? && d2[k].Dict? {
          if k in d1 && d1[k].Dict? {
            MergedRightAbsorbs(d1[k].entries, d2[k].entries);
          } else {
            MergedIdempotent(d2[k].entries);
          }
        }
      }
    }
    assert twice.Keys == once.Keys;
  }
}
