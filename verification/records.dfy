/**
 * The records the scripts emit, as JSON values, and Python's insertion-ordered `dict`
 * written as a sequence of (key, value) pairs. `d[k] = v` keeps the position of a key that
 * is already present and appends a new one; `d.pop(k)` removes it.
 */
module Records {
  import opened Wrappers

  /**
   * A JSON value. Floating-point numbers are not computed: `Real(t)` is `float(t)` and
   * `Scaled(t)` is `int(float(t) * 255)`, each remembered by the text it was read from.
   */
  datatype Value =
    | Null
    | Bool(b: bool)
    | Int(i: int)
    | Real(literal: string)
    | Scaled(literal: string)
    | Str(s: string)
    | List(items: seq<Value>)
    | Obj(fields: seq<(string, Value)>)

  type Record = seq<(string, Value)>

  function Keys<K, V>(d: seq<(K, V)>): (ks: seq<K>)
    ensures |ks| == |d| && forall i :: 0 <= i < |d| ==> ks[i] == d[i].0
    decreases |d|
  {
    if |d| == 0 then [] else [d[0].0] + Keys(d[1..])
  }

  /** No key occurs twice: what every Python dict satisfies. */
  predicate Unique<K(==), V>(d: seq<(K, V)>)
    decreases |d|
  {
    |d| == 0 || (d[0].0 !in Keys(d[1..]) && Unique(d[1..]))
  }

  lemma KeyOf<K, V>(d: seq<(K, V)>, e: (K, V))
    requires e in d
    ensures e.0 in Keys(d)
  {
    var i :| 0 <= i < |d| && d[i] == e;
    assert Keys(d)[i] == e.0;
  }

  /** In a dict, two positions hold two different keys. */
  lemma {:induction false} UniqueAt<K, V>(d: seq<(K, V)>, i: nat, j: nat)
    requires Unique(d) && i < j < |d|
    ensures d[i].0 != d[j].0
    decreases i
  {
    if i == 0 {
      assert d[j].0 == Keys(d[1..])[j - 1];
    } else {
      UniqueAt(d[1..], i - 1, j - 1);
    }
  }

  /** Pairwise different keys make a dict. */
  lemma {:induction false} DistinctUnique<K, V>(d: seq<(K, V)>)
    requires forall i, j :: 0 <= i < j < |d| ==> d[i].0 != d[j].0
    ensures Unique(d)
    decreases |d|
  {
    if |d| > 0 {
      var t := d[1..];
      assert forall i, j :: 0 <= i < j < |t| ==> t[i].0 != t[j].0 by {
        forall i, j | 0 <= i < j < |t| ensures t[i].0 != t[j].0 {
          assert t[i] == d[i + 1] && t[j] == d[j + 1];
        }
      }
      DistinctUnique(t);
    }
  }

  /** `d.get(k)` */
  function Get<K(==), V>(d: seq<(K, V)>, k: K): (r: Option<V>)
    ensures r.None? <==> k !in Keys(d)
    ensures r.Some? ==> (k, r.value) in d
    decreases |d|
  {
    if |d| == 0 then None
    else if d[0].0 == k then Some(d[0].1)
    else Get(d[1..], k)
  }

  /** In a dict, looking up the key at a position finds the value at that position. */
  lemma {:induction false} GetAt<K, V>(d: seq<(K, V)>, i: nat)
    requires Unique(d) && i < |d|
    ensures Get(d, d[i].0) == Some(d[i].1)
    decreases i
  {
    if i > 0 {
      UniqueAt(d, 0, i);
      GetAt(d[1..], i - 1);
    }
  }

  /** `d[k] = v` */
  function Put<K(==,!new), V(!new)>(d: seq<(K, V)>, k: K, v: V): (r: seq<(K, V)>)
    requires Unique(d)
    ensures Unique(r)
    ensures Keys(r) == if k in Keys(d) then Keys(d) else Keys(d) + [k]
    decreases |d|
  {
    if |d| == 0 then [(k, v)]
    else
      if d[0].0 == k then [(k, v)] + d[1..]
      else
        var rest := Put(d[1..], k, v);
        assert ([d[0]] + rest)[1..] == rest;
        [d[0]] + rest
  }

  /** After `d[k] = v`, `k` maps to `v` and every other key to what it mapped to before. */
  lemma {:induction false} PutGet<K(!new), V(!new)>(d: seq<(K, V)>, k: K, v: V, k': K)
    requires Unique(d)
    ensures Get(Put(d, k, v), k') == if k' == k then Some(v) else Get(d, k')
    decreases |d|
  {
    if |d| > 0 {
      if d[0].0 != k {
        PutGet(d[1..], k, v, k');
      }
    }
  }

  /** Every entry after `d[k] = v` is the new one or an entry from before. */
  lemma {:induction false} PutMembers<K(!new), V(!new)>(d: seq<(K, V)>, k: K, v: V)
    requires Unique(d)
    ensures forall e :: e in Put(d, k, v) ==> e == (k, v) || e in d
    decreases |d|
  {
    if |d| > 0 && d[0].0 != k {
      PutMembers(d[1..], k, v);
      assert forall e :: e in d[1..] ==> e in d;
    }
  }

  /** Assigning a new key appends it. */
  lemma {:induction false} PutFresh<K(!new), V(!new)>(d: seq<(K, V)>, k: K, v: V)
    requires Unique(d) && k !in Keys(d)
    ensures Put(d, k, v) == d + [(k, v)]
    decreases |d|
  {
    if |d| > 0 {
      PutFresh(d[1..], k, v);
      assert d == [d[0]] + d[1..];
    }
  }

  /** The entries whose key is not in `ks`. */
  function Without<K(==), V>(d: seq<(K, V)>, ks: seq<K>): (r: seq<(K, V)>)
    decreases |d|
  {
    if |d| == 0 then []
    else (if d[0].0 in ks then [] else [d[0]]) + Without(d[1..], ks)
  }

  /** `d.pop(k)` for a present key. */
  function Pop<K(==), V>(d: seq<(K, V)>, k: K): seq<(K, V)> {
    Without(d, [k])
  }

  lemma {:induction false} WithoutNothing<K(!new), V(!new)>(d: seq<(K, V)>)
    ensures Without(d, []) == d
    decreases |d|
  {
    if |d| > 0 {
      WithoutNothing(d[1..]);
      assert d == [d[0]] + d[1..];
    }
  }

  lemma {:induction false} PopWithout<K(!new), V(!new)>(d: seq<(K, V)>, ks: seq<K>, k: K)
    ensures Pop(Without(d, ks), k) == Without(d, ks + [k])
    decreases |d|
  {
    if |d| > 0 {
      PopWithout(d[1..], ks, k);
      var head := if d[0].0 in ks then [] else [d[0]];
      var rest := Without(d[1..], ks);
      assert Without(d, ks) == head + rest;
      assert Without(head + rest, [k]) == Without(head, [k]) + Without(rest, [k]) by {
        WithoutAppend(head, rest, [k]);
      }
    }
  }

  lemma {:induction false} WithoutAppend<K(!new), V(!new)>(a: seq<(K, V)>, b: seq<(K, V)>, ks: seq<K>)
    ensures Without(a + b, ks) == Without(a, ks) + Without(b, ks)
    decreases |a|
  {
    if |a| > 0 {
      assert (a + b)[0] == a[0];
      assert (a + b)[1..] == a[1..] + b;
      WithoutAppend(a[1..], b, ks);
    } else {
      assert a + b == b;
    }
  }

  // ---------------------------------------------------------------- the sparse sweep

  /** What the exports drop: `None`, and a list or dict of length 0. */
  predicate Vacant(v: Value) {
    v == Null || v == List([]) || v == Obj([])
  }

  /** The record without its vacant entries, the others untouched and in order. */
  function Sparse(d: Record): (r: Record)
    ensures |r| <= |d|
    decreases |d|
  {
    if |d| == 0 then []
    else (if Vacant(d[0].1) then [] else [d[0]]) + Sparse(d[1..])
  }

  /** The sweep keeps exactly the entries whose value is not vacant. */
  lemma {:induction false} SparseMembers(d: Record)
    ensures forall e :: e in Sparse(d) <==> e in d && !Vacant(e.1)
    decreases |d|
  {
    if |d| > 0 {
      SparseMembers(d[1..]);
      assert forall e :: e in d <==> e == d[0] || e in d[1..];
    }
  }

  /** The keys, in order, of the vacant entries (the first loop of the sweep). */
  function VacantKeys(d: Record): (ks: seq<string>)
    ensures forall k :: k in ks <==> exists e :: e in d && e.0 == k && Vacant(e.1)
    decreases |d|
  {
    if |d| == 0 then []
    else
      var rest := VacantKeys(d[1..]);
      assert forall e :: e in d <==> e == d[0] || e in d[1..];
      (if Vacant(d[0].1) then [d[0].0] else []) + rest
  }

  /**
   * The sweep every `export` of a gene, trait degree, head or hair runs: collect the keys
   * whose value is `None`, an empty list or an empty dict, then pop each of them.
   */
  method Sweep(d: Record) returns (r: Record)
    requires Unique(d)
    ensures r == Sparse(d)
  {
    var toRemove := FindVacant(d);
    r := PopAll(d, toRemove);
    WithoutVacantKeys(d);
  }

  /** The first loop of the sweep: the keys of the vacant entries. */
  method FindVacant(d: Record) returns (toRemove: seq<string>)
    ensures toRemove == VacantKeys(d)
  {
    toRemove := [];
    var i := 0;
    while i < |d|
      invariant 0 <= i <= |d|
      invariant toRemove == VacantKeys(d[..i])
    {
      VacantKeysSnoc(d[..i], d[i]);
      assert d[..i + 1] == d[..i] + [d[i]];
      if Vacant(d[i].1) {
        toRemove := toRemove + [d[i].0];
      }
      i := i + 1;
    }
    assert d[..i] == d;
  }

  /** The second loop of the sweep: `d.pop(k)` for each collected key. */
  method PopAll(d: Record, toRemove: seq<string>) returns (r: Record)
    requires Unique(d)
    ensures r == Without(d, toRemove)
  {
    r := d;
    WithoutNothing(d);
    assert toRemove[..0] == [];
    var j := 0;
    while j < |toRemove|
      invariant 0 <= j <= |toRemove|
      invariant r == Without(d, toRemove[..j])
    {
      PopWithout(d, toRemove[..j], toRemove[j]);
      assert toRemove[..j + 1] == toRemove[..j] + [toRemove[j]];
      r := Pop(r, toRemove[j]);
      j := j + 1;
    }
    assert toRemove[..j] == toRemove;
  }

  lemma {:induction false} VacantKeysSnoc(d: Record, e: (string, Value))
    ensures VacantKeys(d + [e]) == VacantKeys(d) + (if Vacant(e.1) then [e.0] else [])
    decreases |d|
  {
    if |d| == 0 {
      assert d + [e] == [e];
    } else {
      assert (d + [e])[0] == d[0];
      assert (d + [e])[1..] == d[1..] + [e];
      VacantKeysSnoc(d[1..], e);
    }
  }

  /** Removing a key set that names exactly the vacant entries is the sparse filter. */
  lemma {:induction false} WithoutExactly(d: Record, ks: seq<string>)
    requires forall e :: e in d ==> (e.0 in ks <==> Vacant(e.1))
    ensures Without(d, ks) == Sparse(d)
    decreases |d|
  {
    if |d| > 0 {
      WithoutExactly(d[1..], ks);
    }
  }

  lemma {:induction false} WithoutVacantKeys(d: Record)
    requires Unique(d)
    ensures Without(d, VacantKeys(d)) == Sparse(d)
    decreases |d|
  {
    if |d| > 0 {
      WithoutVacantKeys(d[1..]);
      forall e | e in d
        ensures e.0 in VacantKeys(d) <==> Vacant(e.1)
      {
        if e in d[1..] {
          KeyOf(d[1..], e);
          VacantKeysSound(d[1..], e);
        } else {
          assert e == d[0];
          VacantKeysKnown(d[1..], e.0);
        }
      }
      WithoutExactly(d, VacantKeys(d));
    }
  }

  /** Only keys of the dict are listed as vacant. */
  lemma VacantKeysKnown(d: Record, k: string)
    ensures k in VacantKeys(d) ==> k in Keys(d)
  {
    if k in VacantKeys(d) {
      var e :| e in d && e.0 == k && Vacant(e.1);
      KeyOf(d, e);
    }
  }

  /** In a dict, a key is listed as vacant exactly when its own value is vacant. */
  lemma {:induction false} VacantKeysSound(d: Record, e: (string, Value))
    requires Unique(d) && e in d
    ensures e.0 in VacantKeys(d) <==> Vacant(e.1)
    decreases |d|
  {
    if e in d[1..] {
      KeyOf(d[1..], e);
      VacantKeysSound(d[1..], e);
    } else {
      assert e == d[0];
    }
  }

  /**
   * After the sweep a key is present exactly when its value is neither `None` nor an empty
   * list or dict; zero, `False` and "" stay, since the test is `is None`, not falsiness.
   */
  lemma {:induction false} SparseGet(d: Record, k: string)
    requires Unique(d)
    ensures Get(Sparse(d), k) == if Get(d, k).Some? && !Vacant(Get(d, k).value) then Get(d, k) else None
    decreases |d|
  {
    if |d| > 0 {
      SparseGet(d[1..], k);
      var rest := Sparse(d[1..]);
      if Vacant(d[0].1) {
        assert Sparse(d) == rest;
      } else {
        var t := [d[0]] + rest;
        assert Sparse(d) == t;
        assert t[0] == d[0] && t[1..] == rest;
      }
    }
  }

  /** The sweep leaves a dict. */
  lemma {:induction false} SparseUnique(d: Record)
    requires Unique(d)
    ensures Unique(Sparse(d))
    decreases |d|
  {
    if |d| > 0 {
      SparseUnique(d[1..]);
      var rest := Sparse(d[1..]);
      if !Vacant(d[0].1) {
        var t := [d[0]] + rest;
        assert Sparse(d) == t;
        assert t[0] == d[0] && t[1..] == rest;
        if d[0].0 in Keys(rest) {
          SparseKeys(d[1..], d[0].0);
        }
      } else {
        assert Sparse(d) == [] + rest;
        assert [] + rest == rest;
      }
    }
  }

  lemma {:induction false} SparseKeys(d: Record, k: string)
    requires k in Keys(Sparse(d))
    ensures k in Keys(d)
    decreases |d|
  {
    if |d| > 0 && k != d[0].0 {
      var rest := Sparse(d[1..]);
      var t := (if Vacant(d[0].1) then [] else [d[0]]) + rest;
      assert Keys(t) == Keys(if Vacant(d[0].1) then [] else [d[0]]) + Keys(rest) by {
        KeysAppend(if Vacant(d[0].1) then [] else [d[0]], rest);
      }
      SparseKeys(d[1..], k);
    }
  }

  lemma KeysAppend<K, V>(a: seq<(K, V)>, b: seq<(K, V)>)
    ensures Keys(a + b) == Keys(a) + Keys(b)
  {
    assert Keys(a + b) == Keys(a) + Keys(b);
  }

  /** A list of strings as JSON values. */
  function Strs(xs: seq<string>): (vs: seq<Value>)
    ensures |vs| == |xs| && forall i :: 0 <= i < |xs| ==> vs[i] == Str(xs[i])
  {
    seq(|xs|, i requires 0 <= i < |xs| => Str(xs[i]))
  }

  // ---------------------------------------------------------------- dicts written as literals

  /** No element occurs twice. */
  predicate Distinct<T(==)>(xs: seq<T>) {
    forall i, j :: 0 <= i < j < |xs| ==> xs[i] != xs[j]
  }

  /** The dict literal `{keys[0]: values[0], keys[1]: values[1], ...}`, in its key order. */
  function Zip<K, V>(keys: seq<K>, values: seq<V>): (d: seq<(K, V)>)
    requires |keys| == |values|
    ensures |d| == |keys| && forall i :: 0 <= i < |d| ==> d[i] == (keys[i], values[i])
    decreases |keys|
  {
    if |keys| == 0 then []
    else Zip(keys[..|keys| - 1], values[..|values| - 1]) + [(keys[|keys| - 1], values[|values| - 1])]
  }

  /** A dict literal with distinct keys is a dict that finds key `i` at value `i`. */
  lemma ZipGet<V>(keys: seq<string>, values: seq<V>, i: nat)
    requires |keys| == |values| && Distinct(keys) && i < |keys|
    ensures Unique(Zip(keys, values))
    ensures Get(Zip(keys, values), keys[i]) == Some(values[i])
  {
    DistinctUnique(Zip(keys, values));
    GetAt(Zip(keys, values), i);
  }

  /** A key that is not among the keys of a dict literal is not found in it. */
  lemma ZipMissing<V>(keys: seq<string>, values: seq<V>, k: string)
    requires |keys| == |values| && k !in keys
    ensures Get(Zip(keys, values), k) == None
  {
  }

  /** A dict literal with distinct keys, swept: key `i` is there exactly when its value is not vacant. */
  lemma SweptAt(keys: seq<string>, values: seq<Value>, i: nat)
    requires |keys| == |values| && Distinct(keys) && i < |keys|
    ensures Unique(Zip(keys, values)) && Unique(Sparse(Zip(keys, values)))
    ensures Get(Sparse(Zip(keys, values)), keys[i]) == if Vacant(values[i]) then None else Some(values[i])
  {
    var d := Zip(keys, values);
    DistinctUnique(d);
    SparseUnique(d);
    GetAt(d, i);
    SparseGet(d, keys[i]);
  }

  /** Every key left after sweeping a dict literal is one of its keys. */
  lemma SweptKeys(keys: seq<string>, values: seq<Value>, k: string)
    requires |keys| == |values| && k in Keys(Sparse(Zip(keys, values)))
    ensures k in keys
  {
    SparseKeys(Zip(keys, values), k);
    var i :| 0 <= i < |Keys(Zip(keys, values))| && Keys(Zip(keys, values))[i] == k;
  }

  /** Sweeping twice is sweeping once. */
  lemma {:induction false} SparseIdempotent(d: Record)
    ensures Sparse(Sparse(d)) == Sparse(d)
    decreases |d|
  {
    if |d| > 0 {
      SparseIdempotent(d[1..]);
      if !Vacant(d[0].1) {
        var t := [d[0]] + Sparse(d[1..]);
        assert Sparse(d) == t;
        assert t[0] == d[0] && t[1..] == Sparse(d[1..]);
        assert Sparse(t) == [d[0]] + Sparse(t[1..]);
      } else {
        assert Sparse(d) == [] + Sparse(d[1..]);
        assert [] + Sparse(d[1..]) == Sparse(d[1..]);
      }
    }
  }
}
