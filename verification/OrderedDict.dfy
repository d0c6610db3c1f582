/** Python dictionaries: lookups, and keys in the order they were first inserted. */
module OrderedDict {

  datatype Dict<V> = Dict(keys: seq<string>, vals: map<string, V>)

  function Empty<V>(): Dict<V> {
    Dict([], map[])
  }

  /** Each key is listed once. */
  ghost predicate Valid<V>(d: Dict<V>) {
    && (forall k :: k in d.keys <==> k in d.vals)
    && (forall i, j :: 0 <= i < j < |d.keys| ==> d.keys[i] != d.keys[j])
  }

  function Without(keys: seq<string>, known: set<string>): (r: seq<string>)
    ensures forall k :: k in r <==> k in keys && k !in known
  {
    if keys == [] then []
    else
      var last := keys[|keys| - 1];
      Without(keys[..|keys| - 1], known) + if last in known then [] else [last]
  }

  /** `{**d, **e}` */
  function Merge<V>(d: Dict<V>, e: Dict<V>): Dict<V> {
    Dict(d.keys + Without(e.keys, d.vals.Keys), d.vals + e.vals)
  }

  /** `d[k] = v` */
  function Put<V>(d: Dict<V>, k: string, v: V): Dict<V> {
    Dict(if k in d.vals then d.keys else d.keys + [k], d.vals[k := v])
  }

  /** Some elements of `s`, in their order: `at` says where each was. */
  ghost predicate Picks<T>(s: seq<T>, r: seq<T>, at: seq<nat>) {
    && |at| == |r|
    && (forall i :: 0 <= i < |r| ==> at[i] < |s| && r[i] == s[at[i]])
    && (forall i, j :: 0 <= i < j < |at| ==> at[i] < at[j])
  }

  lemma OneMorePick<T>(s: seq<T>, r: seq<T>, at: seq<nat>, last: T)
    requires Picks(s, r, at)
    ensures Picks(s + [last], r, at) && Picks(s + [last], r + [last], at + [|s|])
  {
  }

  lemma {:induction false} WithoutPicks(keys: seq<string>, known: set<string>) returns (at: seq<nat>)
    ensures Picks(keys, Without(keys, known), at)
    ensures forall j: nat :: j < |keys| ==> (j in at <==> keys[j] !in known)
  {
    at := [];
    if keys != [] {
      var n := |keys| - 1;
      at := WithoutPicks(keys[..n], known);
      OneMorePick(keys[..n], Without(keys[..n], known), at, keys[n]);
      assert keys[..n] + [keys[n]] == keys;
      assert n !in at;
      if keys[n] !in known {
        at := at + [n];
      }
    }
  }

  /** `m` is `d` with `e` laid over it: `e` wins, and the keys are those of `d`, then the others of `e`. */
  ghost predicate IsOverlay<V>(m: Dict<V>, d: Dict<V>, e: Dict<V>) {
    && (forall k :: k in m.vals <==> k in d.vals || k in e.vals)
    && (forall k :: k in m.vals ==> m.vals[k] == if k in e.vals then e.vals[k] else d.vals[k])
    && d.keys <= m.keys
    && exists at: seq<nat> :: Picks(e.keys, m.keys[|d.keys|..], at)
                              && forall j: nat :: j < |e.keys| ==> (j in at <==> e.keys[j] !in d.vals)
  }

  lemma MergeInWords<V>(d: Dict<V>, e: Dict<V>)
    ensures IsOverlay(Merge(d, e), d, e)
  {
    var at := WithoutPicks(e.keys, d.vals.Keys);
    assert Merge(d, e).keys[|d.keys|..] == Without(e.keys, d.vals.Keys);
    assert forall j: nat :: j < |e.keys| ==> (j in at <==> e.keys[j] !in d.vals);
  }

  lemma OverlayAt<V>(m: Dict<V>, d: Dict<V>, e: Dict<V>, k: string)
    requires IsOverlay(m, d, e)
    ensures k in m.vals <==> k in d.vals || k in e.vals
    ensures k in m.vals ==> m.vals[k] == if k in e.vals then e.vals[k] else d.vals[k]
  {
  }

  lemma PutValid<V>(d: Dict<V>, k: string, v: V)
    requires Valid(d)
    ensures Valid(Put(d, k, v))
  {
    var e := Put(d, k, v);
    forall i, j | 0 <= i < j < |e.keys| ensures e.keys[i] != e.keys[j] {
      if j == |d.keys| {
        assert d.keys[i] in d.keys;
      }
    }
  }

  lemma {:induction false} WithoutConcat(a: seq<string>, b: seq<string>, known: set<string>)
    ensures Without(a + b, known) == Without(a, known) + Without(b, known)
  {
    if b == [] {
      assert a + b == a;
    } else {
      assert (a + b)[..|a + b| - 1] == a + b[..|b| - 1];
      WithoutConcat(a, b[..|b| - 1], known);
    }
  }

  lemma {:induction false} WithoutTwice(keys: seq<string>, known: set<string>, more: set<string>)
    ensures Without(Without(keys, more), known) == Without(keys, known + more)
  {
    if keys != [] {
      var last := keys[|keys| - 1];
      WithoutTwice(keys[..|keys| - 1], known, more);
      WithoutConcat(Without(keys[..|keys| - 1], more), if last in more then [] else [last], known);
      assert Without([last], known) == if last in known then [] else [last];
    }
  }

  lemma {:induction false} WithoutDistinct(keys: seq<string>, known: set<string>)
    requires forall i, j :: 0 <= i < j < |keys| ==> keys[i] != keys[j]
    ensures forall i, j :: 0 <= i < j < |Without(keys, known)| ==> Without(keys, known)[i] != Without(keys, known)[j]
  {
    if keys != [] {
      var rest, last := keys[..|keys| - 1], keys[|keys| - 1];
      WithoutDistinct(rest, known);
      assert last !in rest;
    }
  }

  lemma MergeValid<V>(d: Dict<V>, e: Dict<V>)
    requires Valid(d) && Valid(e)
    ensures Valid(Merge(d, e))
  {
    WithoutDistinct(e.keys, d.vals.Keys);
    var added := Without(e.keys, d.vals.Keys);
    forall i, j | 0 <= i < j < |d.keys + added| ensures (d.keys + added)[i] != (d.keys + added)[j] {
      if i < |d.keys| <= j {
        assert d.keys[i] in d.keys && added[j - |d.keys|] in added;
      }
    }
  }

  /** Overlaying is associative, in the order of the keys too. */
  lemma MergeAssociative<V>(d: Dict<V>, e: Dict<V>, f: Dict<V>)
    ensures Merge(Merge(d, e), f) == Merge(d, Merge(e, f))
  {
    KeysAssociative(d.keys, e.keys, f.keys, d.vals.Keys, e.vals.Keys);
    ValsAssociative(d.vals, e.vals, f.vals);
    hide Without;
    assert (d.vals + e.vals).Keys == d.vals.Keys + e.vals.Keys;
  }

  lemma KeysAssociative(a: seq<string>, b: seq<string>, c: seq<string>, known: set<string>, more: set<string>)
    ensures a + Without(b, known) + Without(c, known + more) == a + Without(b + Without(c, more), known)
  {
    WithoutConcat(b, Without(c, more), known);
    WithoutTwice(c, known, more);
    hide Without;
    assert a + Without(b, known) + Without(c, known + more) == a + (Without(b, known) + Without(c, known + more));
  }

  lemma ValsAssociative<V>(a: map<string, V>, b: map<string, V>, c: map<string, V>)
    ensures a + b + c == a + (b + c)
  {
  }

  lemma EmptyMerge<V>(d: Dict<V>)
    ensures Merge(Empty(), d) == d
  {
    KeepAll(d.keys);
    hide Without;
    assert Empty<V>().vals.Keys == {};
    assert [] + d.keys == d.keys && map[] + d.vals == d.vals;
  }

  lemma MergeEmpty<V>(d: Dict<V>)
    ensures Merge(d, Empty()) == d
  {
  }

  lemma {:induction false} KeepAll(keys: seq<string>)
    ensures Without(keys, {}) == keys
  {
    if keys != [] {
      var rest, last := keys[..|keys| - 1], keys[|keys| - 1];
      KeepAll(rest);
      assert keys == rest + [last];
    }
  }

  lemma {:induction false} DropAll(keys: seq<string>, known: set<string>)
    requires forall k :: k in keys ==> k in known
    ensures Without(keys, known) == []
  {
    if keys != [] {
      DropAll(keys[..|keys| - 1], known);
    }
  }

  /** Overlaying keys that are all there already adds none, and changes nothing the values agree on. */
  lemma MergeSelf<V>(d: Dict<V>)
    requires Valid(d)
    ensures Merge(d, d) == d
  {
    DropAll(d.keys, d.vals.Keys);
    hide Without;
    assert d.vals + d.vals == d.vals && d.keys + [] == d.keys;
  }
}
