/** Python's `dict` with string keys, as the analyser uses it: an
    insertion-ordered sequence of entries. Assigning to a present key keeps
    its position; a new key goes last; `update` assigns entry by entry. */
module Dicts {
  import opened Wrappers

  datatype Entry<V> = Entry(key: string, value: V)

  type Dict<V> = seq<Entry<V>>

  /** The keys in iteration order. */
  function Keys<V>(d: Dict<V>): (ks: seq<string>)
    ensures |ks| == |d|
    ensures forall i :: 0 <= i < |d| ==> ks[i] == d[i].key
  {
    seq(|d|, i requires 0 <= i < |d| => d[i].key)
  }

  predicate HasKey<V>(d: Dict<V>, k: string) {
    k in Keys(d)
  }

  /** What every dict satisfies: no key occurs twice. */
  predicate UniqueKeys<V>(d: Dict<V>) {
    forall i, j :: 0 <= i < j < |d| ==> d[i].key != d[j].key
  }

  lemma KeysCons<V>(x: Entry<V>, d: Dict<V>)
    ensures Keys([x] + d) == [x.key] + Keys(d)
  {
  }

  /** `d.get(k)`. */
  function Get<V>(d: Dict<V>, k: string): (r: Option<V>)
    ensures r.Some? <==> HasKey(d, k)
    ensures r.Some? ==> exists i :: 0 <= i < |d| && d[i].key == k && d[i].value == r.value
  {
    if d == [] then None
    else if d[0].key == k then Some(d[0].value)
    else
      var r := Get(d[1..], k);
      assert d == [d[0]] + d[1..];
      KeysCons(d[0], d[1..]);
      assert forall i :: 0 < i < |d| ==> d[i] == d[1..][i - 1];
      r
  }

  /** `d[k] = v`. */
  function Put<V>(d: Dict<V>, k: string, v: V): Dict<V>
  {
    if d == [] then [Entry(k, v)]
    else if d[0].key == k then [Entry(k, v)] + d[1..]
    else [d[0]] + Put(d[1..], k, v)
  }

  /** Assigning a key adds it: at the end if it is new, in place if not. */
  lemma {:induction false} PutKeys<V>(d: Dict<V>, k: string, v: V)
    ensures Keys(Put(d, k, v)) == if HasKey(d, k) then Keys(d) else Keys(d) + [k]
    ensures !HasKey(d, k) ==> Put(d, k, v) == d + [Entry(k, v)]
  {
    if d != [] {
      assert d == [d[0]] + d[1..];
      KeysCons(d[0], d[1..]);
      if d[0].key == k {
        KeysCons(Entry(k, v), d[1..]);
      } else {
        PutKeys(d[1..], k, v);
        KeysCons(d[0], Put(d[1..], k, v));
        assert HasKey(d, k) == HasKey(d[1..], k);
      }
    }
  }

  /** Assigning a key gives it the new value and leaves every other key's
      value alone. */
  lemma {:induction false} PutGet<V>(d: Dict<V>, k: string, v: V, k': string)
    ensures Get(Put(d, k, v), k') == if k' == k then Some(v) else Get(d, k')
  {
    if d != [] && d[0].key != k && d[0].key != k' {
      PutGet(d[1..], k, v, k');
      assert [d[0]] + Put(d[1..], k, v) == Put(d, k, v);
      assert ([d[0]] + Put(d[1..], k, v))[1..] == Put(d[1..], k, v);
    } else if d != [] && d[0].key == k && k' != k {
      assert Put(d, k, v)[1..] == d[1..];
    }
  }

  lemma UniqueTail<V>(d: Dict<V>)
    requires d != [] && UniqueKeys(d)
    ensures UniqueKeys(d[1..])
    ensures d[0].key !in Keys(d[1..])
  {
    forall i | 0 <= i < |d[1..]| ensures d[1..][i].key != d[0].key {
      assert d[1..][i] == d[i + 1];
    }
  }

  /** Assigning keeps a dict a dict. */
  lemma {:induction false} PutUnique<V>(d: Dict<V>, k: string, v: V)
    requires UniqueKeys(d)
    ensures UniqueKeys(Put(d, k, v))
  {
    var r := Put(d, k, v);
    if d == [] {
    } else if d[0].key == k {
      forall i, j | 0 <= i < j < |r| ensures r[i].key != r[j].key {
        assert r[i].key == d[i].key && r[j].key == d[j].key;
      }
    } else {
      var tail := Put(d[1..], k, v);
      assert r == [d[0]] + tail;
      assert UniqueKeys(tail) && d[0].key !in Keys(tail) by {
        UniqueTail(d);
        PutUnique(d[1..], k, v);
        PutKeys(d[1..], k, v);
      }
      forall i, j | 0 <= i < j < |r| ensures r[i].key != r[j].key {
        if i == 0 {
          assert r[j].key == Keys(tail)[j - 1];
        } else {
          assert r[i] == tail[i - 1] && r[j] == tail[j - 1];
        }
      }
    }
  }

  /** `d.update(e)`: the entries of `e` are assigned in order. */
  function Update<V>(d: Dict<V>, e: Dict<V>): (r: Dict<V>)
    decreases |e|
  {
    if e == [] then d else Update(Put(d, e[0].key, e[0].value), e[1..])
  }

  /** After `d.update(e)` the keys are those of both, every dict stays a dict,
      and a key of `e` takes its value from `e`. */
  lemma {:induction false} UpdateSpec<V>(d: Dict<V>, e: Dict<V>)
    requires UniqueKeys(e)
    ensures forall k :: HasKey(Update(d, e), k) <==> HasKey(d, k) || HasKey(e, k)
    ensures forall k :: Get(Update(d, e), k) == if HasKey(e, k) then Get(e, k) else Get(d, k)
    ensures UniqueKeys(d) ==> UniqueKeys(Update(d, e))
    decreases |e|
  {
    if e != [] {
      var d' := Put(d, e[0].key, e[0].value);
      PutKeys(d, e[0].key, e[0].value);
      forall k ensures Get(d', k) == if k == e[0].key then Some(e[0].value) else Get(d, k) {
        PutGet(d, e[0].key, e[0].value, k);
      }
      if UniqueKeys(d) {
        PutUnique(d, e[0].key, e[0].value);
      }
      var e' := e[1..];
      assert forall i :: 0 < i < |e| ==> e[i] == e'[i - 1];
      UpdateSpec(d', e');
      forall k ensures HasKey(e, k) <==> HasKey(e', k) || k == e[0].key {
        if HasKey(e, k) && k != e[0].key {
          var i :| 0 <= i < |e| && e[i].key == k;
          assert e'[i - 1].key == k;
        }
      }
      forall i | 0 <= i < |e'| ensures e'[i].key != e[0].key {
        assert e'[i] == e[i + 1];
      }
    }
  }

  /** The entries of `d` that `keep` accepts, in their order: a dict
      comprehension with a condition. */
  function Filter<V(!new)>(d: Dict<V>, keep: Entry<V> -> bool): (r: Dict<V>)
    ensures |r| <= |d|
    ensures |d| == 1 ==> r == if keep(d[0]) then d else []
  {
    if d == [] then [] else (if keep(d[0]) then [d[0]] else []) + Filter(d[1..], keep)
  }

  /** The comprehension keeps exactly the entries that pass, never invents a
      key, and a dict stays a dict. */
  lemma FilterSpec<V(!new)>(d: Dict<V>, keep: Entry<V> -> bool)
    ensures forall x :: x in Filter(d, keep) <==> x in d && keep(x)
    ensures UniqueKeys(d) ==> UniqueKeys(Filter(d, keep))
    ensures forall k :: HasKey(Filter(d, keep), k) ==> HasKey(d, k)
  {
    FilterMembers(d, keep);
    if UniqueKeys(d) {
      FilterUnique(d, keep);
    }
    var r := Filter(d, keep);
    forall k | HasKey(r, k) ensures HasKey(d, k) {
      var i :| 0 <= i < |r| && r[i].key == k;
      assert r[i] in d;
    }
  }

  /** An entry survives the filter exactly when it is in `d` and passes. */
  lemma {:induction false} FilterMembers<V(!new)>(d: Dict<V>, keep: Entry<V> -> bool)
    ensures forall x :: x in Filter(d, keep) <==> x in d && keep(x)
    decreases |d|
  {
    if d != [] {
      FilterMembers(d[1..], keep);
      assert forall x :: x in d <==> x == d[0] || x in d[1..];
    }
  }

  /** Filtering never duplicates a key. */
  lemma {:induction false} FilterUnique<V(!new)>(d: Dict<V>, keep: Entry<V> -> bool)
    requires UniqueKeys(d)
    ensures UniqueKeys(Filter(d, keep))
    decreases |d|
  {
    if d != [] {
      var tail := Filter(d[1..], keep);
      assert UniqueKeys(d[1..]);
      FilterUnique(d[1..], keep);
      if keep(d[0]) {
        FilterMembers(d[1..], keep);
        forall i | 0 <= i < |tail| ensures tail[i].key != d[0].key {
          var x := tail[i];
          assert x in d[1..];
          var j :| 0 <= j < |d[1..]| && d[1..][j] == x;
          assert d[j + 1] == x;
        }
        assert Filter(d, keep) == [d[0]] + tail;
      }
    }
  }

  /** The comprehension looks at the entries one by one: filtering a
      concatenation filters each half and keeps them in their order, so the
      kept entries stay in insertion order. */
  lemma {:induction false} FilterAppend<V(!new)>(a: Dict<V>, b: Dict<V>, keep: Entry<V> -> bool)
    ensures Filter(a + b, keep) == Filter(a, keep) + Filter(b, keep)
    decreases |a|
  {
    if a == [] {
      assert a + b == b;
    } else {
      var x, ab := a[0], a + b;
      assert ab[0] == x && ab[1..] == a[1..] + b;
      var first := if keep(x) then [x] else [];
      calc {
        Filter(ab, keep);
        first + Filter(a[1..] + b, keep);
        { FilterAppend(a[1..], b, keep); }
        first + (Filter(a[1..], keep) + Filter(b, keep));
        (first + Filter(a[1..], keep)) + Filter(b, keep);
        Filter(a, keep) + Filter(b, keep);
      }
    }
  }

  /** The keys of a concatenation are the keys of each half. */
  lemma KeysAppend<V>(a: Dict<V>, b: Dict<V>)
    ensures Keys(a + b) == Keys(a) + Keys(b)
  {
  }
}
