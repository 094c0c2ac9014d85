/** The JavaScript `Map`: key/value entries kept in insertion order with
    distinct keys. `set` on a present key replaces the value in place, on a new
    key appends; `delete` removes the entry and reports whether it was there.
    Iteration (`keys()`, `values()`, `entries()`, `forEach`) follows the order
    of the entries. */
module JsMaps {
  import opened Wrappers

  datatype Entry<K, V> = Entry(key: K, value: V)

  ghost predicate DistinctKeys<K, V>(es: seq<Entry<K, V>>)
  {
    forall i, j :: 0 <= i < j < |es| ==> es[i].key != es[j].key
  }

  type JsMap<K(==), V> = es: seq<Entry<K, V>> | DistinctKeys(es) witness []

  /** The position of key `k`, or -1. */
  function IndexOf<K(==,!new), V>(m: seq<Entry<K, V>>, k: K): (i: int)
    ensures -1 <= i < |m|
    ensures i >= 0 ==> m[i].key == k
    ensures i < 0 ==> forall j :: 0 <= j < |m| ==> m[j].key != k
  {
    if m == [] then -1
    else if m[0].key == k then 0
    else
      var j := IndexOf(m[1..], k);
      assert forall t :: 1 <= t < |m| ==> m[t] == m[1..][t - 1];
      if j < 0 then -1 else j + 1
  }

  /** With distinct keys, the entry holding a key is the one `IndexOf` finds. */
  lemma IndexOfUnique<K(!new), V>(m: JsMap<K, V>, j: int)
    requires 0 <= j < |m|
    ensures IndexOf(m, m[j].key) == j
  {
  }

  /** `m.has(k)`. */
  predicate Has<K(==,!new), V>(m: JsMap<K, V>, k: K)
  {
    IndexOf(m, k) >= 0
  }

  /** `m.get(k)`, with `None` for `undefined`. */
  function Get<K(==,!new), V>(m: JsMap<K, V>, k: K): (r: Option<V>)
    ensures r.Some? <==> Has(m, k)
  {
    var i := IndexOf(m, k);
    if i >= 0 then Some(m[i].value) else None
  }

  lemma GetAt<K(!new), V>(m: JsMap<K, V>, j: int)
    requires 0 <= j < |m|
    ensures Get(m, m[j].key) == Some(m[j].value)
  {
    IndexOfUnique(m, j);
  }

  /** `m.keys()` in iteration order. */
  function Keys<K(==,!new), V>(m: JsMap<K, V>): (ks: seq<K>)
    ensures |ks| == |m|
    ensures forall i :: 0 <= i < |m| ==> ks[i] == m[i].key
  {
    seq(|m|, i requires 0 <= i < |m| => m[i].key)
  }

  /** `m.values()` in iteration order. */
  function Values<K(==,!new), V>(m: JsMap<K, V>): (vs: seq<V>)
    ensures |vs| == |m|
    ensures forall i :: 0 <= i < |m| ==> vs[i] == m[i].value
  {
    seq(|m|, i requires 0 <= i < |m| => m[i].value)
  }

  /** `m.set(k, v)`. */
  function Put<K(==,!new), V>(m: JsMap<K, V>, k: K, v: V): (r: JsMap<K, V>)
    ensures forall k' :: Get(r, k') == if k' == k then Some(v) else Get(m, k')
    ensures Has(m, k) ==> Keys(r) == Keys(m)
    ensures !Has(m, k) ==> Keys(r) == Keys(m) + [k]
  {
    var i := IndexOf(m, k);
    if i >= 0 then
      var r: seq<Entry<K, V>> := m[i := Entry(k, v)];
      assert DistinctKeys(r) by {
        forall a, b | 0 <= a < b < |r| ensures r[a].key != r[b].key {
          assert r[a].key == m[a].key && r[b].key == m[b].key;
        }
      }
      forall k' ensures Get(r, k') == if k' == k then Some(v) else Get(m, k') {
        var j := IndexOf(m, k');
        if j >= 0 {
          GetAt(r, j);
        } else {
          assert forall t :: 0 <= t < |r| ==> r[t].key == m[t].key;
        }
      }
      assert Keys(r) == Keys(m);
      r
    else
      var r: seq<Entry<K, V>> := m + [Entry(k, v)];
      assert DistinctKeys(r) by {
        forall a, b | 0 <= a < b < |r| ensures r[a].key != r[b].key {
          if b < |m| {
            assert r[a] == m[a] && r[b] == m[b];
          } else {
            assert r[a] == m[a];
          }
        }
      }
      forall k' ensures Get(r, k') == if k' == k then Some(v) else Get(m, k') {
        if k' == k {
          GetAt(r, |m|);
        } else {
          var j := IndexOf(m, k');
          if j >= 0 {
            assert r[j] == m[j];
            GetAt(r, j);
          } else {
            assert forall t :: 0 <= t < |r| ==> r[t].key != k';
          }
        }
      }
      assert Keys(r) == Keys(m) + [k];
      r
  }

  /** The key sequence without `k`, order kept. */
  function Without<K(==)>(ks: seq<K>, k: K): seq<K>
  {
    if ks == [] then [] else (if ks[0] == k then [] else [ks[0]]) + Without(ks[1..], k)
  }

  /** `m.delete(k)`: the map without `k`; `Has(m, k)` is what `delete` returns. */
  function Delete<K(==,!new), V>(m: JsMap<K, V>, k: K): (r: JsMap<K, V>)
    ensures forall k' :: Get(r, k') == if k' == k then None else Get(m, k')
    ensures |r| == if Has(m, k) then |m| - 1 else |m|
    ensures Keys(r) == Without(Keys(m), k)
    ensures Has(m, k) ==> r == m[..IndexOf(m, k)] + m[IndexOf(m, k) + 1..]
    ensures !Has(m, k) ==> r == m
  {
    var i := IndexOf(m, k);
    if i < 0 then
      NotInWithout(Keys(m), k);
      m
    else
      var r: seq<Entry<K, V>> := m[..i] + m[i + 1..];
      assert forall t :: 0 <= t < i ==> r[t] == m[t];
      assert forall t :: i <= t < |r| ==> r[t] == m[t + 1];
      assert DistinctKeys(r) by {
        forall a, b | 0 <= a < b < |r| ensures r[a].key != r[b].key {
          var a' := if a < i then a else a + 1;
          var b' := if b < i then b else b + 1;
          assert r[a] == m[a'] && r[b] == m[b'];
        }
      }
      forall k' ensures Get(r, k') == if k' == k then None else Get(m, k') {
        var j := IndexOf(m, k');
        if k' == k {
          assert forall t :: 0 <= t < |r| ==> r[t].key != k;
        } else if j >= 0 {
          var j' := if j < i then j else j - 1;
          assert r[j'] == m[j];
          GetAt(r, j');
        } else {
          assert forall t :: 0 <= t < |r| ==> r[t].key != k';
        }
      }
      assert Keys(r) == Keys(m)[..i] + Keys(m)[i + 1..];
      WithoutSplit(Keys(m), i);
      r
  }

  lemma {:induction false} NotInWithout<K>(ks: seq<K>, k: K)
    requires k !in ks
    ensures Without(ks, k) == ks
  {
    if ks != [] {
      NotInWithout(ks[1..], k);
      assert ks == [ks[0]] + ks[1..];
    }
  }

  /** Removing the only occurrence of `ks[i]`. */
  lemma {:induction false} WithoutSplit<K>(ks: seq<K>, i: int)
    requires 0 <= i < |ks|
    requires forall j :: 0 <= j < |ks| && j != i ==> ks[j] != ks[i]
    ensures Without(ks, ks[i]) == ks[..i] + ks[i + 1..]
    decreases i
  {
    var k := ks[i];
    var tl := ks[1..];
    assert forall j :: 0 <= j < |tl| ==> tl[j] == ks[j + 1];
    if i == 0 {
      NotInWithout(tl, k);
    } else {
      WithoutSplit(tl, i - 1);
      assert tl[..i - 1] == ks[1..i];
      assert tl[i..] == ks[i + 1..];
      assert ks[..i] == [ks[0]] + ks[1..i];
    }
  }

  /** Putting an entry with a new key in front. */
  lemma Cons<K(!new), V>(e: Entry<K, V>, tail: JsMap<K, V>)
    requires !Has(tail, e.key)
    ensures DistinctKeys([e] + tail)
    ensures forall k :: Get([e] + tail, k) == if k == e.key then Some(e.value) else Get(tail, k)
  {
    var c := [e] + tail;
    assert forall t :: 0 <= t < |tail| ==> c[t + 1] == tail[t];
    assert DistinctKeys(c) by {
      forall a, b | 0 <= a < b < |c| ensures c[a].key != c[b].key {
        assert c[b] == tail[b - 1];
        if a > 0 {
          assert c[a] == tail[a - 1];
        }
      }
    }
    forall k ensures Get(c, k) == if k == e.key then Some(e.value) else Get(tail, k) {
      if k == e.key {
        GetAt(c, 0);
      } else if Has(tail, k) {
        var j := IndexOf(tail, k);
        GetAt(c, j + 1);
      } else {
        assert forall t :: 0 <= t < |c| ==> c[t].key != k by {
          forall t | 0 <= t < |c| ensures c[t].key != k {
            if t > 0 {
              assert c[t] == tail[t - 1];
            }
          }
        }
      }
    }
  }

  /** A map is its first entry followed by the rest. */
  lemma Uncons<K(!new), V>(m: JsMap<K, V>)
    requires m != []
    ensures DistinctKeys(m[1..]) && !Has(m[1..], m[0].key)
    ensures forall k :: Get(m, k) == if k == m[0].key then Some(m[0].value) else Get(m[1..], k)
  {
    var rest: JsMap<K, V> := m[1..];
    assert !Has(rest, m[0].key) by {
      var j := IndexOf(rest, m[0].key);
      if j >= 0 {
        assert rest[j] == m[j + 1];
      }
    }
    Cons(m[0], rest);
    assert [m[0]] + rest == m;
  }

  /** The entries satisfying `keep`, in order: the map left after a loop
      deleting every entry that fails `keep`. */
  function Retain<K(==,!new), V>(m: JsMap<K, V>, keep: Entry<K, V> -> bool): (r: JsMap<K, V>)
    ensures |r| <= |m|
    ensures forall k :: Get(r, k) == if Has(m, k) && keep(Entry(k, Get(m, k).value)) then Get(m, k) else None
    decreases |m|
  {
    if m == [] then []
    else
      Uncons(m);
      var rest: JsMap<K, V> := m[1..];
      var tail := Retain(rest, keep);
      assert !Has(tail, m[0].key) by {
        assert Get(tail, m[0].key) == None;
      }
      if keep(m[0]) then
        Cons(m[0], tail);
        [m[0]] + tail
      else
        tail
  }

  /** Filtering a map built by appending one entry. */
  lemma {:induction false} RetainSnoc<K(!new), V>(a: JsMap<K, V>, e: Entry<K, V>, keep: Entry<K, V> -> bool)
    requires DistinctKeys(a + [e])
    ensures Retain(a + [e], keep) == Retain(a, keep) + (if keep(e) then [e] else [])
    decreases |a|
  {
    if a == [] {
      assert [e][1..] == [];
    } else {
      var rest: JsMap<K, V> := a[1..];
      assert (a + [e])[1..] == rest + [e];
      assert (a + [e])[0] == a[0];
      RetainSnoc(rest, e, keep);
    }
  }

  /** Filtering twice with the same test is filtering once. */
  lemma {:induction false} RetainIdempotent<K(!new), V>(m: JsMap<K, V>, keep: Entry<K, V> -> bool)
    ensures Retain(Retain(m, keep), keep) == Retain(m, keep)
    decreases |m|
  {
    if m != [] {
      var rest: JsMap<K, V> := m[1..];
      RetainIdempotent(rest, keep);
      if keep(m[0]) {
        var r := Retain(m, keep);
        assert r == [m[0]] + Retain(rest, keep);
        assert r[1..] == Retain(rest, keep);
      }
    }
  }
}
