/** PHP's ordered associative array, as far as the scheduler uses it: keys keep
    the order of their first insertion. */
module OrderedMaps {
  import opened Sequences

  datatype OrderedMap<K(==), V> = OrderedMap(keys: seq<K>, at: map<K, V>) {

    ghost predicate Ok() {
      && Distinct(keys)
      && (forall k :: k in keys ==> k in at)
      && (forall k :: k in at ==> k in keys)
    }

    /** `isset` */
    predicate Has(k: K) { k in at }

    /** `$m[$k] = $v` */
    function Put(k: K, v: V): (m: OrderedMap<K, V>)
      ensures Ok() ==> m.Ok()
      ensures m.at == at[k := v]
    {
      OrderedMap(if k in at then keys else keys + [k], at[k := v])
    }

    /** `unset($m[$k])` */
    function Remove(k: K): (m: OrderedMap<K, V>)
      ensures Ok() ==> m.Ok()
      ensures m.at == at - {k}
    {
      var r := OrderedMap(Without(keys, k), at - {k});
      assert Ok() ==> r.Ok() by { WithoutIsOk(keys, k); }
      r
    }
  }

  function Empty<K, V>(): (m: OrderedMap<K, V>)
    ensures m.Ok() && m.at == map[]
  {
    OrderedMap([], map[])
  }

  function Without<K(==)>(keys: seq<K>, k: K): seq<K> {
    if keys == [] then []
    else if keys[|keys| - 1] == k then Without(keys[..|keys| - 1], k)
    else Without(keys[..|keys| - 1], k) + [keys[|keys| - 1]]
  }

  lemma {:induction false} WithoutIsOk<K>(keys: seq<K>, k: K)
    ensures forall x :: x in Without(keys, k) <==> x in keys && x != k
    ensures Distinct(keys) ==> Distinct(Without(keys, k))
  {
    if keys != [] {
      var front, last := keys[..|keys| - 1], keys[|keys| - 1];
      assert keys == front + [last];
      WithoutIsOk(front, k);
      if Distinct(keys) {
        assert Distinct(front);
        assert last !in front;
      }
    }
  }

  /** A new key becomes the last; one that is there stays where it is. */
  lemma PutGoesLast<K, V>(m: OrderedMap<K, V>, k: K, v: V)
    ensures var m' := m.Put(k, v);
      if k in m.at then m'.keys == m.keys
      else m.keys < m'.keys && |m'.keys| == |m.keys| + 1 && m'.keys[|m.keys|] == k
  {}

  /** The other keys keep their order. */
  lemma {:induction false} WithoutClosesUp<K>(keys: seq<K>, i: nat)
    requires i < |keys| && Distinct(keys)
    ensures Without(keys, keys[i]) == keys[..i] + keys[i + 1..]
  {
    var front, last := keys[..|keys| - 1], keys[|keys| - 1];
    if i < |front| {
      WithoutClosesUp(front, i);
      assert keys[..i] + keys[i + 1..] == front[..i] + front[i + 1..] + [last];
    } else {
      WithoutAbsent(front, last);
      assert keys[..i] + keys[i + 1..] == front;
    }
  }

  lemma {:induction false} WithoutAbsent<K>(keys: seq<K>, k: K)
    requires k !in keys
    ensures Without(keys, k) == keys
  {
    if keys != [] {
      WithoutAbsent(keys[..|keys| - 1], k);
    }
  }

  /** All the elements of the lists under `keys`, counted with multiplicity. */
  ghost function Total<K, T>(keys: seq<K>, at: map<K, seq<T>>): multiset<T>
    requires forall k :: k in keys ==> k in at
  {
    if keys == [] then multiset{}
    else Total(keys[..|keys| - 1], at) + multiset(at[keys[|keys| - 1]])
  }

  ghost function Elements<K, T>(m: OrderedMap<K, seq<T>>): multiset<T>
    requires m.Ok()
  {
    Total(m.keys, m.at)
  }

  ghost function Under<K, T>(m: OrderedMap<K, seq<T>>, k: K): seq<T> {
    if k in m.at then m.at[k] else []
  }

  lemma {:induction false} TotalIgnoresOthers<K, T>(keys: seq<K>, at: map<K, seq<T>>, at': map<K, seq<T>>)
    requires forall k :: k in keys ==> k in at && k in at' && at[k] == at'[k]
    ensures Total(keys, at) == Total(keys, at')
  {
    if keys != [] {
      TotalIgnoresOthers(keys[..|keys| - 1], at, at');
    }
  }

  /** Dropping one key drops exactly its list. */
  lemma {:induction false} TotalWithout<K, T>(keys: seq<K>, at: map<K, seq<T>>, k: K)
    requires forall x :: x in keys ==> x in at
    requires Distinct(keys)
    requires k in keys
    ensures forall x :: x in Without(keys, k) ==> x in at
    ensures Total(keys, at) == Total(Without(keys, k), at) + multiset(at[k])
  {
    WithoutIsOk(keys, k);
    var front, last := keys[..|keys| - 1], keys[|keys| - 1];
    assert keys == front + [last];
    if last == k {
      WithoutAbsent(front, k);
    } else {
      TotalWithout(front, at, k);
      assert (Without(front, k) + [last])[..|Without(front, k)|] == Without(front, k);
    }
  }

  lemma ElementsAfterRemove<K, T>(m: OrderedMap<K, seq<T>>, k: K)
    requires m.Ok()
    ensures Elements(m) == Elements(m.Remove(k)) + multiset(Under(m, k))
  {
    WithoutIsOk(m.keys, k);
    if k in m.at {
      TotalWithout(m.keys, m.at, k);
      TotalIgnoresOthers(Without(m.keys, k), m.at, m.at - {k});
    } else {
      WithoutAbsent(m.keys, k);
      assert m.at - {k} == m.at;
    }
  }

  lemma ElementsAfterPut<K, T>(m: OrderedMap<K, seq<T>>, k: K, v: seq<T>)
    requires m.Ok()
    ensures Elements(m.Put(k, v)) + multiset(Under(m, k)) == Elements(m) + multiset(v)
  {
    var m' := m.Put(k, v);
    if k in m.at {
      TotalWithout(m.keys, m.at, k);
      TotalWithout(m.keys, m'.at, k);
      WithoutIsOk(m.keys, k);
      TotalIgnoresOthers(Without(m.keys, k), m.at, m'.at);
    } else {
      assert m'.keys[..|m.keys|] == m.keys;
      TotalIgnoresOthers(m.keys, m.at, m'.at);
    }
  }

  lemma Cancel<T>(a: multiset<T>, b: multiset<T>, c: multiset<T>, x: multiset<T>)
    requires a + c == b + (c + x)
    ensures a == b + x
  {
    forall t ensures a[t] == b[t] + x[t] {
      assert (a + c)[t] == a[t] + c[t];
      assert (b + (c + x))[t] == b[t] + c[t] + x[t];
    }
  }

  /** `$m[$k][] = $t` */
  lemma ElementsAfterAppend<K, T>(m: OrderedMap<K, seq<T>>, k: K, t: T)
    requires m.Ok()
    ensures Elements(m.Put(k, Under(m, k) + [t])) == Elements(m) + multiset{t}
  {
    ElementsAfterPut(m, k, Under(m, k) + [t]);
    Cancel(Elements(m.Put(k, Under(m, k) + [t])), Elements(m), multiset(Under(m, k)), multiset{t});
  }

  lemma {:induction false} TotalHas<K, T>(keys: seq<K>, at: map<K, seq<T>>, k: K, t: T)
    requires forall x :: x in keys ==> x in at
    requires k in keys && t in at[k]
    ensures t in Total(keys, at)
  {
    if k != keys[|keys| - 1] {
      TotalHas(keys[..|keys| - 1], at, k, t);
    }
  }

  lemma {:induction false} TotalHasOnly<K, T>(keys: seq<K>, at: map<K, seq<T>>, t: T) returns (k: K)
    requires forall x :: x in keys ==> x in at
    requires t in Total(keys, at)
    ensures k in keys && t in at[k]
  {
    var last := keys[|keys| - 1];
    if t in at[last] {
      k := last;
    } else {
      k := TotalHasOnly(keys[..|keys| - 1], at, t);
    }
  }

  /** An element of the total lies in one of the lists, and conversely. */
  lemma ElementsAreMembers<K, T>(m: OrderedMap<K, seq<T>>, t: T)
    requires m.Ok()
    ensures t in Elements(m) <==> exists k :: k in m.at && t in m.at[k]
  {
    if t in Elements(m) {
      var k := TotalHasOnly(m.keys, m.at, t);
    }
    if k :| k in m.at && t in m.at[k] {
      TotalHas(m.keys, m.at, k, t);
    }
  }
}
