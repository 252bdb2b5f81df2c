/** Counting arguments: a finite map onto a set of its own size is one-to-one. */
module Counting {

  ghost predicate Injective<K, V>(m: map<K, V>) {
    forall a, b :: a in m && b in m && m[a] == m[b] ==> a == b
  }

  lemma SubsetSize<T>(s: set<T>, t: set<T>)
    requires s <= t
    ensures |s| <= |t|
    ensures |s| == |t| ==> s == t
  {
    assert t == s + (t - s);
    assert |t| == |s| + |t - s|;
  }

  /** A map has as many values as keys exactly when it is one-to-one. */
  lemma {:induction false} ValuesAsManyAsKeys<K, V>(m: map<K, V>)
    ensures |m.Values| <= |m.Keys|
    ensures |m.Values| == |m.Keys| <==> Injective(m)
    decreases |m|
  {
    if m == map[] {
      assert m.Values == {};
    } else {
      var k :| k in m.Keys;
      var rest := m - {k};
      assert rest.Keys == m.Keys - {k};
      assert m.Values == rest.Values + {m[k]} by {
        forall v | v in m.Values ensures v in rest.Values + {m[k]} {
          var a :| a in m && m[a] == v;
          assert a != k ==> a in rest && rest[a] == v;
        }
      }
      ValuesAsManyAsKeys(rest);
      if m[k] in rest.Values {
        var l :| l in rest && rest[l] == m[k];
        assert m[l] == m[k];
      } else {
        assert forall a :: a in rest ==> m[a] == rest[a] && m[a] != m[k];
        if Injective(rest) {
          assert Injective(m);
        } else {
          var a, b :| a in rest && b in rest && rest[a] == rest[b] && a != b;
          assert m[a] == m[b];
        }
      }
    }
  }

  /** Every key has a value in `target` and every member of `target` has exactly one key. */
  ghost predicate OneToOne<K, V>(m: map<K, V>, target: set<V>) {
    && (forall k :: k in m ==> m[k] in target)
    && (forall v :: v in target ==> exists k :: k in m && m[k] == v)
    && Injective(m)
  }

  /** Pigeonhole: the right number of keys and the right set of values is a one-to-one match. */
  lemma OneToOneByCount<K, V>(m: map<K, V>, target: set<V>)
    ensures |m.Keys| == |target| && m.Values == target <==> OneToOne(m, target)
  {
    ValuesAsManyAsKeys(m);
    assert forall k :: k in m ==> m[k] in m.Values;
    assert forall v :: v in m.Values ==> exists k :: k in m && m[k] == v;
    if OneToOne(m, target) {
      assert m.Values == target;
    }
  }
}
