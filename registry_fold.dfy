/**
 * The two steps the registry rebuilds its map with: a filter of the
 * dictionary into a list of (key, value) pairs, in whatever order the
 * dictionary yields them, and `toDictionary`, a left fold that writes each
 * pair into an empty dictionary so that a later pair for a key wins.
 */
module RegistryFold {

  import opened Wrappers

  /**
   * `toDictionary`: `reduce` from an empty dictionary, storing each
   * transformed pair; elements the transformer maps to nil are skipped.
   */
  function ToDictionary<E, K, V>(es: seq<E>, transformer: E -> Option<(K, V)>): (r: map<K, V>)
  {
    if es == [] then map[]
    else
      var acc := ToDictionary(es[..|es| - 1], transformer);
      match transformer(es[|es| - 1])
      case Some(kv) => acc[kv.0 := kv.1]
      case None => acc
  }

  /** A key is in the folded dictionary exactly when some element writes it. */
  lemma {:induction false} ToDictionaryKeys<E, K, V>(es: seq<E>, transformer: E -> Option<(K, V)>, k: K)
    ensures k in ToDictionary(es, transformer)
            <==> exists i :: 0 <= i < |es| && transformer(es[i]).Some? && transformer(es[i]).value.0 == k
  {
    if es != [] {
      var n := |es| - 1;
      ToDictionaryKeys(es[..n], transformer, k);
      if k in ToDictionary(es[..n], transformer) {
        var i :| 0 <= i < n && transformer(es[..n][i]).Some? && transformer(es[..n][i]).value.0 == k;
        assert transformer(es[i]).Some? && transformer(es[i]).value.0 == k;
      }
      if exists i :: 0 <= i < |es| && transformer(es[i]).Some? && transformer(es[i]).value.0 == k {
        var i :| 0 <= i < |es| && transformer(es[i]).Some? && transformer(es[i]).value.0 == k;
        if i < n {
          assert es[..n][i] == es[i];
        }
      }
    }
  }

  /**
   * Last wins: the value stored for a key is that of the last element that
   * writes the key.
   */
  lemma {:induction false} ToDictionaryLastWins<E, K, V>(es: seq<E>, transformer: E -> Option<(K, V)>, i: nat)
    requires i < |es| && transformer(es[i]).Some?
    requires forall j :: i < j < |es| && transformer(es[j]).Some? ==> transformer(es[j]).value.0 != transformer(es[i]).value.0
    ensures transformer(es[i]).value.0 in ToDictionary(es, transformer)
    ensures ToDictionary(es, transformer)[transformer(es[i]).value.0] == transformer(es[i]).value.1
  {
    var n := |es| - 1;
    if i < n {
      var prefix := es[..n];
      assert prefix[i] == es[i];
      forall j | i < j < |prefix| && transformer(prefix[j]).Some?
        ensures transformer(prefix[j]).value.0 != transformer(prefix[i]).value.0
      {
        assert prefix[j] == es[j];
      }
      ToDictionaryLastWins(prefix, transformer, i);
    }
  }

  /** The transformer both call sites pass: `{ ($0.0, $0.1) }`, every pair kept as it is. */
  function AsPair<K, V>(e: (K, V)): (r: Option<(K, V)>)
    ensures r.Some? && r.value.0 == e.0 && r.value.1 == e.1
  {
    Some((e.0, e.1))
  }

  /** `es` lists the entries of `m`: each exactly once, in some order. */
  ghost predicate Enumerates<K, V>(es: seq<(K, V)>, m: map<K, V>)
  {
    && (forall i, j :: 0 <= i < j < |es| ==> es[i].0 != es[j].0)
    && (forall i :: 0 <= i < |es| ==> es[i].0 in m && m[es[i].0] == es[i].1)
    && (forall k :: k in m ==> exists i :: 0 <= i < |es| && es[i].0 == k)
  }

  /** Folding a listing of a dictionary's entries rebuilds that dictionary. */
  lemma {:induction false} ToDictionaryOfEnumeration<K, V>(es: seq<(K, V)>, m: map<K, V>)
    requires Enumerates(es, m)
    ensures ToDictionary(es, AsPair) == m
  {
    if es == [] {
      assert forall k :: k !in m;
    } else {
      var n := |es| - 1;
      var last := es[n];
      var prefix := es[..n];
      var rest := m - {last.0};
      forall k | k in rest ensures exists i :: 0 <= i < |prefix| && prefix[i].0 == k {
        var i :| 0 <= i < |es| && es[i].0 == k;
        assert i != n;
        assert prefix[i] == es[i];
      }
      assert Enumerates(prefix, rest);
      ToDictionaryOfEnumeration(prefix, rest);
      assert ToDictionary(es, AsPair) == rest[last.0 := last.1];
    }
  }

  /** The entries of `m` that `keep` accepts. */
  ghost function Kept<K, V>(m: map<K, V>, keep: (K, V) -> bool): (r: map<K, V>)
  {
    map k | k in m && keep(k, m[k]) :: m[k]
  }

  /**
   * Swift's `Dictionary.filter`: the pairs of `m` that `keep` accepts, as a
   * list, in an order the dictionary does not promise.
   */
  method FilterEntries<K, V>(m: map<K, V>, keep: (K, V) -> bool) returns (es: seq<(K, V)>)
    ensures Enumerates(es, Kept(m, keep))
  {
    es := [];
    var rest := m.Keys;
    while rest != {}
      invariant rest <= m.Keys
      invariant forall i :: 0 <= i < |es| ==> es[i].0 !in rest
      invariant Enumerates(es, map k | k in m && k !in rest && keep(k, m[k]) :: m[k])
      decreases rest
    {
      var k :| k in rest;
      ghost var before, previous := map k | k in m && k !in rest && keep(k, m[k]) :: m[k], es;
      if keep(k, m[k]) {
        es := es + [(k, m[k])];
      }
      rest := rest - {k};
      ghost var after := map k | k in m && k !in rest && keep(k, m[k]) :: m[k];
      forall k' | k' in after ensures exists i :: 0 <= i < |es| && es[i].0 == k' {
        if k' != k {
          assert k' in before;
          var i :| 0 <= i < |previous| && previous[i].0 == k';
          assert es[i] == previous[i];
        } else {
          assert es[|es| - 1].0 == k;
        }
      }
    }
    assert (map k | k in m && k !in rest && keep(k, m[k]) :: m[k]) == Kept(m, keep);
  }

  /**
   * `registerActiveDownload`'s rebuild: filtering everything, appending
   * `(k, v)` and folding is an upsert of `k`.
   */
  lemma UpsertByFold<K, V>(es: seq<(K, V)>, m: map<K, V>, k: K, v: V)
    requires Enumerates(es, m)
    ensures ToDictionary(es + [(k, v)], AsPair) == m[k := v]
  {
    assert (es + [(k, v)])[..|es|] == es;
    ToDictionaryOfEnumeration(es, m);
  }

}
