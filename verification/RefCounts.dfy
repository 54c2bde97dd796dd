/** Reference counting in general: a table of counts against the references that are alive. */
module RefCounts {

  /** How many references of `refs` lead to `v`. */
  ghost function Count<K(!new), V>(refs: map<K, V>, v: V): nat {
    |set k | k in refs && refs[k] == v|
  }

  /** Every reference leads to something counted, and every count is the number of its references,
      never zero: what has lost its last reference is gone from the table. */
  ghost predicate Counted<K(!new), V(!new)>(counts: map<V, int>, refs: map<K, V>) {
    && (forall k | k in refs :: refs[k] in counts)
    && (forall v | v in counts :: counts[v] == Count(refs, v) && counts[v] > 0)
  }

  lemma CountAdded<K(!new), V>(refs: map<K, V>, k: K, v: V, w: V)
    requires k !in refs
    ensures Count(refs[k := v], w) == Count(refs, w) + if v == w then 1 else 0
  {
    var before := set j | j in refs && refs[j] == w;
    var more := refs[k := v];
    var after := set j | j in more && more[j] == w;
    assert after == if v == w then before + {k} else before;
  }

  lemma CountRemoved<K(!new), V>(refs: map<K, V>, k: K, w: V)
    requires k in refs
    ensures Count(refs - {k}, w) == Count(refs, w) - if refs[k] == w then 1 else 0
  {
    var less := refs - {k};
    assert less[k := refs[k]] == refs;
    CountAdded(less, k, refs[k], w);
  }

  lemma CountPositive<K(!new), V>(refs: map<K, V>, k: K)
    requires k in refs
    ensures Count(refs, refs[k]) > 0
  {
    var v := refs[k];
    var all := set j | j in refs && refs[j] == v;
    assert k in all && all == {k} + all;
    assert |all| > 0;
  }

  lemma CountWitness<K(!new), V>(refs: map<K, V>, v: V) returns (k: K)
    requires Count(refs, v) > 0
    ensures k in refs && refs[k] == v
  {
    var all := set j | j in refs && refs[j] == v;
    assert |all| > 0;
    k :| k in all;
  }

  lemma CountNone<K(!new), V>(refs: map<K, V>, v: V)
    requires forall k | k in refs :: refs[k] != v
    ensures Count(refs, v) == 0
  {
    assert (set k | k in refs && refs[k] == v) == {};
  }

  /** Two different references to the same thing make its count at least two. */
  lemma CountTwo<K(!new), V>(refs: map<K, V>, j: K, k: K)
    requires j in refs && k in refs && j != k && refs[j] == refs[k]
    ensures Count(refs, refs[k]) >= 2
  {
    CountRemoved(refs, j, refs[k]);
    CountPositive(refs - {j}, k);
  }

  /** A new thing with its first reference. */
  lemma Created<K(!new), V(!new)>(counts: map<V, int>, refs: map<K, V>, k: K, v: V)
    requires Counted(counts, refs) && k !in refs && v !in counts
    ensures Counted(counts[v := 1], refs[k := v])
  {
    var more := counts[v := 1];
    forall w | w in more
      ensures more[w] == Count(refs[k := v], w)
    {
      CountAdded(refs, k, v, w);
      if w == v {
        CountNone(refs, v);
      }
    }
  }

  /** One more reference. */
  lemma Duplicated<K(!new), V(!new)>(counts: map<V, int>, refs: map<K, V>, k: K, v: V)
    requires Counted(counts, refs) && k !in refs && v in counts
    ensures Counted(counts[v := counts[v] + 1], refs[k := v])
  {
    var more := counts[v := counts[v] + 1];
    forall w | w in more
      ensures more[w] == Count(refs[k := v], w)
    {
      CountAdded(refs, k, v, w);
    }
  }

  /** One reference less: the thing goes with the last one, and only then. */
  lemma Released<K(!new), V(!new)>(counts: map<V, int>, refs: map<K, V>, k: K)
    requires Counted(counts, refs) && k in refs
    ensures var v := refs[k];
            && v in counts && counts[v] >= 1
            && (counts[v] == 1 <==> forall j | j in refs && refs[j] == v :: j == k)
            && Counted(if counts[v] == 1 then counts - {v} else counts[v := counts[v] - 1], refs - {k})
  {
    var v := refs[k];
    var after := if counts[v] == 1 then counts - {v} else counts[v := counts[v] - 1];
    forall w | w in after
      ensures after[w] == Count(refs - {k}, w) && after[w] > 0
    {
      CountRemoved(refs, k, w);
    }
    CountRemoved(refs, k, v);
    forall j | j in refs && refs[j] == v && j != k
      ensures counts[v] >= 2
    {
      CountTwo(refs, j, k);
    }
    if counts[v] != 1 {
      var rest := refs - {k};
      var left := set j | j in rest && rest[j] == v;
      assert |left| > 0;
      var j :| j in left;
      assert j in refs && refs[j] == v && j != k;
    }
  }
}
