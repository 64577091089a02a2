/** Query results of the document store: the documents of a collection that
    pass a filter, as `(id, document)` pairs ordered by one numeric field. */
module Ordering {

  /** The entries of `s` are in ascending order of `key` on their document. */
  ghost predicate SortedOn<K, V>(s: seq<(K, V)>, key: V -> int) {
    forall i, j :: 0 <= i < j < |s| ==> key(s[i].1) <= key(s[j].1)
  }

  /** The ids of the entries, in order. */
  function KeysOf<K, V>(s: seq<(K, V)>): (ks: seq<K>)
    ensures |ks| == |s| && forall i :: 0 <= i < |s| ==> ks[i] == s[i].0
  {
    if s == [] then [] else [s[0].0] + KeysOf(s[1..])
  }

  /** Where `x` goes in the sorted `s`: after every entry whose key is
      smaller, before every entry whose key is the same or larger. */
  function InsertionPoint<K, V>(x: (K, V), s: seq<(K, V)>, key: V -> int): (p: nat)
    requires SortedOn(s, key)
    ensures p <= |s|
    ensures forall i :: 0 <= i < p ==> key(s[i].1) < key(x.1)
    ensures forall i :: p <= i < |s| ==> key(x.1) <= key(s[i].1)
  {
    if s == [] || key(x.1) <= key(s[0].1) then 0
    else 1 + InsertionPoint(x, s[1..], key)
  }

  /** The keys of `ks` are pairwise different. */
  ghost predicate Distinct<K>(ks: seq<K>) {
    forall i, j :: 0 <= i < j < |ks| ==> ks[i] != ks[j]
  }

  /** `s` with `x` inserted at its insertion point, so that the order on
      `key` is kept and every other entry keeps its relative place. */
  function Insert<K, V>(x: (K, V), s: seq<(K, V)>, key: V -> int): (r: seq<(K, V)>)
    requires SortedOn(s, key)
    ensures SortedOn(r, key)
    ensures |r| == |s| + 1
    ensures var p := InsertionPoint(x, s, key);
      && r[p] == x
      && (forall i :: 0 <= i < p ==> r[i] == s[i])
      && (forall i :: p < i < |r| ==> r[i] == s[i - 1])
  {
    var p := InsertionPoint(x, s, key);
    s[..p] + [x] + s[p..]
  }

  /** Inserting adds exactly `x` to the entries. */
  lemma InsertMembers<K, V>(x: (K, V), s: seq<(K, V)>, key: V -> int)
    requires SortedOn(s, key)
    ensures forall e :: e in Insert(x, s, key) <==> e == x || e in s
  {
    var r, p := Insert(x, s, key), InsertionPoint(x, s, key);
    forall e | e in s ensures e in r {
      var i :| 0 <= i < |s| && s[i] == e;
      assert r[if i < p then i else i + 1] == e;
    }
    forall e | e in r ensures e == x || e in s {
      var i :| 0 <= i < |r| && r[i] == e;
      if i < p { assert s[i] == e; } else if i > p { assert s[i - 1] == e; }
    }
  }

  /** Inserting adds exactly `x.0` to the keys. */
  lemma InsertKeys<K, V>(x: (K, V), s: seq<(K, V)>, key: V -> int)
    requires SortedOn(s, key)
    ensures forall k :: k in KeysOf(Insert(x, s, key)) <==> k == x.0 || k in KeysOf(s)
  {
    var r, p := Insert(x, s, key), InsertionPoint(x, s, key);
    var kr, ks := KeysOf(r), KeysOf(s);
    assert kr[p] == x.0;
    forall k | k in ks ensures k in kr {
      var i :| 0 <= i < |ks| && ks[i] == k;
      assert kr[if i < p then i else i + 1] == k;
    }
    forall k | k in kr ensures k == x.0 || k in ks {
      var i :| 0 <= i < |kr| && kr[i] == k;
      if i < p { assert ks[i] == k; } else if i > p { assert ks[i - 1] == k; }
    }
  }

  /** Inserting an entry whose key is new keeps the keys distinct. */
  lemma InsertDistinct<K, V>(x: (K, V), s: seq<(K, V)>, key: V -> int)
    requires SortedOn(s, key) && Distinct(KeysOf(s)) && x.0 !in KeysOf(s)
    ensures Distinct(KeysOf(Insert(x, s, key)))
  {
    var r, p := Insert(x, s, key), InsertionPoint(x, s, key);
    var kr, ks := KeysOf(r), KeysOf(s);
    forall i, j | 0 <= i < j < |kr| ensures kr[i] != kr[j] {
      var i' := if i < p then i else i - 1;
      var j' := if j < p then j else j - 1;
      if i == p {
        assert kr[j] == ks[j'];
      } else if j == p {
        assert kr[i] == ks[i'];
      } else {
        assert kr[i] == ks[i'] && kr[j] == ks[j'];
      }
    }
  }

  /** The query `collection where keep(doc) orderBy key`: every document of
      `m` that passes `keep`, each exactly once, in ascending order of `key`.
      The store breaks ties by document id; document ids are abstract here,
      so the order among equal keys is left open. */
  method SortedEntries<K, V>(m: map<K, V>, keep: V -> bool, key: V -> int) returns (r: seq<(K, V)>)
    ensures forall i :: 0 <= i < |r| ==> r[i].0 in m && r[i].1 == m[r[i].0]
    ensures forall k :: k in KeysOf(r) <==> k in m && keep(m[k])
    ensures Distinct(KeysOf(r))
    ensures SortedOn(r, key)
  {
    r := [];
    var rest := m.Keys;
    while rest != {}
      invariant rest <= m.Keys
      invariant SortedOn(r, key)
      invariant forall e :: e in r ==> e.0 in m && e.1 == m[e.0]
      invariant forall k :: k in KeysOf(r) <==> k in m && k !in rest && keep(m[k])
      invariant Distinct(KeysOf(r))
      decreases rest
    {
      var k :| k in rest;
      if keep(m[k]) {
        InsertMembers((k, m[k]), r, key);
        InsertKeys((k, m[k]), r, key);
        InsertDistinct((k, m[k]), r, key);
        r := Insert((k, m[k]), r, key);
      }
      rest := rest - {k};
    }
  }
}
