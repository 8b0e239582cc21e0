/** The `Record<string, …>` accumulators that the aggregations build with
    `reduce`: a dictionary whose entries keep the order in which their keys
    were first written, which is the order `Object.entries` reports them in.
    It is held as a list of (key, value) pairs with distinct keys. */
module Groups {
  import Seqs

  function Keys<K, V>(t: seq<(K, V)>): (r: seq<K>)
    ensures |r| == |t|
    ensures forall i :: 0 <= i < |t| ==> r[i] == t[i].0
  {
    if t == [] then [] else [t[0].0] + Keys(t[1..])
  }

  function Values<K, V>(t: seq<(K, V)>): (r: seq<V>)
    ensures |r| == |t|
    ensures forall i :: 0 <= i < |t| ==> r[i] == t[i].1
  {
    if t == [] then [] else [t[0].1] + Values(t[1..])
  }

  lemma {:induction false} ValuesPrepend<K, V>(e: (K, V), t: seq<(K, V)>)
    ensures Values([e] + t) == [e.1] + Values(t)
  {
    assert ([e] + t)[1..] == t;
  }

  predicate NoDuplicates<T(==)>(s: seq<T>)
  {
    forall i, j :: 0 <= i < j < |s| ==> s[i] != s[j]
  }

  /** The distinct elements of `s`, each where it first occurs. */
  function Distinct<T(==)>(s: seq<T>): (r: seq<T>)
    ensures NoDuplicates(r)
    ensures forall i :: 0 <= i < |r| ==> r[i] in s
    ensures forall i :: 0 <= i < |s| ==> s[i] in r
  {
    if s == [] then []
    else
      var p := s[..|s| - 1];
      var x := s[|s| - 1];
      assert s == p + [x];
      var d := Distinct(p);
      if x in p then d else d + [x]
  }

  /** Position of the entry for `k`, or -1 when there is none. */
  function IndexOf<K(==), V>(t: seq<(K, V)>, k: K): (i: int)
    ensures -1 <= i < |t|
    ensures 0 <= i ==> t[i].0 == k
    ensures forall j :: 0 <= j < |t| && (i < 0 || j < i) ==> t[j].0 != k
  {
    if t == [] then -1
    else if t[0].0 == k then 0
    else
      var r := IndexOf(t[1..], k);
      if r < 0 then -1 else r + 1
  }

  /** Dictionaries with the same keys in the same order find a key at the
      same place. */
  lemma {:induction false} IndexOfSameKeys<K, V, W>(t: seq<(K, V)>, u: seq<(K, W)>, k: K)
    requires Keys(t) == Keys(u)
    ensures IndexOf(t, k) == IndexOf(u, k)
  {
    var i, j := IndexOf(t, k), IndexOf(u, k);
    assert forall m :: 0 <= m < |t| ==> t[m].0 == Keys(t)[m] == Keys(u)[m] == u[m].0;
    if 0 <= i {
      assert u[i].0 == k;
    }
    if 0 <= j {
      assert t[j].0 == k;
    }
  }

  /** A key written for the first time goes at the end. */
  lemma {:induction false} IndexOfAppend<K, V>(t: seq<(K, V)>, e: (K, V), k: K)
    ensures IndexOf(t + [e], k) == if 0 <= IndexOf(t, k) then IndexOf(t, k) else if e.0 == k then |t| else -1
  {
    var u := t + [e];
    var i, j := IndexOf(t, k), IndexOf(u, k);
    if 0 <= i {
      assert u[i] == t[i];
    }
    if 0 <= j < |t| {
      assert u[j] == t[j];
    }
    if i < 0 && e.0 == k {
      assert u[|t|] == e;
    }
  }

  lemma {:induction false} KeysAppend<K, V>(t: seq<(K, V)>, e: (K, V))
    ensures Keys(t + [e]) == Keys(t) + [e.0]
  {
    assert forall m :: 0 <= m < |t| ==> (t + [e])[m] == t[m];
  }

  // ---------------------------------------------------------------- counting

  /** `acc[k] = (acc[k] || 0) + 1`. */
  function Bump<K(==)>(t: seq<(K, nat)>, k: K): seq<(K, nat)>
  {
    var i := IndexOf(t, k);
    if i < 0 then t + [(k, 1)] else t[i := (k, t[i].1 + 1)]
  }

  /** `keys.reduce((acc, k) => { acc[k] = (acc[k] || 0) + 1; return acc }, {})`. */
  function Tally<K(==)>(keys: seq<K>): seq<(K, nat)>
  {
    if keys == [] then [] else Bump(Tally(keys[..|keys| - 1]), keys[|keys| - 1])
  }

  /** The count stored for `k`, 0 when `k` has no entry. */
  function CountOf<K(==)>(t: seq<(K, nat)>, k: K): (n: nat)
    ensures n > 0 ==> exists i :: 0 <= i < |t| && t[i] == (k, n)
  {
    var i := IndexOf(t, k);
    if i < 0 then 0 else t[i].1
  }

  function Total<K>(t: seq<(K, nat)>): nat
  {
    if t == [] then 0 else t[0].1 + Total(t[1..])
  }

  /** Bumping keeps the keys, adding a new one last. */
  lemma {:induction false} BumpKeys<K>(t: seq<(K, nat)>, x: K)
    ensures Keys(Bump(t, x)) == if x in Keys(t) then Keys(t) else Keys(t) + [x]
  {
    var i := IndexOf(t, x);
    if i < 0 {
      KeysAppend(t, (x, 1));
      assert x !in Keys(t);
    } else {
      assert Keys(t)[i] == x;
      KeysUpdate(t, i, (x, t[i].1 + 1));
    }
  }

  /** Pushing keeps the keys, adding a new one last. */
  lemma {:induction false} PushKeys<K, V>(g: seq<(K, seq<V>)>, k: K, v: V)
    ensures Keys(Push(g, k, v)) == if k in Keys(g) then Keys(g) else Keys(g) + [k]
  {
    var i := IndexOf(g, k);
    if i < 0 {
      KeysAppend(g, (k, [v]));
      assert k !in Keys(g);
    } else {
      assert Keys(g)[i] == k;
      KeysUpdate(g, i, (k, g[i].1 + [v]));
    }
  }

  /** The distinct elements of a list with one more element at the end. */
  lemma {:induction false} DistinctAppend<T>(p: seq<T>, x: T)
    ensures Distinct(p + [x]) == if x in p then Distinct(p) else Distinct(p) + [x]
  {
    var s := p + [x];
    assert s[..|s| - 1] == p && s[|s| - 1] == x;
  }

  lemma {:induction false} DistinctMembers<T>(p: seq<T>, x: T)
    ensures x in Distinct(p) <==> x in p
  {
    var d := Distinct(p);
    if x in p {
      var k :| 0 <= k < |p| && p[k] == x;
      assert p[k] in d;
    }
    if x in d {
      var k :| 0 <= k < |d| && d[k] == x;
      assert d[k] in p;
    }
  }

  /** The tally's keys are the distinct keys in order of first occurrence. */
  lemma {:induction false} TallyKeys<K>(keys: seq<K>)
    ensures Keys(Tally(keys)) == Distinct(keys)
  {
    if keys != [] {
      var p, x := keys[..|keys| - 1], keys[|keys| - 1];
      assert keys == p + [x];
      TallyKeys(p);
      DistinctAppend(p, x);
      DistinctMembers(p, x);
      BumpKeys(Tally(p), x);
    }
  }

  /** Bumping a key counts it once more and no other key. */
  lemma {:induction false} BumpCount<K>(t: seq<(K, nat)>, x: K, k: K)
    ensures CountOf(Bump(t, x), k) == CountOf(t, k) + (if x == k then 1 else 0)
  {
    var i := IndexOf(t, x);
    if i < 0 {
      BumpNewCount(t, x, k);
    } else {
      BumpOldCount(t, i, x, k);
    }
  }

  lemma {:induction false} BumpNewCount<K>(t: seq<(K, nat)>, x: K, k: K)
    requires IndexOf(t, x) < 0
    ensures CountOf(t + [(x, 1)], k) == CountOf(t, k) + (if x == k then 1 else 0)
  {
    IndexOfAppend(t, (x, 1), k);
    var j := IndexOf(t, k);
    if 0 <= j {
      assert (t + [(x, 1)])[j] == t[j];
    }
  }

  lemma {:induction false} BumpOldCount<K>(t: seq<(K, nat)>, i: int, x: K, k: K)
    requires 0 <= i < |t| && IndexOf(t, x) == i
    ensures CountOf(t[i := (x, t[i].1 + 1)], k) == CountOf(t, k) + (if x == k then 1 else 0)
  {
    var u := t[i := (x, t[i].1 + 1)];
    KeysUpdate(t, i, (x, t[i].1 + 1));
    IndexOfSameKeys(t, u, k);
    var j := IndexOf(t, k);
    assert x == k ==> j == i;
    assert 0 <= j == i ==> x == k;
  }

  lemma {:induction false} KeysUpdate<K, V>(t: seq<(K, V)>, i: int, e: (K, V))
    requires 0 <= i < |t| && e.0 == t[i].0
    ensures Keys(t[i := e]) == Keys(t)
  {
    var u := t[i := e];
    assert forall m :: 0 <= m < |t| ==> Keys(u)[m] == Keys(t)[m];
  }

  /** Each key is counted as often as it occurs. */
  lemma {:induction false} TallyCount<K>(keys: seq<K>, k: K)
    ensures CountOf(Tally(keys), k) == multiset(keys)[k]
  {
    if keys != [] {
      var p, x := keys[..|keys| - 1], keys[|keys| - 1];
      assert keys == p + [x];
      TallyCount(p, k);
      BumpCount(Tally(p), x, k);
    }
  }

  lemma {:induction false} TotalAppend<K>(t: seq<(K, nat)>, e: (K, nat))
    ensures Total(t + [e]) == Total(t) + e.1
  {
    if t == [] {
      assert Total([e]) == e.1 + Total([e][1..]);
    } else {
      assert (t + [e])[1..] == t[1..] + [e];
      TotalAppend(t[1..], e);
    }
  }

  lemma {:induction false} TotalUpdate<K>(t: seq<(K, nat)>, i: nat, e: (K, nat))
    requires i < |t|
    ensures Total(t[i := e]) == Total(t) - t[i].1 + e.1
  {
    if i > 0 {
      assert t[i := e][1..] == t[1..][i - 1 := e];
      TotalUpdate(t[1..], i - 1, e);
    } else {
      assert t[i := e][1..] == t[1..];
    }
  }

  /** The counts add up to the number of keys tallied. */
  lemma {:induction false} TallyTotal<K>(keys: seq<K>)
    ensures Total(Tally(keys)) == |keys|
  {
    if keys != [] {
      var p, x := keys[..|keys| - 1], keys[|keys| - 1];
      var t := Tally(p);
      TallyTotal(p);
      var i := IndexOf(t, x);
      if i < 0 {
        TotalAppend(t, (x, 1));
      } else {
        TotalUpdate(t, i, (x, t[i].1 + 1));
      }
    }
  }

  // ---------------------------------------------------------------- grouping

  /** `if (!acc[k]) acc[k] = []; acc[k].push(v)`. */
  function Push<K(==), V>(g: seq<(K, seq<V>)>, k: K, v: V): seq<(K, seq<V>)>
  {
    var i := IndexOf(g, k);
    if i < 0 then g + [(k, [v])] else g[i := (k, g[i].1 + [v])]
  }

  /** Collects the values of each key, in order, under that key. */
  function GroupBy<K(==), V>(ps: seq<(K, V)>): seq<(K, seq<V>)>
  {
    if ps == [] then [] else Push(GroupBy(ps[..|ps| - 1]), ps[|ps| - 1].0, ps[|ps| - 1].1)
  }

  /** The values stored for `k`, none when `k` has no entry. */
  function ValuesOf<K(==), V>(g: seq<(K, seq<V>)>, k: K): seq<V>
  {
    var i := IndexOf(g, k);
    if i < 0 then [] else g[i].1
  }

  function KeyIs<K(==), V>(k: K): ((K, V)) -> bool
  {
    (e: (K, V)) => e.0 == k
  }

  /** One group per distinct key, in order of first occurrence. */
  lemma {:induction false} GroupKeys<K, V>(ps: seq<(K, V)>)
    ensures Keys(GroupBy(ps)) == Distinct(Keys(ps))
  {
    if ps != [] {
      var p, x := ps[..|ps| - 1], ps[|ps| - 1];
      assert ps == p + [x];
      KeysAppend(p, x);
      var g := GroupBy(p);
      assert GroupBy(ps) == Push(g, x.0, x.1);
      GroupKeys(p);
      DistinctAppend(Keys(p), x.0);
      DistinctMembers(Keys(p), x.0);
      PushKeys(g, x.0, x.1);
    }
  }

  /** Pushing appends to the pushed key's values and no other's. */
  lemma {:induction false} PushValues<K, V>(g: seq<(K, seq<V>)>, x: K, v: V, k: K)
    ensures ValuesOf(Push(g, x, v), k) == ValuesOf(g, k) + (if x == k then [v] else [])
  {
    var i := IndexOf(g, x);
    if i < 0 {
      IndexOfAppend(g, (x, [v]), k);
    } else {
      var u := g[i := (x, g[i].1 + [v])];
      assert Keys(u) == Keys(g);
      IndexOfSameKeys(g, u, k);
    }
  }

  /** Appending a pair adds its value to the values filtered for its key. */
  lemma {:induction false} FilterKeyAppend<K, V>(p: seq<(K, V)>, x: (K, V), k: K)
    ensures Values(Seqs.Filter(p + [x], KeyIs(k))) == Values(Seqs.Filter(p, KeyIs(k))) + (if x.0 == k then [x.1] else [])
  {
    Seqs.FilterConcat(p, [x], KeyIs(k));
    assert Seqs.Filter([x], KeyIs(k)) == (if x.0 == k then [x] else []) + Seqs.Filter([x][1..], KeyIs(k));
    var f := Seqs.Filter(p, KeyIs(k));
    assert Values(f + [x]) == Values(f) + [x.1];
  }

  /** Each group holds exactly the values paired with its key, in order. */
  lemma {:induction false} GroupValues<K, V>(ps: seq<(K, V)>, k: K)
    ensures ValuesOf(GroupBy(ps), k) == Values(Seqs.Filter(ps, KeyIs(k)))
  {
    if ps != [] {
      var p, x := ps[..|ps| - 1], ps[|ps| - 1];
      assert ps == p + [x];
      var g := GroupBy(p);
      assert GroupBy(ps) == Push(g, x.0, x.1);
      GroupValues(p, k);
      PushValues(g, x.0, x.1, k);
      FilterKeyAppend(p, x, k);
    }
  }

  /** No group is empty. */
  lemma {:induction false} GroupsNonEmpty<K, V>(ps: seq<(K, V)>)
    ensures forall j :: 0 <= j < |GroupBy(ps)| ==> GroupBy(ps)[j].1 != []
  {
    if ps != [] {
      GroupsNonEmpty(ps[..|ps| - 1]);
    }
  }
}
