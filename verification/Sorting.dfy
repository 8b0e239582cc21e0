/** The stable sort behind `Array.prototype.sort` with a comparator: an
    element that the comparator does not place strictly after a later one
    stays in front of it. Written as an insertion sort over a total preorder
    `leq` ("a may come before b"). */
module Sorting {

  ghost predicate Transitive<T(!new)>(leq: (T, T) -> bool)
  {
    forall a, b, c :: leq(a, b) && leq(b, c) ==> leq(a, c)
  }

  ghost predicate TotalPreorder<T(!new)>(leq: (T, T) -> bool)
  {
    && (forall a, b :: leq(a, b) || leq(b, a))
    && Transitive(leq)
  }

  predicate Sorted<T>(s: seq<T>, leq: (T, T) -> bool)
  {
    forall i, j :: 0 <= i < j < |s| ==> leq(s[i], s[j])
  }

  /** `a` and `b` compare equal: the comparator returns 0 both ways. */
  predicate Tied<T>(a: T, b: T, leq: (T, T) -> bool)
  {
    leq(a, b) && leq(b, a)
  }

  /** The elements of `s` that compare equal to `z`, in their order in `s`. */
  function Ties<T>(s: seq<T>, z: T, leq: (T, T) -> bool): seq<T>
  {
    if s == [] then [] else (if Tied(s[0], z, leq) then [s[0]] else []) + Ties(s[1..], z, leq)
  }

  /** Puts `x` in front of the first element it may precede. */
  function Insert<T>(x: T, r: seq<T>, leq: (T, T) -> bool): (o: seq<T>)
    ensures multiset(o) == multiset(r) + multiset{x}
    ensures |o| == |r| + 1
  {
    if r == [] then [x]
    else if leq(x, r[0]) then [x] + r
    else
      assert r == [r[0]] + r[1..];
      [r[0]] + Insert(x, r[1..], leq)
  }

  /** Sorts `s` by inserting each element, last first, so that earlier
      elements end up in front of the later elements they tie with. */
  function Sort<T>(s: seq<T>, leq: (T, T) -> bool): (r: seq<T>)
    ensures multiset(r) == multiset(s)
    ensures |r| == |s|
  {
    if s == [] then []
    else
      assert s == [s[0]] + s[1..];
      Insert(s[0], Sort(s[1..], leq), leq)
  }

  lemma {:induction false} InsertSorted<T(!new)>(x: T, r: seq<T>, leq: (T, T) -> bool)
    requires TotalPreorder(leq) && Sorted(r, leq)
    ensures Sorted(Insert(x, r, leq), leq)
  {
    if r != [] && !leq(x, r[0]) {
      var rest := Insert(x, r[1..], leq);
      InsertSorted(x, r[1..], leq);
      assert leq(r[0], x);
      forall j | 0 <= j < |rest| ensures leq(r[0], rest[j]) {
        assert rest[j] in multiset(rest);
        if rest[j] != x {
          assert rest[j] in multiset(r[1..]);
          var k :| 0 <= k < |r[1..]| && r[1..][k] == rest[j];
          assert r[k + 1] == rest[j];
        }
      }
    }
  }

  /** The sort's output is ordered by `leq`. */
  lemma {:induction false} SortSorted<T(!new)>(s: seq<T>, leq: (T, T) -> bool)
    requires TotalPreorder(leq)
    ensures Sorted(Sort(s, leq), leq)
  {
    if s != [] {
      SortSorted(s[1..], leq);
      InsertSorted(s[0], Sort(s[1..], leq), leq);
    }
  }

  lemma {:induction false} InsertTies<T(!new)>(x: T, r: seq<T>, z: T, leq: (T, T) -> bool)
    requires Transitive(leq)
    ensures Ties(Insert(x, r, leq), z, leq) == (if Tied(x, z, leq) then [x] else []) + Ties(r, z, leq)
  {
    var xs := if Tied(x, z, leq) then [x] else [];
    if r == [] {
      assert Insert(x, r, leq) == [x];
      assert Ties([x], z, leq) == xs + Ties([x][1..], z, leq);
    } else if leq(x, r[0]) {
      var o := [x] + r;
      assert o[0] == x && o[1..] == r;
      assert Ties(o, z, leq) == xs + Ties(r, z, leq);
    } else {
      var rest := Insert(x, r[1..], leq);
      var o := [r[0]] + rest;
      var rs := if Tied(r[0], z, leq) then [r[0]] else [];
      InsertTies(x, r[1..], z, leq);
      assert o[0] == r[0] && o[1..] == rest;
      assert Ties(o, z, leq) == rs + Ties(rest, z, leq);
      assert Ties(r, z, leq) == rs + Ties(r[1..], z, leq);
      NotBothTied(x, r[0], z, leq);
      SwapEmpty(rs, xs, Ties(r[1..], z, leq));
    }
  }

  /** Two elements of which the first may not precede the second do not
      both tie with one element. */
  lemma {:induction false} NotBothTied<T(!new)>(x: T, y: T, z: T, leq: (T, T) -> bool)
    requires Transitive(leq) && !leq(x, y)
    ensures !(Tied(x, z, leq) && Tied(y, z, leq))
  {
  }

  /** When one of two prefixes is empty, their order does not matter. */
  lemma {:induction false} SwapEmpty<T>(a: seq<T>, b: seq<T>, c: seq<T>)
    requires a == [] || b == []
    ensures a + (b + c) == b + (a + c)
  {
    if a == [] {
      assert a + (b + c) == b + c;
      assert a + c == c;
    } else {
      assert b + (a + c) == a + c;
      assert b + c == c;
    }
  }

  /** Stability: for every key class, the sort keeps the input order. */
  lemma {:induction false} SortStable<T(!new)>(s: seq<T>, z: T, leq: (T, T) -> bool)
    requires TotalPreorder(leq)
    ensures Ties(Sort(s, leq), z, leq) == Ties(s, z, leq)
  {
    if s != [] {
      SortStable(s[1..], z, leq);
      InsertTies(s[0], Sort(s[1..], leq), z, leq);
    }
  }

  /** The first element of a sorted permutation may precede every element. */
  lemma {:induction false} SortHeadIsLeast<T(!new)>(s: seq<T>, leq: (T, T) -> bool)
    requires TotalPreorder(leq) && s != []
    ensures forall i :: 0 <= i < |s| ==> leq(Sort(s, leq)[0], s[i])
  {
    var r := Sort(s, leq);
    SortSorted(s, leq);
    forall i | 0 <= i < |s| ensures leq(r[0], s[i]) {
      assert s[i] in multiset(r);
      var k :| 0 <= k < |r| && r[k] == s[i];
      assert leq(r[0], r[0]);
    }
  }

  /** The first tie of `z` in `s` is the first element of `s` tied with `z`. */
  lemma {:induction false} TiesHead<T>(s: seq<T>, z: T, i: nat, leq: (T, T) -> bool)
    requires i < |s| && Tied(s[i], z, leq)
    requires forall j :: 0 <= j < i ==> !Tied(s[j], z, leq)
    ensures Ties(s, z, leq) != [] && Ties(s, z, leq)[0] == s[i]
  {
    if i > 0 {
      TiesHead(s[1..], z, i - 1, leq);
    }
  }

  /** The first tie of `z` in `s` exists when some element ties with `z`,
      and no earlier element ties with `z`. */
  lemma {:induction false} TiesFirst<T>(s: seq<T>, z: T, leq: (T, T) -> bool)
    requires Ties(s, z, leq) != []
    ensures exists j :: 0 <= j < |s| && Ties(s, z, leq)[0] == s[j] && Tied(s[j], z, leq)
                        && forall i :: 0 <= i < j ==> !Tied(s[i], z, leq)
  {
    if Tied(s[0], z, leq) {
      assert Ties(s, z, leq)[0] == s[0];
    } else {
      TiesFirst(s[1..], z, leq);
      var j :| 0 <= j < |s[1..]| && Ties(s[1..], z, leq)[0] == s[1..][j] && Tied(s[1..][j], z, leq)
               && forall i :: 0 <= i < j ==> !Tied(s[1..][i], z, leq);
      assert s[j + 1] == s[1..][j];
      assert forall i :: 1 <= i < j + 1 ==> s[i] == s[1..][i - 1];
    }
  }

  /** The head of the sort is the first element of `s` that may precede
      every element: everything before it must come strictly after it. */
  lemma {:induction false} SortHeadIsFirstLeast<T(!new)>(s: seq<T>, leq: (T, T) -> bool)
    requires TotalPreorder(leq) && s != []
    ensures exists j :: 0 <= j < |s| && Sort(s, leq)[0] == s[j]
                        && (forall i :: 0 <= i < |s| ==> leq(s[j], s[i]))
                        && (forall i :: 0 <= i < j ==> !leq(s[i], s[j]))
  {
    var r := Sort(s, leq);
    var h := r[0];
    SortHeadIsLeast(s, leq);
    SortStable(s, h, leq);
    assert leq(h, h);
    TiesHead(r, h, 0, leq);
    TiesFirst(s, h, leq);
    var j :| 0 <= j < |s| && Ties(s, h, leq)[0] == s[j] && Tied(s[j], h, leq)
             && forall i :: 0 <= i < j ==> !Tied(s[i], h, leq);
    assert s[j] == h;
  }
}
