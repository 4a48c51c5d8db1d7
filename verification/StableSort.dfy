// What a library's stable sort returns. The order is given by `le`; any total
// preorder will do, and then there is exactly one such result.
module StableSort {
  import opened Common

  ghost predicate TotalPreorder<T(!new)>(le: (T, T) -> bool) {
    && (forall x, y :: le(x, y) || le(y, x))
    && (forall x, y, z :: le(x, y) && le(y, z) ==> le(x, z))
  }

  predicate Tied<T>(le: (T, T) -> bool, x: T, y: T) { le(x, y) && le(y, x) }

  ghost predicate Ordered<T>(le: (T, T) -> bool, s: seq<T>) {
    forall i, j | 0 <= i < j < |s| :: le(s[i], s[j])
  }

  /** The elements tied with `x`, in their order. */
  function TiedWith<T>(le: (T, T) -> bool, x: T, s: seq<T>): seq<T> {
    if s == [] then [] else (if Tied(le, x, s[0]) then [s[0]] else []) + TiedWith(le, x, s[1..])
  }

  /** No two tied elements have changed places. */
  ghost predicate Stable<T(!new)>(le: (T, T) -> bool, s: seq<T>, r: seq<T>) {
    forall x :: TiedWith(le, x, r) == TiedWith(le, x, s)
  }

  /** Before the first element that is not smaller. */
  function Insert<T>(le: (T, T) -> bool, x: T, s: seq<T>): seq<T> {
    if s == [] || le(x, s[0]) then [x] + s else [s[0]] + Insert(le, x, s[1..])
  }

  function Sorted<T>(le: (T, T) -> bool, s: seq<T>): seq<T> {
    if s == [] then [] else Insert(le, s[0], Sorted(le, s[1..]))
  }

  lemma {:induction false} InsertKeepsAll<T>(le: (T, T) -> bool, x: T, s: seq<T>)
    ensures multiset(Insert(le, x, s)) == multiset{x} + multiset(s)
  {
    if s != [] && !le(x, s[0]) {
      InsertKeepsAll(le, x, s[1..]);
      assert s == [s[0]] + s[1..];
    }
  }

  lemma {:induction false} InsertKeepsOrder<T(!new)>(le: (T, T) -> bool, x: T, s: seq<T>)
    requires TotalPreorder(le) && Ordered(le, s)
    ensures Ordered(le, Insert(le, x, s))
  {
    if s != [] && !le(x, s[0]) {
      InsertKeepsOrder(le, x, s[1..]);
      InsertKeepsAll(le, x, s[1..]);
      var rest := Insert(le, x, s[1..]);
      forall j | 0 <= j < |rest| ensures le(s[0], rest[j]) {
        assert rest[j] in multiset(rest);
      }
    }
  }

  lemma {:induction false} InsertIsStable<T(!new)>(le: (T, T) -> bool, x: T, s: seq<T>, y: T)
    requires TotalPreorder(le)
    ensures TiedWith(le, y, Insert(le, x, s)) == TiedWith(le, y, [x] + s)
  {
    assert ([x] + s)[1..] == s;
    if s != [] && !le(x, s[0]) {
      InsertIsStable(le, x, s[1..], y);
      var rest := Insert(le, x, s[1..]);
      assert ([s[0]] + rest)[1..] == rest && ([x] + s[1..])[1..] == s[1..];
      assert !(Tied(le, y, x) && Tied(le, y, s[0]));
    }
  }

  lemma {:induction false} SortedIsStable<T(!new)>(le: (T, T) -> bool, s: seq<T>, y: T)
    requires TotalPreorder(le)
    ensures TiedWith(le, y, Sorted(le, s)) == TiedWith(le, y, s)
  {
    if s != [] {
      SortedIsStable(le, s[1..], y);
      InsertIsStable(le, s[0], Sorted(le, s[1..]), y);
      assert ([s[0]] + Sorted(le, s[1..]))[1..] == Sorted(le, s[1..]);
    }
  }

  /** The result is an ordered, stable permutation. */
  lemma {:induction false} SortedMeans<T(!new)>(le: (T, T) -> bool, s: seq<T>)
    requires TotalPreorder(le)
    ensures Ordered(le, Sorted(le, s)) && multiset(Sorted(le, s)) == multiset(s) && Stable(le, s, Sorted(le, s))
  {
    if s != [] {
      SortedMeans(le, s[1..]);
      InsertKeepsOrder(le, s[0], Sorted(le, s[1..]));
      InsertKeepsAll(le, s[0], Sorted(le, s[1..]));
      assert s == [s[0]] + s[1..];
    }
    forall y {
      SortedIsStable(le, s, y);
    }
  }

  lemma {:induction false} TiedMembers<T(!new)>(le: (T, T) -> bool, x: T, s: seq<T>)
    ensures forall y :: y in TiedWith(le, x, s) <==> y in s && Tied(le, x, y)
  {
    if s != [] {
      TiedMembers(le, x, s[1..]);
    }
  }

  /** There is only one such result: the order of ties decides the rest. */
  lemma {:induction false} SortedIsTheOnlyOne<T(!new)>(le: (T, T) -> bool, r: seq<T>, q: seq<T>)
    requires TotalPreorder(le) && Ordered(le, r) && Ordered(le, q) && Stable(le, r, q) && |r| == |q|
    ensures r == q
    decreases |r|
  {
    if r != [] {
      TiedMembers(le, r[0], r);
      TiedMembers(le, r[0], q);
      assert r[0] in TiedWith(le, r[0], r);
      TiedMembers(le, q[0], r);
      TiedMembers(le, q[0], q);
      assert q[0] in TiedWith(le, q[0], q);
      assert q[0] in r && r[0] in q;
      assert Tied(le, r[0], q[0]) by {
        LeastFirst(le, r, q[0]);
        LeastFirst(le, q, r[0]);
      }
      assert TiedWith(le, r[0], r)[0] == r[0] && TiedWith(le, r[0], q)[0] == q[0];
      assert r[0] == q[0] by {
        assert TiedWith(le, r[0], q) == TiedWith(le, r[0], r);
      }
      forall x ensures TiedWith(le, x, q[1..]) == TiedWith(le, x, r[1..]) {
        var head := if Tied(le, x, r[0]) then [r[0]] else [];
        assert head + TiedWith(le, x, q[1..]) == TiedWith(le, x, q) == TiedWith(le, x, r)
            == head + TiedWith(le, x, r[1..]);
        assert (head + TiedWith(le, x, q[1..]))[|head|..] == TiedWith(le, x, q[1..]);
        assert (head + TiedWith(le, x, r[1..]))[|head|..] == TiedWith(le, x, r[1..]);
      }
      SortedIsTheOnlyOne(le, r[1..], q[1..]);
      assert r == [r[0]] + r[1..] && q == [q[0]] + q[1..];
    }
  }

  lemma LeastFirst<T(!new)>(le: (T, T) -> bool, s: seq<T>, x: T)
    requires TotalPreorder(le) && Ordered(le, s) && x in s
    ensures le(s[0], x)
  {
  }
}
