/** Sorting, as `sort.Strings`, `sort.Slice` and SQL's ORDER BY promise it, and enumerations of sets. */
module Sorting {
  ghost predicate TotalPreorder<T(!new)>(le: (T, T) -> bool) {
    && (forall x, y :: le(x, y) || le(y, x))
    && (forall x, y, z :: le(x, y) && le(y, z) ==> le(x, z))
  }

  ghost predicate Ordered<T>(xs: seq<T>, le: (T, T) -> bool) {
    forall i, j :: 0 <= i < j < |xs| ==> le(xs[i], xs[j])
  }

  function Insert<T>(x: T, xs: seq<T>, le: (T, T) -> bool): seq<T> {
    if xs == [] then [x] else if le(x, xs[0]) then [x] + xs else [xs[0]] + Insert(x, xs[1..], le)
  }

  function Sort<T>(xs: seq<T>, le: (T, T) -> bool): seq<T> {
    if xs == [] then [] else Insert(xs[0], Sort(xs[1..], le), le)
  }

  lemma {:induction false} InsertPermutes<T>(x: T, xs: seq<T>, le: (T, T) -> bool)
    ensures multiset(Insert(x, xs, le)) == multiset{x} + multiset(xs)
  {
    if xs != [] {
      assert xs == [xs[0]] + xs[1..];
      InsertPermutes(x, xs[1..], le);
    }
  }

  lemma {:induction false} SortPermutes<T>(xs: seq<T>, le: (T, T) -> bool)
    ensures multiset(Sort(xs, le)) == multiset(xs)
  {
    if xs != [] {
      assert xs == [xs[0]] + xs[1..];
      SortPermutes(xs[1..], le);
      InsertPermutes(xs[0], Sort(xs[1..], le), le);
    }
  }

  lemma {:induction false} InsertKeepsOrder<T(!new)>(x: T, xs: seq<T>, le: (T, T) -> bool)
    requires TotalPreorder(le) && Ordered(xs, le)
    ensures Ordered(Insert(x, xs, le), le)
  {
    if xs != [] && !le(x, xs[0]) {
      var rest := Insert(x, xs[1..], le);
      assert Ordered(xs[1..], le);
      InsertKeepsOrder(x, xs[1..], le);
      forall k | 0 <= k < |rest| ensures le(xs[0], rest[k]) {
        InsertMembers(x, xs[1..], le, rest[k]);
      }
      OrderedCons(xs[0], rest, le);
    }
  }

  lemma InsertMembers<T(!new)>(x: T, xs: seq<T>, le: (T, T) -> bool, y: T)
    requires y in Insert(x, xs, le)
    ensures y == x || y in xs
  {
    InsertPermutes(x, xs, le);
    assert y in multiset(Insert(x, xs, le));
  }

  lemma OrderedCons<T(!new)>(x: T, xs: seq<T>, le: (T, T) -> bool)
    requires Ordered(xs, le) && forall k :: 0 <= k < |xs| ==> le(x, xs[k])
    ensures Ordered([x] + xs, le)
  {
  }

  lemma {:induction false} SortOrders<T(!new)>(xs: seq<T>, le: (T, T) -> bool)
    requires TotalPreorder(le)
    ensures Ordered(Sort(xs, le), le)
  {
    if xs != [] {
      SortOrders(xs[1..], le);
      InsertKeepsOrder(xs[0], Sort(xs[1..], le), le);
    }
  }

  ghost predicate TellsApart<T(!new)>(xs: seq<T>, le: (T, T) -> bool) {
    forall x, y :: x in xs && y in xs && le(x, y) && le(y, x) ==> x == y
  }

  lemma TailTellsApart<T(!new)>(xs: seq<T>, le: (T, T) -> bool)
    requires xs != [] && TellsApart(xs, le)
    ensures TellsApart(xs[1..], le)
  {
    assert forall x :: x in xs[1..] ==> x in xs;
  }

  lemma TailOrdered<T(!new)>(xs: seq<T>, le: (T, T) -> bool)
    requires xs != [] && Ordered(xs, le)
    ensures Ordered(xs[1..], le)
  {
  }

  /** With an order that tells its values apart, a bag has one sorted listing. */
  lemma {:induction false} OrderedUnique<T(!new)>(xs: seq<T>, ys: seq<T>, le: (T, T) -> bool)
    requires Ordered(xs, le) && Ordered(ys, le) && multiset(xs) == multiset(ys) && TellsApart(xs, le)
    ensures xs == ys
  {
    SameLength(xs, ys);
    if xs != [] {
      SameFirst(xs, ys, le);
      SameTails(xs, ys);
      TailOrdered(xs, le);
      TailOrdered(ys, le);
      TailTellsApart(xs, le);
      OrderedUnique(xs[1..], ys[1..], le);
      assert xs == [xs[0]] + xs[1..] && ys == [ys[0]] + ys[1..];
    }
  }

  lemma SameFirst<T(!new)>(xs: seq<T>, ys: seq<T>, le: (T, T) -> bool)
    requires Ordered(xs, le) && Ordered(ys, le) && multiset(xs) == multiset(ys) && xs != [] && ys != []
    requires TellsApart(xs, le)
    ensures xs[0] == ys[0]
  {
    FirstIsLeast(xs, ys, le);
    FirstIsLeast(ys, xs, le);
    SameMembers(xs, ys);
    assert xs[0] in xs && ys[0] in ys;
  }

  lemma BagOfTail<T>(xs: seq<T>)
    requires xs != []
    ensures multiset(xs[1..]) == multiset(xs) - multiset{xs[0]}
  {
    assert xs == [xs[0]] + xs[1..];
  }

  lemma SameLength<T>(xs: seq<T>, ys: seq<T>)
    requires multiset(xs) == multiset(ys)
    ensures |xs| == |ys|
  {
    assert |ys| == |multiset(ys)| == |multiset(xs)| == |xs|;
  }

  lemma SameTails<T>(xs: seq<T>, ys: seq<T>)
    requires multiset(xs) == multiset(ys) && xs != [] && ys != [] && xs[0] == ys[0]
    ensures multiset(xs[1..]) == multiset(ys[1..])
  {
    BagOfTail(xs);
    BagOfTail(ys);
  }

  lemma SameMembers<T(!new)>(xs: seq<T>, ys: seq<T>)
    requires multiset(xs) == multiset(ys)
    ensures forall x :: x in xs <==> x in ys
  {
    forall x ensures x in xs <==> x in ys {
      assert x in xs <==> x in multiset(xs);
      assert x in ys <==> x in multiset(ys);
    }
  }

  lemma FirstIsLeast<T(!new)>(xs: seq<T>, ys: seq<T>, le: (T, T) -> bool)
    requires Ordered(xs, le) && multiset(xs) == multiset(ys) && xs != [] && ys != []
    ensures le(xs[0], ys[0]) || xs[0] == ys[0]
  {
    assert ys[0] in multiset(xs);
  }

  // ---------------- Enumerations ----------------

  /** `xs` lists every member of `s` once and nothing else. */
  ghost predicate Enumerates<T(!new)>(xs: seq<T>, s: set<T>) {
    && (forall x :: x in xs <==> x in s)
    && (forall i, j :: 0 <= i < j < |xs| ==> xs[i] != xs[j])
  }

  /** The loop `for _, x := range xs { if keep(x) { out = append(out, f(x)) } }`. */
  function Collect<A, B>(xs: seq<A>, keep: A -> bool, f: A -> B): seq<B> {
    if xs == [] then []
    else
      var last := xs[|xs| - 1];
      Collect(xs[..|xs| - 1], keep, f) + if keep(last) then [f(last)] else []
  }

  lemma CollectNext<A, B>(xs: seq<A>, n: nat, keep: A -> bool, f: A -> B)
    requires n < |xs|
    ensures Collect(xs[..n + 1], keep, f) == Collect(xs[..n], keep, f) + if keep(xs[n]) then [f(xs[n])] else []
  {
    assert xs[..n + 1][..n] == xs[..n];
  }

  lemma {:induction false} CollectMembers<A, B(!new)>(xs: seq<A>, keep: A -> bool, f: A -> B)
    ensures forall y :: y in Collect(xs, keep, f) <==> exists i :: 0 <= i < |xs| && keep(xs[i]) && f(xs[i]) == y
  {
    if xs != [] {
      var n := |xs| - 1;
      CollectMembers(xs[..n], keep, f);
      forall y ensures y in Collect(xs, keep, f) <==> exists i :: 0 <= i < |xs| && keep(xs[i]) && f(xs[i]) == y {
        if i :| 0 <= i < |xs| && keep(xs[i]) && f(xs[i]) == y {
          if i < n { assert xs[..n][i] == xs[i]; }
        }
        if y in Collect(xs[..n], keep, f) {
          var i :| 0 <= i < n && keep(xs[..n][i]) && f(xs[..n][i]) == y;
          assert xs[i] == xs[..n][i];
        }
      }
    }
  }

  /** Collecting over an enumeration of `s` with a one-to-one `f` enumerates the image of the kept part. */
  lemma {:induction false} CollectEnumerates<A(!new), B(!new)>(xs: seq<A>, s: set<A>, keep: A -> bool, f: A -> B)
    requires Enumerates(xs, s)
    requires forall x, y :: x in s && y in s && f(x) == f(y) ==> x == y
    ensures Enumerates(Collect(xs, keep, f), set x | x in s && keep(x) :: f(x))
  {
    CollectMembers(xs, keep, f);
    CollectDistinct(xs, keep, f);
    var image := set x | x in s && keep(x) :: f(x);
    forall y ensures y in Collect(xs, keep, f) <==> y in image {
      if y in image {
        var x :| x in s && keep(x) && f(x) == y;
        assert x in xs;
      }
      if i :| 0 <= i < |xs| && keep(xs[i]) && f(xs[i]) == y {
        assert xs[i] in xs;
      }
    }
  }

  lemma {:induction false} CollectDistinct<A, B(!new)>(xs: seq<A>, keep: A -> bool, f: A -> B)
    requires forall i, j :: 0 <= i < j < |xs| ==> f(xs[i]) != f(xs[j])
    ensures forall i, j :: 0 <= i < j < |Collect(xs, keep, f)| ==> Collect(xs, keep, f)[i] != Collect(xs, keep, f)[j]
  {
    if xs != [] {
      var n := |xs| - 1;
      CollectDistinct(xs[..n], keep, f);
      CollectMembers(xs[..n], keep, f);
      var ys := Collect(xs[..n], keep, f);
      forall k | 0 <= k < |ys| ensures ys[k] != f(xs[n]) {
        assert ys[k] in ys;
        var i :| 0 <= i < n && keep(xs[..n][i]) && f(xs[..n][i]) == ys[k];
      }
      assert Collect(xs, keep, f) == ys + if keep(xs[n]) then [f(xs[n])] else [];
    }
  }

  lemma {:induction false} SortEnumerates<T(!new)>(xs: seq<T>, s: set<T>, le: (T, T) -> bool)
    requires Enumerates(xs, s)
    ensures Enumerates(Sort(xs, le), s)
  {
    SortPermutes(xs, le);
    var ys := Sort(xs, le);
    forall x ensures x in ys <==> x in s {
      assert x in ys <==> x in multiset(ys);
      assert x in xs <==> x in multiset(xs);
    }
    OnceEach(xs);
    OnceEachMeansDistinct(ys);
  }

  lemma {:induction false} OnceEach<T(!new)>(xs: seq<T>)
    requires forall i, j :: 0 <= i < j < |xs| ==> xs[i] != xs[j]
    ensures forall x :: multiset(xs)[x] <= 1
  {
    if xs != [] {
      assert xs == [xs[0]] + xs[1..];
      OnceEach(xs[1..]);
      if xs[0] in multiset(xs[1..]) {
        assert xs[0] in xs[1..];
      }
    }
  }

  /** Two enumerations of one set differ in order only. */
  lemma EnumerationsSameBag<T(!new)>(xs: seq<T>, ys: seq<T>, s: set<T>)
    requires Enumerates(xs, s) && Enumerates(ys, s)
    ensures multiset(xs) == multiset(ys)
  {
    OnceEach(xs);
    OnceEach(ys);
    forall x ensures multiset(xs)[x] == multiset(ys)[x] {
      assert x in xs <==> x in ys;
    }
  }

  lemma OnceEachMeansDistinct<T(!new)>(xs: seq<T>)
    requires forall x :: multiset(xs)[x] <= 1
    ensures forall i, j :: 0 <= i < j < |xs| ==> xs[i] != xs[j]
  {
    forall i, j | 0 <= i < j < |xs| ensures xs[i] != xs[j] {
      assert xs == xs[..j] + xs[j..];
      assert multiset(xs) == multiset(xs[..j]) + multiset(xs[j..]);
      assert xs[..j][i] in multiset(xs[..j]) && xs[j..][0] in multiset(xs[j..]);
      assert multiset(xs)[xs[j]] <= 1 && multiset(xs[j..])[xs[j]] >= 1;
    }
  }

  /** A query without ORDER BY: the members of `s` in an order of the engine's choice. */
  method Scan<T(!new, ==)>(s: set<T>) returns (xs: seq<T>)
    ensures Enumerates(xs, s)
  {
    xs := [];
    var pending := s;
    while pending != {}
      invariant pending <= s && Enumerates(xs, s - pending)
      decreases pending
    {
      var x :| x in pending;
      xs, pending := xs + [x], pending - {x};
    }
    assert s - pending == s;
  }

  /** The same with ORDER BY. */
  method Select<T(!new, ==)>(s: set<T>, le: (T, T) -> bool) returns (xs: seq<T>)
    requires TotalPreorder(le)
    ensures Enumerates(xs, s) && Ordered(xs, le)
  {
    var rows := Scan(s);
    SortEnumerates(rows, s, le);
    SortOrders(rows, le);
    xs := Sort(rows, le);
  }
}
