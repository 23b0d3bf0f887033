/** Python's `sorted` and string comparison: a stable insertion sort over any
    total preorder, and the lexicographic order of code points. */
module Ordering {

  ghost predicate TotalPreorder<T(!new)>(leq: (T, T) -> bool) {
    && (forall x, y :: leq(x, y) || leq(y, x))
    && (forall x, y, z :: leq(x, y) && leq(y, z) ==> leq(x, z))
  }

  ghost predicate Ordered<T>(xs: seq<T>, leq: (T, T) -> bool) {
    forall i, j :: 0 <= i < j < |xs| ==> leq(xs[i], xs[j])
  }

  function InsertBy<T>(x: T, xs: seq<T>, leq: (T, T) -> bool): (r: seq<T>)
    ensures multiset(r) == multiset(xs) + multiset{x}
    ensures |r| == |xs| + 1
  {
    if xs == [] then [x]
    else if leq(x, xs[0]) then [x] + xs
    else
      assert xs == [xs[0]] + xs[1..];
      [xs[0]] + InsertBy(x, xs[1..], leq)
  }

  /** `sorted(xs, key=...)`: stable, because an earlier element is put before its equals. */
  function SortBy<T>(xs: seq<T>, leq: (T, T) -> bool): (r: seq<T>)
    ensures multiset(r) == multiset(xs)
    ensures |r| == |xs|
  {
    if xs == [] then []
    else
      assert xs == [xs[0]] + xs[1..];
      InsertBy(xs[0], SortBy(xs[1..], leq), leq)
  }

  lemma {:induction false} InsertKeepsOrder<T(!new)>(x: T, xs: seq<T>, leq: (T, T) -> bool)
    requires TotalPreorder(leq) && Ordered(xs, leq)
    ensures Ordered(InsertBy(x, xs, leq), leq)
  {
    if xs == [] {
    } else if leq(x, xs[0]) {
      forall j | 0 <= j < |xs| ensures leq(x, xs[j]) {
        assert j == 0 || leq(xs[0], xs[j]);
      }
    } else {
      InsertKeepsOrder(x, xs[1..], leq);
      var tail := InsertBy(x, xs[1..], leq);
      forall j | 0 <= j < |tail| ensures leq(xs[0], tail[j]) {
        assert tail[j] in multiset(tail);
        assert tail[j] == x || tail[j] in xs[1..];
      }
    }
  }

  lemma {:induction false} SortOrders<T(!new)>(xs: seq<T>, leq: (T, T) -> bool)
    requires TotalPreorder(leq)
    ensures Ordered(SortBy(xs, leq), leq)
  {
    if xs != [] {
      SortOrders(xs[1..], leq);
      InsertKeepsOrder(xs[0], SortBy(xs[1..], leq), leq);
    }
  }

  lemma {:induction false} SortOfOrdered<T(!new)>(xs: seq<T>, leq: (T, T) -> bool)
    requires Ordered(xs, leq)
    ensures SortBy(xs, leq) == xs
  {
    if xs != [] {
      SortOfOrdered(xs[1..], leq);
      assert xs[1..] != [] ==> leq(xs[0], xs[1..][0]);
      assert xs == [xs[0]] + xs[1..];
    }
  }

  /** On the elements of `xs` equal rank means equal element, so order fixes the list. */
  ghost predicate Antisymmetric<T>(xs: seq<T>, leq: (T, T) -> bool) {
    forall x, y :: x in xs && y in xs && leq(x, y) && leq(y, x) ==> x == y
  }

  lemma HeadIsLeast<T>(xs: seq<T>, y: T, leq: (T, T) -> bool)
    requires Ordered(xs, leq) && xs != [] && y in multiset(xs)
    ensures y == xs[0] || leq(xs[0], y)
  {
    var i :| 0 <= i < |xs| && xs[i] == y;
  }

  lemma TailMultiset<T>(xs: seq<T>)
    requires xs != []
    ensures multiset(xs[1..]) == multiset(xs) - multiset{xs[0]}
  {
    assert xs == [xs[0]] + xs[1..];
  }

  lemma {:induction false} OrderedUnique<T>(xs: seq<T>, ys: seq<T>, leq: (T, T) -> bool)
    requires Ordered(xs, leq) && Ordered(ys, leq) && Antisymmetric(xs, leq)
    requires multiset(xs) == multiset(ys)
    ensures xs == ys
    decreases |xs|
  {
    assert |multiset(xs)| == |xs| && |multiset(ys)| == |ys|;
    if xs != [] {
      assert xs[0] in multiset(ys) && ys[0] in multiset(xs);
      HeadIsLeast(xs, ys[0], leq);
      HeadIsLeast(ys, xs[0], leq);
      assert xs[0] == ys[0];
      TailMultiset(xs);
      TailMultiset(ys);
      var us, vs := xs[1..], ys[1..];
      assert Ordered(us, leq) && Ordered(vs, leq);
      assert Antisymmetric(us, leq) by {
        forall x, y | x in us && y in us && leq(x, y) && leq(y, x) ensures x == y {
          assert x in xs && y in xs;
        }
      }
      OrderedUnique(us, vs, leq);
      assert xs == [xs[0]] + us && ys == [ys[0]] + vs;
    }
  }

  lemma SortOfPermutation<T(!new)>(xs: seq<T>, ys: seq<T>, leq: (T, T) -> bool)
    requires TotalPreorder(leq) && Antisymmetric(xs, leq)
    requires multiset(xs) == multiset(ys)
    ensures SortBy(xs, leq) == SortBy(ys, leq)
  {
    SortOrders(xs, leq);
    SortOrders(ys, leq);
    forall x | x in SortBy(xs, leq) ensures x in xs {
      assert x in multiset(SortBy(xs, leq));
    }
    OrderedUnique(SortBy(xs, leq), SortBy(ys, leq), leq);
  }

  function MapSeq<A, B>(f: A -> B, xs: seq<A>): (r: seq<B>)
    ensures |r| == |xs|
    ensures forall i :: 0 <= i < |xs| ==> r[i] == f(xs[i])
  {
    seq(|xs|, i requires 0 <= i < |xs| => f(xs[i]))
  }

  lemma {:induction false} InsertMapped<A, B>(x: A, xs: seq<A>, f: A -> B, la: (A, A) -> bool, lb: (B, B) -> bool)
    requires forall a, b :: (a == x || a in xs) && (b == x || b in xs) ==> la(a, b) == lb(f(a), f(b))
    ensures MapSeq(f, InsertBy(x, xs, la)) == InsertBy(f(x), MapSeq(f, xs), lb)
  {
    if xs == [] {
      assert MapSeq(f, [x]) == [f(x)];
    } else {
      var head, tail := xs[0], xs[1..];
      assert head in xs && la(x, head) == lb(f(x), f(head));
      MapCons(f, head, tail);
      assert [head] + tail == xs;
      if la(x, head) {
        MapCons(f, x, xs);
      } else {
        InsertMapped(x, tail, f, la, lb);
        MapCons(f, head, InsertBy(x, tail, la));
      }
      hide MapSeq;
    }
  }

  lemma MapCons<A, B>(f: A -> B, x: A, xs: seq<A>)
    ensures MapSeq(f, [x] + xs) == [f(x)] + MapSeq(f, xs)
  {
  }

  /** Sorting by a key and then projecting is projecting and then sorting. */
  lemma {:induction false} SortMapped<A, B>(xs: seq<A>, f: A -> B, la: (A, A) -> bool, lb: (B, B) -> bool)
    requires forall a, b :: a in xs && b in xs ==> la(a, b) == lb(f(a), f(b))
    ensures MapSeq(f, SortBy(xs, la)) == SortBy(MapSeq(f, xs), lb)
  {
    if xs != [] {
      var us := xs[1..];
      forall a | a in us ensures a in xs {
      }
      SortMapped(us, f, la, lb);
      assert MapSeq(f, xs)[1..] == MapSeq(f, us);
      SameElements(us, SortBy(us, la));
      InsertMapped(xs[0], SortBy(us, la), f, la, lb);
    }
  }

  lemma SameElements<A>(xs: seq<A>, ys: seq<A>)
    requires multiset(xs) == multiset(ys)
    ensures forall a :: a in xs <==> a in ys
  {
    forall a ensures a in xs <==> a in ys {
      assert a in xs <==> a in multiset(xs);
      assert a in ys <==> a in multiset(ys);
    }
  }

  function RemoveAt<T>(xs: seq<T>, j: nat): seq<T>
    requires j < |xs|
  {
    xs[..j] + xs[j + 1..]
  }

  lemma RemoveMultiset<T>(xs: seq<T>, j: nat)
    requires j < |xs|
    ensures multiset(RemoveAt(xs, j)) == multiset(xs) - multiset{xs[j]}
  {
    assert xs == xs[..j] + [xs[j]] + xs[j + 1..];
  }

  lemma MapWithout<A, B>(f: A -> B, xs: seq<A>, j: nat)
    requires j < |xs|
    ensures multiset(MapSeq(f, xs)) == multiset(MapSeq(f, RemoveAt(xs, j))) + multiset{f(xs[j])}
  {
    var fx := MapSeq(f, xs);
    assert RemoveAt(fx, j) == MapSeq(f, RemoveAt(xs, j));
    RemoveMultiset(fx, j);
    assert fx[j] in multiset(fx);
  }

  /** Permuting and then projecting permutes the projection. */
  lemma {:induction false} MapPermutation<A, B>(f: A -> B, xs: seq<A>, ys: seq<A>)
    requires multiset(xs) == multiset(ys)
    ensures multiset(MapSeq(f, xs)) == multiset(MapSeq(f, ys))
    decreases |xs|
  {
    if xs == [] {
      assert |multiset(ys)| == 0;
    } else {
      assert xs[0] in multiset(ys);
      var j :| 0 <= j < |ys| && ys[j] == xs[0];
      RemoveMultiset(xs, 0);
      RemoveMultiset(ys, j);
      MapWithout(f, xs, 0);
      MapWithout(f, ys, j);
      hide MapSeq;
      MapPermutation(f, RemoveAt(xs, 0), RemoveAt(ys, j));
    }
  }

  ghost predicate Distinct<T>(xs: seq<T>) {
    forall i, j :: 0 <= i < j < |xs| ==> xs[i] != xs[j]
  }

  lemma DistinctCons<T>(x: T, us: seq<T>)
    ensures Distinct([x] + us) <==> x !in us && Distinct(us)
  {
    var xs := [x] + us;
    if Distinct(xs) {
      forall i, j | 0 <= i < j < |us| ensures us[i] != us[j] {
        assert xs[i + 1] == us[i] && xs[j + 1] == us[j];
      }
      forall j | 0 <= j < |us| ensures us[j] != x {
        assert xs[0] == x && xs[j + 1] == us[j];
      }
    }
  }

  lemma {:induction false} DistinctCount<T>(xs: seq<T>)
    ensures Distinct(xs) <==> forall x :: multiset(xs)[x] <= 1
  {
    if xs != [] {
      var us := xs[1..];
      assert xs == [xs[0]] + us;
      DistinctCons(xs[0], us);
      DistinctCount(us);
      assert forall x :: multiset(xs)[x] == multiset(us)[x] + (if x == xs[0] then 1 else 0);
      assert xs[0] in us <==> multiset(us)[xs[0]] >= 1;
    }
  }

  lemma DistinctProjection<A, B>(xs: seq<A>, ys: seq<A>, f: A -> B)
    requires multiset(xs) == multiset(ys)
    ensures Distinct(MapSeq(f, xs)) <==> Distinct(MapSeq(f, ys))
  {
    MapPermutation(f, xs, ys);
    DistinctCount(MapSeq(f, xs));
    DistinctCount(MapSeq(f, ys));
  }

  // ---- lexicographic order -------------------------------------------------

  predicate LexLeq(a: seq<int>, b: seq<int>) {
    if a == [] then true
    else if b == [] then false
    else if a[0] != b[0] then a[0] < b[0]
    else LexLeq(a[1..], b[1..])
  }

  lemma {:induction false} LexTotal(a: seq<int>, b: seq<int>)
    ensures LexLeq(a, b) || LexLeq(b, a)
    ensures LexLeq(a, b) && LexLeq(b, a) ==> a == b
  {
    if a != [] && b != [] && a[0] == b[0] {
      LexTotal(a[1..], b[1..]);
      assert a == [a[0]] + a[1..] && b == [b[0]] + b[1..];
    }
  }

  lemma {:induction false} LexTransitive(a: seq<int>, b: seq<int>, c: seq<int>)
    requires LexLeq(a, b) && LexLeq(b, c)
    ensures LexLeq(a, c)
  {
    if a != [] && b != [] && c != [] && a[0] == b[0] == c[0] {
      LexTransitive(a[1..], b[1..], c[1..]);
    }
  }

  lemma {:induction false} LexAfterPrefix(p: seq<int>, a: seq<int>, b: seq<int>)
    ensures LexLeq(p + a, p + b) == LexLeq(a, b)
  {
    if p == [] {
      assert p + a == a && p + b == b;
    } else {
      assert (p + a)[1..] == p[1..] + a && (p + b)[1..] == p[1..] + b;
      LexAfterPrefix(p[1..], a, b);
    }
  }

  lemma LexIsTotalPreorder()
    ensures TotalPreorder(LexLeq)
  {
    forall x, y ensures LexLeq(x, y) || LexLeq(y, x) { LexTotal(x, y); }
    forall x, y, z | LexLeq(x, y) && LexLeq(y, z) ensures LexLeq(x, z) { LexTransitive(x, y, z); }
  }

  function Codes(s: string): (r: seq<int>)
    ensures |r| == |s|
    ensures forall i :: 0 <= i < |s| ==> r[i] == s[i] as int
  {
    seq(|s|, i requires 0 <= i < |s| => s[i] as int)
  }

  lemma CodesInjective(a: string, b: string)
    requires Codes(a) == Codes(b)
    ensures a == b
  {
    forall i | 0 <= i < |a| ensures a[i] == b[i] {
      assert Codes(a)[i] == Codes(b)[i];
    }
  }

  lemma CodesConcat(a: string, b: string)
    ensures Codes(a + b) == Codes(a) + Codes(b)
  {
  }

  /** `a <= b` on Python strings. */
  predicate StrLeq(a: string, b: string) {
    LexLeq(Codes(a), Codes(b))
  }

  lemma StrLeqAntisymmetric(a: string, b: string)
    requires StrLeq(a, b) && StrLeq(b, a)
    ensures a == b
  {
    LexTotal(Codes(a), Codes(b));
    CodesInjective(a, b);
  }

  lemma StrIsTotalPreorder()
    ensures TotalPreorder(StrLeq)
  {
    forall x, y ensures StrLeq(x, y) || StrLeq(y, x) { LexTotal(Codes(x), Codes(y)); }
    forall x, y, z | StrLeq(x, y) && StrLeq(y, z) ensures StrLeq(x, z) {
      LexTransitive(Codes(x), Codes(y), Codes(z));
    }
  }

  lemma StrAntisymmetricOn(xs: seq<string>)
    ensures Antisymmetric(xs, StrLeq)
  {
    forall x, y | x in xs && y in xs && StrLeq(x, y) && StrLeq(y, x) ensures x == y {
      StrLeqAntisymmetric(x, y);
    }
  }
}
