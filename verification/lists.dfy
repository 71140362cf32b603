/** Lists without duplicates, and what is left of them when an element is taken out. */
module Lists {

  ghost predicate Distinct<T>(q: seq<T>) {
    q == [] || (q[0] !in q[1..] && Distinct(q[1..]))
  }

  lemma {:induction false} DistinctAt<T>(q: seq<T>, i: nat, j: nat)
    requires Distinct(q) && i < j < |q|
    ensures q[i] != q[j]
  {
    if i == 0 {
      assert q[j] == q[1..][j - 1];
    } else {
      DistinctAt(q[1..], i - 1, j - 1);
    }
  }

  lemma {:induction false} DistinctIf<T>(q: seq<T>)
    requires forall i, j | 0 <= i < j < |q| :: q[i] != q[j]
    ensures Distinct(q)
  {
    if q != [] {
      DistinctIf(q[1..]);
    }
  }

  function Without<T(==)>(q: seq<T>, x: T): (r: seq<T>)
    ensures x !in q ==> r == q
    ensures forall y | y in q :: y in r <==> y != x
    ensures forall y | y in r :: y in q
    ensures |r| <= |q| && (x in q ==> |r| < |q|)
  {
    if q == [] then []
    else if q[0] == x then Without(q[1..], x)
    else [q[0]] + Without(q[1..], x)
  }

  lemma {:induction false} WithoutDistinct<T>(q: seq<T>, x: T)
    requires Distinct(q)
    ensures Distinct(Without(q, x))
  {
    if q != [] {
      WithoutDistinct(q[1..], x);
    }
  }

  lemma {:induction false} Appended<T>(q: seq<T>, x: T)
    requires Distinct(q) && x !in q
    ensures Distinct(q + [x])
    ensures forall y | y in q + [x] :: y in q || y == x
    ensures forall y | y in q :: y in q + [x]
  {
    if q != [] {
      Appended(q[1..], x);
      assert (q + [x])[1..] == q[1..] + [x];
    }
  }

  lemma {:induction false} WithoutLast<T>(q: seq<T>, x: T)
    requires Distinct(q) && q != [] && q[|q| - 1] == x
    ensures Without(q, x) == q[..|q| - 1]
  {
    if |q| > 1 {
      WithoutLast(q[1..], x);
      assert q[0] != x;
      assert q[..|q| - 1] == [q[0]] + q[1..][..|q| - 2];
    }
  }

  lemma Associates<T>(a: seq<T>, b: seq<T>, c: seq<T>)
    ensures a + (b + c) == (a + b) + c && (b == [] ==> a + b == a)
  {
  }

  /** The last element takes the place of the one at `i`. */
  function SwapRemove<T>(q: seq<T>, i: nat): (r: seq<T>)
    requires i < |q|
    ensures |r| == |q| - 1 && r[..i] == q[..i]
  {
    q[i := q[|q| - 1]][..|q| - 1]
  }

  lemma SwapRemoved<T>(q: seq<T>, i: nat)
    requires i < |q|
    ensures forall x | x in SwapRemove(q, i) :: x in q
    ensures forall x | x in q && x != q[i] :: x in SwapRemove(q, i)
  {
    var r := SwapRemove(q, i);
    forall x | x in q && x != q[i] ensures x in r {
      var j :| 0 <= j < |q| && q[j] == x;
      assert x == r[if j == |q| - 1 then i else j];
    }
  }

  lemma SwapRemovedDistinct<T>(q: seq<T>, i: nat)
    requires i < |q| && Distinct(q)
    ensures Distinct(SwapRemove(q, i)) && q[i] !in SwapRemove(q, i)
  {
    var r := SwapRemove(q, i);
    forall j, k | 0 <= j < k < |q| ensures q[j] != q[k] {
      DistinctAt(q, j, k);
    }
    DistinctIf(r);
  }

  lemma {:induction false} AppendedIff<T>(q: seq<T>, x: T)
    ensures Distinct(q + [x]) <==> Distinct(q) && x !in q
  {
    if q == [] {
      assert q + [x] == [x];
    } else {
      AppendedIff(q[1..], x);
      assert (q + [x])[1..] == q[1..] + [x];
    }
  }

  lemma FirstIn<T>(q: seq<T>)
    ensures q == [] || q[0] in q
  {
  }

  lemma {:induction false} WithoutAfter<T>(a: seq<T>, b: seq<T>, x: T)
    requires x !in a
    ensures Without(a + b, x) == a + Without(b, x)
  {
    if a == [] {
      assert a + b == b;
    } else {
      WithoutAfter(a[1..], b, x);
      assert (a + b)[1..] == a[1..] + b && (a + b)[0] == a[0] != x;
      Associates([a[0]], a[1..], Without(b, x));
      assert a == [a[0]] + a[1..];
    }
  }

  lemma AroundDistinct<T>(q: seq<T>, k: nat)
    requires Distinct(q) && k < |q|
    ensures q[k] !in q[..k] && q[k] !in q[k + 1..]
  {
    var a, b := q[..k], q[k + 1..];
    forall i | 0 <= i < |a| ensures a[i] != q[k] {
      DistinctAt(q, i, k);
    }
    forall i | 0 <= i < |b| ensures b[i] != q[k] {
      DistinctAt(q, k, k + 1 + i);
    }
  }

  lemma WithoutMiddle<T>(a: seq<T>, x: T, b: seq<T>)
    requires x !in a && x !in b
    ensures Without(a + ([x] + b), x) == a + b
  {
    WithoutAfter(a, [x] + b, x);
    assert ([x] + b)[1..] == b;
  }

  /** Cutting one element out of a list without duplicates. */
  lemma CutOut<T>(q: seq<T>, k: nat)
    requires Distinct(q) && k < |q|
    ensures q[..k] + q[k + 1..] == Without(q, q[k])
  {
    AroundDistinct(q, k);
    WithoutMiddle(q[..k], q[k], q[k + 1..]);
    SplitAt(q, k);
  }

  lemma SplitAt<T>(q: seq<T>, k: nat)
    requires k < |q|
    ensures q[..k] + ([q[k]] + q[k + 1..]) == q
  {
  }
}
