/** The 4-heap of timers and periodics. It starts at index 3 of its array; every entry caches the time of its
    watcher, and every watcher knows the index of its entry.

    While an entry travels, the array holds another one twice; the lemmas speak of the array with the traveller
    put into the hole. */
module TimerHeap {
  import opened Watchers

  const DHEAP := 4
  const HEAP0 := DHEAP - 1

  datatype Entry = Entry(w: Watcher, at: real)

  /** Division in C. */
  function TruncDiv(a: int, b: int): int
    requires b > 0
  {
    if a < 0 then -(-a / b) else a / b
  }

  function Parent(k: int): int {
    TruncDiv(k - HEAP0 - 1, DHEAP) + HEAP0
  }

  /** The root is its own parent, as upheap expects; the children of `p` are four entries in a row. */
  lemma Parents(p: int, k: int)
    requires p >= HEAP0 && k > HEAP0
    ensures Parent(HEAP0) == HEAP0 && HEAP0 <= Parent(k) < k
    ensures Parent(k) == p <==> DHEAP * (p - HEAP0) + HEAP0 + 1 <= k <= DHEAP * (p - HEAP0) + HEAP0 + DHEAP
  {
  }

  // ---------- order ----------

  ghost predicate Ordered(s: seq<Entry>, n: nat)
    requires HEAP0 + n <= |s|
  {
    forall i | HEAP0 < i < HEAP0 + n :: InOrder(s, i)
  }

  ghost predicate InOrder(s: seq<Entry>, i: int)
    requires HEAP0 < i < |s|
  {
    s[Parent(i)].at <= s[i].at
  }

  /** Only the entry at `k` may be out of order: its children are in order with its parent. */
  ghost predicate OrderedAround(s: seq<Entry>, n: nat, k: int)
    requires HEAP0 <= k < HEAP0 + n <= |s|
  {
    forall i | HEAP0 < i < HEAP0 + n && i != k ::
      if Parent(i) == k then k > HEAP0 ==> s[Parent(k)].at <= s[i].at else InOrder(s, i)
  }

  ghost predicate Above(s: seq<Entry>, k: int)
    requires HEAP0 <= k < |s|
  {
    k > HEAP0 ==> InOrder(s, k)
  }

  ghost predicate Below(s: seq<Entry>, n: nat, k: int)
    requires HEAP0 <= k < HEAP0 + n <= |s|
  {
    forall i | HEAP0 < i < HEAP0 + n && Parent(i) == k :: s[k].at <= s[i].at
  }

  lemma BackInOrder(s: seq<Entry>, n: nat, k: int)
    requires HEAP0 <= k < HEAP0 + n <= |s| && OrderedAround(s, n, k) && Above(s, k) && Below(s, n, k)
    ensures Ordered(s, n)
  {
    forall i | HEAP0 < i < HEAP0 + n ensures InOrder(s, i) {
    }
  }

  /** Whatever replaces an entry of a heap, only its place is out of order. */
  lemma Replaced(s: seq<Entry>, n: nat, k: int, e: Entry)
    requires HEAP0 <= k < HEAP0 + n <= |s| && Ordered(s, n)
    ensures OrderedAround(s[k := e], n, k)
  {
    forall i | HEAP0 < i < HEAP0 + n && i != k
      ensures if Parent(i) == k then k > HEAP0 ==> s[Parent(k)].at <= s[i].at else InOrder(s[k := e], i)
    {
      assert InOrder(s, i);
      assert k > HEAP0 ==> InOrder(s, k);
    }
  }

  function Swapped(s: seq<Entry>, i: int, j: int): seq<Entry>
    requires 0 <= i < |s| && 0 <= j < |s|
  {
    s[i := s[j]][j := s[i]]
  }

  lemma OneUp(s: seq<Entry>, n: nat, k: int)
    requires HEAP0 < k < HEAP0 + n <= |s| && OrderedAround(s, n, k) && Below(s, n, k) && s[Parent(k)].at > s[k].at
    ensures OrderedAround(Swapped(s, k, Parent(k)), n, Parent(k)) && Below(Swapped(s, k, Parent(k)), n, Parent(k))
  {
    var p := Parent(k);
    var t := Swapped(s, k, p);
    forall i | HEAP0 < i < HEAP0 + n && i != p
      ensures if Parent(i) == p then p > HEAP0 ==> t[Parent(p)].at <= t[i].at else InOrder(t, i)
    {
      UpAt(s, n, k, i);
    }
    forall i | HEAP0 < i < HEAP0 + n && Parent(i) == p ensures t[p].at <= t[i].at {
      assert i != k ==> InOrder(s, i);
    }
  }

  lemma UpAt(s: seq<Entry>, n: nat, k: int, i: int)
    requires HEAP0 < k < HEAP0 + n <= |s| && OrderedAround(s, n, k) && Below(s, n, k) && s[Parent(k)].at > s[k].at
    requires HEAP0 < i < HEAP0 + n && i != Parent(k)
    ensures var p, t := Parent(k), Swapped(s, k, Parent(k));
      if Parent(i) == p then p > HEAP0 ==> t[Parent(p)].at <= t[i].at else InOrder(t, i)
  {
    var p := Parent(k);
    if Parent(i) == p {
      if p > HEAP0 {
        assert InOrder(s, p);
        assert i != k ==> InOrder(s, i);
      }
    } else if Parent(i) != k {
      assert InOrder(s, i);
    }
  }

  lemma OneDown(s: seq<Entry>, n: nat, k: int, c: int)
    requires HEAP0 <= k < HEAP0 + n <= |s| && OrderedAround(s, n, k) && Above(s, k)
    requires HEAP0 < c < HEAP0 + n && Parent(c) == k && s[c].at < s[k].at
    requires forall i | HEAP0 < i < HEAP0 + n && Parent(i) == k :: s[c].at <= s[i].at
    ensures OrderedAround(Swapped(s, k, c), n, c) && Above(Swapped(s, k, c), c)
  {
    var t := Swapped(s, k, c);
    forall i | HEAP0 < i < HEAP0 + n && i != c
      ensures if Parent(i) == c then t[Parent(c)].at <= t[i].at else InOrder(t, i)
    {
      if Parent(i) == c {
        assert InOrder(s, i);
      } else if i != k && Parent(i) != k {
        assert InOrder(s, i);
      }
    }
  }

  /** The least time is at the root. */
  lemma {:induction false} RootIsLeast(s: seq<Entry>, n: nat, i: int)
    requires HEAP0 <= i < HEAP0 + n <= |s| && Ordered(s, n)
    ensures s[HEAP0].at <= s[i].at
    decreases i
  {
    if i > HEAP0 {
      Parents(HEAP0, i);
      assert InOrder(s, i);
      RootIsLeast(s, n, Parent(i));
    }
  }

  // ---------- contents ----------

  ghost function Live(s: seq<Entry>, n: nat): seq<Entry>
    requires HEAP0 + n <= |s|
  {
    s[HEAP0..HEAP0 + n]
  }

  lemma EntryAt(s: seq<Entry>, n: nat, i: int)
    requires HEAP0 <= i < HEAP0 + n <= |s|
    ensures s[i] in Live(s, n)
  {
    assert s[i] == Live(s, n)[i - HEAP0];
  }

  /** The entries changed places, and the rest of the array is untouched. */
  ghost predicate Permuted(s: seq<Entry>, t: seq<Entry>, n: nat)
    requires HEAP0 + n <= |s| == |t|
  {
    multiset(Live(s, n)) == multiset(Live(t, n)) && forall i | 0 <= i < |s| && !(HEAP0 <= i < HEAP0 + n) :: t[i] == s[i]
  }

  lemma SwapPermutes(s: seq<Entry>, n: nat, i: int, j: int)
    requires HEAP0 <= i < HEAP0 + n <= |s| && HEAP0 <= j < HEAP0 + n
    ensures Permuted(s, Swapped(s, i, j), n)
  {
    var l := Live(s, n);
    SwapMultiset(l, i - HEAP0, j - HEAP0);
    assert Live(Swapped(s, i, j), n) == l[i - HEAP0 := l[j - HEAP0]][j - HEAP0 := l[i - HEAP0]];
  }

  lemma SwapMultiset(l: seq<Entry>, i: nat, j: nat)
    requires i < |l| && j < |l|
    ensures multiset(l[i := l[j]][j := l[i]]) == multiset(l)
  {
  }

  lemma SameEntries(s: seq<Entry>, t: seq<Entry>, n: nat)
    requires HEAP0 + n <= |s| == |t| && Permuted(s, t, n)
    ensures forall e :: e in Live(s, n) <==> e in Live(t, n)
  {
    assert forall e :: e in Live(s, n) <==> e in multiset(Live(s, n));
    assert forall e :: e in Live(t, n) <==> e in multiset(Live(t, n));
  }

  // ---------- the watchers know their indices ----------

  ghost function Timed(s: seq<Entry>, n: nat): set<Watcher>
    requires HEAP0 + n <= |s|
  {
    set e | e in Live(s, n) :: e.w
  }

  lemma TimedAt(s: seq<Entry>, n: nat, i: int)
    requires HEAP0 <= i < HEAP0 + n <= |s|
    ensures s[i].w in Timed(s, n)
  {
    assert s[i] == Live(s, n)[i - HEAP0];
  }

  lemma TimedIndex(s: seq<Entry>, n: nat, w: Watcher) returns (i: int)
    requires HEAP0 + n <= |s| && w in Timed(s, n)
    ensures HEAP0 <= i < HEAP0 + n && s[i].w == w
  {
    var e :| e in Live(s, n) && e.w == w;
    var j :| 0 <= j < n && Live(s, n)[j] == e;
    i := HEAP0 + j;
  }

  ghost predicate Indexed(s: seq<Entry>, n: nat)
    requires HEAP0 + n <= |s|
    reads set i | HEAP0 <= i < HEAP0 + n :: s[i].w
  {
    forall i | HEAP0 <= i < HEAP0 + n :: s[i].w.active == i
  }

  /** All but the entry at `k`, whose watcher is in no other entry. */
  ghost predicate IndexedAround(s: seq<Entry>, n: nat, k: int)
    requires HEAP0 <= k < HEAP0 + n <= |s|
    reads set i | HEAP0 <= i < HEAP0 + n :: s[i].w
  {
    forall i | HEAP0 <= i < HEAP0 + n && i != k :: s[i].w.active == i && s[i].w != s[k].w
  }

  /** The entry at `k` of the array is written by a traveller's swap, and the watcher that moved is told. */
  lemma MovedIndex(s: seq<Entry>, n: nat, k: int, c: int)
    requires HEAP0 <= k < HEAP0 + n <= |s| && HEAP0 <= c < HEAP0 + n && c != k
    requires forall i | HEAP0 <= i < HEAP0 + n && i != k :: s[i].w.active == (if i == c then k else i) && s[i].w != s[k].w
    ensures IndexedAround(Swapped(s, k, c), n, c)
  {
  }

  ghost predicate Travelling(first: seq<Entry>, s: seq<Entry>, n: nat, k: int) {
    HEAP0 <= k < HEAP0 + n <= |s| == |first| && Permuted(first, s, n) && OrderedAround(s, n, k)
  }

  lemma Travels(first: seq<Entry>, s: seq<Entry>, n: nat, k: int, c: int)
    requires Travelling(first, s, n, k) && HEAP0 <= c < HEAP0 + n && OrderedAround(Swapped(s, k, c), n, c)
    ensures Travelling(first, Swapped(s, k, c), n, c) && s[c].w in Timed(first, n)
  {
    SwapPermutes(s, n, k, c);
    PermutedOn(first, s, Swapped(s, k, c), n);
    TimedSame(first, s, n);
    TimedAt(s, n, c);
  }

  lemma PermutedOn(first: seq<Entry>, s: seq<Entry>, t: seq<Entry>, n: nat)
    requires HEAP0 + n <= |first| == |s| == |t| && Permuted(first, s, n) && Permuted(s, t, n)
    ensures Permuted(first, t, n)
  {
  }

  /** The entry at `c` moves to `k`, which is free. */
  method Shift(heap: array<Entry>, ghost n: nat, k: int, c: int, ghost s: seq<Entry>)
    requires HEAP0 <= k < HEAP0 + n <= heap.Length == |s| && HEAP0 <= c < HEAP0 + n && c != k
    requires IndexedAround(s, n, k) && forall i | 0 <= i < heap.Length && i != k :: heap[i] == s[i]
    modifies heap, heap[c].w`active
    ensures forall i | 0 <= i < heap.Length && i != c :: heap[i] == Swapped(s, k, c)[i]
    ensures IndexedAround(Swapped(s, k, c), n, c)
  {
    heap[k] := heap[c];
    heap[k].w.active := k;
    MovedIndex(s, n, k, c);
  }

  /** The end of upheap and of downheap: the entry comes to rest. */
  method Land(heap: array<Entry>, ghost n: nat, k: int, he: Entry, ghost s: seq<Entry>)
    requires HEAP0 <= k < HEAP0 + n <= heap.Length == |s| && s[k] == he
    requires forall i | 0 <= i < heap.Length && i != k :: heap[i] == s[i]
    requires IndexedAround(s, n, k) && OrderedAround(s, n, k) && Above(s, k) && Below(s, n, k)
    modifies heap, he.w`active
    ensures heap[..] == s && Ordered(s, n) && Indexed(s, n)
  {
    heap[k] := he;
    he.w.active := k;
    assert heap[..] == s;
    BackInOrder(s, n, k);
  }

  /** upheap. */
  method UpHeap(heap: array<Entry>, ghost n: nat, start: int)
    requires HEAP0 <= start < HEAP0 + n <= heap.Length
    requires IndexedAround(heap[..], n, start) && OrderedAround(heap[..], n, start) && Below(heap[..], n, start)
    modifies heap, Timed(heap[..], n)`active
    ensures Permuted(old(heap[..]), heap[..], n) && Ordered(heap[..], n) && Indexed(heap[..], n)
  {
    var k := start;
    var he := heap[k];
    ghost var s := heap[..];
    TimedAt(s, n, k);
    while true
      invariant Travelling(old(heap[..]), s, n, k) && Below(s, n, k) && |s| == heap.Length && s[k] == he
      invariant forall i | 0 <= i < heap.Length && i != k :: heap[i] == s[i]
      invariant IndexedAround(s, n, k)
      decreases k
    {
      var p := Parent(k);
      if p == k || heap[p].at <= he.at { break; }
      OneUp(s, n, k);
      Travels(old(heap[..]), s, n, k, p);
      Shift(heap, n, k, p, s);
      s := Swapped(s, k, p);
      k := p;
    }
    Land(heap, n, k, he, s);
  }

  /** `c` is the child of `k` with the least time, or -1 when `k` has no child. */
  ghost predicate LeastChild(s: seq<Entry>, n: nat, k: int, c: int)
    requires HEAP0 + n <= |s|
  {
    if c == -1 then forall i | HEAP0 < i < HEAP0 + n :: Parent(i) != k
    else HEAP0 < c < HEAP0 + n && Parent(c) == k && forall i | HEAP0 < i < HEAP0 + n && Parent(i) == k :: s[c].at <= s[i].at
  }

  /** The search of downheap. */
  method MinChild(heap: array<Entry>, n: nat, k: int) returns (minpos: int)
    requires HEAP0 <= k < HEAP0 + n <= heap.Length
    ensures LeastChild(heap[..], n, k, minpos)
  {
    var end := n + HEAP0;
    var pos := DHEAP * (k - HEAP0) + HEAP0 + 1;
    if pos + DHEAP - 1 < end {
      minpos := pos;
      if heap[minpos].at > heap[pos + 1].at { minpos := pos + 1; }
      if heap[minpos].at > heap[pos + 2].at { minpos := pos + 2; }
      if heap[minpos].at > heap[pos + 3].at { minpos := pos + 3; }
    } else if pos < end {
      minpos := pos;
      if pos + 1 < end && heap[minpos].at > heap[pos + 1].at { minpos := pos + 1; }
      if pos + 2 < end && heap[minpos].at > heap[pos + 2].at { minpos := pos + 2; }
      assert pos + 3 >= end;
    } else {
      minpos := -1;
    }
    forall i | HEAP0 < i < HEAP0 + n && Parent(i) == k ensures pos <= i <= pos + 3 {
      Parents(k, i);
    }
    if pos < end {
      Parents(k, minpos);
      assert Parent(pos) == k;
    }
  }

  lemma NoChild(s: seq<Entry>, n: nat, k: int)
    requires HEAP0 <= k < HEAP0 + n <= |s| && LeastChild(s, n, k, -1)
    ensures Below(s, n, k)
  {
  }

  lemma NotAboveChild(s: seq<Entry>, n: nat, k: int, c: int)
    requires HEAP0 <= k < HEAP0 + n <= |s| && c != -1 && LeastChild(s, n, k, c) && s[k].at <= s[c].at
    ensures Below(s, n, k)
  {
  }

  lemma SameChild(s: seq<Entry>, h: seq<Entry>, n: nat, k: int, c: int)
    requires HEAP0 <= k < HEAP0 + n <= |s| == |h| && (forall i | 0 <= i < |s| && i != k :: h[i] == s[i])
    requires LeastChild(h, n, k, c)
    ensures LeastChild(s, n, k, c)
  {
    forall i | HEAP0 < i < HEAP0 + n ensures Parent(i) < i {
      Parents(k, i);
    }
  }

  lemma DownTo(s: seq<Entry>, n: nat, k: int, c: int)
    requires HEAP0 <= k < HEAP0 + n <= |s| && OrderedAround(s, n, k) && Above(s, k)
    requires c != -1 && LeastChild(s, n, k, c) && s[c].at < s[k].at
    ensures HEAP0 <= k < c < HEAP0 + n && OrderedAround(Swapped(s, k, c), n, c) && Above(Swapped(s, k, c), c)
  {
    Parents(k, c);
    OneDown(s, n, k, c);
  }

  /** downheap. */
  method DownHeap(heap: array<Entry>, n: nat, start: int)
    requires HEAP0 <= start < HEAP0 + n <= heap.Length
    requires IndexedAround(heap[..], n, start) && OrderedAround(heap[..], n, start) && Above(heap[..], start)
    modifies heap, Timed(heap[..], n)`active
    ensures Permuted(old(heap[..]), heap[..], n) && Ordered(heap[..], n) && Indexed(heap[..], n)
  {
    var k := start;
    var he := heap[k];
    ghost var s := heap[..];
    TimedAt(s, n, k);
    while true
      invariant Travelling(old(heap[..]), s, n, k) && Above(s, k) && |s| == heap.Length && s[k] == he
      invariant forall i | 0 <= i < heap.Length && i != k :: heap[i] == s[i]
      invariant IndexedAround(s, n, k)
      decreases HEAP0 + n - k
    {
      var c := MinChild(heap, n, k);
      SameChild(s, heap[..], n, k, c);
      if c == -1 {
        NoChild(s, n, k);
        break;
      }
      if he.at <= heap[c].at {
        NotAboveChild(s, n, k, c);
        break;
      }
      DownTo(s, n, k, c);
      Travels(old(heap[..]), s, n, k, c);
      Shift(heap, n, k, c, s);
      s := Swapped(s, k, c);
      k := c;
    }
    Land(heap, n, k, he, s);
  }

  /** adjustheap: one entry was given any time whatever. */
  method AdjustHeap(heap: array<Entry>, n: nat, k: int)
    requires HEAP0 <= k < HEAP0 + n <= heap.Length
    requires IndexedAround(heap[..], n, k) && OrderedAround(heap[..], n, k)
    modifies heap, Timed(heap[..], n)`active
    ensures Permuted(old(heap[..]), heap[..], n) && Ordered(heap[..], n) && Indexed(heap[..], n)
  {
    if k > HEAP0 && heap[k].at <= heap[Parent(k)].at {
      UpHeap(heap, n, k);
    } else {
      DownHeap(heap, n, k);
    }
  }

  ghost predicate DistinctWatchers(s: seq<Entry>, n: nat)
    requires HEAP0 + n <= |s|
  {
    forall i, j | HEAP0 <= i < j < HEAP0 + n :: s[i].w != s[j].w
  }

  lemma PrefixPermuted(first: seq<Entry>, s: seq<Entry>, t: seq<Entry>, n: nat, i: nat)
    requires i <= n && HEAP0 + n <= |first| == |s| == |t| && Permuted(first, s, n) && Permuted(s, t, i)
    ensures Permuted(first, t, n)
  {
    assert Live(s, n) == Live(s, i) + s[HEAP0 + i..HEAP0 + n];
    assert Live(t, n) == Live(t, i) + s[HEAP0 + i..HEAP0 + n];
  }

  lemma PrefixDistinct(s: seq<Entry>, t: seq<Entry>, n: nat, i: nat)
    requires i <= n && HEAP0 + n <= |s| == |t| && DistinctWatchers(s, n) && Permuted(s, t, i) && Indexed(t, i)
    ensures DistinctWatchers(t, n)
  {
    SameEntries(s, t, i);
    forall a, b | HEAP0 <= a < b < HEAP0 + n ensures t[a].w != t[b].w {
      if a < HEAP0 + i <= b {
        assert t[a] in Live(t, i);
        assert t[a] in Live(s, i);
      }
    }
  }

  /** The entry after a heap may have any time, and its watcher any index. */
  lemma NextTimed(s: seq<Entry>, n: nat, i: nat)
    requires i < n && HEAP0 + n <= |s| && Ordered(s, i) && Indexed(s, i) && DistinctWatchers(s, n)
    ensures OrderedAround(s, i + 1, HEAP0 + i) && Below(s, i + 1, HEAP0 + i) && IndexedAround(s, i + 1, HEAP0 + i)
    ensures Timed(s, i + 1) <= Timed(s, n)
  {
    forall j | HEAP0 < j < HEAP0 + i + 1 ensures Parent(j) < j && (j < HEAP0 + i ==> InOrder(s, j)) {
      Parents(HEAP0, j);
    }
    forall e | e in Live(s, i + 1) ensures e in Live(s, n) {
      var j :| 0 <= j < i + 1 && e == Live(s, i + 1)[j];
      assert e == Live(s, n)[j];
    }
  }

  lemma TimedSame(first: seq<Entry>, s: seq<Entry>, n: nat)
    requires HEAP0 + n <= |first| == |s| && Permuted(first, s, n)
    ensures Timed(first, n) == Timed(s, n)
  {
    SameEntries(first, s, n);
  }

  /** reheap: whatever the times are, and whatever the watchers took for their indices. */
  method ReHeap(heap: array<Entry>, n: nat)
    requires HEAP0 + n <= heap.Length && DistinctWatchers(heap[..], n)
    modifies heap, Timed(heap[..], n)`active
    ensures Permuted(old(heap[..]), heap[..], n) && Ordered(heap[..], n) && Indexed(heap[..], n)
  {
    var i := 0;
    while i < n
      invariant 0 <= i <= n && Permuted(old(heap[..]), heap[..], n)
      invariant Ordered(heap[..], i) && Indexed(heap[..], i) && DistinctWatchers(heap[..], n)
    {
      TimedSame(old(heap[..]), heap[..], n);
      ReHeapOne(heap, n, i, old(heap[..]));
      i := i + 1;
    }
  }

  /** The body of the loop in reheap: one more entry joins the heap. */
  method ReHeapOne(heap: array<Entry>, n: nat, i: nat, ghost was: seq<Entry>)
    requires HEAP0 + n <= heap.Length && i < n && DistinctWatchers(heap[..], n)
    requires |was| == heap.Length && Permuted(was, heap[..], n) && Ordered(heap[..], i) && Indexed(heap[..], i)
    modifies heap, Timed(heap[..], n)`active
    ensures Permuted(was, heap[..], n) && Ordered(heap[..], i + 1) && Indexed(heap[..], i + 1) && DistinctWatchers(heap[..], n)
  {
    ghost var s := heap[..];
    NextTimed(s, n, i);
    UpHeap(heap, i + 1, i + HEAP0);
    PrefixPermuted(was, s, heap[..], n, i + 1);
    PrefixDistinct(s, heap[..], n, i + 1);
  }
}
