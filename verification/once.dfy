/** ev_once: what it allocates is freed exactly once, by its callback or when its loop is destroyed.

    A Half is a watcher as the loop meets it on its lists: one of the two watchers of an ev_once, known by its
    callback, or any other watcher. */
module OnceWatchers {
  import opened Lists
  import W = Watchers

  /** The priority of a watcher that was not given one. */
  const DEFAULT_PRI := 2

  class Once {
    /** The list of what is reclaimed, with itself at its tail; null as long as it is not on that list. */
    var reclaim: Once?

    constructor ()
      ensures reclaim == null
    {
      reclaim := null;
    }
  }

  datatype Half = Other | Io(once: Once) | To(once: Once)

  predicate Of(h: Half, o: Once) {
    !h.Other? && h.once == o
  }

  // ---------- reclaiming ----------

  function After(chain: seq<Once>, i: nat): Once
    requires i < |chain|
  {
    if i + 1 < |chain| then chain[i + 1] else chain[i]
  }

  /** `list` leads through all of `chain`, and ends at an object that points to itself. */
  ghost predicate Chain(list: Once?, chain: seq<Once>)
    reads chain
  {
    && Distinct(chain) && list == (if chain == [] then null else chain[0])
    && forall i | 0 <= i < |chain| :: chain[i].reclaim == After(chain, i)
  }

  /** Exactly the members of the chain are marked. */
  ghost predicate Marked(all: set<Once>, chain: seq<Once>)
    reads all
  {
    forall o | o in all :: o.reclaim != null <==> o in chain
  }

  ghost predicate Owned(q: seq<Half>, all: set<Once>) {
    forall h | h in q && !h.Other? :: h.once in all
  }

  /** The list of what was collected so far among `all`. */
  ghost predicate Collected(list: Once?, chain: seq<Once>, all: set<Once>)
    reads all, chain
  {
    Chain(list, chain) && Marked(all, chain) && forall o | o in chain :: o in all
  }

  /** once_collect. */
  method Collect(list: Once?, h: Half, ghost chain: seq<Once>, ghost all: set<Once>) returns (r: Once?, ghost after: seq<Once>)
    requires Collected(list, chain, all) && (!h.Other? ==> h.once in all)
    modifies all`reclaim
    ensures Collected(r, after, all) && after == if h.Other? || h.once in chain then chain else [h.once] + chain
  {
    r, after := list, chain;
    if h.Other? { return; }
    var once := h.once;
    if once.reclaim == null {
      assert once !in chain;
      once.reclaim := if list != null then list else once;
      r, after := once, [once] + chain;
      assert after[1..] == chain;
      forall i | 0 <= i < |after| ensures after[i].reclaim == After(after, i) {
        assert i > 0 ==> after[i] == chain[i - 1] && chain[i - 1].reclaim == After(chain, i - 1);
      }
    }
  }

  ghost predicate Meets(q: seq<Half>, o: Once) {
    exists h :: h in q && Of(h, o)
  }

  lemma MeetsOn(h: Half, q: seq<Half>, o: Once)
    ensures Meets([h] + q, o) <==> Of(h, o) || Meets(q, o)
  {
    assert h in [h] + q && forall g | g in [h] + q :: g == h || g in q;
    assert forall g | g in q :: g in [h] + q;
  }

  /** A loop over one list of watchers. */
  method CollectAll(list: Once?, q: seq<Half>, ghost chain: seq<Once>, ghost all: set<Once>) returns (r: Once?, ghost after: seq<Once>)
    requires Collected(list, chain, all) && Owned(q, all)
    modifies all`reclaim
    ensures Collected(r, after, all)
    ensures forall o | o in all :: o in after <==> o in chain || Meets(q, o)
  {
    r, after := list, chain;
    var i := |q|;
    while i > 0
      invariant 0 <= i <= |q| && Collected(r, after, all)
      invariant forall o | o in all :: o in after <==> o in chain || Meets(q[i..], o)
    {
      i := i - 1;
      assert q[i..] == [q[i]] + q[i + 1..];
      forall o | o in all ensures Meets(q[i..], o) <==> Of(q[i], o) || Meets(q[i + 1..], o) {
        MeetsOn(q[i], q[i + 1..], o);
      }
      r, after := Collect(r, q[i], after, all);
    }
    assert q[0..] == q;
  }

  ghost predicate MeetsAny(qs: seq<seq<Half>>, o: Once) {
    exists q :: q in qs && Meets(q, o)
  }

  lemma MeetsAnyOn(q: seq<Half>, qs: seq<seq<Half>>, o: Once)
    ensures MeetsAny([q] + qs, o) <==> Meets(q, o) || MeetsAny(qs, o)
  {
    assert q in [q] + qs && forall g | g in [q] + qs :: g == q || g in qs;
    assert forall g | g in qs :: g in [q] + qs;
  }

  /** A loop over a list of such lists. */
  method CollectLists(list: Once?, qs: seq<seq<Half>>, ghost chain: seq<Once>, ghost all: set<Once>) returns (r: Once?, ghost after: seq<Once>)
    requires Collected(list, chain, all) && forall q | q in qs :: Owned(q, all)
    modifies all`reclaim
    ensures Collected(r, after, all)
    ensures forall o | o in all :: o in after <==> o in chain || MeetsAny(qs, o)
  {
    r, after := list, chain;
    var i := |qs|;
    while i > 0
      invariant 0 <= i <= |qs| && Collected(r, after, all)
      invariant forall o | o in all :: o in after <==> o in chain || MeetsAny(qs[i..], o)
    {
      i := i - 1;
      assert qs[i..] == [qs[i]] + qs[i + 1..];
      forall o | o in all ensures MeetsAny(qs[i..], o) <==> Meets(qs[i], o) || MeetsAny(qs[i + 1..], o) {
        MeetsAnyOn(qs[i], qs[i + 1..], o);
      }
      r, after := CollectAll(r, qs[i], after, all);
    }
    assert qs[0..] == qs;
  }

  /** The last loop of once_reclaim: what is on the list is freed, each once. */
  method FreeAll(first: Once?, ghost chain: seq<Once>) returns (freed: seq<Once>)
    requires Chain(first, chain)
    ensures freed == chain
  {
    var list := first;
    freed := [];
    while list != null
      invariant |freed| <= |chain| && freed == chain[..|freed|]
      invariant list == if |freed| < |chain| then chain[|freed|] else null
      decreases |chain| - |freed|
    {
      var once := list;
      ghost var k := |freed|;
      if k + 1 < |chain| {
        DistinctAt(chain, k, k + 1);
      }
      assert once == chain[k] && once.reclaim == After(chain, k);
      list := if once.reclaim == once then null else once.reclaim;
      freed := freed + [once];
    }
  }

  // ---------- the life of an ev_once ----------

  /** clear_pending: the slot stays, for the dummy. */
  function Cleared(q: seq<Half>, h: Half): (r: seq<Half>)
    ensures |r| == |q| && forall i | 0 <= i < |q| :: r[i] == if q[i] == h then Other else q[i]
  {
    seq(|q|, i requires 0 <= i < |q| => if q[i] == h then Other else q[i])
  }

  function ClearedAll(qs: seq<seq<Half>>, h: Half): (r: seq<seq<Half>>)
    ensures |r| == |qs| && forall i | 0 <= i < |qs| :: r[i] == Cleared(qs[i], h)
  {
    seq(|qs|, i requires 0 <= i < |qs| => Cleared(qs[i], h))
  }

  /** A watcher is taken off its descriptor's list. */
  function Unlisted(qs: seq<seq<Half>>, h: Half): (r: seq<seq<Half>>)
    ensures |r| == |qs| && forall i | 0 <= i < |qs| :: r[i] == Without(qs[i], h)
  {
    seq(|qs|, i requires 0 <= i < |qs| => Without(qs[i], h))
  }

  ghost predicate InSome(qs: seq<seq<Half>>, h: Half) {
    exists i :: 0 <= i < |qs| && h in qs[i]
  }

  lemma ClearedHas(qs: seq<seq<Half>>, h: Half, g: Half)
    requires g != Other && h != Other
    ensures InSome(ClearedAll(qs, h), g) <==> InSome(qs, g) && g != h
  {
    if InSome(qs, g) && g != h {
      var i :| 0 <= i < |qs| && g in qs[i];
      var k :| 0 <= k < |qs[i]| && qs[i][k] == g;
      assert ClearedAll(qs, h)[i][k] == g;
    }
    if InSome(ClearedAll(qs, h), g) {
      var i :| 0 <= i < |qs| && g in ClearedAll(qs, h)[i];
      var k :| 0 <= k < |qs[i]| && ClearedAll(qs, h)[i][k] == g;
      assert qs[i][k] == g;
    }
  }

  lemma UnlistedHas(qs: seq<seq<Half>>, h: Half, g: Half)
    ensures InSome(Unlisted(qs, h), g) <==> InSome(qs, g) && g != h
  {
    if InSome(qs, g) && g != h {
      var i :| 0 <= i < |qs| && g in qs[i];
      assert g in Unlisted(qs, h)[i];
    }
    if InSome(Unlisted(qs, h), g) {
      var i :| 0 <= i < |qs| && g in Unlisted(qs, h)[i];
      assert g in qs[i] && g != h;
    }
  }

  lemma UpdatedHas(qs: seq<seq<Half>>, p: nat, q: seq<Half>, g: Half)
    requires p < |qs|
    ensures InSome(qs[p := q], g) <==> g in q || exists i :: 0 <= i < |qs| && i != p && g in qs[i]
  {
    if g in q {
      assert g in qs[p := q][p];
    }
    forall i | 0 <= i < |qs| && i != p && g in qs[i] ensures g in qs[p := q][i] {
    }
  }

  /** Where the two watchers of an ev_once are. */
  datatype Places = Places(ioPending: bool, toPending: bool, ioActive: bool, toActive: bool)

  const NOWHERE := Places(false, false, false, false)

  function Fed(w: Places, o: Once, h: Half): Places {
    w.(ioPending := w.ioPending || h == Io(o), toPending := w.toPending || h == To(o))
  }

  ghost predicate HalvesIn(q: seq<Half>, live: set<Once>) {
    forall h | h in q :: h.Other? || h.once in live
  }

  ghost predicate IosIn(q: seq<Half>, live: set<Once>) {
    forall h | h in q :: h.Other? || (h.Io? && h.once in live)
  }

  ghost predicate TosIn(q: seq<Half>, live: set<Once>) {
    forall h | h in q :: h.Other? || (h.To? && h.once in live)
  }

  ghost predicate AllIn(qs: seq<seq<Half>>, live: set<Once>) {
    forall i | 0 <= i < |qs| :: HalvesIn(qs[i], live)
  }

  ghost predicate AllIosIn(qs: seq<seq<Half>>, live: set<Once>) {
    forall i | 0 <= i < |qs| :: IosIn(qs[i], live)
  }

  lemma ClearedIn(qs: seq<seq<Half>>, g: Half, live: set<Once>)
    requires AllIn(qs, live)
    ensures AllIn(ClearedAll(qs, g), live)
  {
    var rs := ClearedAll(qs, g);
    forall i | 0 <= i < |rs| ensures HalvesIn(rs[i], live) {
      assert HalvesIn(qs[i], live);
      forall h: Half | h in rs[i] ensures h.Other? || h.once in live {
        var k :| 0 <= k < |rs[i]| && rs[i][k] == h;
        assert h.Other? || (h == qs[i][k] && qs[i][k] in qs[i]);
      }
    }
  }

  lemma UnlistedIn(qs: seq<seq<Half>>, g: Half, live: set<Once>)
    requires AllIosIn(qs, live)
    ensures AllIosIn(Unlisted(qs, g), live)
  {
    forall i | 0 <= i < |qs| ensures IosIn(Unlisted(qs, g)[i], live) {
      assert IosIn(qs[i], live);
    }
  }

  lemma AppendedHas(qs: seq<seq<Half>>, p: nat, h: Half, g: Half)
    requires p < |qs|
    ensures InSome(qs[p := qs[p] + [h]], g) <==> InSome(qs, g) || g == h
  {
    UpdatedHas(qs, p, qs[p] + [h], g);
    if InSome(qs, g) {
      var i :| 0 <= i < |qs| && g in qs[i];
      assert i == p ==> g in qs[p] + [h];
    }
  }

  lemma PrependedHas(qs: seq<seq<Half>>, p: nat, h: Half, g: Half)
    requires p < |qs|
    ensures InSome(qs[p := [h] + qs[p]], g) <==> InSome(qs, g) || g == h
  {
    UpdatedHas(qs, p, [h] + qs[p], g);
    if InSome(qs, g) {
      var i :| 0 <= i < |qs| && g in qs[i];
      assert i == p ==> g in [h] + qs[p];
    }
  }

  lemma PoppedHas(qs: seq<seq<Half>>, p: nat, g: Half)
    requires p < |qs| && qs[p] != [] && qs[p][|qs[p]| - 1] != g
    ensures InSome(qs[p := qs[p][..|qs[p]| - 1]], g) <==> InSome(qs, g)
  {
    var q := qs[p];
    assert q == q[..|q| - 1] + [q[|q| - 1]];
    UpdatedHas(qs, p, q[..|q| - 1], g);
    if InSome(qs, g) {
      var i :| 0 <= i < |qs| && g in qs[i];
      assert i == p ==> g in q[..|q| - 1];
    }
  }

  /** The table of descriptors, with room for `fd`. */
  function Grown(qs: seq<seq<Half>>, fd: nat): (r: seq<seq<Half>>)
    ensures fd < |r| && |qs| <= |r| && forall i | 0 <= i < |r| :: r[i] == if i < |qs| then qs[i] else []
  {
    if |qs| <= fd then qs + seq(fd + 1 - |qs|, _ => []) else qs
  }

  lemma GrownHas(qs: seq<seq<Half>>, fd: nat, h: Half)
    ensures InSome(Grown(qs, fd), h) <==> InSome(qs, h)
  {
    if InSome(qs, h) {
      var i :| 0 <= i < |qs| && h in qs[i];
      assert h in Grown(qs, fd)[i];
    }
  }

  class Loop {
    var pendings: seq<seq<Half>>
    var heads: seq<seq<Half>>
    var timers: seq<Half>
    ghost var live: set<Once>

    ghost function Where(o: Once): Places
      reads this
    {
      Places(InSome(pendings, Io(o)), InSome(pendings, To(o)), InSome(heads, Io(o)), To(o) in timers)
    }

    ghost predicate ListsOk()
      reads this
    {
      |pendings| == W.NUMPRI && AllIn(pendings, live) && AllIosIn(heads, live) && TosIn(timers, live)
    }

    /** Every ev_once that is not freed is on some list, whatever is on a list is not freed, and no watcher is on
        a list of the wrong kind. */
    ghost predicate Valid()
      reads this, live
    {
      && ListsOk()
      && forall o | o in live :: o.reclaim == null && Where(o) != NOWHERE
    }

    /** ev_feed_event for a watcher of an ev_once. */
    method Feed(h: Half)
      requires ListsOk() && !h.Other? && h.once in live
      modifies this`pendings
      ensures ListsOk() && forall o | o in live :: Where(o) == Fed(old(Where(o)), o, h)
    {
      var q := pendings[DEFAULT_PRI];
      forall o | o in live ensures h in q ==> old(Where(o)) == Fed(old(Where(o)), o, h) {
        if h in q { assert InSome(pendings, h); }
      }
      if h in q { return; }
      pendings := pendings[DEFAULT_PRI := q + [h]];
      forall o | o in live ensures Where(o) == Fed(old(Where(o)), o, h) {
        AppendedHas(old(pendings), DEFAULT_PRI, h, Io(o));
        AppendedHas(old(pendings), DEFAULT_PRI, h, To(o));
      }
    }

    /** ev_io_stop for the first watcher of an ev_once. */
    method IoStop(o: Once)
      requires ListsOk() && o in live
      modifies this`pendings, this`heads
      ensures ListsOk()
      ensures forall p | p in live :: Where(p) == if p == o then old(Where(p)).(ioPending := false, ioActive := false) else old(Where(p))
    {
      pendings := ClearedAll(pendings, Io(o));
      heads := Unlisted(heads, Io(o));
      ClearedIn(old(pendings), Io(o), live);
      UnlistedIn(old(heads), Io(o), live);
      forall p | p in live
        ensures Where(p) == if p == o then old(Where(p)).(ioPending := false, ioActive := false) else old(Where(p))
      {
        UnlistedHas(old(heads), Io(o), Io(p));
        ClearedHas(old(pendings), Io(o), Io(p));
        ClearedHas(old(pendings), Io(o), To(p));
      }
    }

    /** ev_timer_stop for the second. */
    method TimerStop(o: Once)
      requires ListsOk() && o in live
      modifies this`pendings, this`timers
      ensures ListsOk()
      ensures forall p | p in live :: Where(p) == if p == o then old(Where(p)).(toPending := false, toActive := false) else old(Where(p))
    {
      pendings := ClearedAll(pendings, To(o));
      timers := Without(timers, To(o));
      ClearedIn(old(pendings), To(o), live);
      forall p | p in live
        ensures Where(p) == if p == o then old(Where(p)).(toPending := false, toActive := false) else old(Where(p))
      {
        ClearedHas(old(pendings), To(o), Io(p));
        ClearedHas(old(pendings), To(o), To(p));
      }
    }

    /** once_cb up to the user's callback: both watchers are stopped, and the ev_once is freed. */
    method OnceCb(o: Once)
      requires ListsOk() && o in live
      requires forall p | p in live && p != o :: p.reclaim == null && Where(p) != NOWHERE
      modifies this
      ensures Valid() && live == old(live) - {o} && Where(o) == NOWHERE
      ensures forall p | p in live :: Where(p) == old(Where(p))
    {
      IoStop(o);
      TimerStop(o);
      Forgotten(o);
      live := live - {o};
    }

    /** What is nowhere is on no list. */
    lemma Forgotten(o: Once)
      requires ListsOk() && o in live && Where(o) == NOWHERE
      ensures AllIn(pendings, live - {o}) && AllIosIn(heads, live - {o}) && TosIn(timers, live - {o})
    {
      forall i | 0 <= i < |pendings| ensures HalvesIn(pendings[i], live - {o}) {
        assert HalvesIn(pendings[i], live) && Io(o) !in pendings[i] && To(o) !in pendings[i];
      }
      forall i | 0 <= i < |heads| ensures IosIn(heads[i], live - {o}) {
        assert IosIn(heads[i], live) && Io(o) !in heads[i];
      }
    }

    constructor (fds: nat)
      ensures Valid() && live == {}
    {
      pendings, heads, timers, live := seq(W.NUMPRI, _ => []), seq(fds, _ => []), [], {};
    }

    /** array_needsize for the descriptors. */
    method NeedSize(fd: nat)
      requires ListsOk()
      modifies this`heads
      ensures ListsOk() && heads == Grown(old(heads), fd)
    {
      if |heads| <= fd {
        heads := heads + seq(fd + 1 - |heads|, _ => []);
      }
      assert forall i | 0 <= i < |old(heads)| :: IosIn(old(heads)[i], live);
    }

    /** A new ev_once, which is on no list yet. */
    method Allocate() returns (once: Once)
      requires Valid()
      modifies this`live
      ensures fresh(once) && once.reclaim == null && live == old(live) + {once} && ListsOk() && Where(once) == NOWHERE
    {
      once := new Once();
      assert forall i | 0 <= i < |heads| :: IosIn(heads[i], live);
      assert forall i | 0 <= i < |pendings| :: HalvesIn(pendings[i], live);
      live := live + {once};
    }

    /** ev_once: nothing is allocated when there is no callback or nothing could ever fire. */
    method OnceStart(hasCb: bool, fd: int, events: bool, timeout: real) returns (o: Once?)
      requires Valid()
      modifies this
      ensures Valid() && (o == null <==> !hasCb || ((fd < 0 || !events) && timeout < 0.0))
      ensures live == old(live) + if o == null then {} else {o}
      ensures forall p | p in old(live) :: Where(p) == old(Where(p))
      ensures o != null ==> fresh(o) && Where(o) == Places(false, false, fd >= 0 && events, timeout >= 0.0)
    {
      if !hasCb || ((fd < 0 || !events) && timeout < 0.0) { return null; }
      var once := Allocate();
      ghost var was := heads;
      if fd >= 0 && events {
        NeedSize(fd);
        was := heads;
        heads := heads[fd := [Io(once)] + heads[fd]];
      }
      if timeout >= 0.0 {
        timers := timers + [To(once)];
      }
      forall p | p in live ensures Where(p) == (if p == once then Places(false, false, fd >= 0 && events, timeout >= 0.0) else old(Where(p))) {
        if fd >= 0 && events {
          PrependedHas(was, fd, Io(once), Io(p));
          GrownHas(old(heads), fd, Io(p));
        }
      }
      o := once;
    }

    /** The descriptor of an ev_once is ready. */
    method IoReady(o: Once)
      requires Valid() && o in live && Where(o).ioActive
      modifies this`pendings
      ensures Valid() && forall p | p in live :: Where(p) == Fed(old(Where(p)), p, Io(o))
    {
      Feed(Io(o));
    }

    /** The descriptor of an ev_once is killed: its watcher is stopped and told of the error. */
    method IoKilled(o: Once)
      requires Valid() && o in live && Where(o).ioActive
      modifies this`pendings, this`heads
      ensures Valid() && forall p | p in live ::
        Where(p) == if p == o then old(Where(p)).(ioPending := true, ioActive := false) else old(Where(p))
    {
      IoStop(o);
      Feed(Io(o));
    }

    /** The timer of an ev_once expires: it does not repeat, so it is stopped. */
    method Expired(o: Once)
      requires Valid() && o in live && Where(o).toActive
      modifies this`pendings, this`timers
      ensures Valid() && forall p | p in live ::
        Where(p) == if p == o then old(Where(p)).(toPending := true, toActive := false) else old(Where(p))
    {
      TimerStop(o);
      Feed(To(o));
    }

    /** ev_invoke_pending takes one watcher; for one of an ev_once that is the end of it. */
    method InvokeLast(pri: nat) returns (h: Half)
      requires Valid() && pri < W.NUMPRI && pendings[pri] != []
      modifies this
      ensures Valid() && h == old(pendings[pri])[|old(pendings[pri])| - 1]
      ensures live == if h.Other? then old(live) else old(live) - {h.once}
      ensures !h.Other? ==> h.once in old(live) && Where(h.once) == NOWHERE
      ensures forall p | p in live :: Where(p) == old(Where(p))
    {
      var q := pendings[pri];
      h := q[|q| - 1];
      assert HalvesIn(q, live) && h in q;
      pendings := pendings[pri := q[..|q| - 1]];
      forall i | 0 <= i < |pendings| ensures HalvesIn(pendings[i], live) {
        assert HalvesIn(old(pendings)[i], live);
      }
      forall p | p in live && !Of(h, p) ensures Where(p) == old(Where(p)) {
        PoppedHas(old(pendings), pri, Io(p));
        PoppedHas(old(pendings), pri, To(p));
      }
      if !h.Other? {
        OnceCb(h.once);
      }
    }

    /** once_reclaim: whatever an ev_once is waiting for, it is freed, and it is freed once. */
    method Reclaim() returns (freed: seq<Once>)
      requires Valid()
      modifies live`reclaim
      ensures Distinct(freed) && forall o :: o in freed <==> o in live
    {
      ghost var chain;
      var list: Once? := null;
      OwnedAll();
      list, chain := CollectLists(list, pendings, [], live);
      list, chain := CollectLists(list, heads, chain, live);
      list, chain := CollectAll(list, timers, chain, live);
      forall o | o in live ensures o in chain {
        Reached(o);
      }
      freed := FreeAll(list, chain);
    }

    lemma OwnedAll()
      requires ListsOk()
      ensures (forall q | q in pendings :: Owned(q, live)) && (forall q | q in heads :: Owned(q, live)) && Owned(timers, live)
    {
      assert forall i | 0 <= i < |pendings| :: HalvesIn(pendings[i], live);
      assert forall i | 0 <= i < |heads| :: IosIn(heads[i], live);
    }

    lemma Reached(o: Once)
      requires Where(o) != NOWHERE
      ensures MeetsAny(pendings, o) || MeetsAny(heads, o) || Meets(timers, o)
    {
      if To(o) in timers {
        assert Of(To(o), o);
      } else {
        var qs := if InSome(heads, Io(o)) then heads else pendings;
        var h := if InSome(heads, Io(o)) || InSome(pendings, Io(o)) then Io(o) else To(o);
        var i :| 0 <= i < |qs| && h in qs[i];
        assert Of(h, o) && Meets(qs[i], o) && qs[i] in qs;
      }
    }
  }
}
