/** The registry that gives Windows sockets small descriptors, shared by all loops under one lock.

    Every allocation may fail. Which chain a handle hashes to does not matter: `bucketOf` is any function. */
module FdRegistry {
  import opened Lists

  const INT_MAX := 0x7FFF_FFFF

  const FIRST_SIZE := 64

  /** 0 and INVALID_SOCKET are no sockets. */
  type Handle = nat

  const INVALID_SOCKET: Handle := 0xFFFF_FFFF_FFFF_FFFF

  class Entry {
    const fd: nat
    const handle: Handle
    const owned: bool
    var refcount: nat

    constructor (fd: nat, handle: Handle, owned: bool)
      ensures this.fd == fd && this.handle == handle && this.owned == owned && refcount == 1
    {
      this.fd, this.handle, this.owned, refcount := fd, handle, owned, 1;
    }
  }

  datatype Row = Row(handle: Handle, refcount: nat, owned: bool)

  /** Which of the allocations of an acquire succeed. */
  datatype Memory = Memory(freeList: bool, byFd: bool, entry: bool)

  /** A list of distinct numbers below `n` has at most n elements. */
  lemma {:induction false} Pigeons(q: seq<nat>, n: nat)
    requires Distinct(q) && forall x | x in q :: x < n
    ensures |q| <= n
    decreases n
  {
    if n == 0 {
      FirstIn(q);
    } else {
      var last: nat := n - 1;
      var r: seq<nat> := Without(q, last);
      WithoutDistinct(q, last);
      Pigeons(r, last);
      WithoutOnce(q, last);
    }
  }

  lemma {:induction false} WithoutOnce<T>(q: seq<T>, x: T)
    requires Distinct(q)
    ensures |q| <= |Without(q, x)| + 1
  {
    if q != [] && q[0] != x {
      WithoutOnce(q[1..], x);
    }
  }

  /** The descriptor of a handle gets one more reference; a new handle gets a descriptor of its own. */
  ghost predicate Acquires(was: map<nat, Row>, now: map<nat, Row>, fd: nat, handle: Handle, owned: bool) {
    if fd in was then was[fd].handle == handle && now == was[fd := was[fd].(refcount := was[fd].refcount + 1)]
    else (forall f | f in was :: was[f].handle != handle) && now == was[fd := Row(handle, 1, owned)]
  }

  function Released(was: map<nat, Row>, fd: nat): map<nat, Row>
    requires fd in was
  {
    if was[fd].refcount > 1 then was[fd := was[fd].(refcount := was[fd].refcount - 1)] else was - {fd}
  }

  /** Giving back the reference that an acquire took leaves the table as it was before. */
  lemma AcquireReleased(was: map<nat, Row>, now: map<nat, Row>, fd: nat, handle: Handle, owned: bool)
    requires Acquires(was, now, fd, handle, owned) && (fd in was ==> was[fd].refcount > 0)
    ensures fd in now && now[fd].refcount > 0 && Released(now, fd) == was
  {
    if fd in was {
      assert Released(now, fd) == was;
    }
  }

  /** The table after `n` releases of a descriptor, as long as there is one. */
  function ReleasedTimes(table: map<nat, Row>, fd: nat, n: nat): map<nat, Row> {
    if n == 0 || fd !in table then table else ReleasedTimes(Released(table, fd), fd, n - 1)
  }

  /** Each table comes from the one before by an acquire of the handle. */
  ghost predicate AcquiredAlong(tables: seq<map<nat, Row>>, fd: nat, handle: Handle, owned: bool) {
    forall i | 0 <= i < |tables| - 1 :: Acquires(tables[i], tables[i + 1], fd, handle, owned)
  }

  /** However often a handle was acquired, as many releases of its descriptor undo it. */
  lemma {:induction false} AcquiresReleased(tables: seq<map<nat, Row>>, fd: nat, handle: Handle, owned: bool)
    requires tables != [] && AcquiredAlong(tables, fd, handle, owned) && (fd in tables[0] ==> tables[0][fd].refcount > 0)
    ensures ReleasedTimes(tables[|tables| - 1], fd, |tables| - 1) == tables[0]
    ensures fd in tables[|tables| - 1] ==> tables[|tables| - 1][fd].refcount > 0
    decreases |tables|
  {
    if |tables| > 1 {
      var most := tables[..|tables| - 1];
      AcquiresReleased(most, fd, handle, owned);
      var last := |tables| - 2;
      assert Acquires(tables[last], tables[last + 1], fd, handle, owned);
      AcquireReleased(most[last], tables[last + 1], fd, handle, owned);
    }
  }

  /** A descriptor is gone exactly after as many releases as it has references. */
  lemma {:induction false} LastReleaseFrees(table: map<nat, Row>, fd: nat, n: nat)
    requires fd in table && table[fd].refcount > 0
    ensures fd !in ReleasedTimes(table, fd, n) <==> n >= table[fd].refcount
    ensures ReleasedTimes(table, fd, n) - {fd} == table - {fd}
    decreases n
  {
    if n > 0 && table[fd].refcount > 1 {
      LastReleaseFrees(Released(table, fd), fd, n - 1);
      assert Released(table, fd) - {fd} == table - {fd};
    } else if n > 0 {
      assert ReleasedTimes(table - {fd}, fd, n - 1) == table - {fd};
      assert table - {fd} - {fd} == table - {fd};
    }
  }

  ghost predicate Known(table: map<nat, Row>, handle: Handle) {
    exists f :: f in table && table[f].handle == handle
  }

  /** The size that a table of `max` grows to for the index `fd`. */
  function Doubled(max: nat, fd: nat): (r: nat)
    requires 0 < max <= INT_MAX && fd < INT_MAX
    ensures fd < r <= INT_MAX && if max > fd then r == max else r <= 2 * fd + 1
    decreases INT_MAX - max
  {
    if max > fd then max else Doubled(if max > INT_MAX / 2 then INT_MAX else max * 2, fd)
  }

  class Registry {
    const bucketOf: Handle -> nat
    var buckets: seq<seq<Entry>>
    var byFd: array<Entry?>
    var free: array<nat>
    var freecnt: nat
    var next: nat
    ghost var entries: set<Entry>

    /** An entry is found by its descriptor and in the chain of its handle. */
    ghost predicate EntryOk(e: Entry)
      requires |buckets| > 0 && forall h :: bucketOf(h) < |buckets|
      reads this`buckets, this`byFd, this`next, byFd, e
    {
      && e.fd < next <= byFd.Length && byFd[e.fd] == e && e.refcount > 0
      && e in buckets[bucketOf(e.handle)]
    }

    ghost predicate ChainOk(b: nat)
      requires b < |buckets|
      reads this`buckets, this`entries
    {
      Distinct(buckets[b]) && forall e | e in buckets[b] :: e in entries && bucketOf(e.handle) == b
    }

    ghost predicate EntriesOk()
      reads this`buckets, this`byFd, this`next, this`entries, byFd, entries
    {
      && |buckets| > 0 && (forall h :: bucketOf(h) < |buckets|)
      && (forall e | e in entries :: EntryOk(e))
      && (forall e, f | e in entries && f in entries && e.handle == f.handle :: e == f)
      && (forall b: nat | b < |buckets| :: ChainOk(b))
    }

    /** The indices that were issued are the live descriptors and those on the free list, and none is both; the
        free list has room for all of them. The index `out`, if it is one, was issued and is on its way. */
    ghost predicate IndicesOk(out: int)
      reads this, byFd, free
    {
      && freecnt <= free.Length && next <= byFd.Length <= free.Length && byFd.Length <= INT_MAX
      && Distinct(free[..freecnt]) && (forall i | i in free[..freecnt] :: i < next && i != out)
      && (forall fd: nat | fd < byFd.Length && fd != out :: IndexOk(fd))
      && (0 <= out ==> out < next && byFd[out] == null)
    }

    ghost predicate IndexOk(fd: nat)
      requires fd < byFd.Length && freecnt <= free.Length
      reads this, byFd, free
    {
      if byFd[fd] == null then fd < next ==> fd in free[..freecnt]
      else fd < next && fd !in free[..freecnt] && byFd[fd] in entries && byFd[fd].fd == fd
    }

    ghost predicate Valid()
      reads this, byFd, free, entries
    {
      EntriesOk() && IndicesOk(-1)
    }

    /** What the registry means: the socket of each descriptor, how often it is held, and whether it is owned. */
    ghost function Table(): map<nat, Row>
      reads this`byFd, this`entries, byFd, entries
    {
      map fd: nat | fd < byFd.Length && byFd[fd] != null && byFd[fd] in entries ::
        Row(byFd[fd].handle, byFd[fd].refcount, byFd[fd].owned)
    }

    /** The indices that can be issued again, the next one last. */
    ghost function FreeList(): seq<nat>
      reads this`free, this`freecnt, free
    {
      if freecnt <= free.Length then free[..freecnt] else []
    }

    /** `fd` was issued: it is the last one of the free list, or else the next index. */
    twostate predicate Issued(fd: nat)
      reads this`free, this`freecnt, this`next, free
    {
      if old(FreeList()) != [] then old(FreeList()) == FreeList() + [fd] && next == old(next)
      else FreeList() == [] && fd == old(next) && next == fd + 1
    }

    /** There is room for the next index, or it can be had. */
    predicate Room(memory: Memory)
      reads this`byFd, this`free, this`next
      requires byFd.Length <= INT_MAX
    {
      next < byFd.Length
      || (next < INT_MAX && memory.byFd
          && (memory.freeList || free.Length >= Doubled(if byFd.Length > 0 then byFd.Length else FIRST_SIZE, next)))
    }

    /** Nothing was consumed, unless an index was issued for nothing: then the next one, if it was that, is free now. */
    twostate predicate Kept(more: bool)
      reads this`free, this`freecnt, this`next, free
    {
      if more then old(FreeList()) == [] && next == old(next) + 1 && FreeList() == [old(next)]
      else next == old(next) && FreeList() == old(FreeList())
    }

    constructor (bucketOf: Handle -> nat, bucketCount: nat)
      requires bucketCount > 0 && forall h :: bucketOf(h) < bucketCount
      ensures Valid() && Table() == map[] && entries == {} && fresh(byFd) && fresh(free)
    {
      this.bucketOf := bucketOf;
      buckets := seq(bucketCount, _ => []);
      byFd, free := new Entry?[0], new nat[0];
      freecnt, next, entries := 0, 0, {};
    }

    lemma TableIs(m: map<nat, Row>)
      requires forall fd | fd in m :: fd < byFd.Length && byFd[fd] != null && byFd[fd] in entries
      requires forall fd: nat | fd < byFd.Length && byFd[fd] != null && byFd[fd] in entries ::
        fd in m && m[fd] == Row(byFd[fd].handle, byFd[fd].refcount, byFd[fd].owned)
      ensures Table() == m
    {
    }

    /** No two descriptors stand for the same socket. */
    lemma OneDescriptorEach(f: nat, g: nat)
      requires Valid() && f in Table() && g in Table() && Table()[f].handle == Table()[g].handle
      ensures f == g
    {
      assert IndexOk(f) && IndexOk(g);
    }

    /** Every index that was issued is a live descriptor or on the free list, not both and not twice, and no other
        index is either. */
    lemma IndicesAreAccounted(fd: nat)
      requires Valid()
      ensures fd < next <==> fd in Table() || fd in free[..freecnt]
      ensures !(fd in Table() && fd in free[..freecnt])
    {
      assert fd < byFd.Length ==> IndexOk(fd);
    }

    /** ev_win32_fd_find_handle_unlocked. */
    method FindHandle(handle: Handle) returns (ent: Entry?)
      requires EntriesOk()
      ensures if ent == null then forall e | e in entries :: e.handle != handle else ent in entries && ent.handle == handle
    {
      var chain := buckets[bucketOf(handle)];
      var k := 0;
      while k < |chain|
        invariant 0 <= k <= |chain| && forall e | e in chain[..k] :: e.handle != handle
      {
        assert ChainOk(bucketOf(handle));
        if chain[k].handle == handle { return chain[k]; }
        assert chain[..k + 1] == chain[..k] + [chain[k]];
        k := k + 1;
      }
      assert chain[..k] == chain;
      assert forall e | e in entries :: EntryOk(e);
      ent := null;
    }

    /** ev_win32_fd_find_fd_unlocked. */
    method FindFd(fd: int) returns (ent: Entry?)
      requires Valid()
      ensures ent != null <==> 0 <= fd && fd in Table()
      ensures ent != null ==> ent in entries && ent.fd == fd && Table()[fd] == Row(ent.handle, ent.refcount, ent.owned)
    {
      ent := null;
      if 0 <= fd < byFd.Length {
        assert IndexOk(fd);
        ent := byFd[fd];
      }
    }

    /** ev_win32_fd_reserve. A table is announced only once its storage is there, and the free list grows first. */
    method Reserve(fd: nat, memory: Memory) returns (ok: bool)
      requires Valid() && fd == next
      modifies this`byFd, this`free
      ensures Valid() && Table() == old(Table()) && (ok ==> fd < byFd.Length && fd < INT_MAX)
      ensures FreeList() == old(FreeList())
      ensures ok == old(Room(memory))
      ensures (byFd == old(byFd) || fresh(byFd)) && (free == old(free) || fresh(free))
    {
      if fd < byFd.Length { return true; }
      if fd == INT_MAX { return false; }
      var newmax := if byFd.Length > 0 then byFd.Length else FIRST_SIZE;
      while newmax <= fd
        invariant 0 < newmax <= INT_MAX && Doubled(newmax, fd) == Doubled(if byFd.Length > 0 then byFd.Length else FIRST_SIZE, fd)
        decreases INT_MAX - newmax
      {
        newmax := if newmax > INT_MAX / 2 then INT_MAX else newmax * 2;
      }
      if free.Length < newmax {
        if !memory.freeList { return false; }
        GrowFree(newmax);
      }
      if !memory.byFd { return false; }
      GrowByFd(newmax);
      ok := true;
    }

    method GrowFree(newmax: nat)
      requires Valid() && free.Length < newmax
      modifies this`free
      ensures Valid() && free.Length == newmax && fresh(free) && FreeList() == old(FreeList())
    {
      var was := free;
      free := new nat[newmax](i requires 0 <= i reads was => if i < was.Length then was[i] else 0);
      assert free[..freecnt] == was[..freecnt];
      forall fd: nat | fd < byFd.Length ensures IndexOk(fd) {
        assert old(IndexOk(fd));
      }
    }

    method GrowByFd(newmax: nat)
      requires Valid() && byFd.Length < newmax <= free.Length && newmax <= INT_MAX
      modifies this`byFd
      ensures Valid() && Table() == old(Table()) && byFd.Length == newmax && fresh(byFd)
    {
      ghost var table := Table();
      var was := byFd;
      byFd := new Entry?[newmax](i requires 0 <= i reads was => if i < was.Length then was[i] else null);
      forall fd: nat | fd < byFd.Length ensures IndexOk(fd) {
        assert fd < was.Length ==> old(IndexOk(fd));
      }
      forall e | e in entries ensures EntryOk(e) {
        assert old(EntryOk(e));
      }
      assert forall b: nat | b < |buckets| :: old(ChainOk(b));
      TableIs(table);
    }

    method TakeIndex() returns (fd: nat)
      requires freecnt <= free.Length && Distinct(FreeList())
      modifies this`freecnt, this`next
      ensures freecnt <= free.Length && Issued(fd) && Distinct(FreeList()) && fd !in FreeList()
      ensures forall i | i in old(FreeList()) :: i == fd || i in FreeList()
      ensures forall i | i in FreeList() :: i in old(FreeList())
      ensures if old(FreeList()) != [] then fd in old(FreeList()) else fd == old(next)
    {
      if freecnt > 0 {
        freecnt := freecnt - 1;
        fd := free[freecnt];
        ghost var was := old(FreeList());
        assert was == FreeList() + [fd];
        LastIsOut(FreeList(), fd);
        assert fd in was && forall i | i in FreeList() :: i in was;
      } else {
        fd := next;
        next := next + 1;
      }
    }

    /** ev_win32_fd_alloc_unlocked, when there is an index to be had. */
    method AllocIndex() returns (fd: nat)
      requires Valid() && (freecnt == 0 ==> next < byFd.Length && next < INT_MAX)
      modifies this`freecnt, this`next
      ensures EntriesOk() && IndicesOk(fd) && Table() == old(Table()) && fd < next && Issued(fd)
    {
      fd := TakeIndex();
      assert FreeList() == free[..freecnt] && old(FreeList()) == old(free[..freecnt]);
      forall f: nat | f < byFd.Length && f != fd ensures IndexOk(f) {
        assert old(IndexOk(f));
      }
      assert old(IndexOk(fd));
      forall e | e in entries ensures EntryOk(e) {
        assert old(EntryOk(e));
      }
      assert forall b: nat | b < |buckets| :: old(ChainOk(b));
    }

    /** ev_win32_fd_push_free_unlocked: there is always room. */
    method PushFree(fd: nat)
      requires EntriesOk() && IndicesOk(fd)
      modifies this`freecnt, free
      ensures Valid() && Table() == old(Table()) && next == old(next) && FreeList() == old(FreeList()) + [fd]
    {
      ghost var q := free[..freecnt];
      Appended(q, fd);
      Pigeons(q + [fd], next);
      free[freecnt] := fd;
      freecnt := freecnt + 1;
      assert Table() == old(Table());
      assert free[..freecnt] == q + [fd];
      forall f: nat | f < byFd.Length ensures IndexOk(f) {
        assert f != fd ==> old(IndexOk(f));
      }
    }

    /** The part of ev_win32_fd_acquire that links a new entry, at the head of its chain. */
    method Link(ent: Entry)
      requires EntriesOk() && IndicesOk(ent.fd) && ent !in entries && ent.refcount == 1 && ent.fd < next
      requires forall e | e in entries :: e.handle != ent.handle
      modifies this`buckets, this`entries, byFd
      ensures Valid() && entries == old(entries) + {ent}
      ensures forall f: nat | f < byFd.Length :: byFd[f] == if f == ent.fd then ent else old(byFd[f])
    {
      var bucket := bucketOf(ent.handle);
      buckets := buckets[bucket := [ent] + buckets[bucket]];
      byFd[ent.fd] := ent;
      entries := entries + {ent};
      forall f: nat | f < byFd.Length ensures IndexOk(f) {
        assert f != ent.fd ==> old(IndexOk(f));
      }
      forall b: nat | b < |buckets| ensures ChainOk(b) {
        assert old(ChainOk(b));
      }
      forall e | e in entries ensures EntryOk(e) {
        assert e != ent ==> old(EntryOk(e));
      }
    }

    /** The table after a new entry was linked. */
    lemma LinkedTable(was: map<nat, Row>, ent: Entry)
      requires Valid() && ent in entries && ent.refcount == 1 && ent.fd !in was
      requires forall f | f in was :: f < byFd.Length && byFd[f] != null && byFd[f] in entries
      requires forall f: nat | f < byFd.Length && f != ent.fd && byFd[f] != null :: f in was && was[f] == Row(byFd[f].handle, byFd[f].refcount, byFd[f].owned)
      ensures Table() == was[ent.fd := Row(ent.handle, 1, ent.owned)]
    {
      assert EntryOk(ent);
      TableIs(was[ent.fd := Row(ent.handle, 1, ent.owned)]);
    }

    /** Another number of references to an entry. */
    method Recount(ent: Entry, count: nat)
      requires Valid() && ent in entries && count > 0
      modifies ent`refcount
      ensures Valid() && ent.fd in old(Table()) && old(Table())[ent.fd] == Row(ent.handle, old(ent.refcount), ent.owned)
      ensures Table() == old(Table())[ent.fd := Row(ent.handle, count, ent.owned)] && ent.refcount == count
    {
      ghost var to := Table()[ent.fd := Row(ent.handle, count, ent.owned)];
      assert EntryOk(ent);
      ent.refcount := count;
      forall e | e in entries ensures EntryOk(e) {
        assert old(EntryOk(e));
      }
      forall f: nat | f < byFd.Length
        ensures IndexOk(f) && (byFd[f] != null && byFd[f] in entries ==>
                               f in to && to[f] == Row(byFd[f].handle, byFd[f].refcount, byFd[f].owned))
      {
        assert old(IndexOk(f));
        assert f != ent.fd && byFd[f] != null ==> f in old(Table()) && byFd[f] != ent;
      }
      TableIs(to);
    }

    /** One more reference to an entry. */
    method Hold(ent: Entry)
      requires Valid() && ent in entries
      modifies ent`refcount
      ensures Valid() && ent.fd in old(Table()) && old(Table())[ent.fd] == Row(ent.handle, old(ent.refcount), ent.owned)
      ensures Table() == old(Table())[ent.fd := Row(ent.handle, old(ent.refcount) + 1, ent.owned)]
    {
      Recount(ent, ent.refcount + 1);
    }

    /** The part of ev_win32_fd_acquire that makes a new entry. */
    method AddEntry(fd: nat, handle: Handle, owned: bool)
      requires EntriesOk() && IndicesOk(fd) && fd < next && forall e | e in entries :: e.handle != handle
      modifies this`buckets, this`entries, byFd
      ensures Valid() && fd !in old(Table()) && Table() == old(Table())[fd := Row(handle, 1, owned)]
    {
      ghost var was := Table();
      var ent := new Entry(fd, handle, owned);
      Link(ent);
      forall f: nat | f < byFd.Length && f != fd && byFd[f] != null
        ensures f in was && was[f] == Row(byFd[f].handle, byFd[f].refcount, byFd[f].owned)
      {
        assert old(IndexOk(f));
      }
      LinkedTable(was, ent);
    }

    lemma Unknown(handle: Handle)
      requires forall e | e in entries :: e.handle != handle
      ensures (forall f | f in Table() :: Table()[f].handle != handle) && !Known(Table(), handle)
    {
    }

    /** The part of ev_win32_fd_acquire for a handle that is not known. */
    method AcquireNew(handle: Handle, owned: bool, memory: Memory) returns (fd: int)
      requires Valid() && forall e | e in entries :: e.handle != handle
      modifies this, byFd, free
      ensures Valid()
      ensures fd >= 0 <==> memory.entry && (old(FreeList()) != [] || old(Room(memory)))
      ensures fd < 0 ==> fd == -1 && Table() == old(Table()) && Kept(old(FreeList()) == [] && old(Room(memory)))
      ensures fd >= 0 ==> Issued(fd) && fd !in old(Table()) && Acquires(old(Table()), Table(), fd, handle, owned)
    {
      Unknown(handle);
      if freecnt == 0 {
        var ok := Reserve(next, memory);
        if !ok { return -1; }
      }
      fd := AllocIndex();
      if !memory.entry {
        PushFree(fd);
        return -1;
      }
      AddEntry(fd, handle, owned);
    }

    /** The part for a handle that is known. */
    method HoldAgain(ent: Entry, ghost owned: bool)
      requires Valid() && ent in entries
      modifies ent`refcount
      ensures Valid() && ent.fd in old(Table()) && Acquires(old(Table()), Table(), ent.fd, ent.handle, owned)
      ensures FreeList() == old(FreeList())
    {
      Hold(ent);
    }

    /** ev_win32_fd_acquire. A handle that is known is held once more; another one gets a descriptor that is not in
        use, the last one of the free list if it has any. When it fails, whatever allocation was refused, the table
        is as it was, and an index that was issued meanwhile is back on the free list. It fails exactly when the
        handle is none, or is not known and there is no memory for its entry or no index to be had. */
    method Acquire(handle: Handle, owned: bool, memory: Memory) returns (fd: int)
      requires Valid()
      modifies this, byFd, free, entries`refcount
      ensures Valid()
      ensures fd >= 0
        <==> handle != 0 && handle != INVALID_SOCKET
             && (Known(old(Table()), handle) || (memory.entry && (old(FreeList()) != [] || old(Room(memory)))))
      ensures fd < 0 ==> fd == -1 && Table() == old(Table())
      ensures fd < 0 ==> Kept(handle != 0 && handle != INVALID_SOCKET && old(FreeList()) == [] && old(Room(memory)))
      ensures fd >= 0 ==> Acquires(old(Table()), Table(), fd, handle, owned)
      ensures fd >= 0 ==> if fd in old(Table()) then next == old(next) && FreeList() == old(FreeList()) else Issued(fd)
    {
      if handle == 0 || handle == INVALID_SOCKET { return -1; }
      var ent := FindHandle(handle);
      if ent != null {
        HoldAgain(ent, owned);
        return ent.fd;
      }
      Unknown(handle);
      fd := AcquireNew(handle, owned, memory);
    }

    /** The part of ev_win32_fd_release that takes an entry out of its chain. */
    method Unchain(ent: Entry)
      requires EntriesOk() && ent in entries
      modifies this`buckets
      ensures buckets == old(buckets)[bucketOf(ent.handle) := Without(old(buckets)[bucketOf(ent.handle)], ent)]
    {
      var b := bucketOf(ent.handle);
      var chain := buckets[b];
      assert ChainOk(b) && EntryOk(ent);
      var k := 0;
      while k < |chain| && chain[k] != ent
        invariant 0 <= k <= |chain| && ent in chain[k..]
      {
        k := k + 1;
      }
      CutOut(chain, k);
      buckets := buckets[b := chain[..k] + chain[k + 1..]];
    }

    /** The part of ev_win32_fd_release that ends an entry. */
    method Drop(ent: Entry)
      requires EntriesOk() && IndicesOk(-1) && ent in entries
      modifies this`buckets, this`entries, this`freecnt, byFd, free
      ensures Valid() && entries == old(entries) - {ent} && next == old(next) && FreeList() == old(FreeList()) + [ent.fd]
      ensures forall f: nat | f < byFd.Length :: byFd[f] == if f == ent.fd then null else old(byFd[f])
    {
      assert EntryOk(ent) && IndexOk(ent.fd) && ChainOk(bucketOf(ent.handle));
      WithoutDistinct(buckets[bucketOf(ent.handle)], ent);
      Unchain(ent);
      byFd[ent.fd] := null;
      entries := entries - {ent};
      forall f: nat | f < byFd.Length && f != ent.fd ensures IndexOk(f) {
        assert old(IndexOk(f));
      }
      forall b: nat | b < |buckets| ensures ChainOk(b) {
        assert old(ChainOk(b)) && old(ChainOk(bucketOf(ent.handle)));
      }
      forall e | e in entries ensures EntryOk(e) {
        assert old(EntryOk(e));
      }
      PushFree(ent.fd);
    }

    lemma DroppedTable(was: map<nat, Row>, fd: nat)
      requires forall f | f in was && f != fd :: f < byFd.Length && byFd[f] != null && byFd[f] in entries
      requires forall f: nat | f < byFd.Length && byFd[f] != null && byFd[f] in entries ::
        f in was && f != fd && was[f] == Row(byFd[f].handle, byFd[f].refcount, byFd[f].owned)
      ensures Table() == was - {fd}
    {
      TableIs(was - {fd});
    }

    /** ev_win32_fd_to_handle. */
    method ToHandle(fd: int) returns (handle: Handle)
      requires Valid()
      ensures handle == if 0 <= fd && fd in Table() then Table()[fd].handle else INVALID_SOCKET
    {
      var ent := FindFd(fd);
      handle := if ent == null then INVALID_SOCKET else ent.handle;
    }

    /** ev_win32_fd_release: the last reference ends the entry and frees its descriptor; the socket is closed with
        it when that was asked for and the registry owns it. */
    method Release(fd: int, closeHandle: bool) returns (ok: bool, closed: bool)
      requires Valid()
      modifies this`buckets, this`entries, this`freecnt, byFd, free, entries`refcount
      ensures Valid() && next == old(next)
      ensures ok <==> 0 <= fd && fd in old(Table())
      ensures Table() == if ok then Released(old(Table()), fd) else old(Table())
      ensures ok && old(Table())[fd].refcount > 1 ==>
        Table() == old(Table())[fd := old(Table())[fd].(refcount := old(Table())[fd].refcount - 1)] && FreeList() == old(FreeList())
      ensures ok && old(Table())[fd].refcount <= 1 ==> Table() == old(Table()) - {fd} && FreeList() == old(FreeList()) + [fd]
      ensures closed <==> ok && closeHandle && old(Table())[fd].refcount == 1 && old(Table())[fd].owned
    {
      var ent := FindFd(fd);
      if ent == null { return false, false; }
      ok := true;
      closed := Put(ent, closeHandle);
    }

    /** The part of ev_win32_fd_release for a descriptor that is known. */
    method Put(ent: Entry, closeHandle: bool) returns (closed: bool)
      requires Valid() && ent in entries
      modifies this`buckets, this`entries, this`freecnt, byFd, free, ent`refcount
      ensures Valid() && next == old(next) && ent.fd in old(Table()) && Table() == Released(old(Table()), ent.fd)
      ensures FreeList() == if old(Table())[ent.fd].refcount > 1 then old(FreeList()) else old(FreeList()) + [ent.fd]
      ensures closed <==> closeHandle && old(ent.refcount) == 1 && ent.owned
    {
      assert EntryOk(ent);
      closed := ent.refcount == 1 && closeHandle && ent.owned;
      if ent.refcount > 1 {
        Unhold(ent);
      } else {
        End(ent);
      }
    }

    /** One reference less, but not the last. */
    method Unhold(ent: Entry)
      requires Valid() && ent in entries && ent.refcount > 1
      modifies ent`refcount
      ensures Valid() && ent.fd in old(Table()) && Table() == Released(old(Table()), ent.fd)
      ensures old(Table())[ent.fd].refcount == old(ent.refcount) && FreeList() == old(FreeList())
    {
      Recount(ent, ent.refcount - 1);
    }

    /** The last reference goes. */
    method End(ent: Entry)
      requires Valid() && ent in entries && ent.refcount == 1
      modifies this`buckets, this`entries, this`freecnt, byFd, free
      ensures Valid() && next == old(next) && ent.fd in old(Table()) && Table() == Released(old(Table()), ent.fd)
      ensures old(Table())[ent.fd].refcount == 1 && FreeList() == old(FreeList()) + [ent.fd]
    {
      ghost var was := Table();
      assert EntryOk(ent);
      Drop(ent);
      forall f: nat | f < byFd.Length && byFd[f] != null && byFd[f] in entries
        ensures f in was && f != ent.fd && was[f] == Row(byFd[f].handle, byFd[f].refcount, byFd[f].owned)
      {
        assert old(IndexOk(f));
      }
      forall f | f in was && f != ent.fd ensures byFd[f] in entries {
        assert old(IndexOk(f));
      }
      DroppedTable(was, ent.fd);
    }
  }

  lemma {:induction false} LastIsOut<T>(q: seq<T>, x: T)
    requires Distinct(q + [x])
    ensures Distinct(q) && x !in q
  {
    if q != [] {
      assert (q + [x])[1..] == q[1..] + [x];
      LastIsOut(q[1..], x);
    }
  }
}
