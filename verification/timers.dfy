/** The timers of a loop: starting, stopping and restarting them, and making those that are due pending. */
module Timers {
  import opened Watchers
  import opened TimerHeap
  import P = Pending

  class Timers {
    var timers: array<Entry>
    var timercnt: nat
    var mnNow: real
    const queues: P.Pendings
    /** The timers that were ever used with the loop. */
    ghost var known: set<Watcher>

    /** The entry at `i` is that of an active timer, and holds its time. */
    ghost predicate EntryOk(i: int, out: set<Watcher>)
      requires HEAP0 <= i < timers.Length
      reads this, timers, known`at
    {
      timers[i].w in known && timers[i].w !in out && timers[i].at == timers[i].w.at
    }

    ghost predicate IndexOk(w: Watcher)
      reads this, timers, w`active
    {
      w.active == 0 || (HEAP0 <= w.active < HEAP0 + timercnt <= timers.Length && timers[w.active].w == w)
    }

    /** A heap of the active timers, but for `out`. */
    ghost predicate HeapOk(out: set<Watcher>)
      reads this, timers, known`active, known`at
    {
      && HEAP0 + timercnt <= timers.Length && Ordered(timers[..], timercnt)
      && (forall i | HEAP0 <= i < HEAP0 + timercnt :: EntryOk(i, out) && timers[i].w.active == i)
      && (forall w | w in known && w !in out :: IndexOk(w))
    }

    /** The same, but for the order of the entry at `k` and the index of its timer. */
    ghost predicate HeapAround(k: int, out: set<Watcher>)
      reads this, timers, known`active, known`at
    {
      && HEAP0 <= k < HEAP0 + timercnt <= timers.Length && OrderedAround(timers[..], timercnt, k)
      && EntryOk(k, out) && timers[k].w.active != 0
      && (forall i | HEAP0 <= i < HEAP0 + timercnt && i != k ::
            EntryOk(i, out) && timers[i].w.active == i && timers[i].w != timers[k].w)
      && (forall w | w in known && w !in out && w != timers[k].w :: IndexOk(w) && w.active != k)
    }

    /** Whenever a timer is active, and when it is due. */
    ghost function Deadlines(): map<Watcher, real>
      reads this`known, known`active, known`at
    {
      map w | w in known && w.active != 0 :: w.at
    }

    /** No timer is active yet; what is below the heap in its array is never read. */
    constructor (queues: P.Pendings, now: real)
      ensures HeapOk({}) && known == {} && fresh(timers) && this.queues == queues && mnNow == now
    {
      var unused := Entry(queues.dummy, 0.0);
      timers := new Entry[HEAP0](_ => unused);
      timercnt, mnNow, known := 0, now, {};
      this.queues := queues;
    }

    ghost predicate Valid()
      reads this, timers, known`active, known`at, known`repeat, queues, queues.watchers`pending
    {
      HeapOk({}) && queues.Valid() && known <= queues.watchers && forall w | w in known :: w.repeat >= 0.0
    }

    /** Puts the entry at `k` where it belongs. */
    method Settle(k: int, way: Way, ghost out: set<Watcher>)
      requires HeapAround(k, out)
      requires (way.Up? ==> Below(timers[..], timercnt, k)) && (way.Down? ==> Above(timers[..], k))
      modifies timers, known`active
      ensures HeapOk(out) && forall w | w in known :: w.active != 0 <==> old(w.active) != 0
    {
      ghost var s := timers[..];
      assert IndexedAround(s, timercnt, k);
      TimedKnown(k, out);
      match way {
        case Up => UpHeap(timers, timercnt, k);
        case Down => DownHeap(timers, timercnt, k);
        case Either => AdjustHeap(timers, timercnt, k);
      }
      Settled(s, out);
    }

    lemma TimedKnown(k: int, out: set<Watcher>)
      requires HeapAround(k, out)
      ensures Timed(timers[..], timercnt) <= known - out
      ensures forall w | w in known && w !in out :: w in Timed(timers[..], timercnt) <==> w.active != 0
      ensures forall e | e in Live(timers[..], timercnt) :: e.w in known && e.w !in out && e.at == e.w.at
    {
      forall e | e in Live(timers[..], timercnt) ensures e.w in known && e.w !in out && e.at == e.w.at {
        var i :| 0 <= i < timercnt && Live(timers[..], timercnt)[i] == e;
        assert EntryOk(HEAP0 + i, out);
      }
      forall w | w in Timed(timers[..], timercnt) ensures w in known && w !in out && w.active != 0 {
        var i := TimedIndex(timers[..], timercnt, w);
        assert EntryOk(i, out);
      }
      forall w | w in known && w !in out && w.active != 0 ensures w in Timed(timers[..], timercnt) {
        TimedAt(timers[..], timercnt, if w == timers[k].w then k else w.active);
      }
    }

    /** The entries of `s` changed places, and their timers have been told. */
    lemma Settled(s: seq<Entry>, out: set<Watcher>)
      requires HEAP0 + timercnt <= timers.Length == |s| && Permuted(s, timers[..], timercnt)
      requires (forall e | e in Live(s, timercnt) :: e.w in known && e.w !in out && e.at == e.w.at)
      requires Ordered(timers[..], timercnt) && forall i | HEAP0 <= i < HEAP0 + timercnt :: timers[i].w.active == i
      requires forall w | w in known && w !in out && w !in Timed(s, timercnt) :: w.active == 0
      ensures HeapOk(out) && forall w | w in Timed(s, timercnt) :: w.active != 0
    {
      TimedSame(s, timers[..], timercnt);
      forall w | w in Timed(s, timercnt) ensures IndexOk(w) && w.active != 0 {
        var i := TimedIndex(timers[..], timercnt, w);
      }
      SameEntries(s, timers[..], timercnt);
      forall i | HEAP0 <= i < HEAP0 + timercnt ensures EntryOk(i, out) {
        EntryAt(timers[..], timercnt, i);
      }
    }

    /** array_needsize, for one more entry. */
    method NeedSize(filler: Entry)
      requires HeapOk({})
      modifies this`timers
      ensures HeapOk({}) && timers.Length > HEAP0 + timercnt && (timers == old(timers) || fresh(timers))
    {
      if timers.Length <= HEAP0 + timercnt {
        var was := timers;
        timers := new Entry[2 * was.Length + 1](i requires 0 <= i reads was => if i < was.Length then was[i] else filler);
        assert timers[..was.Length] == was[..];
        SameOrder(was[..], timers[..], timercnt);
        assert forall i | HEAP0 <= i < HEAP0 + timercnt :: old(EntryOk(i, {}));
        assert forall w | w in known :: old(IndexOk(w));
      }
    }

    /** The part of ev_timer_start that appends a timer to the array of the heap. */
    method Append(w: Watcher)
      requires HeapOk({}) && w in known && w.active == 0 && timers.Length > HEAP0 + timercnt
      modifies this`timercnt, timers, w`active
      ensures w.active != 0 && HeapAround(w.active, {}) && Below(timers[..], timercnt, w.active)
    {
      ghost var s := timers[..];
      timercnt := timercnt + 1;
      w.active := timercnt + HEAP0 - 1;
      timers[w.active] := Entry(w, w.at);
      AppendedOrder(s, timers[..], timercnt - 1);
    }

    /** The last entry takes the place of `w`. */
    method Vacate(w: Watcher) returns (k: int)
      requires HeapOk({}) && w in known && w.active != 0
      modifies this`timercnt, timers
      ensures timercnt == old(timercnt) - 1 && if k == HEAP0 + timercnt then HeapOk({w}) else HeapAround(k, {w})
    {
      ghost var s := timers[..];
      assert IndexOk(w);
      k := w.active;
      timercnt := timercnt - 1;
      RemovedOrder(s, timercnt, k);
      if k < timercnt + HEAP0 {
        assert EntryOk(timercnt + HEAP0, {});
        timers[k] := timers[timercnt + HEAP0];
        assert timers[..] == s[k := s[timercnt + HEAP0]];
      }
    }

    /** The part of ev_timer_stop that takes an active timer out of the heap. */
    method Remove(w: Watcher)
      requires HeapOk({}) && w in known && w.active != 0
      modifies this`timercnt, timers, known`active
      ensures HeapOk({w}) && timercnt == old(timercnt) - 1
      ensures forall v | v in known && v != w :: v.active != 0 <==> old(v.active) != 0
    {
      var k := Vacate(w);
      if k != timercnt + HEAP0 {
        Settle(k, Either, {w});
      }
    }

    /** No timer but `w` was started or stopped. */
    ghost predicate SameActive(was: map<Watcher, real>, w: Watcher)
      reads this`known, known`active
    {
      forall v | v in known && v != w :: v.active != 0 <==> v in was
    }

    lemma DeadlinesAre(m: map<Watcher, real>)
      requires m.Keys <= known && forall w | w in known :: (w.active != 0 <==> w in m) && (w in m ==> m[w] == w.at)
      ensures Deadlines() == m
    {
    }

    /** The part of ev_timer_start for a timer that is not active. */
    method Insert(w: Watcher)
      requires HeapOk({}) && w in known && w.active == 0
      modifies this`timers, this`timercnt, timers, known`active, w`at
      ensures HeapOk({}) && (timers == old(timers) || fresh(timers)) && w.active != 0 && w.at == old(w.at) + mnNow
      ensures forall v | v in known && v != w :: v.active != 0 <==> old(v.active) != 0
    {
      w.at := w.at + mnNow;
      NeedSize(Entry(w, w.at));
      Append(w);
      Settle(w.active, Up, {});
    }

    /** ev_timer_start: a timer is due so long after now; one that is active stays as it is. */
    method Start(w: Watcher)
      requires Valid() && w in known
      modifies this`timers, this`timercnt, timers, known`active, w`at
      ensures Valid() && (timers == old(timers) || fresh(timers))
      ensures Deadlines() == if old(w.active) != 0 then old(Deadlines()) else old(Deadlines())[w := old(w.at) + mnNow]
      ensures w.active != 0 && (old(w.active) == 0 ==> w.at == old(w.at) + mnNow) && SameActive(old(Deadlines()), w)
    {
      ghost var was := Deadlines();
      if w.active != 0 { return; }
      Insert(w);
      DeadlinesAre(was[w := w.at]);
    }

    /** The part of ev_timer_stop for an active timer. */
    method Extract(w: Watcher)
      requires HeapOk({}) && w in known && w.active != 0
      modifies this`timercnt, timers, known`active, w`at
      ensures HeapOk({}) && w.active == 0 && w.at == old(w.at) - mnNow
      ensures forall v | v in known && v != w :: v.active != 0 <==> old(v.active) != 0
    {
      Remove(w);
      w.at := w.at - mnNow;
      w.active := 0;
    }

    lemma StoppedAre(was: map<Watcher, real>, w: Watcher)
      requires SameActive(was, w) && w.active == 0 && was.Keys <= known && forall v | v in was && v != w :: was[v] == v.at
      ensures Deadlines() == was - {w}
    {
    }

    /** ev_timer_stop: a timer keeps the time that remained to it. */
    method Stop(w: Watcher)
      requires Valid() && w in known
      modifies this`timercnt, timers, known`active, w`at, queues`pendings, w`pending
      ensures Valid() && w.active == 0
      ensures Deadlines() == old(Deadlines()) - {w} && w.at == old(w.at) - if old(w.active) != 0 then mnNow else 0.0
      ensures queues.pendings == P.Cleared(old(queues.pendings), w, queues.dummy) && SameActive(old(Deadlines()), w)
    {
      queues.ClearPending(w);
      Deactivate(w);
    }

    /** The part of ev_timer_stop after the pending event was cleared. */
    method Deactivate(w: Watcher)
      requires Valid() && w in known
      modifies this`timercnt, timers, known`active, w`at
      ensures Valid() && w.active == 0 && SameActive(old(Deadlines()), w)
      ensures Deadlines() == old(Deadlines()) - {w} && w.at == old(w.at) - if old(w.active) != 0 then mnNow else 0.0
    {
      ghost var was := Deadlines();
      if w.active != 0 {
        Extract(w);
      }
      assert SameActive(was, w);
      StoppedAre(was, w);
    }

    /** An active timer gets another time, in its entry as well. */
    method Retime(w: Watcher, at: real, way: Way)
      requires HeapOk({}) && w in known && w.active != 0 && !way.Up? && (way.Down? ==> w.active == HEAP0)
      modifies timers, known`active, w`at
      ensures HeapOk({}) && w.at == at && forall v | v in known :: v.active != 0 <==> old(v.active) != 0
    {
      ghost var s := timers[..];
      assert IndexOk(w);
      var k := w.active;
      w.at := at;
      timers[k] := Entry(w, at);
      assert timers[..] == s[k := Entry(w, at)];
      Replaced(s, timercnt, k, Entry(w, at));
      Settle(k, way, {});
    }

    lemma DueAgainAre(was: map<Watcher, real>, w: Watcher)
      requires w in known && SameActive(was, w) && was.Keys <= known && forall v | v in was && v != w :: was[v] == v.at
      requires (w.active != 0 <==> w.repeat != 0.0) && (w.active != 0 ==> w.at == mnNow + w.repeat)
      ensures Deadlines() == if w.repeat != 0.0 then was[w := mnNow + w.repeat] else was - {w}
    {
    }

    /** ev_timer_again: a repeating timer is due one interval from now, another one is stopped. */
    method Again(w: Watcher)
      requires Valid() && w in known
      modifies this`timers, this`timercnt, timers, known`active, w`at, queues`pendings, w`pending
      ensures Valid() && (timers == old(timers) || fresh(timers))
      ensures Deadlines() == if w.repeat != 0.0 then old(Deadlines())[w := mnNow + w.repeat] else old(Deadlines()) - {w}
      ensures queues.pendings == P.Cleared(old(queues.pendings), w, queues.dummy)
    {
      queues.ClearPending(w);
      P.LinkedIsFound(queues.pendings, w, w.pending);
      Rearm(w);
    }

    /** The part of ev_timer_again after the pending event was cleared. */
    method Rearm(w: Watcher)
      requires Valid() && w in known && w.pending == 0 && !P.Queued(queues.pendings, w)
      modifies this`timers, this`timercnt, timers, known`active, w`at, queues`pendings, w`pending
      ensures Valid() && (timers == old(timers) || fresh(timers))
      ensures Deadlines() == if w.repeat != 0.0 then old(Deadlines())[w := mnNow + w.repeat] else old(Deadlines()) - {w}
      ensures queues.pendings == old(queues.pendings)
    {
      ghost var was := Deadlines();
      if w.active != 0 {
        if w.repeat != 0.0 {
          Retime(w, mnNow + w.repeat, Either);
        } else {
          Stop(w);
        }
      } else if w.repeat != 0.0 {
        w.at := w.repeat;
        Start(w);
      }
      assert SameActive(was, w);
      DueAgainAre(was, w);
    }

    ghost function Repeats(): map<Watcher, real>
      reads this`known, known`repeat
    {
      map w | w in known :: w.repeat
    }

    lemma RootIsDue()
      requires HeapOk({}) && timercnt > 0
      ensures timers[HEAP0].w in Deadlines() && Deadlines()[timers[HEAP0].w] == timers[HEAP0].at
      ensures Least(Deadlines(), timers[HEAP0].w)
    {
      assert EntryOk(HEAP0, {});
      forall v | v in Deadlines() ensures timers[HEAP0].at <= v.at {
        assert IndexOk(v) && EntryOk(v.active, {});
        RootIsLeast(timers[..], timercnt, v.active);
      }
    }

    /** When the root is not due, nothing is. */
    lemma NoneIsDue()
      requires HeapOk({}) && (timercnt > 0 ==> timers[HEAP0].at >= mnNow)
      ensures NotBefore(Deadlines(), mnNow)
    {
      if timercnt > 0 {
        RootIsDue();
      }
    }

    lemma ExpiredAre(was: map<Watcher, real>, w: Watcher)
      requires w in known && w in was && SameActive(was, w) && was.Keys <= known && forall v | v in was && v != w :: was[v] == v.at
      requires (w.active != 0 <==> w.repeat != 0.0) && (w.active != 0 ==> w.at == Max(was[w] + w.repeat, mnNow))
      ensures Deadlines() == Expired(was, w, w.repeat, mnNow)
    {
    }

    /** The body of the loop in timers_reify, but for feed_reverse: the root is rescheduled or stopped. */
    method Expire(w: Watcher)
      requires Valid() && timercnt > 0 && timers[HEAP0].w == w && timers[HEAP0].at < mnNow
      modifies this`timercnt, timers, known`active, known`at, queues`pendings, w`pending
      ensures Valid() && w in known && w in old(Deadlines()) && Deadlines() == Expired(old(Deadlines()), w, w.repeat, mnNow)
      ensures queues.pendings == if w.repeat != 0.0 then old(queues.pendings) else P.Cleared(old(queues.pendings), w, queues.dummy)
    {
      RootIsDue();
      ghost var was := Deadlines();
      if w.repeat != 0.0 {
        var at := w.at + w.repeat;
        if at < mnNow { at := mnNow; }
        Retime(w, at, Down);
        assert SameActive(was, w);
      } else {
        Stop(w);
      }
      ExpiredAre(was, w);
    }

    /** `fired` is rescheduled or stopped, and cleared. */
    ghost predicate Firing(was: map<Watcher, real>, qs: P.Queues, fired: seq<Watcher>, repeats: map<Watcher, real>)
      reads this`known, this`mnNow, known`active, known`at, queues`pendings
    {
      && EachLeast(was, fired, repeats, mnNow)
      && Deadlines() == ExpiredAll(was, fired, repeats, mnNow)
      && queues.pendings == ClearedAll(qs, fired, repeats, queues.dummy)
    }

    /** The body of the loop in timers_reify, up to feed_reverse. */
    method FireRoot(ghost was: map<Watcher, real>, ghost qs: P.Queues, ghost fired: seq<Watcher>, ghost repeats: map<Watcher, real>)
      returns (w: Watcher)
      requires Valid() && timercnt > 0 && timers[HEAP0].at < mnNow && repeats == Repeats() && Firing(was, qs, fired, repeats)
      modifies this`timercnt, timers, known`active, known`at, queues`pendings, known`pending
      ensures Valid() && w in known && w in was && w !in fired && Firing(was, qs, fired + [w], repeats)
      ensures repeats == Repeats()
    {
      RootIsDue();
      w := timers[HEAP0].w;
      FiresOnce(was, fired, w, repeats, mnNow);
      OneMore(was, qs, fired, w, repeats, mnNow, queues.dummy);
      Expire(w);
    }

    /** The body of the loop in timers_reify. */
    method FireNext(ghost was: map<Watcher, real>, ghost qs: P.Queues, ghost fired: seq<Watcher>, ghost repeats: map<Watcher, real>)
      returns (w: Watcher)
      requires Valid() && timercnt > 0 && timers[HEAP0].at < mnNow && repeats == Repeats() && Firing(was, qs, fired, repeats)
      modifies this`timercnt, timers, known`active, known`at, queues`pendings, queues`rfeeds, known`pending
      ensures Valid() && w in was && w !in fired && Firing(was, qs, fired + [w], repeats) && queues.rfeeds == old(queues.rfeeds) + [w]
      ensures repeats == Repeats()
    {
      w := FireRoot(was, qs, fired, repeats);
      FeedFired(w);
    }

    method FeedFired(w: Watcher)
      requires Valid() && w in known
      modifies queues`rfeeds
      ensures Valid() && queues.rfeeds == old(queues.rfeeds) + [w]
      ensures Deadlines() == old(Deadlines()) && Repeats() == old(Repeats()) && queues.pendings == old(queues.pendings)
    {
      queues.FeedReverse(w);
    }

    /** The loop of timers_reify. */
    method FireAll(ghost repeats: map<Watcher, real>) returns (ghost fired: seq<Watcher>)
      requires Valid() && queues.rfeeds == [] && timercnt > 0 && timers[HEAP0].at < mnNow && repeats == Repeats()
      modifies this`timercnt, timers, known`active, known`at, queues`pendings, queues`rfeeds, known`pending
      ensures Valid() && queues.rfeeds == fired != [] && (timercnt > 0 ==> timers[HEAP0].at >= mnNow)
      ensures Firing(old(Deadlines()), old(queues.pendings), fired, repeats)
    {
      ghost var was, qs := Deadlines(), queues.pendings;
      ghost var todo := was.Keys;
      fired := [];
      while true
        invariant Valid() && timercnt > 0 && timers[HEAP0].at < mnNow && Firing(was, qs, fired, repeats)
        invariant queues.rfeeds == fired && todo == was.Keys - Elements(fired) && repeats == Repeats()
        decreases |todo|
      {
        var w := FireNext(was, qs, fired, repeats);
        FiredOne(was.Keys, fired, w);
        fired, todo := fired + [w], todo - {w};
        if !(timercnt > 0 && timers[HEAP0].at < mnNow) { break; }
      }
    }

    /** timers_reify. */
    method Reify() returns (ghost fired: seq<Watcher>)
      requires Valid() && queues.rfeeds == []
      modifies this`timercnt, timers, known`active, known`at
      modifies queues`pendings, queues`pendingpri, queues`rfeeds, queues.watchers`pending
      ensures Valid() && queues.rfeeds == [] && EachLeast(old(Deadlines()), fired, old(Repeats()), mnNow)
      ensures Deadlines() == ExpiredAll(old(Deadlines()), fired, old(Repeats()), mnNow)
      ensures NotBefore(Deadlines(), mnNow)
      ensures queues.pendings == P.FedBack(ClearedAll(old(queues.pendings), fired, old(Repeats()), queues.dummy), fired, EV_TIMER)
    {
      fired := [];
      if timercnt > 0 && timers[HEAP0].at < mnNow {
        fired := FireAll(Repeats());
        queues.FeedReverseDone(EV_TIMER);
      }
      NoneIsDue();
    }
  }

  const EV_TIMER: P.Events := {8}

  ghost predicate Least(d: map<Watcher, real>, w: Watcher) {
    w in d && forall v | v in d :: d[w] <= d[v]
  }

  function Max(a: real, b: real): real {
    if a < b then b else a
  }

  /** A timer that was due: a repeating one is due again one interval later, but not before now. */
  function Expired(d: map<Watcher, real>, w: Watcher, repeat: real, now: real): map<Watcher, real> {
    if w !in d then d else if repeat != 0.0 then d[w := Max(d[w] + repeat, now)] else d - {w}
  }

  ghost predicate NotBefore(d: map<Watcher, real>, now: real) {
    forall v | v in d :: d[v] >= now
  }

  function ExpiredAll(was: map<Watcher, real>, ws: seq<Watcher>, repeats: map<Watcher, real>, now: real): map<Watcher, real> {
    if ws == [] then was
    else
      var w, d := P.Last(ws), ExpiredAll(was, ws[..|ws| - 1], repeats, now);
      if w in repeats then Expired(d, w, repeats[w], now) else d
  }

  /** Each of `ws` had the earliest deadline, and that before now, when its turn came. */
  ghost predicate EachLeast(was: map<Watcher, real>, ws: seq<Watcher>, repeats: map<Watcher, real>, now: real) {
    ws == [] ||
    var w, d := P.Last(ws), ExpiredAll(was, ws[..|ws| - 1], repeats, now);
    EachLeast(was, ws[..|ws| - 1], repeats, now) && w in repeats && Least(d, w) && d[w] < now
  }

  /** The pending queues when those of `ws` that do not repeat were stopped. */
  function ClearedAll(qs: P.Queues, ws: seq<Watcher>, repeats: map<Watcher, real>, dummy: Watcher): P.Queues {
    if ws == [] then qs
    else
      var w, before := P.Last(ws), ClearedAll(qs, ws[..|ws| - 1], repeats, dummy);
      if w in repeats && repeats[w] != 0.0 then before else P.Cleared(before, w, dummy)
  }

  function Elements<T(==)>(s: seq<T>): set<T> {
    set x | x in s
  }

  lemma FiredOne<T>(s: set<T>, ws: seq<T>, w: T)
    requires w in s && w !in ws
    ensures s - Elements(ws + [w]) == s - Elements(ws) - {w} && w in s - Elements(ws)
  {
  }

  /** One more timer fires. */
  lemma OneMore(was: map<Watcher, real>, qs: P.Queues, ws: seq<Watcher>, w: Watcher, repeats: map<Watcher, real>, now: real, dummy: Watcher)
    requires w in repeats
    ensures ExpiredAll(was, ws + [w], repeats, now) == Expired(ExpiredAll(was, ws, repeats, now), w, repeats[w], now)
    ensures ClearedAll(qs, ws + [w], repeats, dummy)
      == var before := ClearedAll(qs, ws, repeats, dummy); if repeats[w] != 0.0 then before else P.Cleared(before, w, dummy)
    ensures EachLeast(was, ws + [w], repeats, now)
      <==> EachLeast(was, ws, repeats, now) && Least(ExpiredAll(was, ws, repeats, now), w) && ExpiredAll(was, ws, repeats, now)[w] < now
  {
    assert (ws + [w])[..|ws|] == ws;
  }

  /** From the deadlines `was`, the timers `ws` fired in this order, each once, and left the deadlines `d`. */
  ghost predicate Fires(was: map<Watcher, real>, d: map<Watcher, real>, ws: seq<Watcher>, repeats: map<Watcher, real>, now: real) {
    FiresInOrder(was, ws, now) && Earliest(was, ws) && Leaves(was, d, ws, repeats, now)
  }

  ghost predicate FiresInOrder(was: map<Watcher, real>, ws: seq<Watcher>, now: real) {
    && (forall w | w in ws :: w in was && was[w] < now)
    && (forall i, j | 0 <= i < j < |ws| :: ws[i] != ws[j] && was[ws[i]] <= was[ws[j]])
  }

  ghost predicate Earliest(was: map<Watcher, real>, ws: seq<Watcher>) {
    forall v, w | v in ws && w in was && w !in ws :: v in was && was[v] <= was[w]
  }

  ghost predicate Leaves(was: map<Watcher, real>, d: map<Watcher, real>, ws: seq<Watcher>, repeats: map<Watcher, real>, now: real) {
    && (forall w | w in d :: w in was)
    && (forall w | w in was && w !in ws :: w in d && d[w] == was[w])
    && (forall w | w in ws && w in was ::
          if w in repeats && repeats[w] != 0.0 then
            w in d && d[w] == if was[w] + repeats[w] < now then now else was[w] + repeats[w]
          else w !in d)
  }

  lemma Member<T>(ws: seq<T>, w: T)
    ensures forall v | v in ws + [w] :: v in ws || v == w
    ensures w in ws + [w] && forall v | v in ws :: v in ws + [w]
  {
  }

  lemma FiresOn(was: map<Watcher, real>, d: map<Watcher, real>, ws: seq<Watcher>, w: Watcher, repeats: map<Watcher, real>, now: real)
    requires Fires(was, d, ws, repeats, now) && Least(d, w) && d[w] < now && w in repeats
    ensures w in was && w !in ws && Fires(was, Expired(d, w, repeats[w], now), ws + [w], repeats, now)
  {
    assert w in was && w !in ws && d[w] == was[w];
    FiresInOrderOn(was, ws, w, now);
    EarliestOn(was, d, ws, w, repeats, now);
    LeavesOn(was, d, ws, w, repeats, now);
  }

  lemma FiresInOrderOn(was: map<Watcher, real>, ws: seq<Watcher>, w: Watcher, now: real)
    requires FiresInOrder(was, ws, now) && Earliest(was, ws) && w in was && w !in ws && was[w] < now
    ensures FiresInOrder(was, ws + [w], now)
  {
    Member(ws, w);
  }

  lemma EarliestOn(was: map<Watcher, real>, d: map<Watcher, real>, ws: seq<Watcher>, w: Watcher, repeats: map<Watcher, real>, now: real)
    requires Earliest(was, ws) && Leaves(was, d, ws, repeats, now) && Least(d, w) && w in was && d[w] == was[w]
    ensures Earliest(was, ws + [w])
  {
    Member(ws, w);
  }

  lemma LeavesOn(was: map<Watcher, real>, d: map<Watcher, real>, ws: seq<Watcher>, w: Watcher, repeats: map<Watcher, real>, now: real)
    requires Leaves(was, d, ws, repeats, now) && w in d && w in was && w !in ws && w in repeats
    ensures Leaves(was, Expired(d, w, repeats[w], now), ws + [w], repeats, now)
  {
    Member(ws, w);
  }

  lemma {:induction false} AllFire(was: map<Watcher, real>, ws: seq<Watcher>, repeats: map<Watcher, real>, now: real)
    requires EachLeast(was, ws, repeats, now)
    ensures Fires(was, ExpiredAll(was, ws, repeats, now), ws, repeats, now)
  {
    if ws != [] {
      AllFire(was, ws[..|ws| - 1], repeats, now);
      LastFires(was, ws[..|ws| - 1], P.Last(ws), ws, repeats, now);
    }
  }

  lemma LastFires(was: map<Watcher, real>, before: seq<Watcher>, w: Watcher, ws: seq<Watcher>, repeats: map<Watcher, real>, now: real)
    requires ws != [] && before == ws[..|ws| - 1] && w == P.Last(ws) && EachLeast(was, ws, repeats, now)
    requires Fires(was, ExpiredAll(was, before, repeats, now), before, repeats, now)
    ensures Fires(was, ExpiredAll(was, ws, repeats, now), ws, repeats, now)
  {
    assert ws == before + [w];
    FiresOn(was, ExpiredAll(was, before, repeats, now), before, w, repeats, now);
  }

  /** No timer fires twice in a round. */
  lemma FiresOnce(was: map<Watcher, real>, ws: seq<Watcher>, w: Watcher, repeats: map<Watcher, real>, now: real)
    requires EachLeast(was, ws, repeats, now) && w in repeats
    requires Least(ExpiredAll(was, ws, repeats, now), w) && ExpiredAll(was, ws, repeats, now)[w] < now
    ensures w in was && w !in ws
  {
    AllFire(was, ws, repeats, now);
    FiresOn(was, ExpiredAll(was, ws, repeats, now), ws, w, repeats, now);
  }

  /** Exactly the timers fire whose deadline was before now, in the order of their deadlines, each once; one
      that repeats is due again an interval later, but not before now, and nothing else is due any more. */
  lemma ExactlyTheDue(was: map<Watcher, real>, ws: seq<Watcher>, repeats: map<Watcher, real>, now: real)
    requires EachLeast(was, ws, repeats, now) && NotBefore(ExpiredAll(was, ws, repeats, now), now)
    ensures Fires(was, ExpiredAll(was, ws, repeats, now), ws, repeats, now)
    ensures forall w | w in was :: w in ws <==> was[w] < now
  {
    AllFire(was, ws, repeats, now);
  }

  datatype Way = Up | Down | Either

  lemma SameOrder(s: seq<Entry>, t: seq<Entry>, n: nat)
    requires HEAP0 + n <= |s| <= |t| && t[..|s|] == s && Ordered(s, n)
    ensures Ordered(t, n)
  {
    forall i | HEAP0 < i < HEAP0 + n ensures InOrder(t, i) {
      Parents(HEAP0, i);
      assert InOrder(s, i) && t[..|s|][i] == t[i] && t[..|s|][Parent(i)] == t[Parent(i)];
    }
  }

  /** A leaf that is appended is above nothing. */
  lemma AppendedOrder(s: seq<Entry>, t: seq<Entry>, n: nat)
    requires HEAP0 + n <= |s| && HEAP0 + n + 1 <= |t| && (forall i | 0 <= i < HEAP0 + n :: t[i] == s[i]) && Ordered(s, n)
    ensures OrderedAround(t, n + 1, HEAP0 + n) && Below(t, n + 1, HEAP0 + n)
  {
    forall i | HEAP0 < i < HEAP0 + n + 1 ensures Parent(i) < i && (i < HEAP0 + n ==> InOrder(s, i)) {
      Parents(HEAP0, i);
    }
  }

  /** The last entry takes the place of the one that leaves. */
  lemma RemovedOrder(s: seq<Entry>, n: nat, k: int)
    requires HEAP0 + n + 1 <= |s| && HEAP0 <= k < HEAP0 + n + 1 && Ordered(s, n + 1)
    ensures Ordered(s, n) && (k < HEAP0 + n ==> OrderedAround(s[k := s[n + HEAP0]], n, k))
  {
    forall i | HEAP0 < i < HEAP0 + n ensures InOrder(s, i) {
    }
    if k < HEAP0 + n {
      Replaced(s, n, k, s[n + HEAP0]);
    }
  }
}
