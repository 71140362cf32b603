/** In what order the timers that timers_reify found due are invoked: it feeds them from the last to the first,
    and the pending queues are emptied from their ends. */
module TimerOrder {
  import opened Watchers
  import opened Pending
  import T = Timers

  function Watching(q: seq<Slot>): (r: seq<Watcher>)
    ensures |r| == |q| && forall i | 0 <= i < |q| :: r[i] == q[i].w
  {
    seq(|q|, i requires 0 <= i < |q| => q[i].w)
  }

  function Reversed(ws: seq<Watcher>): (r: seq<Watcher>)
    ensures |r| == |ws|
  {
    if ws == [] then [] else [Last(ws)] + Reversed(ws[..|ws| - 1])
  }

  /** Those of `ws` that have the priority `p` and are not queued yet. */
  function NewOnes(qs: Queues, ws: seq<Watcher>, p: Priority): (r: seq<Watcher>)
    ensures forall w | w in r :: w in ws && w.priority == p
  {
    if ws == [] then []
    else
      NewOnes(qs, ws[..|ws| - 1], p) + if Last(ws).priority == p && !Queued(qs, Last(ws)) then [Last(ws)] else []
  }

  lemma FedWatching(qs: Queues, w: Watcher, events: Events, p: Priority)
    ensures Watching(Fed(qs, w, events)[p]) == Watching(qs[p]) + if w.priority == p && !Queued(qs, w) then [w] else []
  {
  }

  lemma FedQueued(qs: Queues, w: Watcher, events: Events, v: Watcher)
    requires v != w
    ensures Queued(Fed(qs, w, events), v) == Queued(qs, v)
  {
    var q, r := qs[v.priority], Fed(qs, w, events)[v.priority];
    assert forall i | 0 <= i < |r| :: r[i].w == v <==> i < |q| && q[i].w == v;
    if Queued(qs, v) {
      StaysQueued(qs, Fed(qs, w, events), v);
    } else {
      assert forall i | 0 <= i < |q| :: q[i].w != v;
    }
  }

  lemma {:induction false} NewOnesSame(qs: Queues, rs: Queues, ws: seq<Watcher>, p: Priority)
    requires forall w | w in ws :: Queued(rs, w) == Queued(qs, w)
    ensures NewOnes(rs, ws, p) == NewOnes(qs, ws, p)
  {
    if ws != [] {
      NewOnesSame(qs, rs, ws[..|ws| - 1], p);
    }
  }

  /** Feeding from the end appends those that are new, the last one first. */
  lemma {:induction false} FedBackWatching(qs: Queues, ws: seq<Watcher>, events: Events, p: Priority)
    requires forall i, j | 0 <= i < j < |ws| :: ws[i] != ws[j]
    ensures Watching(FedBack(qs, ws, events)[p]) == Watching(qs[p]) + Reversed(NewOnes(qs, ws, p))
    decreases |ws|
  {
    if ws != [] {
      var w, before := Last(ws), ws[..|ws| - 1];
      var fed := Fed(qs, w, events);
      FedWatching(qs, w, events, p);
      forall v | v in before ensures Queued(fed, v) == Queued(qs, v) {
        FedQueued(qs, w, events, v);
      }
      NewOnesSame(qs, fed, before, p);
      FedBackWatching(fed, before, events, p);
      Prepended(Watching(qs[p]), if w.priority == p && !Queued(qs, w) then [w] else [], NewOnes(qs, before, p));
    }
  }

  lemma Prepended(q: seq<Watcher>, a: seq<Watcher>, n: seq<Watcher>)
    requires |a| <= 1
    ensures (q + a) + Reversed(n) == q + Reversed(n + a)
  {
    if a == [] {
      assert n + a == n;
    } else {
      assert (n + a)[..|n|] == n;
    }
  }

  /** A queue that ends with `ws` backwards is emptied with `ws` forwards. */
  lemma {:induction false} BackwardsWatching(q: seq<Slot>, base: seq<Watcher>, ws: seq<Watcher>, dummy: Watcher)
    requires Watching(q) == base + Reversed(ws) && dummy !in ws
    ensures Watching(Backwards(q, dummy)) == ws + Watching(Backwards(q[..|base|], dummy))
    decreases |ws|
  {
    if ws == [] {
      assert q[..|base|] == q;
    } else {
      var n := |q| - 1;
      ReversedEnds(ws);
      assert Watching(q)[n] == ws[0];
      assert Watching(q[..n]) == base + Reversed(ws[1..]);
      BackwardsWatching(q[..n], base, ws[1..], dummy);
      assert q[..n][..|base|] == q[..|base|];
      var rest := Backwards(q[..n], dummy);
      assert Watching([q[n]] + rest) == [q[n].w] + Watching(rest);
      assert ws == [ws[0]] + ws[1..];
    }
  }

  lemma {:induction false} ReversedEnds(ws: seq<Watcher>)
    requires ws != []
    ensures Reversed(ws) == Reversed(ws[1..]) + [ws[0]]
  {
    if |ws| > 1 {
      ReversedEnds(ws[..|ws| - 1]);
      assert ws[..|ws| - 1][1..] == ws[1..][..|ws| - 2];
    }
  }

  ghost predicate ByDeadline(was: map<Watcher, real>, ws: seq<Watcher>) {
    forall i, j | 0 <= i < j < |ws| :: ws[i] in was && ws[j] in was && was[ws[i]] <= was[ws[j]]
  }

  lemma {:induction false} NewOnesByDeadline(was: map<Watcher, real>, qs: Queues, ws: seq<Watcher>, p: Priority)
    requires (forall w | w in ws :: w in was) && ByDeadline(was, ws)
    ensures ByDeadline(was, NewOnes(qs, ws, p))
  {
    if ws != [] {
      var before := ws[..|ws| - 1];
      NewOnesByDeadline(was, qs, before, p);
      forall v | v in NewOnes(qs, before, p) ensures was[v] <= was[Last(ws)] {
        var i :| 0 <= i < |before| && before[i] == v;
        assert ws[i] == v;
      }
    }
  }

  lemma FedKeepsAhead(qs: Queues, x: Watcher, events: Events, v: Watcher, w: Watcher)
    requires Ahead(qs, v, w)
    ensures Ahead(Fed(qs, x, events), v, w)
  {
    StaysQueued(qs, Fed(qs, x, events), w);
    StaysAhead(qs, Fed(qs, x, events), v, w);
  }

  lemma {:induction false} FedBackKeepsAhead(qs: Queues, ws: seq<Watcher>, events: Events, v: Watcher, w: Watcher)
    requires Ahead(qs, v, w)
    ensures Ahead(FedBack(qs, ws, events), v, w)
    decreases |ws|
  {
    if ws != [] {
      FedKeepsAhead(qs, Last(ws), events, v, w);
      FedBackKeepsAhead(Fed(qs, Last(ws), events), ws[..|ws| - 1], events, v, w);
    }
  }

  /** A watcher that was not queued gets ahead of those that were, and of those that stand behind it in `ws`. */
  lemma {:induction false} NewIsAhead(qs: Queues, ws: seq<Watcher>, events: Events, i: nat, w: Watcher)
    requires i < |ws| && (forall j, k | 0 <= j < k < |ws| :: ws[j] != ws[k])
    requires !Queued(qs, ws[i]) && w.priority == ws[i].priority && (w in ws[i + 1..] || Queued(qs, w))
    ensures Ahead(FedBack(qs, ws, events), ws[i], w)
    decreases |ws|
  {
    var v, x, before := ws[i], Last(ws), ws[..|ws| - 1];
    var fed := Fed(qs, x, events);
    if i == |ws| - 1 {
      AppendedIsAhead(qs, v, events, w);
      FedBackKeepsAhead(fed, before, events, v, w);
    } else {
      FedQueued(qs, x, events, v);
      if w == x {
        FedIsQueued(qs, x, events);
      } else if Queued(qs, w) {
        FedQueued(qs, x, events, w);
      } else {
        var j :| 0 <= j < |ws[i + 1..]| && ws[i + 1..][j] == w;
        assert before[i + 1..][j] == w;
      }
      NewIsAhead(fed, before, events, i, w);
    }
  }

  lemma FedIsQueued(qs: Queues, w: Watcher, events: Events)
    ensures Queued(Fed(qs, w, events), w) && events <= Held(Fed(qs, w, events), w)
  {
    var i := Find(qs[w.priority], w);
    assert Fed(qs, w, events)[w.priority][i].w == w;
  }

  lemma AppendedIsAhead(qs: Queues, v: Watcher, events: Events, w: Watcher)
    requires !Queued(qs, v) && w.priority == v.priority && Queued(qs, w)
    ensures Ahead(Fed(qs, v, events), v, w)
  {
    FedIsQueued(qs, v, events);
    FedQueued(qs, v, events, w);
    var q := Fed(qs, v, events)[v.priority];
    assert forall i | 0 <= i < |q| :: q[i].w == v <==> i == |q| - 1;
  }

  /** Everything that was fed is queued with its events. */
  lemma {:induction false} FedBackHolds(qs: Queues, ws: seq<Watcher>, events: Events, w: Watcher, dummy: Watcher)
    requires AllPlaced(qs, dummy) && dummy !in ws && w != dummy
    ensures AllPlaced(FedBack(qs, ws, events), dummy)
    ensures w in ws || (Queued(qs, w) && events <= Held(qs, w))
      ==> Queued(FedBack(qs, ws, events), w) && events <= Held(FedBack(qs, ws, events), w)
    decreases |ws|
  {
    if ws != [] {
      var x, fed := Last(ws), Fed(qs, Last(ws), events);
      assert ws == ws[..|ws| - 1] + [x];
      FedIsQueued(qs, x, events);
      if Queued(qs, w) {
        StaysQueued(qs, fed, w);
      }
      FedBackHolds(fed, ws[..|ws| - 1], events, w, dummy);
    }
  }

  lemma {:induction false} ClearedAllPlaced(qs: Queues, ws: seq<Watcher>, repeats: map<Watcher, real>, dummy: Watcher)
    requires AllPlaced(qs, dummy)
    ensures AllPlaced(T.ClearedAll(qs, ws, repeats, dummy), dummy)
  {
    if ws != [] {
      ClearedAllPlaced(qs, ws[..|ws| - 1], repeats, dummy);
    }
  }

  /** The queues that timers_reify leaves. */
  function Reified(qs: Queues, ws: seq<Watcher>, repeats: map<Watcher, real>, dummy: Watcher): Queues {
    FedBack(T.ClearedAll(qs, ws, repeats, dummy), ws, T.EV_TIMER)
  }

  // ---------- with which events ----------

  /** A watcher has one slot at most. */
  ghost predicate Once(qs: Queues, w: Watcher) {
    forall i, j | 0 <= i < j < |qs[w.priority]| :: !(qs[w.priority][i].w == w && qs[w.priority][j].w == w)
  }

  lemma ClearedHolds(qs: Queues, x: Watcher, w: Watcher, dummy: Watcher)
    requires Once(qs, w) && w != dummy
    ensures var to := Cleared(qs, x, dummy);
      && Once(to, w) && (if x == w then !Queued(to, w) else Queued(to, w) <==> Queued(qs, w))
      && (x != w && Queued(qs, w) ==> Held(to, w) == Held(qs, w))
  {
    var q, r := qs[w.priority], Cleared(qs, x, dummy)[w.priority];
    assert forall i | 0 <= i < |r| :: r[i].w == w ==> q[i].w == w;
    if x == w {
      assert forall i | 0 <= i < |r| :: r[i].w != w;
    } else {
      assert forall i | 0 <= i < |r| :: q[i].w == w ==> r[i] == q[i];
      if Queued(qs, w) {
        StaysQueued(qs, Cleared(qs, x, dummy), w);
      }
    }
  }

  predicate Repeating(repeats: map<Watcher, real>, w: Watcher) {
    w in repeats && repeats[w] != 0.0
  }

  lemma {:induction false} ClearedAllHolds(qs: Queues, ws: seq<Watcher>, repeats: map<Watcher, real>, w: Watcher, dummy: Watcher)
    requires Once(qs, w) && w != dummy
    ensures var to := T.ClearedAll(qs, ws, repeats, dummy);
      && Once(to, w) && (if w in ws && !Repeating(repeats, w) then !Queued(to, w) else Queued(to, w) <==> Queued(qs, w))
      && (Queued(to, w) ==> Held(to, w) == Held(qs, w))
  {
    if ws != [] {
      var before := ws[..|ws| - 1];
      ClearedAllHolds(qs, before, repeats, w, dummy);
      assert ws == before + [Last(ws)];
      if !Repeating(repeats, Last(ws)) {
        ClearedHolds(T.ClearedAll(qs, before, repeats, dummy), Last(ws), w, dummy);
      }
    }
  }

  lemma {:induction false} FedBackHeld(qs: Queues, ws: seq<Watcher>, events: Events, w: Watcher)
    requires forall i, j | 0 <= i < j < |ws| :: ws[i] != ws[j]
    ensures var to := FedBack(qs, ws, events);
      && (Queued(to, w) <==> w in ws || Queued(qs, w))
      && (Queued(to, w) ==> Held(to, w) == (if Queued(qs, w) then Held(qs, w) else {}) + if w in ws then events else {})
    decreases |ws|
  {
    if ws != [] {
      var x, before := Last(ws), ws[..|ws| - 1];
      FedBackHeld(Fed(qs, x, events), before, events, w);
      assert ws == before + [x];
      if x == w {
        FedHolds(qs, w, events);
        assert w !in before;
      } else {
        FedOthers(qs, x, events, w);
      }
    }
  }

  /** A timer that fired is pending with EV_TIMER, on top of what it had pending if it repeats, and with nothing else
      if it was stopped; whatever did not fire is pending as before. */
  lemma ReifiedHolds(was: map<Watcher, real>, qs: Queues, ws: seq<Watcher>, repeats: map<Watcher, real>, now: real,
                     w: Watcher, dummy: Watcher)
    requires T.EachLeast(was, ws, repeats, now) && Once(qs, w) && w != dummy
    ensures var to := Reified(qs, ws, repeats, dummy);
      && (Queued(to, w) <==> w in ws || Queued(qs, w))
      && (w in ws ==> Held(to, w) == T.EV_TIMER + if Repeating(repeats, w) && Queued(qs, w) then Held(qs, w) else {})
      && (w !in ws && Queued(qs, w) ==> Held(to, w) == Held(qs, w))
  {
    T.AllFire(was, ws, repeats, now);
    ClearedAllHolds(qs, ws, repeats, w, dummy);
    FedBackHeld(T.ClearedAll(qs, ws, repeats, dummy), ws, T.EV_TIMER, w);
  }

  // ---------- in which order ----------

  /** Whatever the callbacks feed meanwhile, a timer that fired and was not pending is invoked before those of its
      priority that fired with a later deadline, and before those that were pending already. Only a callback
      invoked before both, which clears one of them, can change that; the first `n` callbacks do not. */
  lemma DueOrder(was: map<Watcher, real>, qs: Queues, ws: seq<Watcher>, repeats: map<Watcher, real>, now: real,
                 script: seq<seq<Action>>, n: nat, v: Watcher, w: Watcher, dummy: Watcher)
    requires T.EachLeast(was, ws, repeats, now) && dummy !in was && AllPlaced(qs, dummy)
    requires v in ws && !Queued(T.ClearedAll(qs, ws, repeats, dummy), v) && v.priority == w.priority && w != dummy
    requires (w in ws && v in was && w in was && was[v] < was[w]) || Queued(T.ClearedAll(qs, ws, repeats, dummy), w)
    requires n <= |script| && Untouched(script[..n], v) && Untouched(script[..n], w)
    ensures var log := Run(Reified(qs, ws, repeats, dummy), script, dummy);
      InvokesBefore(log, v, w) || (n < |script| && NeitherBy(log, n, v, w))
  {
    T.AllFire(was, ws, repeats, now);
    var cleared := T.ClearedAll(qs, ws, repeats, dummy);
    var i :| 0 <= i < |ws| && ws[i] == v;
    if !Queued(cleared, w) {
      var j :| 0 <= j < |ws| && ws[j] == w;
      assert i < j;
      assert ws[i + 1..][j - i - 1] == w;
    }
    NewIsAhead(cleared, ws, T.EV_TIMER, i, w);
    ClearedAllPlaced(qs, ws, repeats, dummy);
    FedBackHolds(cleared, ws, T.EV_TIMER, v, dummy);
    InvokedBefore(Reified(qs, ws, repeats, dummy), script, n, v, w, dummy);
  }

  /** Every timer that fired is invoked with EV_TIMER before anything of a lower priority, unless a callback clears it. */
  lemma DueInTime(was: map<Watcher, real>, qs: Queues, ws: seq<Watcher>, repeats: map<Watcher, real>, now: real,
                  script: seq<seq<Action>>, w: Watcher, dummy: Watcher)
    requires T.EachLeast(was, ws, repeats, now) && dummy !in was && AllPlaced(qs, dummy)
    requires w in ws && Untouched(script, w)
    ensures InvokesInTime(Run(Reified(qs, ws, repeats, dummy), script, dummy), w, T.EV_TIMER)
  {
    T.AllFire(was, ws, repeats, now);
    ClearedAllPlaced(qs, ws, repeats, dummy);
    FedBackHolds(T.ClearedAll(qs, ws, repeats, dummy), ws, T.EV_TIMER, w, dummy);
    var fed := Reified(qs, ws, repeats, dummy);
    InvokedInTime(fed, script, w, dummy);
    var log, held := Run(fed, script, dummy), Held(fed, w);
    var i :| 0 <= i < |log| && log[i].w == w && held <= log[i].events && forall j | 0 <= j < i :: log[j].w.priority >= w.priority;
    assert T.EV_TIMER <= log[i].events;
  }

  /** As long as the callbacks feed and clear nothing, every priority begins with the
      timers that fired and were not pending, in the order of the deadlines they had. */
  lemma UndisturbedDueOrder(was: map<Watcher, real>, qs: Queues, ws: seq<Watcher>, repeats: map<Watcher, real>, now: real, dummy: Watcher)
    requires T.EachLeast(was, ws, repeats, now) && dummy !in was
    ensures var cleared := T.ClearedAll(qs, ws, repeats, dummy); var fed := FedBack(cleared, ws, T.EV_TIMER);
      && Run(fed, [], dummy) == Drained(fed, NUMPRI, dummy)
      && forall p: Priority :: InvokedFirst(NewOnes(cleared, ws, p), Backwards(fed[p], dummy), was)
  {
    var cleared := T.ClearedAll(qs, ws, repeats, dummy);
    var fed := FedBack(cleared, ws, T.EV_TIMER);
    UndisturbedRun(fed, NUMPRI, dummy);
    T.AllFire(was, ws, repeats, now);
    forall p: Priority ensures InvokedFirst(NewOnes(cleared, ws, p), Backwards(fed[p], dummy), was) {
      FedBackWatching(cleared, ws, T.EV_TIMER, p);
      BackwardsWatching(fed[p], Watching(cleared[p]), NewOnes(cleared, ws, p), dummy);
      NewOnesByDeadline(was, cleared, ws, p);
    }
  }

  ghost predicate InvokedFirst(ws: seq<Watcher>, log: seq<Slot>, was: map<Watcher, real>) {
    ws <= Watching(log) && ByDeadline(was, ws)
  }
}
