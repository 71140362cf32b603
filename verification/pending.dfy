/** The pending queues, one for each priority, and their invocation.

    The functions on `Queues` are the reference: they search for a watcher. The class finds its slot by the
    index that the watcher keeps. A callback is any finite list of calls; `script` holds what the callbacks do,
    in the order they are invoked, and callbacks beyond its end do nothing. */
module Pending {
  import opened Lists
  import opened Watchers

  type Events = set<nat>

  datatype Slot = Slot(w: Watcher, events: Events)

  type Queues = q: seq<seq<Slot>> | |q| == NUMPRI witness seq(NUMPRI, i => [])

  // ---------- the reference ----------

  function Find(q: seq<Slot>, w: Watcher): (i: nat)
    ensures i <= |q| && (i < |q| ==> q[i].w == w) && forall j | 0 <= j < i :: q[j].w != w
  {
    if q == [] || q[0].w == w then 0 else 1 + Find(q[1..], w)
  }

  predicate Queued(qs: Queues, w: Watcher) {
    Find(qs[w.priority], w) < |qs[w.priority]|
  }

  /** ev_feed_event: a watcher that is queued collects the events, another one is appended. */
  function Fed(qs: Queues, w: Watcher, events: Events): Queues {
    var q, i := qs[w.priority], Find(qs[w.priority], w);
    qs[w.priority := if i < |q| then q[i := Slot(w, q[i].events + events)] else q + [Slot(w, events)]]
  }

  /** clear_pending: the slot stays, for the dummy. */
  function Cleared(qs: Queues, w: Watcher, dummy: Watcher): Queues {
    var q, i := qs[w.priority], Find(qs[w.priority], w);
    if i < |q| then qs[w.priority := q[i := Slot(dummy, q[i].events)]] else qs
  }

  /** All of `ws` fed from the end. */
  function FedBack(qs: Queues, ws: seq<Watcher>, events: Events): Queues
    decreases |ws|
  {
    if ws == [] then qs else FedBack(Fed(qs, Last(ws), events), ws[..|ws| - 1], events)
  }

  datatype Action = Feed(w: Watcher, events: Events) | Clear(w: Watcher)

  function Acted(qs: Queues, actions: seq<Action>, dummy: Watcher): Queues
    decreases |actions|
  {
    if actions == [] then qs
    else
      var done := match actions[0]
        case Feed(w, events) => Fed(qs, w, events)
        case Clear(w) => Cleared(qs, w, dummy);
      Acted(done, actions[1..], dummy)
  }

  /** The highest priority with something queued among the first `n`, or -1. */
  function Top(qs: Queues, n: nat): (p: int)
    requires n <= NUMPRI
    ensures -1 <= p < n && (p >= 0 ==> qs[p] != []) && forall i | p < i < n :: qs[i] == []
  {
    if n == 0 then -1 else if qs[n - 1] != [] then n - 1 else Top(qs, n - 1)
  }

  function Popped(qs: Queues, p: Priority): Queues
    requires qs[p] != []
  {
    qs[p := qs[p][..|qs[p]| - 1]]
  }

  function Last<T>(s: seq<T>): T
    requires s != []
  {
    s[|s| - 1]
  }

  function Size(qs: seq<seq<Slot>>): nat {
    if qs == [] then 0 else |qs[0]| + Size(qs[1..])
  }

  function Feeds(actions: seq<Action>): nat {
    if actions == [] then 0 else (if actions[0].Feed? then 1 else 0) + Feeds(actions[1..])
  }

  function AllFeeds(script: seq<seq<Action>>): nat {
    if script == [] then 0 else Feeds(script[0]) + AllFeeds(script[1..])
  }

  function First(script: seq<seq<Action>>): seq<Action> {
    if script == [] then [] else script[0]
  }

  function Rest<T>(s: seq<T>): seq<T> {
    if s == [] then [] else s[1..]
  }

  /** What every invocation takes away from, however much the callbacks feed. */
  function Work(qs: Queues, script: seq<seq<Action>>): nat {
    Size(qs) + AllFeeds(script)
  }

  /** The queues after the watcher on top was invoked; the dummy's callback does nothing. */
  function Invoked(qs: Queues, p: Priority, script: seq<seq<Action>>, dummy: Watcher): Queues
    requires qs[p] != []
  {
    if Last(qs[p]).w == dummy then Popped(qs, p) else Acted(Popped(qs, p), First(script), dummy)
  }

  function Left(qs: Queues, p: Priority, script: seq<seq<Action>>, dummy: Watcher): seq<seq<Action>>
    requires qs[p] != []
  {
    if Last(qs[p]).w == dummy then script else Rest(script)
  }

  lemma {:induction false} SizeUpdated(qs: seq<seq<Slot>>, p: nat, q: seq<Slot>)
    requires p < |qs|
    ensures Size(qs[p := q]) == Size(qs) - |qs[p]| + |q|
  {
    if p == 0 {
      assert qs[p := q][1..] == qs[1..];
    } else {
      assert qs[p := q][1..] == qs[1..][p - 1 := q];
      SizeUpdated(qs[1..], p - 1, q);
    }
  }

  lemma {:induction false} ActedSize(qs: Queues, actions: seq<Action>, dummy: Watcher)
    ensures Size(Acted(qs, actions, dummy)) <= Size(qs) + Feeds(actions)
    decreases |actions|
  {
    if actions != [] {
      var w := actions[0].w;
      var done := match actions[0]
        case Feed(w, events) => Fed(qs, w, events)
        case Clear(w) => Cleared(qs, w, dummy);
      SizeUpdated(qs, w.priority, done[w.priority]);
      assert done == qs[w.priority := done[w.priority]];
      ActedSize(done, actions[1..], dummy);
    }
  }

  lemma InvokedWorks(qs: Queues, p: Priority, script: seq<seq<Action>>, dummy: Watcher)
    requires qs[p] != []
    ensures Work(Invoked(qs, p, script, dummy), Left(qs, p, script, dummy)) < Work(qs, script)
  {
    SizeUpdated(qs, p, qs[p][..|qs[p]| - 1]);
    ActedSize(Popped(qs, p), First(script), dummy);
  }

  /** The invocations: always of the last watcher of the highest priority with any, until nothing is left. */
  ghost function Run(qs: Queues, script: seq<seq<Action>>, dummy: Watcher): seq<Slot>
    decreases Work(qs, script)
  {
    var p := Top(qs, NUMPRI);
    if p < 0 then []
    else
      InvokedWorks(qs, p, script, dummy);
      (if Last(qs[p]).w == dummy then [] else [Last(qs[p])])
      + Run(Invoked(qs, p, script, dummy), Left(qs, p, script, dummy), dummy)
  }

  // ---------- the queues of a loop ----------

  /** `w` is where its index says, and only there. */
  ghost predicate Linked(qs: Queues, w: Watcher, pending: nat) {
    var q := qs[w.priority];
    && pending <= |q|
    && forall i | 0 <= i < |q| :: q[i].w == w <==> i == pending - 1
  }

  lemma LinkedIsFound(qs: Queues, w: Watcher, pending: nat)
    requires Linked(qs, w, pending)
    ensures Find(qs[w.priority], w) == if pending == 0 then |qs[w.priority]| else pending - 1
    ensures Queued(qs, w) <==> pending != 0
  {
    var q, i := qs[w.priority], Find(qs[w.priority], w);
    if pending != 0 {
      assert q[pending - 1].w == w;
    }
    if i < |q| {
      assert q[i].w == w;
    }
  }

  class Pendings {
    var pendings: Queues
    var pendingpri: nat
    const dummy: Watcher
    var rfeeds: seq<Watcher>
    /** The watchers that were ever used with the loop. */
    ghost var watchers: set<Watcher>

    /** Every watcher has its index, and a slot holds a watcher of its priority or the dummy. */
    ghost predicate Valid()
      reads this, watchers`pending
    {
      && dummy !in watchers && (forall w | w in rfeeds :: w in watchers)
      && (forall w | w in watchers :: Linked(pendings, w, w.pending))
      && (forall p: nat, i: nat | p < NUMPRI && i < |pendings[p]| :: Placed(pendings[p][i].w, p))
    }

    ghost predicate Placed(w: Watcher, p: nat)
      reads this
    {
      w == dummy || (w in watchers && w.priority == p)
    }

    constructor ()
      ensures Valid() && watchers == {} && fresh(dummy) && forall p | 0 <= p < NUMPRI :: pendings[p] == []
    {
      pendings, pendingpri, rfeeds, watchers := seq(NUMPRI, i => []), 0, [], {};
      dummy := new Watcher(0, 0.0, 0.0);
    }

    /** A watcher that was just initialised. */
    ghost method Admit(w: Watcher)
      requires Valid() && w != dummy && w.pending == 0
      modifies this`watchers
      ensures Valid() && watchers == old(watchers) + {w}
    {
      assert forall i | 0 <= i < |pendings[w.priority]| :: Placed(pendings[w.priority][i].w, w.priority);
      watchers := watchers + {w};
    }

    /** ev_feed_event. */
    method Feed(w: Watcher, events: Events)
      requires Valid() && w in watchers
      modifies this`pendings, this`pendingpri, w`pending
      ensures Valid() && pendings == Fed(old(pendings), w, events) && pendingpri == NUMPRI - 1
      ensures w.pending != 0
    {
      LinkedIsFound(pendings, w, w.pending);
      var q := pendings[w.priority];
      if w.pending != 0 {
        pendings := pendings[w.priority := q[w.pending - 1 := Slot(w, q[w.pending - 1].events + events)]];
      } else {
        w.pending := |q| + 1;
        pendings := pendings[w.priority := q + [Slot(w, events)]];
      }
      pendingpri := NUMPRI - 1;
    }

    /** clear_pending. */
    method ClearPending(w: Watcher)
      requires Valid() && w in watchers
      modifies this`pendings, w`pending
      ensures Valid() && pendings == Cleared(old(pendings), w, dummy) && w.pending == 0
    {
      LinkedIsFound(pendings, w, w.pending);
      if w.pending != 0 {
        var q := pendings[w.priority];
        pendings := pendings[w.priority := q[w.pending - 1 := Slot(dummy, q[w.pending - 1].events)]];
        w.pending := 0;
      }
    }

    /** feed_reverse. */
    method FeedReverse(w: Watcher)
      requires Valid() && w in watchers
      modifies this`rfeeds
      ensures Valid() && rfeeds == old(rfeeds) + [w]
    {
      rfeeds := rfeeds + [w];
    }

    /** feed_reverse_done, which is only called after feed_reverse. */
    method FeedReverseDone(events: Events)
      requires Valid() && rfeeds != []
      modifies this`pendings, this`pendingpri, this`rfeeds, watchers`pending
      ensures Valid() && rfeeds == [] && pendings == FedBack(old(pendings), old(rfeeds), events)
    {
      while true
        invariant Valid() && rfeeds != [] && FedBack(pendings, rfeeds, events) == FedBack(old(pendings), old(rfeeds), events)
        decreases |rfeeds|
      {
        var w := rfeeds[|rfeeds| - 1];
        rfeeds := rfeeds[..|rfeeds| - 1];
        Feed(w, events);
        if rfeeds == [] { break; }
      }
    }

    /** A callback. */
    method Call(actions: seq<Action>)
      requires Valid() && forall a | a in actions :: a.w in watchers
      modifies this`pendings, this`pendingpri, watchers`pending
      ensures Valid() && pendings == Acted(old(pendings), actions, dummy)
      ensures pendingpri == NUMPRI - 1 || (pendingpri == old(pendingpri) && SameEmpty(old(pendings), pendings))
      decreases |actions|
    {
      if actions == [] { return; }
      match actions[0] {
        case Feed(w, events) => Feed(w, events);
        case Clear(w) => ClearPending(w);
      }
      Call(actions[1..]);
    }

    /** The inner step of ev_invoke_pending. */
    method InvokeTop(actions: seq<Action>) returns (p: Slot)
      requires Valid() && pendingpri < NUMPRI && pendings[pendingpri] != [] && forall a | a in actions :: a.w in watchers
      modifies this`pendings, this`pendingpri, watchers`pending, dummy`pending
      ensures Valid() && p == Last(old(pendings)[old(pendingpri)])
      ensures pendings == if p.w == dummy then Popped(old(pendings), old(pendingpri))
                          else Acted(Popped(old(pendings), old(pendingpri)), actions, dummy)
      ensures pendingpri == NUMPRI - 1
        || (pendingpri == old(pendingpri) && SameEmpty(Popped(old(pendings), pendingpri), pendings))
    {
      var q := pendings[pendingpri];
      p := q[|q| - 1];
      assert Placed(p.w, pendingpri);
      pendings := pendings[pendingpri := q[..|q| - 1]];
      p.w.pending := 0;
      if p.w != dummy {
        Call(actions);
      }
    }

    /** The body of the inner loop of ev_invoke_pending. */
    method InvokeNext(ghost script: seq<seq<Action>>, ghost first: Queues, script1: seq<seq<Action>>, log1: seq<Slot>)
      returns (left: seq<seq<Action>>, log: seq<Slot>)
      requires Valid() && pendingpri < NUMPRI && pendings[pendingpri] != [] && EmptyAbove(pendings, pendingpri + 1)
      requires Invoking(first, script, pendings, script1, log1, dummy) && In(script1, watchers)
      modifies this`pendings, this`pendingpri, watchers`pending, dummy`pending
      ensures Valid() && pendingpri < NUMPRI && EmptyAbove(pendings, pendingpri + 1)
      ensures Invoking(first, script, pendings, left, log, dummy) && In(left, watchers)
      ensures Work(pendings, left) < Work(old(pendings), script1)
    {
      InvokingStep(first, script, pendings, pendingpri, script1, log1, dummy);
      left, log := script1, log1;
      var p := InvokeTop(First(left));
      if p.w != dummy {
        log := log + [p];
        left := Rest(left);
      }
    }

    /** The inner loop of ev_invoke_pending, which a callback sends back to the highest priority when it feeds. */
    method InvokeHere(ghost script: seq<seq<Action>>, ghost first: Queues, script1: seq<seq<Action>>, log1: seq<Slot>)
      returns (left: seq<seq<Action>>, log: seq<Slot>)
      requires Valid() && pendingpri < NUMPRI && EmptyAbove(pendings, pendingpri + 1)
      requires Invoking(first, script, pendings, script1, log1, dummy) && In(script1, watchers)
      modifies this`pendings, this`pendingpri, watchers`pending, dummy`pending
      ensures Valid() && pendingpri < NUMPRI && EmptyAbove(pendings, pendingpri)
      ensures Invoking(first, script, pendings, left, log, dummy) && In(left, watchers)
      ensures Work(pendings, left) < Work(old(pendings), script1)
        || (Work(pendings, left) == Work(old(pendings), script1) && pendingpri == old(pendingpri))
    {
      left, log := script1, log1;
      while pendings[pendingpri] != []
        invariant Valid() && pendingpri < NUMPRI && EmptyAbove(pendings, pendingpri + 1)
        invariant Invoking(first, script, pendings, left, log, dummy) && In(left, watchers)
        invariant Work(pendings, left) < Work(old(pendings), script1)
          || (Work(pendings, left) == Work(old(pendings), script1) && pendingpri == old(pendingpri))
        decreases Work(pendings, left)
      {
        left, log := InvokeNext(script, first, left, log);
      }
    }

    /** ev_invoke_pending: for all callbacks it invokes what the reference invokes, and leaves nothing queued. */
    method InvokePending(script: seq<seq<Action>>) returns (log: seq<Slot>)
      requires Valid() && In(script, watchers)
      modifies this`pendings, this`pendingpri, watchers`pending, dummy`pending
      ensures Valid() && log == Run(old(pendings), script, dummy)
      ensures EmptyAbove(pendings, 0) && (forall w | w in watchers :: w.pending == 0)
    {
      var left := script;
      log := [];
      pendingpri := NUMPRI;
      while true
        invariant Valid() && 0 < pendingpri <= NUMPRI && EmptyAbove(pendings, pendingpri)
        invariant Invoking(old(pendings), script, pendings, left, log, dummy) && In(left, watchers)
        decreases Work(pendings, left), pendingpri
      {
        pendingpri := pendingpri - 1;
        left, log := InvokeHere(script, old(pendings), left, log);
        if pendingpri == 0 { break; }
      }
    }
  }

  ghost predicate EmptyAbove(qs: Queues, n: nat) {
    forall p | n <= p < NUMPRI :: qs[p] == []
  }

  ghost predicate In(script: seq<seq<Action>>, watchers: set<Watcher>) {
    forall c, a | c in script && a in c :: a.w in watchers
  }

  /** What was invoked so far, and what will be, is what the reference invokes. */
  ghost predicate Invoking(first: Queues, script: seq<seq<Action>>, qs: Queues, left: seq<seq<Action>>, log: seq<Slot>, dummy: Watcher) {
    log + Run(qs, left, dummy) == Run(first, script, dummy)
  }

  lemma InvokingStep(first: Queues, script: seq<seq<Action>>, qs: Queues, p: Priority, left: seq<seq<Action>>, log: seq<Slot>, dummy: Watcher)
    requires qs[p] != [] && EmptyAbove(qs, p + 1) && Invoking(first, script, qs, left, log, dummy)
    ensures Invoking(first, script, Invoked(qs, p, left, dummy), Left(qs, p, left, dummy),
                     if Last(qs[p]).w == dummy then log else log + [Last(qs[p])], dummy)
    ensures Work(Invoked(qs, p, left, dummy), Left(qs, p, left, dummy)) < Work(qs, left)
  {
    RunStep(qs, p, left, dummy);
    Associates(log, if Last(qs[p]).w == dummy then [] else [Last(qs[p])], Run(Invoked(qs, p, left, dummy), Left(qs, p, left, dummy), dummy));
  }

  lemma RunStep(qs: Queues, p: Priority, script: seq<seq<Action>>, dummy: Watcher)
    requires qs[p] != [] && EmptyAbove(qs, p + 1)
    ensures Work(Invoked(qs, p, script, dummy), Left(qs, p, script, dummy)) < Work(qs, script)
    ensures Run(qs, script, dummy) == (if Last(qs[p]).w == dummy then [] else [Last(qs[p])])
      + Run(Invoked(qs, p, script, dummy), Left(qs, p, script, dummy), dummy)
  {
    InvokedWorks(qs, p, script, dummy);
    assert Top(qs, NUMPRI) == p;
  }

  ghost predicate SameEmpty(qs: Queues, rs: Queues) {
    forall p | 0 <= p < NUMPRI :: rs[p] == [] <==> qs[p] == []
  }

  // ---------- what the reference promises ----------

  function Backwards(q: seq<Slot>, dummy: Watcher): seq<Slot> {
    if q == [] then [] else (if Last(q).w == dummy then [] else [Last(q)]) + Backwards(q[..|q| - 1], dummy)
  }

  /** The queues below `n`, the highest first, each from its end. */
  function Drained(qs: Queues, n: nat, dummy: Watcher): seq<Slot>
    requires n <= NUMPRI
  {
    if n == 0 then [] else Backwards(qs[n - 1], dummy) + Drained(qs, n - 1, dummy)
  }

  /** When the callbacks feed and clear nothing, the queues are invoked from the highest, each last-in first-out. */
  lemma {:induction false} UndisturbedRun(qs: Queues, n: nat, dummy: Watcher)
    requires n <= NUMPRI && EmptyAbove(qs, n)
    ensures Run(qs, [], dummy) == Drained(qs, n, dummy)
    decreases n, Size(qs)
  {
    if n == 0 {
    } else if qs[n - 1] == [] {
      UndisturbedRun(qs, n - 1, dummy);
    } else {
      IdleStep(qs, n - 1, dummy);
      UndisturbedRun(Popped(qs, n - 1), n, dummy);
      DrainedStep(qs, n, dummy);
    }
  }

  lemma IdleStep(qs: Queues, p: Priority, dummy: Watcher)
    requires qs[p] != [] && EmptyAbove(qs, p + 1)
    ensures Run(qs, [], dummy) == (if Last(qs[p]).w == dummy then [] else [Last(qs[p])]) + Run(Popped(qs, p), [], dummy)
    ensures Size(Popped(qs, p)) < Size(qs)
  {
    RunStep(qs, p, [], dummy);
    SizeUpdated(qs, p, qs[p][..|qs[p]| - 1]);
  }

  lemma DrainedStep(qs: Queues, n: nat, dummy: Watcher)
    requires 0 < n <= NUMPRI && qs[n - 1] != []
    ensures Drained(qs, n, dummy)
      == (if Last(qs[n - 1]).w == dummy then [] else [Last(qs[n - 1])]) + Drained(Popped(qs, n - 1), n, dummy)
  {
    DrainedBelow(qs, Popped(qs, n - 1), n - 1, dummy);
    Associates(if Last(qs[n - 1]).w == dummy then [] else [Last(qs[n - 1])],
               Backwards(qs[n - 1][..|qs[n - 1]| - 1], dummy), Drained(qs, n - 1, dummy));
  }

  lemma {:induction false} DrainedBelow(qs: Queues, rs: Queues, n: nat, dummy: Watcher)
    requires n <= NUMPRI && forall i | 0 <= i < n :: rs[i] == qs[i]
    ensures Drained(rs, n, dummy) == Drained(qs, n, dummy)
  {
    if n > 0 {
      DrainedBelow(qs, rs, n - 1, dummy);
    }
  }

  ghost predicate AllPlaced(qs: Queues, dummy: Watcher) {
    forall p, i | 0 <= p < NUMPRI && 0 <= i < |qs[p]| :: qs[p][i].w == dummy || qs[p][i].w.priority == p
  }

  function Held(qs: Queues, w: Watcher): Events
    requires Queued(qs, w)
  {
    qs[w.priority][Find(qs[w.priority], w)].events
  }

  ghost predicate Untouched(script: seq<seq<Action>>, w: Watcher) {
    forall c | c in script :: Clear(w) !in c
  }

  lemma StaysQueued(qs: Queues, rs: Queues, w: Watcher)
    requires Queued(qs, w) && |qs[w.priority]| <= |rs[w.priority]|
    requires forall i | 0 <= i < |qs[w.priority]| :: rs[w.priority][i].w == w <==> qs[w.priority][i].w == w
    ensures Find(rs[w.priority], w) == Find(qs[w.priority], w) && Queued(rs, w)
  {
    var i := Find(qs[w.priority], w);
    assert qs[w.priority][i].w == w;
    assert rs[w.priority][i].w == w;
  }

  lemma {:induction false} ActedKeeps(qs: Queues, actions: seq<Action>, w: Watcher, dummy: Watcher)
    requires AllPlaced(qs, dummy) && Queued(qs, w) && Clear(w) !in actions && w != dummy
    ensures AllPlaced(Acted(qs, actions, dummy), dummy)
    ensures Queued(Acted(qs, actions, dummy), w) && Held(qs, w) <= Held(Acted(qs, actions, dummy), w)
    decreases |actions|
  {
    if actions != [] {
      var done := match actions[0]
        case Feed(w, events) => Fed(qs, w, events)
        case Clear(w) => Cleared(qs, w, dummy);
      StaysQueued(qs, done, w);
      ActedKeeps(done, actions[1..], w, dummy);
    }
  }

  /** `log` invokes `w` with all of `events`, before anything of a lower priority. */
  ghost predicate InvokesInTime(log: seq<Slot>, w: Watcher, events: Events) {
    exists i :: 0 <= i < |log| && log[i].w == w && events <= log[i].events && forall j | 0 <= j < i :: log[j].w.priority >= w.priority
  }

  /** Whatever the callbacks feed meanwhile, a watcher that is queued and that none of them clears is invoked
      with its events, and nothing of a lower priority is invoked before it. */
  lemma {:induction false} InvokedInTime(qs: Queues, script: seq<seq<Action>>, w: Watcher, dummy: Watcher)
    requires AllPlaced(qs, dummy) && Queued(qs, w) && Untouched(script, w) && w != dummy
    ensures InvokesInTime(Run(qs, script, dummy), w, Held(qs, w))
    decreases Work(qs, script)
  {
    var p := Top(qs, NUMPRI);
    RunStep(qs, p, script, dummy);
    if Last(qs[p]).w != w || Find(qs[p], w) != |qs[p]| - 1 {
      var qs1, left := Invoked(qs, p, script, dummy), Left(qs, p, script, dummy);
      PoppedKeeps(qs, p, w, dummy);
      ActedKeeps(Popped(qs, p), First(script), w, dummy);
      InvokedInTime(qs1, left, w, dummy);
      Later(qs, p, Run(qs1, left, dummy), w, Held(qs1, w), dummy);
    } else {
      assert Run(qs, script, dummy)[0] == Last(qs[p]);
    }
  }

  lemma PoppedKeeps(qs: Queues, p: Priority, w: Watcher, dummy: Watcher)
    requires AllPlaced(qs, dummy) && Queued(qs, w) && qs[p] != [] && (w.priority == p ==> Find(qs[p], w) != |qs[p]| - 1)
    ensures AllPlaced(Popped(qs, p), dummy) && Queued(Popped(qs, p), w) && Held(Popped(qs, p), w) == Held(qs, w)
  {
    var q := Popped(qs, p)[w.priority];
    var i := Find(qs[w.priority], w);
    assert q[i].w == w;
  }

  lemma Later(qs: Queues, p: Priority, log: seq<Slot>, w: Watcher, events: Events, dummy: Watcher)
    requires AllPlaced(qs, dummy) && qs[p] != [] && p >= w.priority && InvokesInTime(log, w, events)
    ensures InvokesInTime((if Last(qs[p]).w == dummy then [] else [Last(qs[p])]) + log, w, events)
  {
    var i :| 0 <= i < |log| && log[i].w == w && events <= log[i].events && forall j | 0 <= j < i :: log[j].w.priority >= w.priority;
    var head := if Last(qs[p]).w == dummy then [] else [Last(qs[p])];
    assert (head + log)[|head| + i] == log[i];
  }

  // ---------- nothing is invented ----------

  /** ev_feed_event adds the events to those that the watcher has pending, if any, and leaves the others alone. */
  lemma FedHolds(qs: Queues, w: Watcher, events: Events)
    ensures Queued(Fed(qs, w, events), w)
    ensures Held(Fed(qs, w, events), w) == if Queued(qs, w) then Held(qs, w) + events else events
  {
    var q, r := qs[w.priority], Fed(qs, w, events)[w.priority];
    var i := Find(q, w);
    assert r[i].w == w && forall j | 0 <= j < i :: r[j] == q[j];
  }

  lemma FedOthers(qs: Queues, w: Watcher, events: Events, u: Watcher)
    requires u != w
    ensures Queued(Fed(qs, w, events), u) <==> Queued(qs, u)
    ensures Queued(qs, u) ==> Held(Fed(qs, w, events), u) == Held(qs, u)
  {
    var q, r := qs[u.priority], Fed(qs, w, events)[u.priority];
    assert forall i | 0 <= i < |r| :: r[i].w == u <==> i < |q| && q[i].w == u;
    if Queued(qs, u) {
      StaysQueued(qs, Fed(qs, w, events), u);
    }
  }

  /** The slot is not one of `w`, or such slots are expected, and has none but the given events. */
  ghost predicate Within(s: Slot, w: Watcher, expected: bool, events: Events) {
    s.w == w ==> expected && s.events <= events
  }

  ghost predicate AllWithin(q: seq<Slot>, w: Watcher, expected: bool, events: Events) {
    forall s | s in q :: Within(s, w, expected, events)
  }

  ghost predicate QueuesWithin(qs: Queues, w: Watcher, expected: bool, events: Events) {
    forall p | 0 <= p < NUMPRI :: AllWithin(qs[p], w, expected, events)
  }

  ghost predicate FeedsWithin(actions: seq<Action>, w: Watcher, expected: bool, events: Events) {
    forall a | a in actions && a.Feed? :: Within(Slot(a.w, a.events), w, expected, events)
  }

  lemma {:induction false} ActedWithin(qs: Queues, actions: seq<Action>, w: Watcher, expected: bool, events: Events, dummy: Watcher)
    requires QueuesWithin(qs, w, expected, events) && FeedsWithin(actions, w, expected, events) && w != dummy
    ensures QueuesWithin(Acted(qs, actions, dummy), w, expected, events)
    decreases |actions|
  {
    if actions != [] {
      var done := match actions[0]
        case Feed(v, more) => Fed(qs, v, more)
        case Clear(v) => Cleared(qs, v, dummy);
      FirstWithin(qs, actions[0], w, expected, events, dummy);
      ActedWithin(done, actions[1..], w, expected, events, dummy);
    }
  }

  lemma FirstWithin(qs: Queues, a: Action, w: Watcher, expected: bool, events: Events, dummy: Watcher)
    requires QueuesWithin(qs, w, expected, events) && w != dummy
    requires a.Feed? ==> Within(Slot(a.w, a.events), w, expected, events)
    ensures QueuesWithin(match a case Feed(v, more) => Fed(qs, v, more) case Clear(v) => Cleared(qs, v, dummy), w, expected, events)
  {
    var q, i := qs[a.w.priority], Find(qs[a.w.priority], a.w);
    assert AllWithin(q, w, expected, events);
    if i < |q| {
      assert Within(q[i], w, expected, events);
    }
  }

  /** Whatever the callbacks do, a watcher is told no event that it had not pending and that nothing fed to it; and
      one that was not pending and is never fed is not invoked. */
  lemma {:induction false} NothingInvented(qs: Queues, script: seq<seq<Action>>, w: Watcher, expected: bool, events: Events, dummy: Watcher)
    requires QueuesWithin(qs, w, expected, events) && w != dummy
    requires forall c | c in script :: FeedsWithin(c, w, expected, events)
    ensures AllWithin(Run(qs, script, dummy), w, expected, events)
    decreases Work(qs, script)
  {
    var p := Top(qs, NUMPRI);
    if p >= 0 {
      RunStep(qs, p, script, dummy);
      assert AllWithin(qs[p], w, expected, events) && Within(Last(qs[p]), w, expected, events);
      assert QueuesWithin(Popped(qs, p), w, expected, events);
      ActedWithin(Popped(qs, p), First(script), w, expected, events, dummy);
      NothingInvented(Invoked(qs, p, script, dummy), Left(qs, p, script, dummy), w, expected, events, dummy);
    }
  }

  /** Both are queued with one priority, and no slot of `w` is invoked before the one of `v` that a search finds. */
  ghost predicate Ahead(qs: Queues, v: Watcher, w: Watcher) {
    && v.priority == w.priority && Queued(qs, v) && Queued(qs, w)
    && forall i | Find(qs[v.priority], v) <= i < |qs[v.priority]| :: qs[v.priority][i].w != w
  }

  /** `log` invokes `v`, and `w` not until then. */
  ghost predicate InvokesBefore(log: seq<Slot>, v: Watcher, w: Watcher) {
    exists i :: 0 <= i < |log| && log[i].w == v && forall j | 0 <= j <= i :: log[j].w != w
  }

  lemma StaysAhead(qs: Queues, rs: Queues, v: Watcher, w: Watcher)
    requires Ahead(qs, v, w) && Queued(rs, w) && |qs[v.priority]| <= |rs[v.priority]|
    requires forall i | 0 <= i < |qs[v.priority]| :: rs[v.priority][i].w == v <==> qs[v.priority][i].w == v
    requires forall i | 0 <= i < |qs[v.priority]| :: rs[v.priority][i].w == w <==> qs[v.priority][i].w == w
    requires forall i | |qs[v.priority]| <= i < |rs[v.priority]| :: rs[v.priority][i].w != w
    ensures Ahead(rs, v, w)
  {
    StaysQueued(qs, rs, v);
    forall i | Find(rs[v.priority], v) <= i < |rs[v.priority]| ensures rs[v.priority][i].w != w {
      if i < |qs[v.priority]| {
        assert qs[v.priority][i].w != w;
      }
    }
  }

  lemma {:induction false} ActedKeepsAhead(qs: Queues, actions: seq<Action>, v: Watcher, w: Watcher, dummy: Watcher)
    requires Ahead(qs, v, w) && Clear(v) !in actions && Clear(w) !in actions && v != dummy && w != dummy
    ensures Ahead(Acted(qs, actions, dummy), v, w)
    decreases |actions|
  {
    if actions != [] {
      var done := match actions[0]
        case Feed(w, events) => Fed(qs, w, events)
        case Clear(w) => Cleared(qs, w, dummy);
      StaysQueued(qs, done, w);
      StaysAhead(qs, done, v, w);
      ActedKeepsAhead(done, actions[1..], v, w, dummy);
    }
  }

  lemma PoppedKeepsAhead(qs: Queues, p: Priority, v: Watcher, w: Watcher, dummy: Watcher)
    requires AllPlaced(qs, dummy) && Ahead(qs, v, w) && qs[p] != [] && Last(qs[p]).w != v
    ensures Ahead(Popped(qs, p), v, w)
  {
    var q, r := qs[v.priority], Popped(qs, p)[v.priority];
    var i, j := Find(q, v), Find(q, w);
    assert q[i].w == v && q[j].w == w;
    assert i != |q| - 1 || p != v.priority;
    assert r[i].w == v && r[j].w == w;
    assert Find(r, v) == i;
  }

  /** `log` has the invocation of callback `n`, and up to then invokes neither of the two. */
  ghost predicate NeitherBy(log: seq<Slot>, n: nat, v: Watcher, w: Watcher) {
    n < |log| && forall j | 0 <= j <= n :: log[j].w != v && log[j].w != w
  }

  /** Whatever the callbacks feed meanwhile, and even if they feed the two themselves: of two watchers of one
      priority the one queued later is invoked first, unless a callback invoked before both clears one of them.
      The first `n` callbacks clear neither. */
  lemma {:induction false} InvokedBefore(qs: Queues, script: seq<seq<Action>>, n: nat, v: Watcher, w: Watcher, dummy: Watcher)
    requires AllPlaced(qs, dummy) && Ahead(qs, v, w) && v != dummy && w != dummy
    requires n <= |script| && Untouched(script[..n], v) && Untouched(script[..n], w)
    ensures InvokesBefore(Run(qs, script, dummy), v, w)
      || (n < |script| && NeitherBy(Run(qs, script, dummy), n, v, w))
    decreases Work(qs, script)
  {
    var p := Top(qs, NUMPRI);
    RunStep(qs, p, script, dummy);
    var log := Run(qs, script, dummy);
    if Last(qs[p]).w == v {
      assert log[0] == Last(qs[p]);
    } else if n == 0 && script != [] && Last(qs[p]).w != dummy {
      assert log[0] == Last(qs[p]) && NeitherBy(log, n, v, w);
    } else {
      var qs1, left := Invoked(qs, p, script, dummy), Left(qs, p, script, dummy);
      var m := if n == 0 || Last(qs[p]).w == dummy then n else n - 1;
      StepKeepsAhead(qs, p, script, n, m, v, w, dummy);
      InvokedBefore(qs1, left, m, v, w, dummy);
      if Last(qs[p]).w == dummy {
        assert log == Run(qs1, left, dummy);
      } else {
        StillBefore(qs, p, Run(qs1, left, dummy), m, v, w, dummy);
      }
    }
  }

  lemma StepKeepsAhead(qs: Queues, p: Priority, script: seq<seq<Action>>, n: nat, m: nat, v: Watcher, w: Watcher, dummy: Watcher)
    requires AllPlaced(qs, dummy) && Ahead(qs, v, w) && v != dummy && w != dummy && qs[p] != [] && Last(qs[p]).w != v
    requires n <= |script| && Untouched(script[..n], v) && Untouched(script[..n], w)
    requires if n == 0 then m == 0 && (script == [] || Last(qs[p]).w == dummy)
             else m == if Last(qs[p]).w == dummy then n else n - 1
    ensures AllPlaced(Invoked(qs, p, script, dummy), dummy) && Ahead(Invoked(qs, p, script, dummy), v, w)
    ensures var left := Left(qs, p, script, dummy);
      m <= |left| && Untouched(left[..m], v) && Untouched(left[..m], w)
  {
    PoppedKeeps(qs, p, v, dummy);
    PoppedKeepsAhead(qs, p, v, w, dummy);
    if Last(qs[p]).w != dummy {
      if n > 0 {
        assert script[..n][0] == script[0] && Rest(script)[..m] == script[..n][1..];
      }
      ActedKeeps(Popped(qs, p), First(script), v, dummy);
      ActedKeepsAhead(Popped(qs, p), First(script), v, w, dummy);
    }
  }

  lemma StillBefore(qs: Queues, p: Priority, log: seq<Slot>, n: nat, v: Watcher, w: Watcher, dummy: Watcher)
    requires AllPlaced(qs, dummy) && Ahead(qs, v, w) && qs[p] != [] && Last(qs[p]).w != v && w != dummy
    ensures InvokesBefore(log, v, w) ==> InvokesBefore([Last(qs[p])] + log, v, w)
    ensures NeitherBy(log, n, v, w) ==> NeitherBy([Last(qs[p])] + log, n + 1, v, w)
  {
    var log1 := [Last(qs[p])] + log;
    assert Last(qs[p]).w != w;
    if InvokesBefore(log, v, w) {
      var i :| 0 <= i < |log| && log[i].w == v && forall j | 0 <= j <= i :: log[j].w != w;
      assert log1[i + 1] == log[i];
      assert forall j | 0 < j <= i + 1 :: log1[j] == log[j - 1];
    }
  }
}
