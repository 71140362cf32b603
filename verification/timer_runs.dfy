/** One repeating timer over many rounds of timers_reify, and the time a periodic is due. */
module TimerRuns {
  import opened Watchers
  import T = Timers

  // ---------- a repeating timer never fires early ----------

  /** One call of timers_reify: the deadlines before it, what fired, and the loop time. */
  datatype Round = Round(was: map<Watcher, real>, fired: seq<Watcher>, repeats: map<Watcher, real>, now: real)

  function After(r: Round): map<Watcher, real> {
    T.ExpiredAll(r.was, r.fired, r.repeats, r.now)
  }

  ghost predicate IsRound(r: Round) {
    T.EachLeast(r.was, r.fired, r.repeats, r.now) && T.NotBefore(After(r), r.now)
  }

  /** Rounds through which `w` runs with the same interval, neither stopped nor restarted between them;
      all other timers may come and go. */
  ghost predicate Runs(rs: seq<Round>, w: Watcher, repeat: real) {
    && (forall i | 0 <= i < |rs| :: IsRound(rs[i]) && w in rs[i].was && w in rs[i].repeats && rs[i].repeats[w] == repeat)
    && (forall i | 0 <= i < |rs| - 1 :: w in After(rs[i]) && rs[i + 1].was[w] == After(rs[i])[w])
  }

  function Fired(rs: seq<Round>, w: Watcher): nat {
    if rs == [] then 0 else Fired(rs[..|rs| - 1], w) + if w in rs[|rs| - 1].fired then 1 else 0
  }

  lemma RoundOf(r: Round, w: Watcher)
    requires IsRound(r) && w in r.was && w in r.repeats && r.repeats[w] > 0.0
    ensures w in After(r) && (w in r.fired <==> r.was[w] < r.now)
    ensures After(r)[w] == if w in r.fired then T.Max(r.was[w] + r.repeats[w], r.now) else r.was[w]
  {
    T.ExactlyTheDue(r.was, r.fired, r.repeats, r.now);
  }

  lemma RunsBefore(rs: seq<Round>, w: Watcher, repeat: real)
    requires |rs| > 1 && Runs(rs, w, repeat)
    ensures Runs(rs[..|rs| - 1], w, repeat)
    ensures w in After(rs[|rs| - 2]) && rs[|rs| - 1].was[w] == After(rs[|rs| - 2])[w]
  {
    assert w in After(rs[|rs| - 2]) && rs[|rs| - 2 + 1].was[w] == After(rs[|rs| - 2])[w];
  }

  /** `n` steps from `first`. */
  function Grid(first: real, step: real, n: int): real {
    first + n as real * step
  }

  lemma GridNext(first: real, step: real, n: int)
    ensures Grid(first, step, n + 1) == Grid(first, step, n) + step
  {
  }

  /** After n fires the next deadline is at least n intervals after the first one. */
  lemma {:induction false} NeverEarly(rs: seq<Round>, w: Watcher, repeat: real)
    requires rs != [] && Runs(rs, w, repeat) && repeat > 0.0
    ensures w in After(rs[|rs| - 1]) && After(rs[|rs| - 1])[w] >= Grid(rs[0].was[w], repeat, Fired(rs, w))
  {
    var n := |rs| - 1;
    RoundOf(rs[n], w);
    var before := Fired(rs[..n], w);
    GridNext(rs[0].was[w], repeat, before);
    if n > 0 {
      RunsBefore(rs, w, repeat);
      NeverEarly(rs[..n], w, repeat);
    } else {
      assert before == 0;
    }
  }

  /** While the loop time has not passed `end`, the timer fires at most (end - first) / repeat + 1 times. */
  lemma {:induction false} FiresAtMost(rs: seq<Round>, w: Watcher, repeat: real, end: real)
    requires rs != [] && Runs(rs, w, repeat) && repeat > 0.0 && forall i | 0 <= i < |rs| :: rs[i].now <= end
    ensures Fired(rs, w) > 0 ==> Grid(rs[0].was[w], repeat, Fired(rs, w) - 1) < end
  {
    var n := |rs| - 1;
    RoundOf(rs[n], w);
    if n > 0 {
      RunsBefore(rs, w, repeat);
      NeverEarly(rs[..n], w, repeat);
      if w !in rs[n].fired {
        FiresAtMost(rs[..n], w, repeat, end);
      }
    } else {
      assert Fired(rs[..n], w) == 0;
    }
  }

  // ---------- periodics ----------

  const MIN_INTERVAL := 1.0 / 8192.0

  ghost predicate OnGrid(at: real, offset: real, interval: real) {
    exists k: int :: at == Grid(offset, interval, k)
  }

  function Coarse(interval: real): real {
    if interval > MIN_INTERVAL then interval else MIN_INTERVAL
  }

  /** The first step on the grid that is not before `now`, less one. */
  function LastStep(first: real, step: real, now: real): int
    requires step > 0.0
  {
    ((now - first) / step).Floor
  }

  lemma Steps(first: real, step: real, now: real)
    requires step > 0.0
    ensures Grid(first, step, LastStep(first, step, now)) <= now < Grid(first, step, LastStep(first, step, now) + 1)
  {
    var n, x := LastStep(first, step, now), now - first;
    var low, high := n as real, (n + 1) as real;
    Divided(x, step);
    Between(x, step, x / step, low, high);
    GridAt(first, step, n, low);
    GridAt(first, step, n + 1, high);
  }

  lemma GridAt(first: real, step: real, n: int, z: real)
    requires z == n as real
    ensures Grid(first, step, n) == first + z * step
  {
  }

  lemma Between(x: real, step: real, q: real, low: real, high: real)
    requires step > 0.0 && q * step == x && low <= q < high
    ensures low * step <= x < high * step
  {
    Scaled(low, q, step);
    StrictlyScaled(q, high, step);
  }

  lemma Divided(a: real, b: real)
    requires b > 0.0
    ensures a / b * b == a
  {
  }

  lemma Scaled(a: real, b: real, step: real)
    requires step > 0.0 && a <= b
    ensures a * step <= b * step
  {
  }

  lemma StrictlyScaled(a: real, b: real, step: real)
    requires step > 0.0 && a < b
    ensures a * step < b * step
  {
  }

  lemma Further(first: real, step: real, m: int, n: int)
    requires step > 0.0 && m <= n
    ensures Grid(first, step, m) <= Grid(first, step, n)
  {
    var low, high := m as real, n as real;
    Scaled(low, high, step);
    GridAt(first, step, m, low);
    GridAt(first, step, n, high);
  }

  lemma OnlyStep(first: real, step: real, now: real, n: int)
    requires step > 0.0 && Grid(first, step, n) <= now < Grid(first, step, n + 1)
    ensures n == LastStep(first, step, now)
  {
    var m := LastStep(first, step, now);
    Steps(first, step, now);
    if m < n {
      Further(first, step, m + 1, n);
    } else if n < m {
      Further(first, step, n + 1, m);
    }
  }

  /** Where periodic_recalc begins, and the time it comes to. */
  function Base(offset: real, interval: real, rtNow: real): real {
    Grid(offset, Coarse(interval), LastStep(offset, Coarse(interval), rtNow))
  }

  function NextDue(offset: real, interval: real, rtNow: real): real
    requires interval > 0.0
  {
    var base := Base(offset, interval, rtNow);
    Grid(base, interval, LastStep(base, interval, rtNow) + 1)
  }

  /** periodic_recalc. */
  method PeriodicRecalc(offset: real, interval: real, rtNow: real) returns (at: real)
    requires interval > 0.0
    ensures at == NextDue(offset, interval, rtNow)
  {
    var c := if interval > MIN_INTERVAL then interval else MIN_INTERVAL;
    at := offset + c * ((rtNow - offset) / c).Floor as real;
    ghost var base := Base(offset, interval, rtNow);
    ghost var n, last := 0, LastStep(base, interval, rtNow);
    Steps(offset, c, rtNow);
    Steps(base, interval, rtNow);
    while at <= rtNow
      invariant at == Grid(base, interval, n) && n <= last + 1 && (n == 0 ==> base <= rtNow)
      invariant n > 0 ==> Grid(base, interval, n - 1) <= rtNow
      decreases last + 1 - n
    {
      NotPast(base, interval, rtNow, n);
      GridNext(base, interval, n);
      at := at + interval;
      n := n + 1;
    }
    GridNext(base, interval, n - 1);
    OnlyStep(base, interval, rtNow, n - 1);
  }

  lemma NotPast(first: real, step: real, now: real, n: int)
    requires step > 0.0 && Grid(first, step, n) <= now
    ensures n <= LastStep(first, step, now)
  {
    var m := LastStep(first, step, now);
    Steps(first, step, now);
    if m < n {
      Further(first, step, m + 1, n);
    }
  }

  /** A periodic is due after now, by no more than an interval. */
  lemma DueSoon(offset: real, interval: real, rtNow: real)
    requires interval > 0.0
    ensures NextDue(offset, interval, rtNow) - interval <= rtNow < NextDue(offset, interval, rtNow)
  {
    var base := Base(offset, interval, rtNow);
    Steps(base, interval, rtNow);
    GridNext(base, interval, LastStep(base, interval, rtNow));
  }

  lemma GridOfGrid(first: real, step: real, a: int, b: int)
    ensures Grid(Grid(first, step, a), step, b) == Grid(first, step, a + b)
  {
  }

  lemma GridOfMultiples(first: real, step: real, m: int, a: int)
    ensures Grid(first, Grid(0.0, step, m), a) == Grid(first, step, a * m)
  {
  }

  /** It is always due a whole number of intervals after its offset exactly when the interval is not below the
      resolution, or divides it. */
  lemma AlwaysOnGrid(offset: real, interval: real)
    requires interval > 0.0
    ensures (forall rtNow: real :: OnGrid(NextDue(offset, interval, rtNow), offset, interval))
      <==> interval >= MIN_INTERVAL || OnGrid(MIN_INTERVAL, 0.0, interval)
  {
    if interval >= MIN_INTERVAL || OnGrid(MIN_INTERVAL, 0.0, interval) {
      forall rtNow: real ensures OnGrid(NextDue(offset, interval, rtNow), offset, interval) {
        BaseOnGrid(offset, interval, rtNow);
        var base := Base(offset, interval, rtNow);
        var k :| base == Grid(offset, interval, k);
        GridOfGrid(offset, interval, k, LastStep(base, interval, rtNow) + 1);
      }
    } else {
      OffGrid(offset, interval);
    }
  }

  lemma BaseOnGrid(offset: real, interval: real, rtNow: real)
    requires interval > 0.0 && (interval >= MIN_INTERVAL || OnGrid(MIN_INTERVAL, 0.0, interval))
    ensures OnGrid(Base(offset, interval, rtNow), offset, interval)
  {
    var k := LastStep(offset, Coarse(interval), rtNow);
    if interval >= MIN_INTERVAL {
      assert Base(offset, interval, rtNow) == Grid(offset, interval, k);
    } else {
      var m :| MIN_INTERVAL == Grid(0.0, interval, m);
      GridOfMultiples(offset, interval, m, k);
    }
  }

  /** At MIN_INTERVAL after the offset, the grid is missed. */
  lemma OffGrid(offset: real, interval: real)
    requires 0.0 < interval < MIN_INTERVAL && !OnGrid(MIN_INTERVAL, 0.0, interval)
    ensures !OnGrid(NextDue(offset, interval, offset + MIN_INTERVAL), offset, interval)
  {
    var rtNow := offset + MIN_INTERVAL;
    OnlyStep(offset, MIN_INTERVAL, rtNow, 1);
    var base := Base(offset, interval, rtNow);
    assert base == rtNow;
    var n := LastStep(base, interval, rtNow) + 1;
    forall k: int ensures NextDue(offset, interval, rtNow) != Grid(offset, interval, k) {
      GridOfGrid(0.0, interval, k, -n);
      assert MIN_INTERVAL != Grid(0.0, interval, k - n);
    }
  }
}
