/** The io_uring backend: one-shot polls, tagged with their descriptor and a generation.

    The kernel moves a poll from the submission ring to its armed polls, and from there to the completion ring,
    whenever it likes; none of that changes which polls are live. What fd_reify and the list of changes do with
    the descriptors is in FdChanges; here a descriptor is `listed` when it is on that list. */
module IoUring {
  import opened Wrappers
  import opened UringRing

  datatype Bit = PollIn | PollRdHup | PollOut | PollErr | PollHup

  /** How a poll completed; Ended stands for an empty mask, -ECANCELED, -EINTR and -ENOENT. */
  datatype Res = Ready(bits: set<Bit>) | Ended | BadFd

  datatype Cqe = Removed | Done(poll: Poll, res: Res)

  datatype Fd = Fd(wants: set<Event>, events: set<Event>, gen: nat, listed: bool, reify: bool, fdset: bool)

  // ---------- tags ----------

  const USERDATA_REMOVE := 0xFFFF_FFFF_FFFF_FFFE

  function Tag(fd: nat, gen: nat): nat {
    fd + gen % TWO32 * TWO32
  }

  /** A tag tells descriptor and generation, and is never the one that is reserved for removals. */
  lemma TagsAreTold(fd: nat, gen: nat)
    requires fd < 0x8000_0000
    ensures Tag(fd, gen) % TWO32 == fd && Tag(fd, gen) / TWO32 == gen % TWO32
    ensures Tag(fd, gen) < TWO32 * TWO32 && Tag(fd, gen) != USERDATA_REMOVE
  {
    assert USERDATA_REMOVE % TWO32 == 0xFFFF_FFFE;
  }

  // ---------- live polls ----------

  function Adds(q: seq<Sqe>): multiset<Poll> {
    if q == [] then multiset{}
    else (if q[0].Add? then multiset{q[0].poll} else multiset{}) + Adds(q[1..])
  }

  function Dones(cq: seq<Cqe>): multiset<Poll> {
    if cq == [] then multiset{}
    else (if cq[0].Done? then multiset{cq[0].poll} else multiset{}) + Dones(cq[1..])
  }

  lemma {:induction false} AddsOn(q: seq<Sqe>, s: Sqe)
    ensures Adds(q + [s]) == Adds(q) + if s.Add? then multiset{s.poll} else multiset{}
  {
    if q == [] {
      assert q + [s] == [s];
    } else {
      AddsOn(q[1..], s);
      assert (q + [s])[1..] == q[1..] + [s];
    }
  }

  lemma {:induction false} DonesOn(cq: seq<Cqe>, c: Cqe)
    ensures Dones(cq + [c]) == Dones(cq) + if c.Done? then multiset{c.poll} else multiset{}
  {
    if cq == [] {
      assert cq + [c] == [c];
    } else {
      DonesOn(cq[1..], c);
      assert (cq + [c])[1..] == cq[1..] + [c];
    }
  }

  datatype Kernel = Kernel(queue: seq<Sqe>, armed: seq<Poll>, cq: seq<Cqe>)

  function Live(k: Kernel): multiset<Poll> {
    Adds(k.queue) + multiset(k.armed) + Dones(k.cq)
  }

  function FindArmed(armed: seq<Poll>, fd: nat, gen: nat): (i: nat)
    ensures i <= |armed| && (i < |armed| ==> armed[i].fd == fd && armed[i].gen == gen)
  {
    if armed == [] || (armed[0].fd == fd && armed[0].gen == gen) then 0 else 1 + FindArmed(armed[1..], fd, gen)
  }

  /** An armed poll completes. */
  function Completing(k: Kernel, i: nat, res: Res): Kernel
    requires i < |k.armed|
  {
    k.(armed := k.armed[..i] + k.armed[i + 1..], cq := k.cq + [Done(k.armed[i], res)])
  }

  /** The kernel takes up the first entry: a poll is armed, or an armed poll with that tag is cancelled. */
  function TakeUp(k: Kernel): (to: Kernel)
    requires k.queue != []
    ensures to.queue == k.queue[1..]
  {
    var k1 := k.(queue := k.queue[1..]);
    match k.queue[0]
    case Add(p) => k1.(armed := k.armed + [p])
    case Remove(fd, gen) =>
      var i := FindArmed(k.armed, fd, gen);
      var k2 := if i < |k.armed| then Completing(k1, i, Ended) else k1;
      k2.(cq := k2.cq + [Removed])
  }

  /** A poll that completes stays live until it is drained. */
  lemma CompletingLive(k: Kernel, i: nat, res: Res)
    requires i < |k.armed|
    ensures Live(Completing(k, i, res)) == Live(k)
  {
    assert k.armed == k.armed[..i] + [k.armed[i]] + k.armed[i + 1..];
    DonesOn(k.cq, Done(k.armed[i], res));
  }

  lemma TakeUpLive(k: Kernel)
    requires k.queue != []
    ensures Live(TakeUp(k)) == Live(k)
  {
    match k.queue[0]
    case Add(p) =>
    case Remove(fd, gen) =>
      var i := FindArmed(k.armed, fd, gen);
      var k1 := k.(queue := k.queue[1..]);
      assert Live(k1) == Live(k);
      if i < |k.armed| {
        CompletingLive(k1, i, Ended);
        DonesOn(Completing(k1, i, Ended).cq, Removed);
      } else {
        DonesOn(k.cq, Removed);
      }
  }

  function TakeUps(k: Kernel, r: nat): Kernel
    requires r <= |k.queue|
    decreases r
  {
    if r == 0 then k else TakeUps(TakeUp(k), r - 1)
  }

  lemma {:induction false} TakeUpsKeep(k: Kernel, r: nat, kept: Kernel -> bool)
    requires r <= |k.queue| && kept(k)
    requires forall k1: Kernel {:trigger TakeUp(k1)} | kept(k1) && k1.queue != [] :: kept(TakeUp(k1))
    ensures kept(TakeUps(k, r))
    decreases r
  {
    if r > 0 {
      TakeUpsKeep(TakeUp(k), r - 1, kept);
    }
  }

  /** However many entries the kernel consumes, the same polls are live. */
  lemma {:induction false} TakeUpsLive(k: Kernel, r: nat)
    requires r <= |k.queue|
    ensures Live(TakeUps(k, r)) == Live(k) && TakeUps(k, r).queue == k.queue[r..]
    decreases r
  {
    if r > 0 {
      TakeUpLive(k);
      TakeUpsLive(TakeUp(k), r - 1);
      assert k.queue[1..][r - 1..] == k.queue[r..];
    }
  }

  // ---------- cancelling ----------

  ghost predicate Outlived(gens: seq<nat>, p: Poll) {
    p.fd < |gens| && p.gen < gens[p.fd]
  }

  function Gens(fds: seq<Fd>): (gens: seq<nat>)
    ensures |gens| == |fds| && forall fd: nat | fd < |fds| :: gens[fd] == fds[fd].gen
  {
    seq(|fds|, fd requires 0 <= fd < |fds| => fds[fd].gen)
  }

  /** A generation of a descriptor is polled once at a time. */
  ghost predicate Single(live: multiset<Poll>) {
    forall p, q | p in live && q in live && p.fd == q.fd && p.gen == q.gen :: p == q && live[p] == 1
  }

  /** For every poll of an earlier generation, armed or queued, a removal is queued behind it. */
  ghost predicate Cancelling(k: Kernel, gens: seq<nat>) {
    && (forall p | p in k.armed && Outlived(gens, p) :: Remove(p.fd, p.gen) in k.queue)
    && AddsCancelled(k.queue, gens)
  }

  ghost predicate AddsCancelled(q: seq<Sqe>, gens: seq<nat>) {
    q != [] ==>
      && (q[0].Add? && Outlived(gens, q[0].poll) ==> Remove(q[0].poll.fd, q[0].poll.gen) in q)
      && AddsCancelled(q[1..], gens)
  }

  /** The poll that a removal finds was the only one with that tag. */
  lemma RemovedIsGone(k: Kernel, fd: nat, gen: nat, p: Poll)
    requires k.queue != [] && k.queue[0] == Remove(fd, gen) && Single(Live(k)) && p in TakeUp(k).armed
    ensures p in k.armed && !(p.fd == fd && p.gen == gen)
  {
    var i := FindArmed(k.armed, fd, gen);
    if i < |k.armed| {
      OnlyOne(k, i, p);
    } else {
      NoneFound(k.armed, fd, gen);
    }
  }

  lemma OnlyOne(k: Kernel, i: nat, p: Poll)
    requires i < |k.armed| && Single(Live(k)) && p in k.armed[..i] + k.armed[i + 1..]
    ensures p in k.armed && !(p.fd == k.armed[i].fd && p.gen == k.armed[i].gen)
  {
    var rest := k.armed[..i] + k.armed[i + 1..];
    assert k.armed == k.armed[..i] + [k.armed[i]] + k.armed[i + 1..];
    assert multiset(k.armed) == multiset(rest) + multiset{k.armed[i]};
    assert p in multiset(rest) && k.armed[i] in multiset(k.armed);
    assert Live(k)[p] == 1 && k.armed[i] in Live(k);
  }

  lemma TakeUpCancelling(k: Kernel, gens: seq<nat>)
    requires k.queue != [] && Single(Live(k)) && Cancelling(k, gens)
    ensures Cancelling(TakeUp(k), gens)
  {
    var to := TakeUp(k);
    assert k.queue == [k.queue[0]] + to.queue;
    if k.queue[0].Remove? {
      forall p | p in to.armed ensures p in k.armed && Remove(p.fd, p.gen) != k.queue[0] {
        RemovedIsGone(k, k.queue[0].fd, k.queue[0].gen, p);
      }
    }
  }

  lemma {:induction false} NoneFound(armed: seq<Poll>, fd: nat, gen: nat)
    requires FindArmed(armed, fd, gen) == |armed|
    ensures forall p | p in armed :: !(p.fd == fd && p.gen == gen)
  {
    if armed != [] {
      NoneFound(armed[1..], fd, gen);
    }
  }

  lemma TakeUpsCancelling(k: Kernel, r: nat, gens: seq<nat>)
    requires r <= |k.queue| && Single(Live(k)) && Cancelling(k, gens)
    ensures Cancelling(TakeUps(k, r), gens)
  {
    var kept := (k1: Kernel) => Single(Live(k1)) && Cancelling(k1, gens);
    forall k1 | kept(k1) && k1.queue != [] ensures kept(TakeUp(k1)) {
      TakeUpLive(k1);
      TakeUpCancelling(k1, gens);
    }
    TakeUpsKeep(k, r, kept);
  }

  /** One more entry is queued; a new poll is of the current generation. */
  lemma {:induction false} AddedCancelled(q: seq<Sqe>, s: Sqe, gens: seq<nat>)
    requires AddsCancelled(q, gens) && (s.Add? ==> !Outlived(gens, s.poll))
    ensures AddsCancelled(q + [s], gens)
  {
    if q == [] {
      assert (q + [s])[1..] == [] && (q + [s])[0] == s;
    } else {
      AddedCancelled(q[1..], s, gens);
      assert (q + [s])[1..] == q[1..] + [s];
    }
  }

  /** The generation of a descriptor moves on when the removal of its present one has been queued. */
  lemma MovedOnCancelling(k: Kernel, gens: seq<nat>, fd: nat)
    requires fd < |gens| && Cancelling(k, gens)
    requires k.queue != [] && k.queue[|k.queue| - 1] == Remove(fd, gens[fd])
    ensures Cancelling(k, gens[fd := gens[fd] + 1])
  {
    MovedOn(k.queue, gens, fd);
  }

  lemma {:induction false} MovedOn(q: seq<Sqe>, gens: seq<nat>, fd: nat)
    requires fd < |gens| && AddsCancelled(q, gens) && (q != [] ==> q[|q| - 1] == Remove(fd, gens[fd]))
    ensures AddsCancelled(q, gens[fd := gens[fd] + 1])
  {
    if q != [] {
      MovedOn(q[1..], gens, fd);
    }
  }

  lemma CompletingCancelling(k: Kernel, i: nat, res: Res, gens: seq<nat>)
    requires i < |k.armed| && Cancelling(k, gens)
    ensures Cancelling(Completing(k, i, res), gens)
  {
  }

  lemma Twice(armed: seq<Poll>, i: nat, j: nat)
    requires i < j < |armed|
    ensures multiset(armed)[armed[i]] >= if armed[i] == armed[j] then 2 else 1
    ensures armed[i] in armed && armed[j] in armed
  {
    assert armed == armed[..j] + [armed[j]] + armed[j + 1..];
    assert armed[i] in armed[..j];
    assert armed[i] in multiset(armed[..j]);
  }

  /** Once the kernel has taken up everything, whatever is armed is of the current generation of its descriptor,
      and no descriptor has more than one. */
  lemma NoneOutlived(k: Kernel, fds: seq<Fd>)
    requires Inv(fds, Live(k)) && Single(Live(k)) && Cancelling(k, Gens(fds)) && k.queue == []
    ensures forall p | p in k.armed :: p.fd < |fds| && p == Wanted(p.fd, fds[p.fd])
    ensures forall i, j | 0 <= i < j < |k.armed| :: k.armed[i].fd != k.armed[j].fd
  {
    forall p | p in k.armed ensures p.fd < |fds| && p == Wanted(p.fd, fds[p.fd]) && Live(k)[p] == 1 {
      assert p in multiset(k.armed);
      assert p in Live(k);
      assert FdInv(p.fd, fds[p.fd], Live(k));
      assert !Outlived(Gens(fds), p);
      assert Current(p.fd, fds[p.fd], p);
    }
    forall i, j | 0 <= i < j < |k.armed| ensures k.armed[i].fd != k.armed[j].fd {
      Twice(k.armed, i, j);
      assert Live(k)[k.armed[i]] == 1 && k.armed[j].fd < |fds|;
    }
  }

  // ---------- descriptors ----------

  /** The poll that should be live for a descriptor. */
  function Wanted(fd: nat, a: Fd): Poll {
    Poll(fd, a.gen, a.events)
  }

  ghost predicate Current(fd: nat, a: Fd, p: Poll) {
    p.fd == fd && p.gen == a.gen
  }

  /** Recorded as polled, but no poll is live: that happens when the descriptor turned out to be closed. */
  ghost predicate Silent(fd: nat, a: Fd, live: multiset<Poll>) {
    a.events != {} && Wanted(fd, a) !in live
  }

  /** No poll of the descriptor is from a later generation, at most one is of the current one, and that is for
      the recorded mask. What is not listed is recorded right; what is silent will be told to the backend again. */
  ghost predicate FdInv(fd: nat, a: Fd, live: multiset<Poll>) {
    && (forall p | p in live && p.fd == fd :: p.gen <= a.gen)
    && (forall p | p in live && Current(fd, a, p) :: p == Wanted(fd, a) && a.events != {} && live[p] == 1)
    && (a.reify || a.fdset ==> a.listed) && (!a.listed ==> a.events == a.wants)
    && (Silent(fd, a, live) ==> a.listed && (a.fdset || a.wants != a.events))
  }

  ghost predicate Inv(fds: seq<Fd>, live: multiset<Poll>) {
    && (forall p | p in live :: p.fd < |fds|)
    && (forall fd: nat | fd < |fds| :: FdInv(fd, fds[fd], live))
  }

  /** No silent watcher: a descriptor that is watched is on the list of changes, or has exactly one live poll of
      its current generation, and that is for the mask that is wanted. */
  lemma NoSilentWatcher(fds: seq<Fd>, live: multiset<Poll>, fd: nat)
    requires Inv(fds, live) && fd < |fds| && fds[fd].wants != {} && !fds[fd].listed
    ensures live[Poll(fd, fds[fd].gen, fds[fd].wants)] == 1
    ensures forall p | p in live && Current(fd, fds[fd], p) :: p.mask == fds[fd].wants
  {
    assert FdInv(fd, fds[fd], live);
    assert Current(fd, fds[fd], Wanted(fd, fds[fd]));
  }

  /** The user starts, stops or changes watchers. */
  function Watched(a: Fd, wants: set<Event>, reify: bool, isSet: bool): Fd {
    a.(wants := wants, listed := true, reify := a.reify || reify, fdset := a.fdset || isSet)
  }

  /** What is wanted of a silent descriptor must be new, or the watcher set anew; nothing else is asked of users. */
  lemma WatchInv(fds: seq<Fd>, live: multiset<Poll>, fd: nat, wants: set<Event>, reify: bool, isSet: bool)
    requires Inv(fds, live) && fd < |fds|
    ensures Inv(fds[fd := Watched(fds[fd], wants, reify, isSet)], live)
      <==> !(Silent(fd, fds[fd], live) && wants == fds[fd].events && !isSet && !fds[fd].fdset)
  {
    var to := fds[fd := Watched(fds[fd], wants, reify, isSet)];
    assert FdInv(fd, fds[fd], live);
    assert Inv(to, live) ==> FdInv(fd, to[fd], live);
    assert FdInv(fd, to[fd], live) ==> Inv(to, live);
  }

  lemma NotLater(fds: seq<Fd>, live: multiset<Poll>, fd: nat, a: Fd)
    requires Inv(fds, live) && fd < |fds| && FdInv(fd, a, live)
    ensures Inv(fds[fd := a], live)
  {
  }

  lemma Submitted(fds: seq<Fd>, live: multiset<Poll>, fd: nat, a: Fd)
    requires Inv(fds, live) && fd < |fds| && fds[fd].events == {} && a == fds[fd].(events := a.events) && a.events != {}
    requires !a.reify && !a.fdset && (!a.listed ==> a.wants == a.events)
    ensures Inv(fds[fd := a], live + multiset{Wanted(fd, a)})
  {
    var to := live + multiset{Wanted(fd, a)};
    assert FdInv(fd, fds[fd], live);
    assert Wanted(fd, a) !in live;
    forall f: nat | f < |fds| ensures f != fd ==> FdInv(f, fds[f], to) {
      assert FdInv(f, fds[f], live);
    }
    assert FdInv(fd, a, to);
  }

  /** The poll that completed was the live one: the record is cleared, and the descriptor is listed. */
  lemma Completed(fds: seq<Fd>, live: multiset<Poll>, p: Poll)
    requires Inv(fds, live) && p in live && p.fd < |fds| && p.gen == fds[p.fd].gen
    ensures Inv(fds[p.fd := fds[p.fd].(events := {}, listed := true, reify := true)], live - multiset{p})
    ensures Inv(fds[p.fd := fds[p.fd].(wants := {}, listed := true, reify := true)], live - multiset{p})
    ensures fds[p.fd].wants == {} ==> Inv(fds, live - multiset{p})
  {
    var to := live - multiset{p};
    assert FdInv(p.fd, fds[p.fd], live) && Current(p.fd, fds[p.fd], p);
    forall q | q in to ensures q in live && (q != p ==> to[q] == live[q]) {
    }
    forall f: nat | f < |fds| ensures f != p.fd ==> FdInv(f, fds[f], to) {
      assert FdInv(f, fds[f], live);
    }
  }

  /** A poll of an earlier generation may end at any time. */
  lemma Outdated(fds: seq<Fd>, live: multiset<Poll>, p: Poll)
    requires Inv(fds, live) && p in live && (p.fd < |fds| ==> p.gen != fds[p.fd].gen)
    ensures Inv(fds, live - multiset{p})
  {
    var to := live - multiset{p};
    forall f: nat | f < |fds| ensures FdInv(f, fds[f], to) {
      assert FdInv(f, fds[f], live);
    }
  }

  // ---------- the backend ----------

  function Asks(bits: set<Bit>): set<Event> {
    (if bits * {PollIn, PollRdHup} != {} then {Read} else {})
    + (if PollOut in bits then {Write} else {})
    + (if bits * {PollErr, PollHup} != {} then {Read, Write} else {})
  }

  /** Whatever the kernel reports is an event for the loop. */
  lemma ReportsSomething(bits: set<Bit>, b: Bit)
    requires b in bits
    ensures Asks(bits) != {}
  {
    match b
    case PollIn => assert b in bits * {PollIn, PollRdHup};
    case PollRdHup => assert b in bits * {PollIn, PollRdHup};
    case PollOut => assert Write in Asks(bits);
    case PollErr => assert b in bits * {PollErr, PollHup};
    case PollHup => assert b in bits * {PollErr, PollHup};
  }

  /** A completion with events has some. */
  ghost predicate Reporting(cq: seq<Cqe>) {
    forall c | c in cq && c.Done? && c.res.Ready? :: c.res.bits != {}
  }

  lemma {:induction false} TakeUpsReporting(k: Kernel, r: nat)
    requires r <= |k.queue| && Reporting(k.cq)
    ensures Reporting(TakeUps(k, r).cq)
    decreases r
  {
    if r > 0 {
      TakeUpsReporting(TakeUp(k), r - 1);
    }
  }

  datatype Fed = Fed(fd: nat, events: set<Event>)

  const DRAIN_BUDGET := 4096

  ghost predicate Kept(k: Kernel, fds: seq<Fd>) {
    Single(Live(k)) && Cancelling(k, Gens(fds))
  }

  lemma Taken(k: Kernel, r: nat, fds: seq<Fd>, to: Kernel)
    requires r <= |k.queue| && Kept(k, fds) && Reporting(k.cq)
    requires to.queue == k.queue[r..] && to.armed == TakeUps(k, r).armed && to.cq == TakeUps(k, r).cq
    ensures to == TakeUps(k, r) && Live(to) == Live(k)
    ensures Kept(to, fds) && Reporting(to.cq)
  {
    TakeUpsLive(k, r);
    TakeUpsReporting(k, r);
    TakeUpsCancelling(k, r, Gens(fds));
  }

  lemma Fired(k: Kernel, i: nat, res: Res, fds: seq<Fd>, to: Kernel)
    requires i < |k.armed| && Kept(k, fds) && Reporting(k.cq) && (res.Ready? ==> res.bits != {})
    requires to == Completing(k, i, res)
    ensures Live(to) == Live(k) && Kept(to, fds) && Reporting(to.cq)
  {
    CompletingLive(k, i, res);
    CompletingCancelling(k, i, res, Gens(fds));
  }

  /** The kernel has taken up some of the queue, and one more entry is queued. */
  lemma Queued(k: Kernel, r: nat, s: Sqe, fds: seq<Fd>, to: Kernel)
    requires r <= |k.queue| && Kept(k, fds) && Reporting(k.cq) && (s.Add? ==> !Outlived(Gens(fds), s.poll))
    requires to.queue == k.queue[r..] + [s] && to.armed == TakeUps(k, r).armed && to.cq == TakeUps(k, r).cq
    ensures Reporting(to.cq) && Cancelling(to, Gens(fds))
    ensures Live(to) == Live(k) + if s.Add? then multiset{s.poll} else multiset{}
  {
    var taken := Kernel(k.queue[r..], to.armed, to.cq);
    Taken(k, r, fds, taken);
    QueuedMore(taken, s, Gens(fds), to);
  }

  lemma QueuedMore(k: Kernel, s: Sqe, gens: seq<nat>, to: Kernel)
    requires Cancelling(k, gens) && (s.Add? ==> !Outlived(gens, s.poll)) && to == k.(queue := k.queue + [s])
    ensures Cancelling(to, gens) && Live(to) == Live(k) + if s.Add? then multiset{s.poll} else multiset{}
  {
    AddsOn(k.queue, s);
    AddedCancelled(k.queue, s, gens);
  }

  class Backend {
    const ring: Ring
    var fds: seq<Fd>
    var armed: seq<Poll>
    var cq: seq<Cqe>

    function Now(): Kernel
      reads this, ring
    {
      Kernel(ring.pending, armed, cq)
    }

    ghost predicate Valid()
      reads this, ring, ring.sqes, ring.sqArray
    {
      ring.Valid() && Inv(fds, Live(Now())) && Reporting(cq) && Kept(Now(), fds)
    }

    constructor (entries: nat, ghost turns: nat, nfds: nat)
      requires 0 < entries < TWO32 && Times(turns, entries) == TWO32
      ensures Valid() && fresh(ring) && |fds| == nfds
    {
      ring := new Ring(entries, turns);
      fds := seq(nfds, _ => Fd({}, {}, 0, false, false, false));
      armed, cq := [], [];
    }

    /** An armed poll fires, or is ended by the kernel; that may happen between any two steps of the loop. */
    method Fire(i: nat, res: Res)
      requires Valid() && i < |armed| && (res.Ready? ==> res.bits != {})
      modifies this`armed, this`cq
      ensures Valid() && Now() == Completing(old(Now()), i, res)
    {
      ghost var was := Now();
      armed, cq := armed[..i] + armed[i + 1..], cq + [Done(armed[i], res)];
      Fired(was, i, res, fds, Now());
    }

    /** ev_io_start, ev_io_stop and ev_io_modify. A descriptor that is silent has been closed: when just the recorded
        mask is wanted of it, a watcher on it has to be set anew. */
    method Watch(fd: nat, wants: set<Event>, reify: bool, isSet: bool)
      requires Valid() && fd < |fds|
      requires Silent(fd, fds[fd], Live(Now())) && wants == fds[fd].events ==> isSet || fds[fd].fdset
      modifies this`fds
      ensures Valid() && fds == old(fds)[fd := Watched(old(fds)[fd], wants, reify, isSet)]
      ensures fds[fd].wants == wants && fds[fd].listed && fds[fd].events == old(fds)[fd].events
    {
      WatchInv(fds, Live(Now()), fd, wants, reify, isSet);
      assert Gens(fds[fd := Watched(fds[fd], wants, reify, isSet)]) == Gens(fds);
      fds := fds[fd := Watched(fds[fd], wants, reify, isSet)];
    }

    /** iouring_get_sqe and submit_sqe: the entry is queued last, behind what the kernel has not consumed. */
    method Put(s: Sqe)
      requires ring.Valid() && Reporting(cq) && Kept(Now(), fds) && (s.Add? ==> !Outlived(Gens(fds), s.poll))
      modifies this`armed, this`cq, ring, ring.sqes, ring.sqArray
      ensures ring.Valid() && Reporting(cq) && Live(Now()) == old(Live(Now())) + if s.Add? then multiset{s.poll} else multiset{}
      ensures Cancelling(Now(), Gens(fds)) && ring.pending != [] && ring.pending[|ring.pending| - 1] == s
    {
      var k := Now();
      var slot, r, tries := ring.GetSqe();
      armed, cq := TakeUps(k, r).armed, TakeUps(k, r).cq;
      ring.Fill(slot, s);
      ring.Submit();
      assert ring.pending == k.queue[r..] + [s];
      Queued(k, r, s, fds, Now());
    }

    /** The first half of iouring_modify: the removal carries the generation that ends. */
    method Cancel(fd: nat)
      requires ring.Valid() && Reporting(cq) && Kept(Now(), fds) && fd < |fds|
      modifies this`armed, this`cq, this`fds, ring, ring.sqes, ring.sqArray
      ensures ring.Valid() && Reporting(cq) && fds == old(fds)[fd := old(fds)[fd].(gen := old(fds)[fd].gen + 1)]
      ensures Live(Now()) == old(Live(Now())) && Kept(Now(), fds)
      ensures ring.pending != [] && ring.pending[|ring.pending| - 1] == Remove(fd, old(fds)[fd].gen)
    {
      Put(Remove(fd, fds[fd].gen));
      MovedOnCancelling(Now(), Gens(fds), fd);
      assert Gens(fds[fd := fds[fd].(gen := fds[fd].gen + 1)]) == Gens(fds)[fd := fds[fd].gen + 1];
      fds := fds[fd := fds[fd].(gen := fds[fd].gen + 1)];
    }

    /** iouring_modify. */
    method Modify(fd: nat, oev: set<Event>, nev: set<Event>)
      requires ring.Valid() && Reporting(cq) && Kept(Now(), fds) && fd < |fds|
      modifies this`armed, this`cq, this`fds, ring, ring.sqes, ring.sqArray
      ensures ring.Valid() && Reporting(cq) && Cancelling(Now(), Gens(fds))
      ensures fds == old(fds)[fd := old(fds)[fd].(gen := old(fds)[fd].gen + if oev != {} then 1 else 0)]
      ensures Live(Now()) == old(Live(Now())) + if nev != {} then multiset{Poll(fd, fds[fd].gen, nev)} else multiset{}
    {
      if oev != {} {
        Cancel(fd);
      } else {
        assert fds == fds[fd := fds[fd].(gen := fds[fd].gen + 0)];
      }
      if nev != {} {
        Put(Add(Poll(fd, fds[fd].gen, nev)));
      }
    }

    /** The body of fd_reify for one change. */
    method Reify(fd: nat)
      requires Valid() && fd < |fds| && fds[fd].listed
      modifies this`armed, this`cq, this`fds, ring, ring.sqes, ring.sqArray
      ensures Valid() && |fds| == |old(fds)| && !fds[fd].listed && !fds[fd].reify && !fds[fd].fdset
      ensures fds[fd].events == fds[fd].wants == old(fds)[fd].wants
      ensures forall f: nat | f < |fds| && f != fd :: fds[f] == old(fds)[f]
      ensures fds[fd].gen == old(fds)[fd].gen
        + if old(fds)[fd].events != {} && (old(fds)[fd].fdset || old(fds)[fd].events != old(fds)[fd].wants) then 1 else 0
    {
      ghost var was, live := fds, Live(Now());
      var a := fds[fd];
      fds := fds[fd := Fd(a.wants, a.wants, a.gen, false, false, false)];
      assert Gens(fds) == Gens(was);
      if a.fdset || a.events != a.wants {
        Modify(fd, a.events, a.wants);
        Reified(was, live, fd, Fd(a.wants, a.wants, a.gen, false, false, false), fds[fd], fds, Now());
      } else {
        UntouchedInv(was, live, fd, fds[fd]);
      }
    }

    /** One io_uring_enter of that loop. */
    method SubmitSome()
      requires Valid() && ring.toSubmit > 0
      modifies this`armed, this`cq, ring`head, ring`toSubmit, ring`h, ring`pending
      ensures Valid() && |ring.pending| < old(|ring.pending|) && Live(Now()) == old(Live(Now()))
    {
      var k := Now();
      var r := ring.EnterSubmit();
      armed, cq := TakeUps(k, r).armed, TakeUps(k, r).cq;
      Taken(k, r, fds, Now());
    }

    /** The submit loop of iouring_poll: it ends, whatever is queued has been handed over, and what is armed then
        are polls of the current generations, one a descriptor at most: every outdated poll has been cancelled. */
    method SubmitAll()
      requires Valid()
      modifies this`armed, this`cq, ring`head, ring`toSubmit, ring`h, ring`pending
      ensures Valid() && ring.pending == [] && Live(Now()) == old(Live(Now()))
      ensures forall p | p in armed :: p.fd < |fds| && p == Poll(p.fd, fds[p.fd].gen, fds[p.fd].events)
      ensures forall i, j | 0 <= i < j < |armed| :: armed[i].fd != armed[j].fd
    {
      while ring.toSubmit > 0
        invariant Valid() && Live(Now()) == old(Live(Now()))
        decreases |ring.pending|
      {
        SubmitSome();
      }
      NoneOutlived(Now(), fds);
    }

    /** What iouring_cq_drain does with one completion. */
    method Handle(c: Cqe) returns (fed: Option<Fed>)
      modifies this`fds
      ensures fds == AfterCqe(old(fds), c) && fed == FedBy(old(fds), c)
    {
      if c.Removed? { return None; }
      var fd := c.poll.fd;
      if fd >= |fds| || fds[fd].gen != c.poll.gen { return None; }
      fed := None;
      match c.res {
        case BadFd =>
          if fds[fd].wants != {} {
            fds := fds[fd := Relisted(fds[fd]).(wants := {})];
          }
        case Ended =>
          fds := fds[fd := Relisted(fds[fd]).(events := {})];
        case Ready(bits) =>
          if !fds[fd].reify {
            fed := Some(Fed(fd, Asks(bits)));
          }
          fds := fds[fd := Relisted(fds[fd]).(events := {})];
      }
    }

    /** The body of the loop in iouring_cq_drain. */
    method DrainOne() returns (fed: Option<Fed>)
      requires Valid() && cq != []
      modifies this`cq, this`fds
      ensures Valid() && cq == old(cq)[1..] && fds == AfterCqe(old(fds), old(cq)[0]) && fed == FedBy(old(fds), old(cq)[0])
      ensures !IsCurrent(old(fds), old(cq)[0]) ==> fds == old(fds) && fed.None?
      ensures IsCurrent(old(fds), old(cq)[0]) ==> var fd := old(cq)[0].poll.fd;
        && Tells(old(fds), old(cq)[0], fed) && Ends(old(fds)[fd], old(cq)[0].res, fds[fd])
        && forall f: nat | f < |fds| && f != fd :: fds[f] == old(fds)[f]
    {
      ghost var was, before := Now(), fds;
      var c := cq[0];
      cq := cq[1..];
      fed := Handle(c);
      DrainedEnds(before, c);
      Drained(was, before, Now(), fds);
    }

    /** A poll that completed, with events or without, is armed anew: after the next turn of fd_reify the watchers
        are as they were, and what they want is polled for exactly once. */
    method DrainAndReify() returns (fed: Option<Fed>)
      requires Valid() && cq != [] && IsCurrent(fds, cq[0]) && !cq[0].res.BadFd?
      modifies this`cq, this`fds, this`armed, ring, ring.sqes, ring.sqArray
      ensures Valid() && |fds| == |old(fds)|
      ensures var fd := old(cq)[0].poll.fd; var a := fds[fd];
        && a.wants == old(fds)[fd].wants && a.gen == old(fds)[fd].gen && !a.listed
        && (a.wants != {} ==> Live(Now())[Poll(fd, a.gen, a.wants)] == 1)
        && (forall p | p in Live(Now()) && p.fd == fd && p.gen == a.gen :: p.mask == a.wants != {})
    {
      var fd := cq[0].poll.fd;
      fed := DrainOne();
      Reify(fd);
      assert FdInv(fd, fds[fd], Live(Now()));
      assert Current(fd, fds[fd], Wanted(fd, fds[fd]));
    }

    /** iouring_cq_drain: completions are handled in order, until there are none or the budget is spent. */
    method Drain() returns (fed: seq<Fed>)
      requires Valid()
      modifies this`cq, this`fds
      ensures Valid()
      ensures var n := if |old(cq)| <= DRAIN_BUDGET then |old(cq)| else DRAIN_BUDGET;
        cq == old(cq)[n..] && fed == FedByAll(old(fds), old(cq)[..n]) && DrainedAs(old(fds), old(cq)[..n], fds, fed)
    {
      ghost var all := cq;
      ghost var was, before := Now(), fds;
      var drained := 0;
      fed := [];
      while cq != []
        invariant Valid() && 0 <= drained <= DRAIN_BUDGET && drained <= |all| && cq == all[drained..]
        invariant fds == AfterCqes(old(fds), all[..drained]) && fed == FedByAll(old(fds), all[..drained])
        decreases |cq|
      {
        if drained + 1 > DRAIN_BUDGET { break; }
        CqesOn(old(fds), all, drained);
        drained := drained + 1;
        var f := DrainOne();
        if f.Some? {
          fed := fed + [f.value];
        }
      }
      assert drained == if |all| <= DRAIN_BUDGET then |all| else DRAIN_BUDGET;
      DrainedPart(was, before, drained, fds, fed);
    }
  }

  ghost predicate IsCurrent(fds: seq<Fd>, c: Cqe) {
    c.Done? && c.poll.fd < |fds| && c.poll.gen == fds[c.poll.fd].gen
  }

  /** What becomes of the descriptor of a poll that was current: a bad descriptor loses its watchers; otherwise they
      stay, no poll is recorded any more, and the descriptor is listed. */
  ghost predicate Ends(a: Fd, res: Res, b: Fd) {
    && b.gen == a.gen && b.fdset == a.fdset
    && b.wants == (if res.BadFd? then {} else a.wants) && b.events == (if res.BadFd? then a.events else {})
    && (if res.BadFd? && a.wants == {} then b == a else b.listed && b.reify)
  }

  /** The bits of the kernel that stand for an event, an error for each. */
  function Bits(e: Event): set<Bit> {
    if e.Read? then {PollIn, PollRdHup, PollErr, PollHup} else {PollOut, PollErr, PollHup}
  }

  /** Watchers are told when there were events and no watcher of the descriptor had changed; all of the events. */
  ghost predicate Tells(fds: seq<Fd>, c: Cqe, fed: Option<Fed>)
    requires IsCurrent(fds, c)
  {
    && (fed.Some? <==> c.res.Ready? && !fds[c.poll.fd].reify)
    && (fed.Some? ==> fed.value.fd == c.poll.fd && forall e :: e in fed.value.events <==> c.res.bits * Bits(e) != {})
  }

  lemma DrainedEnds(fds: seq<Fd>, c: Cqe)
    ensures !IsCurrent(fds, c) ==> AfterCqe(fds, c) == fds && FedBy(fds, c) == None
    ensures IsCurrent(fds, c) ==> var fd := c.poll.fd; var to := AfterCqe(fds, c);
      && Tells(fds, c, FedBy(fds, c)) && Ends(fds[fd], c.res, to[fd]) && forall f: nat | f < |fds| && f != fd :: to[f] == fds[f]
  {
    if IsCurrent(fds, c) && c.res.Ready? {
      AsksExactly(c.res.bits);
    }
  }

  lemma AsksExactly(bits: set<Bit>)
    ensures forall e :: e in Asks(bits) <==> bits * Bits(e) != {}
  {
    var i, o, h := bits * {PollIn, PollRdHup}, PollOut in bits, bits * {PollErr, PollHup};
    assert bits * Bits(Read) == i + h;
    assert bits * Bits(Write) == (if o then {PollOut} else {}) + h;
  }

  /** fd_change with EV_ANFD_REIFY. */
  function Relisted(a: Fd): Fd {
    a.(listed := true, reify := true)
  }

  /** What a completion does to the descriptors: one of the current generation clears the record and lists the
      descriptor, so that it is polled again; a bad descriptor loses its watchers. */
  function AfterCqe(fds: seq<Fd>, c: Cqe): (r: seq<Fd>)
    ensures |r| == |fds|
  {
    if c.Removed? || c.poll.fd >= |fds| || c.poll.gen != fds[c.poll.fd].gen then fds
    else
      var a := fds[c.poll.fd];
      if !c.res.BadFd? then fds[c.poll.fd := Relisted(a).(events := {})]
      else if a.wants != {} then fds[c.poll.fd := Relisted(a).(wants := {})]
      else fds
  }

  /** What it tells the watchers, unless they changed while the poll was running. */
  function FedBy(fds: seq<Fd>, c: Cqe): Option<Fed> {
    if c.Removed? || c.poll.fd >= |fds| || c.poll.gen != fds[c.poll.fd].gen || !c.res.Ready? || fds[c.poll.fd].reify then None
    else Some(Fed(c.poll.fd, Asks(c.res.bits)))
  }

  /** The same for completions that are handled one after the other. */
  function AfterCqes(fds: seq<Fd>, cq: seq<Cqe>): (r: seq<Fd>)
    ensures |r| == |fds|
  {
    if cq == [] then fds else AfterCqe(AfterCqes(fds, cq[..|cq| - 1]), cq[|cq| - 1])
  }

  function FedByAll(fds: seq<Fd>, cq: seq<Cqe>): seq<Fed> {
    if cq == [] then []
    else
      var f := FedBy(AfterCqes(fds, cq[..|cq| - 1]), cq[|cq| - 1]);
      FedByAll(fds, cq[..|cq| - 1]) + if f.Some? then [f.value] else []
  }

  lemma CqesOn(fds: seq<Fd>, cq: seq<Cqe>, k: nat)
    requires k < |cq|
    ensures AfterCqes(fds, cq[..k + 1]) == AfterCqe(AfterCqes(fds, cq[..k]), cq[k])
    ensures var f := FedBy(AfterCqes(fds, cq[..k]), cq[k]);
      FedByAll(fds, cq[..k + 1]) == if f.Some? then FedByAll(fds, cq[..k]) + [f.value] else FedByAll(fds, cq[..k])
  {
    assert cq[..k + 1][..k] == cq[..k];
  }

  /** What handling completions comes to, seen from the state before: the descriptor of a current completion ends
      its poll, no other one changes, and the watchers are told the events of the current completions, a descriptor
      once. */
  ghost predicate DrainedAs(fds: seq<Fd>, cq: seq<Cqe>, to: seq<Fd>, fed: seq<Fed>) {
    && |to| == |fds| && (forall fd: nat | fd < |fds| :: EndsIn(fds, cq, fd, to[fd]))
    && (forall f :: f in fed <==> ToldOf(fds, cq, f))
    && (forall i, j | 0 <= i < j < |fed| :: fed[i].fd != fed[j].fd)
  }

  ghost predicate ToldOf(fds: seq<Fd>, cq: seq<Cqe>, f: Fed) {
    exists k :: 0 <= k < |cq| && IsCurrent(fds, cq[k]) && Tells(fds, cq[k], Some(f))
  }

  ghost predicate EndsIn(fds: seq<Fd>, cq: seq<Cqe>, fd: nat, b: Fd)
    requires fd < |fds|
  {
    && (forall k | 0 <= k < |cq| && IsCurrent(fds, cq[k]) && cq[k].poll.fd == fd :: Ends(fds[fd], cq[k].res, b))
    && ((forall k | 0 <= k < |cq| && IsCurrent(fds, cq[k]) :: cq[k].poll.fd != fd) ==> b == fds[fd])
  }

  ghost predicate OneEach(cq: seq<Cqe>) {
    forall i, j | 0 <= i < j < |cq| && cq[i].Done? && cq[j].Done? ::
      !(cq[i].poll.fd == cq[j].poll.fd && cq[i].poll.gen == cq[j].poll.gen)
  }

  lemma {:induction false} DonesAt(cq: seq<Cqe>, i: nat, j: nat)
    requires i < j < |cq| && cq[i].Done? && cq[j].Done?
    ensures cq[i].poll in Dones(cq) && cq[j].poll in Dones(cq) && (cq[i].poll == cq[j].poll ==> Dones(cq)[cq[i].poll] >= 2)
  {
    if i > 0 {
      DonesAt(cq[1..], i - 1, j - 1);
    } else {
      DoneAt(cq[1..], j - 1);
    }
  }

  lemma {:induction false} DoneAt(cq: seq<Cqe>, j: nat)
    requires j < |cq| && cq[j].Done?
    ensures cq[j].poll in Dones(cq)
  {
    if j > 0 {
      DoneAt(cq[1..], j - 1);
    }
  }

  /** No poll completes twice. */
  lemma OneDoneEach(k: Kernel)
    requires Single(Live(k))
    ensures OneEach(k.cq)
  {
    forall i, j | 0 <= i < j < |k.cq| && k.cq[i].Done? && k.cq[j].Done?
      ensures !(k.cq[i].poll.fd == k.cq[j].poll.fd && k.cq[i].poll.gen == k.cq[j].poll.gen)
    {
      DonesAt(k.cq, i, j);
      assert k.cq[i].poll in Live(k) && k.cq[j].poll in Live(k);
    }
  }

  lemma {:induction false} AfterCqesAt(fds: seq<Fd>, cq: seq<Cqe>, fd: nat)
    requires OneEach(cq) && fd < |fds|
    ensures AfterCqes(fds, cq)[fd].gen == fds[fd].gen && EndsIn(fds, cq, fd, AfterCqes(fds, cq)[fd])
    decreases cq
  {
    if cq != [] {
      var most, c := cq[..|cq| - 1], cq[|cq| - 1];
      AfterCqesAt(fds, most, fd);
      assert cq == most + [c];
      var mid := AfterCqes(fds, most);
      DrainedEnds(mid, c);
      if c.Done? && c.poll.fd == fd && c.poll.gen == fds[fd].gen {
        assert IsCurrent(mid, c);
        assert forall k | 0 <= k < |most| && IsCurrent(fds, most[k]) :: most[k].poll.fd != fd;
      }
    }
  }

  lemma {:induction false} DrainedExactly(fds: seq<Fd>, cq: seq<Cqe>)
    requires OneEach(cq)
    ensures DrainedAs(fds, cq, AfterCqes(fds, cq), FedByAll(fds, cq))
    decreases cq
  {
    forall fd: nat | fd < |fds| ensures EndsIn(fds, cq, fd, AfterCqes(fds, cq)[fd]) {
      AfterCqesAt(fds, cq, fd);
    }
    if cq != [] {
      var most, c := cq[..|cq| - 1], cq[|cq| - 1];
      assert cq == most + [c];
      OneEachOf(most, c);
      DrainedExactly(fds, most);
      FedNext(fds, most, c);
      DrainedEnds(fds, c);
      forall f: Fed {
        ToldNext(fds, most, c, f);
      }
      if FedBy(fds, c).Some? {
        forall f | f in FedByAll(fds, most) ensures f.fd != c.poll.fd {
          assert ToldOf(fds, most, f);
        }
      }
    }
  }

  lemma DrainedPart(k: Kernel, fds: seq<Fd>, n: nat, to: seq<Fd>, fed: seq<Fed>)
    requires Single(Live(k)) && n <= |k.cq| && to == AfterCqes(fds, k.cq[..n]) && fed == FedByAll(fds, k.cq[..n])
    ensures DrainedAs(fds, k.cq[..n], to, fed)
  {
    OneDoneEach(k);
    DrainedExactly(fds, k.cq[..n]);
  }

  lemma OneEachOf(most: seq<Cqe>, c: Cqe)
    requires OneEach(most + [c])
    ensures OneEach(most)
    ensures forall k | 0 <= k < |most| && most[k].Done? && c.Done? :: !(most[k].poll.fd == c.poll.fd && most[k].poll.gen == c.poll.gen)
  {
    var cq := most + [c];
    assert cq[|most|] == c && forall i | 0 <= i < |most| :: most[i] == cq[i];
  }

  lemma ToldNext(fds: seq<Fd>, most: seq<Cqe>, c: Cqe, f: Fed)
    ensures ToldOf(fds, most + [c], f) <==> ToldOf(fds, most, f) || FedBy(fds, c) == Some(f)
  {
    var cq := most + [c];
    DrainedEnds(fds, c);
    assert cq[|most|] == c && forall i | 0 <= i < |most| :: most[i] == cq[i];
    if FedBy(fds, c) == Some(f) {
      assert IsCurrent(fds, cq[|most|]) && Tells(fds, cq[|most|], Some(f));
    }
    if IsCurrent(fds, c) && Tells(fds, c, Some(f)) {
      assert FedBy(fds, c).Some? && FedBy(fds, c).value.events == f.events;
    }
    if ToldOf(fds, most, f) {
      var k :| 0 <= k < |most| && IsCurrent(fds, most[k]) && Tells(fds, most[k], Some(f));
      assert IsCurrent(fds, cq[k]) && Tells(fds, cq[k], Some(f));
    }
  }

  lemma FedNext(fds: seq<Fd>, most: seq<Cqe>, c: Cqe)
    requires OneEach(most + [c])
    ensures FedBy(AfterCqes(fds, most), c) == FedBy(fds, c)
  {
    OneEachOf(most, c);
    if c.Done? && c.poll.fd < |fds| {
      AfterCqesAt(fds, most, c.poll.fd);
    }
  }

  lemma CqeInv(fds: seq<Fd>, live: multiset<Poll>, c: Cqe)
    requires Inv(fds, live) && c.Done? && c.poll in live
    ensures Inv(AfterCqe(fds, c), live - multiset{c.poll})
  {
    if c.poll.gen == fds[c.poll.fd].gen {
      Completed(fds, live, c.poll);
    } else {
      Outdated(fds, live, c.poll);
    }
  }

  lemma DrainedInv(k: Kernel, fds: seq<Fd>)
    requires Inv(fds, Live(k)) && k.cq != []
    ensures Inv(AfterCqe(fds, k.cq[0]), Live(k.(cq := k.cq[1..])))
  {
    var to := k.(cq := k.cq[1..]);
    if k.cq[0].Done? {
      assert Live(k) == Live(to) + multiset{k.cq[0].poll};
      CqeInv(fds, Live(k), k.cq[0]);
      assert Live(k) - multiset{k.cq[0].poll} == Live(to);
    } else {
      assert Live(k) == Live(to);
    }
  }

  lemma Drained(k: Kernel, fds: seq<Fd>, to: Kernel, now: seq<Fd>)
    requires k.cq != [] && Inv(fds, Live(k)) && Kept(k, fds) && Reporting(k.cq)
    requires to == k.(cq := k.cq[1..]) && now == AfterCqe(fds, k.cq[0])
    ensures Inv(now, Live(to)) && Kept(to, now) && Reporting(to.cq)
  {
    DrainedInv(k, fds);
    DrainedKept(k, fds);
  }

  lemma DrainedKept(k: Kernel, fds: seq<Fd>)
    requires Kept(k, fds) && k.cq != []
    ensures Kept(k.(cq := k.cq[1..]), AfterCqe(fds, k.cq[0]))
  {
    var to := k.(cq := k.cq[1..]);
    assert Live(k) == Live(to) + if k.cq[0].Done? then multiset{k.cq[0].poll} else multiset{};
    forall p | p in Live(to) ensures p in Live(k) && Live(to)[p] <= Live(k)[p] {
    }
    var now := AfterCqe(fds, k.cq[0]);
    assert Gens(now) == Gens(fds);
  }

  /** After a completion of its current generation a watched descriptor is on the list of changes, and if there
      were events for it and its watchers had not changed, they are told some. */
  lemma CompletionIsSeen(fds: seq<Fd>, live: multiset<Poll>, c: Cqe)
    requires Inv(fds, live) && IsCurrent(fds, c) && c.poll in live && Reporting([c])
    ensures AfterCqe(fds, c)[c.poll.fd].listed
    ensures c.res.Ready? && !fds[c.poll.fd].reify ==>
      FedBy(fds, c).Some? && FedBy(fds, c).value.fd == c.poll.fd && FedBy(fds, c).value.events != {}
  {
    CurrentIsListed(fds, live, c.poll);
    assert c in [c];
    if c.res.Ready? {
      var b :| b in c.res.bits;
      ReportsSomething(c.res.bits, b);
    }
  }

  /** A live poll that nobody wants any more belongs to a descriptor that is listed. */
  lemma CurrentIsListed(fds: seq<Fd>, live: multiset<Poll>, p: Poll)
    requires Inv(fds, live) && p in live && p.fd < |fds| && p.gen == fds[p.fd].gen
    ensures fds[p.fd].wants == {} ==> fds[p.fd].listed
  {
    assert FdInv(p.fd, fds[p.fd], live) && Current(p.fd, fds[p.fd], p);
  }

  lemma ReifiedInv(fds: seq<Fd>, live: multiset<Poll>, fd: nat, a: Fd)
    requires Inv(fds, live) && fd < |fds| && !a.reify && !a.fdset && !a.listed && a.events == a.wants
    requires a.gen == fds[fd].gen + if fds[fd].events != {} then 1 else 0
    ensures Inv(fds[fd := a], live + if a.events != {} then multiset{Wanted(fd, a)} else multiset{})
  {
    assert FdInv(fd, fds[fd], live);
    var b := a.(events := {}, wants := {});
    assert FdInv(fd, b, live);
    NotLater(fds, live, fd, b);
    if a.events != {} {
      var c := b.(listed := true, wants := a.wants);
      assert FdInv(fd, c, live);
      NotLater(fds, live, fd, c);
      Submitted(fds[fd := c], live, fd, c.(events := a.events));
    }
  }

  lemma Reified(fds: seq<Fd>, live: multiset<Poll>, fd: nat, b: Fd, a: Fd, now: seq<Fd>, to: Kernel)
    requires Inv(fds, live) && Single(live) && fd < |fds| && !a.reify && !a.fdset && !a.listed && a.events == a.wants
    requires a.gen == fds[fd].gen + if fds[fd].events != {} then 1 else 0
    requires now == fds[fd := b][fd := a] && Cancelling(to, Gens(now))
    requires Live(to) == live + if a.events != {} then multiset{Poll(fd, a.gen, a.events)} else multiset{}
    ensures now == fds[fd := a] && Inv(now, Live(to)) && Kept(to, now)
  {
    assert fds[fd := b][fd := a] == fds[fd := a];
    ReifiedInv(fds, live, fd, a);
    ReifiedSingle(fds, live, fd, a);
  }

  lemma ReifiedSingle(fds: seq<Fd>, live: multiset<Poll>, fd: nat, a: Fd)
    requires Inv(fds, live) && Single(live) && fd < |fds|
    requires a.gen == fds[fd].gen + if fds[fd].events != {} then 1 else 0
    ensures Single(live + if a.events != {} then multiset{Wanted(fd, a)} else multiset{})
  {
    assert FdInv(fd, fds[fd], live);
    forall p | p in live && p.fd == fd ensures p.gen != a.gen {
      assert p.gen <= fds[fd].gen;
      assert Current(fd, fds[fd], p) ==> fds[fd].events != {};
    }
  }

  lemma UntouchedInv(fds: seq<Fd>, live: multiset<Poll>, fd: nat, a: Fd)
    requires Inv(fds, live) && fd < |fds| && !fds[fd].fdset && fds[fd].events == fds[fd].wants
    requires a == Fd(fds[fd].wants, fds[fd].wants, fds[fd].gen, false, false, false)
    ensures Inv(fds[fd := a], live)
  {
    assert FdInv(fd, fds[fd], live);
    NotLater(fds, live, fd, a);
  }
}
