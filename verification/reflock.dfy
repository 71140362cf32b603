/** wepoll's handle tree and reflock: how a port that threads are using is reclaimed.

    Every step is one lock operation, one look at the tree, one interlocked operation or one
    system call of one thread; the steps of any number of threads interleave freely. A port's
    `word` is the interlocked 32-bit state of its reflock. */
module Reflock {
  import opened Wrappers

  const REF := 0x0000_0001
  const DESTROY := 0x1000_0000
  const POISON := 0x300d_ead0
  const WORD := 0x1_0000_0000

  /** The bits of REFLOCK__REF_MASK and of REFLOCK__DESTROY_MASK in a state. */
  function RefBits(word: nat): nat {
    word % DESTROY
  }

  function DestroyBits(word: nat): nat {
    word - word % DESTROY
  }

  /** InterlockedAdd on 32 bits. */
  function Add(word: nat, delta: int): (r: nat)
    ensures r < WORD
  {
    (word + delta) % WORD
  }

  type Handle = nat

  datatype Pc =
    | Idle
    // epoll__create
    | Made              // port_new is done
    | AddLocked         // the tree's lock is held exclusively
    | Collided          // ts_tree_add failed
    | Added
    // epoll_ctl and epoll_wait
    | FindLocked        // the tree's lock is held shared
    | Found
    | Referenced
    | Missed
    | Using             // the lock is released; port_ctl or port_wait runs
    | Signal            // the last reference is gone; the keyed event is signalled
    // epoll_close
    | CloseLocked       // the tree's lock is held exclusively
    | CloseFound
    | Unlisted          // out of the tree
    | CloseReferenced
    | CloseMissed
    | Closing           // the lock is released
    | Closed            // the IOCP is closed
    | Await
    | Exchange
    | Delete            // port_delete comes next

  /** A thread, the handle it was called with and the port it works on. */
  datatype Thread = Thread(pc: Pc, handle: Handle, port: nat)

  /** `owner` is the thread that created the port and has not put it into the tree yet, or took
      it out of the tree and has not freed it yet; `signaller` is the thread that is about to
      signal. The program stores neither. */
  datatype Port = Port(handle: Handle, word: nat, freed: bool, owner: Option<nat>, signaller: Option<nat>)

  /** `open`: the IOCP handles that the system has handed out. */
  datatype State = State(tree: map<Handle, nat>, open: set<Handle>, ports: seq<Port>, threads: seq<Thread>)

  predicate HoldsShared(pc: Pc) {
    pc.FindLocked? || pc.Found? || pc.Referenced? || pc.Missed?
  }

  predicate HoldsExclusive(pc: Pc) {
    || pc.AddLocked? || pc.Added? || pc.Collided?
    || pc.CloseLocked? || pc.CloseFound? || pc.Unlisted? || pc.CloseReferenced? || pc.CloseMissed?
  }

  ghost predicate NoWriter(s: State) {
    forall t | t in s.threads :: !HoldsExclusive(t.pc)
  }

  ghost predicate NoHolder(s: State) {
    forall t | t in s.threads :: !HoldsExclusive(t.pc) && !HoldsShared(t.pc)
  }

  function At(s: State, i: nat, pc: Pc): State
    requires i < |s.threads|
  {
    s.(threads := s.threads[i := s.threads[i].(pc := pc)])
  }

  function WithPort(s: State, p: nat, port: Port): State
    requires p < |s.ports|
  {
    s.(ports := s.ports[p := port])
  }

  // ---------- the calls begin ----------

  /** port_new: the system hands out a handle that is not open. */
  ghost predicate Creates(s: State, s': State, i: nat, h: Handle) {
    && i < |s.threads| && s.threads[i].pc.Idle? && h !in s.open
    && s' == s.(open := s.open + {h}, ports := s.ports + [Port(h, 0, false, Some(i), None)],
                threads := s.threads[i := Thread(Made, h, |s.ports|)])
  }

  ghost predicate Finds(s: State, s': State, i: nat, h: Handle) {
    && i < |s.threads| && s.threads[i].pc.Idle? && NoWriter(s)
    && s' == s.(threads := s.threads[i := Thread(FindLocked, h, 0)])
  }

  ghost predicate Closes(s: State, s': State, i: nat, h: Handle) {
    && i < |s.threads| && s.threads[i].pc.Idle? && NoHolder(s)
    && s' == s.(threads := s.threads[i := Thread(CloseLocked, h, 0)])
  }

  // ---------- the calls go on ----------

  /** The steps that wait for nothing, apart from the lock in `Made`. */
  function Next(s: State, i: nat): State
    requires i < |s.threads|
  {
    var t := s.threads[i];
    if t.port >= |s.ports| then s else
    var port := s.ports[t.port];
    match t.pc
    case Made => At(s, i, AddLocked)
    case AddLocked => 
      if t.handle in s.tree then At(s, i, Collided)
      else At(WithPort(s, t.port, port.(owner := None)), i, Added).(tree := s.tree[t.handle := t.port])
    case Added => At(s, i, Idle)
    case Found => At(WithPort(s, t.port, port.(word := Add(port.word, REF))), i, Referenced)
    case Referenced => At(s, i, Using)
    case Using =>
      var word := Add(port.word, -REF);
      if word == DESTROY
        then At(WithPort(s, t.port, port.(word := word, signaller := Some(i))), i, Signal)
        else At(WithPort(s, t.port, port.(word := word)), i, Idle)
    case CloseFound => At(WithPort(s, t.port, port.(owner := Some(i))), i, Unlisted).(tree := s.tree - {t.handle})
    case Unlisted => At(WithPort(s, t.port, port.(word := Add(port.word, REF))), i, CloseReferenced)
    case CloseReferenced => At(s, i, Closing)
    case Closing => At(s, i, Closed).(open := s.open - {port.handle})
    case Closed =>
      var word := Add(port.word, DESTROY - REF);
      At(WithPort(s, t.port, port.(word := word)), i, if RefBits(word) != 0 then Await else Exchange)
    case Exchange => At(WithPort(s, t.port, port.(word := POISON)), i, Delete)
    case Delete => At(WithPort(s, t.port, port.(freed := true, owner := None)), i, Idle)
    case _ => s
  }

  /** The look at the tree that both kinds of callers begin with. */
  function Look(s: State, i: nat): State
    requires i < |s.threads|
  {
    var t := s.threads[i];
    var close := t.pc.CloseLocked?;
    if t.handle in s.tree
      then s.(threads := s.threads[i := Thread(if close then CloseFound else Found, t.handle, s.tree[t.handle])])
      else At(s, i, if close then CloseMissed else Missed)
  }

  ghost predicate Steps(s: State, s': State, i: nat) {
    && i < |s.threads|
    && var t := s.threads[i];
       match t.pc
       case Idle => false
       case Signal => false
       case Await => false
       case Collided => false
       case Made => NoHolder(s) && s' == Next(s, i)
       case FindLocked => s' == Look(s, i)
       case CloseLocked => s' == Look(s, i)
       case Missed => s' == At(s, i, Idle)
       case CloseMissed => s' == At(s, i, Idle)
       case _ => s' == Next(s, i)
  }

  /** NtReleaseKeyedEvent and NtWaitForKeyedEvent wait for each other. */
  ghost predicate Meets(s: State, s': State, i: nat, j: nat) {
    && i < |s.threads| && j < |s.threads| && s.threads[i].pc.Signal? && s.threads[j].pc.Await?
    && s.threads[i].port == s.threads[j].port && s.threads[i].port < |s.ports|
    && s' == At(At(WithPort(s, s.threads[i].port, s.ports[s.threads[i].port].(signaller := None)), i, Idle), j, Exchange)
  }

  ghost predicate Init(s: State) {
    s.tree == map[] && s.open == {} && s.ports == [] && forall t | t in s.threads :: t.pc.Idle?
  }

  ghost predicate Step(s: State, s': State) {
    || (exists i: nat, h :: Creates(s, s', i, h) || Finds(s, s', i, h) || Closes(s, s', i, h))
    || (exists i: nat :: Steps(s, s', i))
    || (exists i: nat, j: nat :: Meets(s, s', i, j))
  }

  /** A run of fewer threads than the reference count can count. */
  ghost predicate Run(r: seq<State>) {
    r != [] && Init(r[0]) && |r[0].threads| < DESTROY && forall i :: 0 <= i < |r| - 1 ==> Step(r[i], r[i + 1])
  }

  // ---------- counting references ----------

  predicate Holds(t: Thread, p: nat) {
    t.port == p && (t.pc.Referenced? || t.pc.Using? || t.pc.CloseReferenced? || t.pc.Closing? || t.pc.Closed?)
  }

  function One(b: bool): nat {
    if b then 1 else 0
  }

  /** How many threads hold a reference to port `p`. */
  function Refs(ts: seq<Thread>, p: nat): nat {
    if ts == [] then 0 else Refs(ts[..|ts| - 1], p) + One(Holds(ts[|ts| - 1], p))
  }

  lemma {:induction false} RefsChange(ts: seq<Thread>, i: nat, t: Thread, p: nat)
    requires i < |ts|
    ensures Refs(ts[i := t], p) == Refs(ts, p) - One(Holds(ts[i], p)) + One(Holds(t, p))
  {
    var us := ts[i := t];
    if i == |ts| - 1 {
      assert us[..|us| - 1] == ts[..|ts| - 1];
    } else {
      assert us[..|us| - 1] == ts[..|ts| - 1][i := t];
      RefsChange(ts[..|ts| - 1], i, t, p);
    }
  }

  lemma {:induction false} RefsBound(ts: seq<Thread>, p: nat)
    ensures Refs(ts, p) <= |ts|
    ensures forall i | 0 <= i < |ts| :: Holds(ts[i], p) ==> Refs(ts, p) > 0
    ensures Refs(ts, p) > 0 ==> exists i :: 0 <= i < |ts| && Holds(ts[i], p)
  {
    if ts != [] {
      RefsBound(ts[..|ts| - 1], p);
      if Refs(ts[..|ts| - 1], p) > 0 {
        var i :| 0 <= i < |ts| - 1 && Holds(ts[..|ts| - 1][i], p);
        assert Holds(ts[i], p);
      }
      forall i | 0 <= i < |ts| && Holds(ts[i], p) ensures Refs(ts, p) > 0 {
        assert i < |ts| - 1 ==> ts[..|ts| - 1][i] == ts[i];
      }
    }
  }

  // ---------- what every run keeps ----------

  ghost predicate LockOk(s: State) {
    forall i, j | 0 <= i < |s.threads| && 0 <= j < |s.threads| && i != j && HoldsExclusive(s.threads[i].pc) ::
      !HoldsExclusive(s.threads[j].pc) && !HoldsShared(s.threads[j].pc)
  }

  ghost predicate TreeOk(s: State) {
    forall h | h in s.tree ::
      && s.tree[h] < |s.ports| && s.ports[s.tree[h]].handle == h
      && !s.ports[s.tree[h]].freed && s.ports[s.tree[h]].owner.None? && h in s.open
  }

  predicate OwnerPc(pc: Pc) {
    || pc.Made? || pc.AddLocked?
    || pc.Unlisted? || pc.CloseReferenced? || pc.Closing? || pc.Closed? || pc.Await? || pc.Exchange? || pc.Delete?
  }

  ghost predicate Owned(s: State, p: nat, o: nat) {
    o < |s.threads| && s.threads[o].port == p && OwnerPc(s.threads[o].pc)
  }

  ghost predicate Signals(s: State, p: nat, j: nat) {
    j < |s.threads| && s.threads[j].port == p && s.threads[j].pc.Signal?
  }

  /** The state of the reflock of a port that is not freed, with `n` references; `pc` is that of its owner. */
  ghost predicate WordOk(port: Port, n: nat, pc: Pc) {
    match pc
    case Await => port.word == DESTROY + n && (n > 0 <==> port.signaller.None?)
    case Exchange => port.word == DESTROY && n == 0 && port.signaller.None?
    case Delete => port.word == POISON && n == 0 && port.signaller.None?
    case _ => port.word == n && port.signaller.None?
  }

  ghost predicate PortOk(s: State, p: nat)
    requires p < |s.ports|
  {
    var port, n := s.ports[p], Refs(s.threads, p);
    && (port.signaller.Some? ==> Signals(s, p, port.signaller.value))
    && if port.freed then n == 0 && port.owner.None? && port.signaller.None?
    else match port.owner
      case None => WordOk(port, n, Idle)
      case Some(o) => Owned(s, p, o) && WordOk(port, n, s.threads[o].pc)
  }

  ghost predicate ThreadOk(s: State, i: nat)
    requires i < |s.threads|
  {
    var t := s.threads[i];
    && !t.pc.Collided?
    && (OwnerPc(t.pc) ==> t.port < |s.ports| && !s.ports[t.port].freed && s.ports[t.port].owner == Some(i))
    && (t.pc.Made? || t.pc.AddLocked? ==> s.ports[t.port].handle == t.handle)
    && (t.pc.Found? || t.pc.CloseFound? || t.pc.Added? ==> t.handle in s.tree && s.tree[t.handle] == t.port)
    && (t.pc.Referenced? || t.pc.Using? ==> t.port < |s.ports|)
    && (t.pc.Signal? ==> t.port < |s.ports| && s.ports[t.port].signaller == Some(i))
  }

  /** The port's IOCP handle is open. */
  ghost predicate IocpOpen(s: State, p: nat)
    requires p < |s.ports|
  {
    && !s.ports[p].freed
    && (s.ports[p].owner.Some? ==> s.ports[p].owner.value < |s.threads| && BeforeClose(s.threads[s.ports[p].owner.value].pc))
  }

  predicate BeforeClose(pc: Pc) {
    pc.Made? || pc.AddLocked? || pc.Unlisted? || pc.CloseReferenced? || pc.Closing?
  }

  ghost predicate HandlesOk(s: State) {
    && (forall p | 0 <= p < |s.ports| && IocpOpen(s, p) :: s.ports[p].handle in s.open)
    && (forall p, q | 0 <= p < q < |s.ports| && IocpOpen(s, p) && IocpOpen(s, q) :: s.ports[p].handle != s.ports[q].handle)
  }

  ghost predicate Inv(s: State) {
    Safe(s) && LockOk(s)
  }

  /** The part of the invariant that does not speak of the lock. */
  ghost predicate Safe(s: State) {
    && |s.threads| < DESTROY && TreeOk(s) && HandlesOk(s)
    && (forall p | 0 <= p < |s.ports| :: PortOk(s, p))
    && (forall i | 0 <= i < |s.threads| :: ThreadOk(s, i))
  }

  lemma AllRefsChange(ts: seq<Thread>, i: nat, t: Thread)
    requires i < |ts|
    ensures forall p: nat :: Refs(ts[i := t], p) == Refs(ts, p) - One(Holds(ts[i], p)) + One(Holds(t, p))
  {
    forall p: nat ensures Refs(ts[i := t], p) == Refs(ts, p) - One(Holds(ts[i], p)) + One(Holds(t, p)) {
      RefsChange(ts, i, t, p);
    }
  }

  /** Who owns a port is at one of the owner's steps, and works on that port. */
  lemma Owners(s: State)
    requires Safe(s)
    ensures forall p {:trigger s.ports[p]} | 0 <= p < |s.ports| ::
      s.ports[p].owner.Some? ==> !s.ports[p].freed && Owned(s, p, s.ports[p].owner.value)
    ensures forall i {:trigger s.threads[i]} | 0 <= i < |s.threads| :: ThreadOk(s, i)
  {
    forall p | 0 <= p < |s.ports| && s.ports[p].owner.Some?
      ensures !s.ports[p].freed && Owned(s, p, s.ports[p].owner.value)
    {
      assert PortOk(s, p);
    }
  }

  lemma NoRefsBeyond(s: State, p: nat)
    requires Safe(s) && p >= |s.ports|
    ensures Refs(s.threads, p) == 0
  {
    RefsBound(s.threads, p);
    Owners(s);
  }

  lemma CreatesKeeps(s: State, s': State, i: nat, h: Handle)
    requires Safe(s) && Creates(s, s', i, h)
    ensures Safe(s')
  {
    AllRefsChange(s.threads, i, s'.threads[i]);
    NoRefsBeyond(s, |s.ports|);
    Owners(s);
    forall p | 0 <= p < |s.ports| ensures PortOk(s', p) && (IocpOpen(s', p) ==> IocpOpen(s, p)) {
      assert PortOk(s, p);
    }
  }

  predicate Plain(pc: Pc) {
    !(pc.Await? || pc.Exchange? || pc.Delete? || pc.Signal?)
  }

  /** A step that changes nothing but the place of a thread in its call. */
  lemma MovesKeeps(s: State, i: nat, u: Thread)
    requires Safe(s) && i < |s.threads| && Plain(s.threads[i].pc) && Plain(u.pc)
    requires var t := s.threads[i];
      && (forall p: nat :: Holds(t, p) <==> Holds(u, p))
      && (OwnerPc(t.pc) <==> OwnerPc(u.pc)) && (OwnerPc(t.pc) ==> t.port == u.port)
      && (BeforeClose(u.pc) ==> BeforeClose(t.pc))
    requires ThreadOk(s.(threads := s.threads[i := u]), i)
    ensures Safe(s.(threads := s.threads[i := u]))
  {
    var s' := s.(threads := s.threads[i := u]);
    AllRefsChange(s.threads, i, u);
    Owners(s);
    forall p | 0 <= p < |s.ports| ensures PortOk(s', p) && (IocpOpen(s', p) ==> IocpOpen(s, p)) {
      assert PortOk(s, p);
    }
  }

  /** A step of a thread that changes the state of the port it works on, but not who owns it. */
  lemma WordKeeps(s: State, i: nat, pc: Pc, port: Port)
    requires Safe(s) && i < |s.threads| && s.threads[i].port < |s.ports|
    requires var t, p := s.threads[i], s.ports[s.threads[i].port];
      && port.handle == p.handle && port.freed == p.freed && port.owner == p.owner
      && (OwnerPc(t.pc) <==> OwnerPc(pc)) && (BeforeClose(pc) ==> BeforeClose(t.pc)) && !t.pc.Signal?
      && (port.signaller == p.signaller || (p.signaller == None && port.signaller == Some(i)))
    requires var s' := At(WithPort(s, s.threads[i].port, port), i, pc); PortOk(s', s.threads[i].port) && ThreadOk(s', i)
    ensures Safe(At(WithPort(s, s.threads[i].port, port), i, pc))
  {
    var s' := At(WithPort(s, s.threads[i].port, port), i, pc);
    AllRefsChange(s.threads, i, s'.threads[i]);
    Owners(s);
    forall q | 0 <= q < |s.ports| ensures PortOk(s', q) && (IocpOpen(s', q) ==> IocpOpen(s, q)) {
      if q != s.threads[i].port {
        OtherPort(s, s', i, q);
      }
      assert s'.ports[q].handle == s.ports[q].handle && s'.ports[q].freed == s.ports[q].freed && s'.ports[q].owner == s.ports[q].owner;
    }
  }

  /** A step of a thread leaves the ports alone that it does not work on. */
  lemma OtherPort(s: State, s': State, i: nat, q: nat)
    requires Safe(s) && i < |s.threads| && q < |s.ports| == |s'.ports| && q != s.threads[i].port && s'.ports[q] == s.ports[q]
    requires |s'.threads| == |s.threads| && s'.threads == s.threads[i := s'.threads[i]] && s'.threads[i].port == s.threads[i].port
    ensures PortOk(s', q)
  {
    assert PortOk(s, q);
    RefsChange(s.threads, i, s'.threads[i], q);
  }

  /** The counters that a step of thread `i` to `pc` leaves for its port. */
  lemma Counted(s: State, i: nat, pc: Pc)
    requires Safe(s) && i < |s.threads| && s.threads[i].port < |s.ports|
    ensures var p, ts := s.threads[i].port, s.threads[i := s.threads[i].(pc := pc)];
      && PortOk(s, p) && Refs(s.threads, p) < DESTROY
      && (Holds(s.threads[i], p) ==> Refs(s.threads, p) > 0)
      && Refs(ts, p) == Refs(s.threads, p) - One(Holds(s.threads[i], p)) + One(Holds(ts[i], p)) < DESTROY
  {
    var p, ts := s.threads[i].port, s.threads[i := s.threads[i].(pc := pc)];
    RefsChange(s.threads, i, ts[i], p);
    RefsBound(s.threads, p);
    RefsBound(ts, p);
    assert PortOk(s, p);
  }

  /** reflock_ref, of a caller that found the port in the tree. */
  lemma RefKeeps(s: State, i: nat)
    requires Safe(s) && i < |s.threads| && s.threads[i].pc.Found?
    ensures Safe(Next(s, i))
  {
    assert ThreadOk(s, i);
    Counted(s, i, Referenced);
    var port := s.ports[s.threads[i].port];
    WordKeeps(s, i, Referenced, port.(word := Add(port.word, REF)));
  }

  /** reflock_ref, of a caller that took the port out of the tree. */
  lemma CloserRefKeeps(s: State, i: nat)
    requires Safe(s) && i < |s.threads| && s.threads[i].pc.Unlisted?
    ensures Safe(Next(s, i))
  {
    assert ThreadOk(s, i);
    Counted(s, i, CloseReferenced);
    var port := s.ports[s.threads[i].port];
    WordKeeps(s, i, CloseReferenced, port.(word := Add(port.word, REF)));
  }

  lemma AddInRange(word: nat, delta: int)
    requires 0 <= word + delta < WORD
    ensures Add(word, delta) == word + delta
  {
  }

  /** reflock_unref of the last reference to a port that waits for it. */
  lemma LastUnrefKeeps(s: State, i: nat)
    requires Safe(s) && i < |s.threads| && s.threads[i].pc.Using?
    requires s.threads[i].port < |s.ports| && Add(s.ports[s.threads[i].port].word, -REF) == DESTROY
    ensures Safe(Next(s, i))
  {
    var port := s.ports[s.threads[i].port];
    Counted(s, i, Signal);
    AddInRange(port.word, -REF);
    WordKeeps(s, i, Signal, port.(word := DESTROY, signaller := Some(i)));
  }

  /** reflock_unref. */
  lemma UnrefKeeps(s: State, i: nat)
    requires Safe(s) && i < |s.threads| && s.threads[i].pc.Using?
    ensures Safe(Next(s, i))
  {
    assert ThreadOk(s, i);
    var port := s.ports[s.threads[i].port];
    Counted(s, i, Idle);
    AddInRange(port.word, -REF);
    if port.word - 1 == DESTROY {
      LastUnrefKeeps(s, i);
    } else {
      WordKeeps(s, i, Idle, port.(word := port.word - 1));
    }
  }

  /** reflock_unref_and_destroy, up to its wait. */
  lemma DestroyKeeps(s: State, i: nat)
    requires Safe(s) && i < |s.threads| && s.threads[i].pc.Closed?
    ensures Safe(Next(s, i))
  {
    assert ThreadOk(s, i);
    var port := s.ports[s.threads[i].port];
    var word := Add(port.word, DESTROY - REF);
    var pc := if RefBits(word) != 0 then Await else Exchange;
    Counted(s, i, pc);
    WordKeeps(s, i, pc, port.(word := word));
  }

  lemma ExchangeKeeps(s: State, i: nat)
    requires Safe(s) && i < |s.threads| && s.threads[i].pc.Exchange?
    ensures Safe(Next(s, i))
  {
    assert ThreadOk(s, i);
    Counted(s, i, Delete);
    WordKeeps(s, i, Delete, s.ports[s.threads[i].port].(word := POISON));
  }

  /** The handle of a new port is not in the tree yet: ts_tree_add cannot fail. */
  lemma NoCollision(s: State, i: nat)
    requires Safe(s) && i < |s.threads| && s.threads[i].pc.AddLocked?
    ensures s.threads[i].handle !in s.tree
  {
    var t := s.threads[i];
    Owners(s);
    assert IocpOpen(s, t.port);
    if t.handle in s.tree {
      assert IocpOpen(s, s.tree[t.handle]);
      assert false;
    }
  }

  /** ts_tree_add. */
  lemma AddKeeps(s: State, i: nat)
    requires Safe(s) && i < |s.threads| && s.threads[i].pc.AddLocked?
    ensures Safe(Next(s, i))
  {
    var t, s' := s.threads[i], Next(s, i);
    NoCollision(s, i);
    Owners(s);
    AddPorts(s, i);
    assert PortOk(s, t.port) && IocpOpen(s, t.port);
  }

  lemma AddPorts(s: State, i: nat)
    requires Safe(s) && i < |s.threads| && s.threads[i].pc.AddLocked? && s.threads[i].handle !in s.tree
    ensures var s' := Next(s, i);
      forall p | 0 <= p < |s.ports| :: PortOk(s', p) && (IocpOpen(s', p) ==> IocpOpen(s, p))
  {
    var t, s' := s.threads[i], Next(s, i);
    Owners(s);
    AllRefsChange(s.threads, i, s'.threads[i]);
    forall p | 0 <= p < |s.ports| ensures PortOk(s', p) && (IocpOpen(s', p) ==> IocpOpen(s, p)) {
      assert PortOk(s, p);
    }
  }

  lemma UnlistPorts(s: State, i: nat)
    requires Safe(s) && i < |s.threads| && s.threads[i].pc.CloseFound?
    ensures var s' := Next(s, i);
      forall p | 0 <= p < |s.ports| :: PortOk(s', p) && (IocpOpen(s', p) ==> IocpOpen(s, p))
  {
    var t, s' := s.threads[i], Next(s, i);
    Owners(s);
    AllRefsChange(s.threads, i, s'.threads[i]);
    forall p | 0 <= p < |s.ports| ensures PortOk(s', p) && (IocpOpen(s', p) ==> IocpOpen(s, p)) {
      assert PortOk(s, p);
    }
  }

  /** tree_del in ts_tree_del_and_ref. */
  lemma UnlistKeeps(s: State, i: nat)
    requires Inv(s) && i < |s.threads| && s.threads[i].pc.CloseFound?
    ensures Safe(Next(s, i))
  {
    Owners(s);
    UnlistPorts(s, i);
  }

  lemma ClosePorts(s: State, i: nat)
    requires Safe(s) && i < |s.threads| && s.threads[i].pc.Closing?
    ensures var s' := Next(s, i);
      forall p | 0 <= p < |s.ports| :: PortOk(s', p) && (IocpOpen(s', p) ==> IocpOpen(s, p) && p != s.threads[i].port)
  {
    var t, s' := s.threads[i], Next(s, i);
    Owners(s);
    AllRefsChange(s.threads, i, s'.threads[i]);
    forall p | 0 <= p < |s.ports| ensures PortOk(s', p) && (IocpOpen(s', p) ==> IocpOpen(s, p) && p != t.port) {
      assert PortOk(s, p);
    }
  }

  /** port_close. */
  lemma CloseKeeps(s: State, i: nat)
    requires Safe(s) && i < |s.threads| && s.threads[i].pc.Closing?
    ensures Safe(Next(s, i))
  {
    Owners(s);
    ClosePorts(s, i);
    assert IocpOpen(s, s.threads[i].port);
    assert forall h | h in s.tree :: IocpOpen(s, s.tree[h]);
  }

  /** port_delete. */
  lemma DeleteKeeps(s: State, i: nat)
    requires Safe(s) && i < |s.threads| && s.threads[i].pc.Delete?
    ensures Safe(Next(s, i))
  {
    var t, s' := s.threads[i], Next(s, i);
    Owners(s);
    assert PortOk(s, t.port);
    AllRefsChange(s.threads, i, s'.threads[i]);
    forall p | 0 <= p < |s.ports| ensures PortOk(s', p) && (IocpOpen(s', p) ==> IocpOpen(s, p)) {
      assert PortOk(s, p);
    }
  }

  /** Who signals and who waits at the same port are the two that its state speaks of. */
  lemma MeetingPair(s: State, s': State, i: nat, j: nat)
    requires Safe(s) && Meets(s, s', i, j)
    ensures var p := s.threads[i].port;
      s.ports[p].signaller == Some(i) && s.ports[p].owner == Some(j) && Refs(s.threads, p) == 0 && s.ports[p].word == DESTROY
    ensures forall p: nat :: Refs(s'.threads, p) == Refs(s.threads, p)
  {
    Owners(s);
    assert PortOk(s, s.threads[i].port);
    var mid := s.threads[i := s.threads[i].(pc := Idle)];
    AllRefsChange(s.threads, i, mid[i]);
    AllRefsChange(mid, j, s'.threads[j]);
  }

  lemma MeetsKeeps(s: State, s': State, i: nat, j: nat)
    requires Safe(s) && Meets(s, s', i, j)
    ensures Safe(s')
  {
    MeetingPair(s, s', i, j);
    Owners(s);
    forall q | 0 <= q < |s.ports| ensures PortOk(s', q) && (IocpOpen(s', q) ==> IocpOpen(s, q)) {
      assert PortOk(s, q);
    }
  }

  // ---------- the lock ----------

  lemma LockMoves(s: State, ts: seq<Thread>, i: nat)
    requires LockOk(s) && i < |s.threads| && |ts| == |s.threads| && forall j | 0 <= j < |ts| && j != i :: ts[j] == s.threads[j]
    requires HoldsExclusive(ts[i].pc) ==> HoldsExclusive(s.threads[i].pc) || NoHolder(s)
    requires HoldsShared(ts[i].pc) ==> HoldsShared(s.threads[i].pc) || NoWriter(s)
    ensures LockOk(s.(threads := ts))
  {
    assert forall j | 0 <= j < |s.threads| :: s.threads[j] in s.threads;
  }

  lemma StepsKeepsLock(s: State, s': State, i: nat)
    requires LockOk(s) && Steps(s, s', i)
    ensures LockOk(s')
  {
    assert |s'.threads| == |s.threads| && forall j | 0 <= j < |s.threads| && j != i :: s'.threads[j] == s.threads[j];
    assert HoldsShared(s'.threads[i].pc) ==> HoldsShared(s.threads[i].pc);
    assert HoldsExclusive(s'.threads[i].pc) ==> HoldsExclusive(s.threads[i].pc) || NoHolder(s);
    LockMoves(s, s'.threads, i);
  }

  lemma MeetsKeepsLock(s: State, s': State, i: nat, j: nat)
    requires LockOk(s) && Meets(s, s', i, j)
    ensures LockOk(s')
  {
    var mid := s.threads[i := s.threads[i].(pc := Idle)];
    LockMoves(s, mid, i);
    LockMoves(s.(threads := mid), s'.threads, j);
  }

  lemma StepKeepsLock(s: State, s': State)
    requires LockOk(s) && Step(s, s')
    ensures LockOk(s')
  {
    if i: nat, h :| Creates(s, s', i, h) || Finds(s, s', i, h) || Closes(s, s', i, h) {
      LockMoves(s, s'.threads, i);
    } else if i: nat :| Steps(s, s', i) {
      StepsKeepsLock(s, s', i);
    } else {
      var i: nat, j: nat :| Meets(s, s', i, j);
      MeetsKeepsLock(s, s', i, j);
    }
  }

  /** A caller that looks at the tree finds a port that is there to be used. */
  lemma LookKeeps(s: State, i: nat)
    requires Safe(s) && i < |s.threads| && (s.threads[i].pc.FindLocked? || s.threads[i].pc.CloseLocked?)
    ensures Safe(Look(s, i))
  {
    MovesKeeps(s, i, Look(s, i).threads[i]);
  }

  lemma StepsKeeps(s: State, s': State, i: nat)
    requires Inv(s) && Steps(s, s', i)
    ensures Safe(s')
  {
    assert ThreadOk(s, i);
    match s.threads[i].pc
    case FindLocked => LookKeeps(s, i);
    case CloseLocked => LookKeeps(s, i);
    case AddLocked => AddKeeps(s, i);
    case Found => RefKeeps(s, i);
    case Using => UnrefKeeps(s, i);
    case CloseFound => UnlistKeeps(s, i);
    case Unlisted => CloserRefKeeps(s, i);
    case Closing => CloseKeeps(s, i);
    case Closed => DestroyKeeps(s, i);
    case Exchange => ExchangeKeeps(s, i);
    case Delete => DeleteKeeps(s, i);
    case Made => MovesKeeps(s, i, s.threads[i].(pc := AddLocked));
    case Added => MovesKeeps(s, i, s.threads[i].(pc := Idle));
    case Referenced => MovesKeeps(s, i, s.threads[i].(pc := Using));
    case Missed => MovesKeeps(s, i, s.threads[i].(pc := Idle));
    case CloseMissed => MovesKeeps(s, i, s.threads[i].(pc := Idle));
    case CloseReferenced => MovesKeeps(s, i, s.threads[i].(pc := Closing));
    case _ => assert false;
  }

  lemma StepKeeps(s: State, s': State)
    requires Inv(s) && Step(s, s')
    ensures Inv(s')
  {
    StepKeepsLock(s, s');
    if i: nat, h :| Creates(s, s', i, h) || Finds(s, s', i, h) || Closes(s, s', i, h) {
      if Creates(s, s', i, h) {
        CreatesKeeps(s, s', i, h);
      } else {
        MovesKeeps(s, i, s'.threads[i]);
      }
    } else if i: nat :| Steps(s, s', i) {
      StepsKeeps(s, s', i);
    } else {
      var i: nat, j: nat :| Meets(s, s', i, j);
      MeetsKeeps(s, s', i, j);
    }
  }

  lemma InitKeeps(s: State)
    requires Init(s) && |s.threads| < DESTROY
    ensures Inv(s)
  {
    assert forall i | 0 <= i < |s.threads| :: s.threads[i] in s.threads;
  }

  lemma {:induction false} RunInv(r: seq<State>, k: nat)
    requires Run(r) && k < |r|
    ensures Inv(r[k])
  {
    if k == 0 {
      InitKeeps(r[0]);
    } else {
      RunInv(r, k - 1);
      assert Step(r[k - 1], r[k - 1 + 1]);
      StepKeeps(r[k - 1], r[k]);
    }
  }

  // ---------- what callers rely on ----------

  /** At its next step the thread touches the port's memory, or has its address to do so later. */
  predicate Touches(t: Thread, p: nat) {
    t.port == p && (t.pc.Found? || t.pc.Referenced? || t.pc.Using? || t.pc.CloseFound? || OwnerPc(t.pc))
  }

  /** When epoll_close comes to port_delete, no other thread has the port, and the port is not freed before that. */
  lemma DeletesAlone(r: seq<State>, k: nat, i: nat, j: nat)
    requires Run(r) && k < |r| && i < |r[k].threads| && j < |r[k].threads| && i != j
    requires r[k].threads[i].pc.Delete?
    ensures var p := r[k].threads[i].port;
      p < |r[k].ports| && !r[k].ports[p].freed && !Touches(r[k].threads[j], p) &&
      !(r[k].threads[j].pc.Signal? && r[k].threads[j].port == p)
  {
    RunInv(r, k);
    Owners(r[k]);
    var p := r[k].threads[i].port;
    assert PortOk(r[k], p);
    RefsBound(r[k].threads, p);
  }

  /** No thread ever touches a port that was freed. */
  lemma NoUseAfterFree(r: seq<State>, k: nat, j: nat)
    requires Run(r) && k < |r| && j < |r[k].threads| && Touches(r[k].threads[j], r[k].threads[j].port)
    ensures r[k].threads[j].port < |r[k].ports| && !r[k].ports[r[k].threads[j].port].freed
  {
    RunInv(r, k);
    Owners(r[k]);
    var p := r[k].threads[j].port;
    assert PortOk(r[k], p);
    RefsBound(r[k].threads, p);
  }

  /** Of any number of concurrent closes of a port, one at most takes it out of the tree. */
  lemma OneCloser(r: seq<State>, k: nat, i: nat, j: nat)
    requires Run(r) && k < |r| && i < |r[k].threads| && j < |r[k].threads|
    requires OwnerPc(r[k].threads[i].pc) && OwnerPc(r[k].threads[j].pc) && r[k].threads[i].port == r[k].threads[j].port
    ensures i == j
  {
    RunInv(r, k);
    Owners(r[k]);
  }

  /** What the next step of a close does that looks for its handle, or has found it. */
  ghost predicate CloseGoes(s: State, s': State, i: nat)
    requires i < |s.threads| == |s'.threads|
  {
    var t, u := s.threads[i], s'.threads[i];
    if t.pc.CloseLocked? then
      s'.tree == s.tree && u == if t.handle in s.tree then Thread(CloseFound, t.handle, s.tree[t.handle]) else t.(pc := CloseMissed)
    else
      && u == t.(pc := Unlisted) && t.handle in s.tree && s.tree[t.handle] == t.port
      && s'.tree == s.tree - {t.handle} && t.port < |s'.ports| && s'.ports[t.port].owner == Some(i)
  }

  /** And one of them does: nobody takes the handle away from a close that found it in the tree, and the close
      becomes the one that owns the port. */
  lemma FinderCloses(r: seq<State>, k: nat, s': State, i: nat)
    requires Run(r) && k < |r| && Step(r[k], s') && i < |r[k].threads|
    requires r[k].threads[i].pc.CloseLocked? || r[k].threads[i].pc.CloseFound?
    ensures |s'.threads| == |r[k].threads|
    ensures CloseGoes(r[k], s', i) || (s'.threads[i] == r[k].threads[i] && s'.tree == r[k].tree)
  {
    RunInv(r, k);
    var s := r[k];
    if j: nat, h :| Creates(s, s', j, h) || Finds(s, s', j, h) || Closes(s, s', j, h) {
      assert j != i;
    } else if j: nat :| Steps(s, s', j) {
      if j == i {
        OwnCloseStep(s, s', i);
      } else {
        OtherKeepsTree(s, s', j, i);
      }
    }
  }

  lemma OwnCloseStep(s: State, s': State, i: nat)
    requires Safe(s) && Steps(s, s', i) && (s.threads[i].pc.CloseLocked? || s.threads[i].pc.CloseFound?)
    ensures |s'.threads| == |s.threads| && CloseGoes(s, s', i)
  {
    assert ThreadOk(s, i);
  }

  /** While a thread holds the tree's lock exclusively, no other one changes the tree. */
  lemma OtherKeepsTree(s: State, s': State, j: nat, i: nat)
    requires LockOk(s) && Steps(s, s', j) && i < |s.threads| && i != j && HoldsExclusive(s.threads[i].pc)
    ensures |s'.threads| == |s.threads| && s'.threads[i] == s.threads[i] && s'.tree == s.tree
  {
    assert !HoldsExclusive(s.threads[j].pc);
  }

  /** What the next step of epoll_ctl or epoll_wait does that looks for its handle, or has found it: a port that is
      in the tree is found, and gets one reference more. */
  ghost predicate FindGoes(s: State, s': State, i: nat)
    requires i < |s.threads| == |s'.threads|
  {
    var t, u := s.threads[i], s'.threads[i];
    && s'.tree == s.tree
    && if t.pc.FindLocked? then
      s'.ports == s.ports && u == if t.handle in s.tree then Thread(Found, t.handle, s.tree[t.handle]) else t.(pc := Missed)
    else
      && u == t.(pc := Referenced) && t.handle in s.tree && s.tree[t.handle] == t.port < |s.ports|
      && s'.ports == s.ports[t.port := s.ports[t.port].(word := s.ports[t.port].word + 1)]
  }

  /** And nobody comes in between: the tree stays as it is until the reference is taken. */
  lemma FinderFinds(r: seq<State>, k: nat, s': State, i: nat)
    requires Run(r) && k < |r| && Step(r[k], s') && i < |r[k].threads|
    requires r[k].threads[i].pc.FindLocked? || r[k].threads[i].pc.Found?
    ensures |s'.threads| == |r[k].threads|
    ensures FindGoes(r[k], s', i) || (s'.threads[i] == r[k].threads[i] && s'.tree == r[k].tree)
  {
    RunInv(r, k);
    var s := r[k];
    if j: nat, h :| Creates(s, s', j, h) || Finds(s, s', j, h) || Closes(s, s', j, h) {
      assert j != i;
    } else if j: nat :| Steps(s, s', j) {
      if j == i {
        OwnFindStep(s, s', i);
      } else {
        OtherKeepsShared(s, s', j, i);
      }
    }
  }

  lemma OwnFindStep(s: State, s': State, i: nat)
    requires Safe(s) && Steps(s, s', i) && (s.threads[i].pc.FindLocked? || s.threads[i].pc.Found?)
    ensures |s'.threads| == |s.threads| && FindGoes(s, s', i)
  {
    assert ThreadOk(s, i);
    if s.threads[i].pc.Found? {
      FreeSlot(s, i);
      assert PortOk(s, s.threads[i].port);
    }
  }

  /** While a thread holds the tree's lock shared, no other one changes the tree. */
  lemma OtherKeepsShared(s: State, s': State, j: nat, i: nat)
    requires LockOk(s) && Steps(s, s', j) && i < |s.threads| && i != j && HoldsShared(s.threads[i].pc)
    ensures |s'.threads| == |s.threads| && s'.threads[i] == s.threads[i] && s'.tree == s.tree
  {
    assert !HoldsExclusive(s.threads[j].pc);
  }

  /** A thread takes the handle out of the tree: the step of epoll_close after it has found it. */
  ghost predicate Unlists(s: State, s': State, h: Handle) {
    exists i :: 0 <= i < |s.threads| == |s'.threads|
      && s.threads[i].pc.CloseFound? && s.threads[i].handle == h && s'.threads[i].pc.Unlisted?
  }

  lemma StepKeepsListed(s: State, s': State, h: Handle)
    requires Inv(s) && Step(s, s') && h in s.tree && !Unlists(s, s', h)
    ensures h in s'.tree && s'.tree[h] == s.tree[h]
  {
    if i: nat :| Steps(s, s', i) {
      assert ThreadOk(s, i);
      assert s.threads[i].pc.CloseFound? ==> s'.threads[i].pc.Unlisted?;
      StepsKeepsListed(s, s', i, h);
    }
  }

  lemma StepsKeepsListed(s: State, s': State, i: nat, h: Handle)
    requires Inv(s) && Steps(s, s', i) && h in s.tree && !(s.threads[i].pc.CloseFound? && s.threads[i].handle == h)
    ensures h in s'.tree && s'.tree[h] == s.tree[h]
  {
    assert ThreadOk(s, i);
    if s.threads[i].pc.AddLocked? {
      NoCollision(s, i);
    }
  }

  ghost predicate StaysListed(r: seq<State>, k: nat, h: Handle)
    requires k + 1 < |r|
  {
    h in r[k].tree && !Unlists(r[k], r[k + 1], h) ==> h in r[k + 1].tree && r[k + 1].tree[h] == r[k].tree[h]
  }

  lemma NextListed(r: seq<State>, k: nat, h: Handle)
    requires Run(r) && k + 1 < |r|
    ensures StaysListed(r, k, h)
  {
    RunInv(r, k);
    assert Step(r[k], r[k + 1]);
    if h in r[k].tree && !Unlists(r[k], r[k + 1], h) {
      StepKeepsListed(r[k], r[k + 1], h);
    }
  }

  /** No step from `a` on and before `b` takes the handle out of the tree. */
  ghost predicate KeptListed(r: seq<State>, a: nat, b: nat, h: Handle)
    requires b < |r|
    decreases b
  {
    a < b ==> !Unlists(r[b - 1], r[b], h) && KeptListed(r, a, b - 1, h)
  }

  /** A port stays in the tree until a close that has found it takes it out. */
  lemma OpenUntilClosed(r: seq<State>, a: nat, b: nat, h: Handle)
    requires Run(r) && a <= b < |r| && h in r[a].tree && KeptListed(r, a, b, h)
    ensures h in r[b].tree && r[b].tree[h] == r[a].tree[h]
  {
    forall k: nat | k + 1 < |r| ensures StaysListed(r, k, h) {
      NextListed(r, k, h);
    }
    ListedUntil(r, a, b, h);
  }

  lemma {:induction false} ListedUntil(r: seq<State>, a: nat, b: nat, h: Handle)
    requires a <= b < |r| && h in r[a].tree && KeptListed(r, a, b, h)
    requires forall k: nat | k + 1 < |r| :: StaysListed(r, k, h)
    ensures h in r[b].tree && r[b].tree[h] == r[a].tree[h]
    decreases b
  {
    if a < b {
      ListedUntil(r, a, b - 1, h);
      assert StaysListed(r, b - 1, h);
    }
  }

  /** Every call of epoll_ctl and epoll_wait between the end of epoll_create and the beginning of the end of the
      port finds that port, whichever other calls run. */
  lemma FindSucceeds(r: seq<State>, a: nat, c: nat, k: nat, i: nat)
    requires Run(r) && a <= k < |r| - 1 && c < |r[a].threads| && r[a].threads[c].pc.Added?
    requires KeptListed(r, a, k, r[a].threads[c].handle)
    requires i < |r[k].threads| && r[k].threads[i].pc.FindLocked? && r[k].threads[i].handle == r[a].threads[c].handle
    ensures i < |r[k + 1].threads|
    ensures r[k + 1].threads[i] == r[k].threads[i]
      || r[k + 1].threads[i] == Thread(Found, r[a].threads[c].handle, r[a].threads[c].port)
  {
    RunInv(r, a);
    assert ThreadOk(r[a], c);
    OpenUntilClosed(r, a, k, r[a].threads[c].handle);
    FinderFinds(r, k, r[k + 1], i);
  }

  // ---------- nothing is left behind ----------

  /** A port that nobody owns is in the tree. */
  ghost predicate Listed(s: State) {
    forall p | 0 <= p < |s.ports| && !s.ports[p].freed && s.ports[p].owner.None? ::
      s.ports[p].handle in s.tree && s.tree[s.ports[p].handle] == p
  }

  ghost predicate OpenFor(s: State, h: Handle) {
    exists p :: 0 <= p < |s.ports| && s.ports[p].handle == h && IocpOpen(s, p)
  }

  lemma StepsListed(s: State, s': State, i: nat)
    requires Inv(s) && Listed(s) && Steps(s, s', i)
    ensures Listed(s')
  {
    Owners(s);
    if s.threads[i].pc.AddLocked? {
      NoCollision(s, i);
    }
  }

  lemma StepListed(s: State, s': State)
    requires Inv(s) && Listed(s) && Step(s, s')
    ensures Listed(s')
  {
    if i: nat :| Steps(s, s', i) {
      StepsListed(s, s', i);
    }
  }

  lemma StepsOpenFor(s: State, s': State, i: nat, h: Handle)
    requires Inv(s) && Steps(s, s', i) && OpenFor(s, h) && h in s'.open
    ensures OpenFor(s', h)
  {
    var p :| 0 <= p < |s.ports| && s.ports[p].handle == h && IocpOpen(s, p);
    if p == s.threads[i].port {
      OwnOpenFor(s, s', i);
    } else {
      OtherOpenFor(s, s', i, p);
    }
    assert s'.ports[p].handle == h && IocpOpen(s', p);
  }

  lemma OtherOpenFor(s: State, s': State, i: nat, p: nat)
    requires Inv(s) && Steps(s, s', i) && p < |s.ports| && p != s.threads[i].port && IocpOpen(s, p)
    ensures p < |s'.ports| && s'.ports[p] == s.ports[p] && IocpOpen(s', p)
  {
    Owners(s);
  }

  lemma OwnOpenFor(s: State, s': State, i: nat)
    requires Inv(s) && Steps(s, s', i) && s.threads[i].port < |s.ports| && IocpOpen(s, s.threads[i].port)
    requires !(s.threads[i].pc.Closing? && s.ports[s.threads[i].port].handle !in s'.open)
    ensures var p := s.threads[i].port; p < |s'.ports| && s'.ports[p].handle == s.ports[p].handle && IocpOpen(s', p)
  {
    Owners(s);
  }

  lemma StepOpenFor(s: State, s': State, h: Handle)
    requires Inv(s) && Step(s, s') && (h in s.open ==> OpenFor(s, h)) && h in s'.open
    ensures OpenFor(s', h)
  {
    if i: nat :| Steps(s, s', i) {
      assert h in s.open;
      StepsOpenFor(s, s', i, h);
    } else if i: nat, g :| Creates(s, s', i, g) || Finds(s, s', i, g) || Closes(s, s', i, g) {
      BeginsOpenFor(s, s', i, g, h);
    } else {
      OthersOpenFor(s, s', h);
    }
  }

  lemma BeginsOpenFor(s: State, s': State, i: nat, g: Handle, h: Handle)
    requires Inv(s) && (Creates(s, s', i, g) || Finds(s, s', i, g) || Closes(s, s', i, g))
    requires (h in s.open ==> OpenFor(s, h)) && h in s'.open
    ensures OpenFor(s', h)
  {
    if h in s.open {
      OthersOpenFor(s, s', h);
    } else {
      assert s'.ports[|s.ports|].handle == h && IocpOpen(s', |s.ports|);
    }
  }

  lemma OthersOpenFor(s: State, s': State, h: Handle)
    requires Inv(s) && OpenFor(s, h) && |s.ports| <= |s'.ports| && |s.threads| == |s'.threads|
    requires forall p | 0 <= p < |s.ports| ::
      s'.ports[p].handle == s.ports[p].handle && s'.ports[p].freed == s.ports[p].freed && s'.ports[p].owner == s.ports[p].owner
    requires forall i | 0 <= i < |s.threads| && BeforeClose(s.threads[i].pc) :: s'.threads[i] == s.threads[i]
    ensures OpenFor(s', h)
  {
    var p :| 0 <= p < |s.ports| && s.ports[p].handle == h && IocpOpen(s, p);
    assert s'.ports[p].handle == h && IocpOpen(s', p);
  }

  lemma {:induction false} RunListed(r: seq<State>, k: nat)
    requires Run(r) && k < |r|
    ensures Listed(r[k]) && forall h | h in r[k].open :: OpenFor(r[k], h)
  {
    if k > 0 {
      RunListed(r, k - 1);
      RunInv(r, k - 1);
      assert Step(r[k - 1], r[k - 1 + 1]);
      StepListed(r[k - 1], r[k]);
      forall h | h in r[k].open ensures OpenFor(r[k], h) {
        StepOpenFor(r[k - 1], r[k], h);
      }
    }
  }

  /** When all calls have returned and all ports have been closed, every port is freed and every handle of the system
      was given back. */
  lemma NothingLeaks(r: seq<State>, k: nat)
    requires Run(r) && k < |r| && r[k].tree == map[] && forall t | t in r[k].threads :: t.pc.Idle?
    ensures r[k].open == {} && forall p | 0 <= p < |r[k].ports| :: r[k].ports[p].freed
  {
    RunInv(r, k);
    RunListed(r, k);
    Owners(r[k]);
    var s := r[k];
    assert forall i | 0 <= i < |s.threads| :: s.threads[i] in s.threads && s.threads[i].pc.Idle?;
    forall p | 0 <= p < |s.ports| ensures s.ports[p].freed {
      assert s.ports[p].owner.None?;
    }
    forall h ensures h !in s.open {
      assert !OpenFor(s, h);
    }
  }

  /** The thread has a reference to give back, or gave back the last one. */
  predicate WillSignal(t: Thread, p: nat) {
    t.port == p && (t.pc.Referenced? || t.pc.Using? || t.pc.Signal?)
  }

  /** A closer that waits will be signalled: someone still has a reference, or is about to signal. */
  lemma WaiterIsSignalled(r: seq<State>, k: nat, i: nat)
    requires Run(r) && k < |r| && i < |r[k].threads| && r[k].threads[i].pc.Await?
    ensures exists j :: 0 <= j < |r[k].threads| && WillSignal(r[k].threads[j], r[k].threads[i].port)
  {
    RunInv(r, k);
    var s := r[k];
    Owners(s);
    var p := s.threads[i].port;
    assert PortOk(s, p);
    RefsBound(s.threads, p);
    if s.ports[p].signaller.None? {
      var j :| 0 <= j < |s.threads| && Holds(s.threads[j], p);
      assert WillSignal(s.threads[j], p);
    } else {
      assert WillSignal(s.threads[s.ports[p].signaller.value], p);
    }
  }

  /** Who signals finds exactly one waiter, and is the only one to signal it. */
  lemma SignalIsAwaited(r: seq<State>, k: nat, j: nat)
    requires Run(r) && k < |r| && j < |r[k].threads| && r[k].threads[j].pc.Signal?
    ensures var s, p := r[k], r[k].threads[j].port;
      && p < |s.ports| && s.ports[p].owner.Some? && s.ports[p].owner.value < |s.threads|
      && s.threads[s.ports[p].owner.value].port == p && s.threads[s.ports[p].owner.value].pc.Await?
    ensures forall i | 0 <= i < |r[k].threads| && r[k].threads[i].pc.Signal? && r[k].threads[i].port == r[k].threads[j].port :: i == j
  {
    RunInv(r, k);
    Owners(r[k]);
    assert PortOk(r[k], r[k].threads[j].port);
  }

  /** The conditions that the code asserts around its interlocked operations. */
  lemma AssertionsHold(r: seq<State>, k: nat, i: nat)
    requires Run(r) && k < |r| && i < |r[k].threads|
    ensures var s, t := r[k], r[k].threads[i];
      && !t.pc.Collided?
      && (t.pc.Found? || t.pc.Unlisted? ==> t.port < |s.ports| && DestroyBits(Add(s.ports[t.port].word, REF)) == 0)
      && (t.pc.Using? ==> t.port < |s.ports| && DestroyBits(Add(s.ports[t.port].word, -REF)) in {0, DESTROY})
      && (t.pc.Closed? ==> t.port < |s.ports| && DestroyBits(Add(s.ports[t.port].word, DESTROY - REF)) == DESTROY)
      && (t.pc.Exchange? ==> t.port < |s.ports| && s.ports[t.port].word == DESTROY)
  {
    RunInv(r, k);
    var s, t := r[k], r[k].threads[i];
    Owners(s);
    if t.port < |s.ports| {
      assert PortOk(s, t.port);
      RefsBound(s.threads, t.port);
      if !Holds(t, t.port) { FreeSlot(s, i); }
    }
  }

  /** The thread that takes a reference has none yet. */
  lemma FreeSlot(s: State, i: nat)
    requires Safe(s) && i < |s.threads| && !Holds(s.threads[i], s.threads[i].port)
    ensures Refs(s.threads, s.threads[i].port) + 1 < DESTROY
  {
    var ts := s.threads[i := s.threads[i].(pc := Using)];
    RefsChange(s.threads, i, ts[i], s.threads[i].port);
    RefsBound(ts, s.threads[i].port);
  }
}
