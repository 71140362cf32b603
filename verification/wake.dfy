/** The wake-up protocol between the loop and the threads and signal handlers that call
    ev_async_send and ev_feed_signal.

    Every step is one load, one store, one fence or one system call of one thread, and the
    steps of any number of senders and of the loop interleave freely. With `tso` the stores of
    a thread wait in a first-in first-out buffer until they reach memory, as on x86; the full
    fences of the code then wait for an empty buffer and its release fences do nothing.
    Without `tso` memory is sequentially consistent. */
module Wake {

  datatype Kind = Sig | Async

  /** A signal number (less one) or the position of an async watcher. */
  datatype Target = Target(kind: Kind, index: nat)

  /** `Flag`: sig_pending and async_pending; `Mark`: signals[i].pending and asyncs[i]->sent. */
  datatype Addr = Flag(kind: Kind) | Skipped | Wanted | Mark(target: Target)

  datatype Write = Write(addr: Addr, value: bool)

  datatype SenderPc =
    | Idle
    | Marked          // the mark is stored; the fence comes next
    | TestFlag
    | SetFlag
    | SetSkipped
    | SkippedSet      // the fence comes next
    | TestWanted
    | ClearSkipped
    | WritePipe

  datatype Sender = Sender(pc: SenderPc, target: Target, buf: seq<Write>)

  datatype LoopPc =
    | Outside                          // anywhere outside the steps below
    | SetWanted                        // a pass that may block starts
    | WantedSet                        // the fence comes next
    | TestSkipped
    | Sleeping                         // in the backend's poll, with a positive timeout
    | Polling                          // in a poll that does not block, or not in a poll at all
    | ClearWanted
    | TailSkipped
    | TailFlag(kind: Kind)             // the tail of the pass reads the flags
    | Invoke
    | Drain                            // pipecb from here on
    | PipeClear
    | PipeFence
    | PipeTest(kind: Kind)
    | PipeTake(kind: Kind)
    | PipeTaken(kind: Kind)            // the fence comes next
    | Scan(kind: Kind, left: nat)      // `left` marks are still to be looked at
    | ScanClear(target: Target)
    | ScanFeed(target: Target)

  /** `readable`: the poll reported the pipe; `fed`: pipe_w is pending. */
  datatype Loop = Loop(pc: LoopPc, buf: seq<Write>, readable: bool, fed: bool)

  /** `owed`: the targets with a send since their last delivery; `due`: those that were
      ready when the tail of the current pass began. Neither exists in the program. */
  datatype State = State(mem: set<Addr>, bytes: nat, senders: seq<Sender>, loop: Loop, owed: set<Target>, due: set<Target>)

  /** `capacity` is what the pipe or the eventfd counter holds. */
  datatype Config = Config(tso: bool, eventfd: bool, capacity: nat, signals: nat, asyncs: nat) {
    ghost predicate Valid() {
      capacity > 0
    }

    function Count(k: Kind): nat {
      if k == Sig then signals else asyncs
    }

    ghost predicate Has(t: Target) {
      t.index < Count(t.kind)
    }
  }

  // ---------- memory ----------

  function Apply(mem: set<Addr>, w: Write): set<Addr> {
    if w.value then mem + {w.addr} else mem - {w.addr}
  }

  /** The value that a thread with the store buffer `buf` loads. */
  function Load(mem: set<Addr>, buf: seq<Write>, a: Addr): bool {
    if buf == [] then a in mem
    else if buf[|buf| - 1].addr == a then buf[|buf| - 1].value
    else Load(mem, buf[..|buf| - 1], a)
  }

  function StoreMem(c: Config, mem: set<Addr>, w: Write): set<Addr> {
    if c.tso then mem else Apply(mem, w)
  }

  function StoreBuf(c: Config, buf: seq<Write>, w: Write): seq<Write> {
    if c.tso then buf + [w] else buf
  }

  lemma {:induction false} LoadFromMemory(mem: set<Addr>, buf: seq<Write>, a: Addr)
    requires forall w | w in buf :: w.addr != a
    ensures Load(mem, buf, a) <==> a in mem
  {
    if buf != [] {
      assert buf[|buf| - 1] in buf;
      LoadFromMemory(mem, buf[..|buf| - 1], a);
    }
  }

  // ---------- the senders: ev_async_send, ev_feed_signal and evpipe_write ----------

  /** Sender `i` stores `w` and goes to `pc`. */
  function SenderStore(c: Config, s: State, i: nat, pc: SenderPc, w: Write): State
    requires i < |s.senders|
  {
    var x := s.senders[i];
    s.(mem := StoreMem(c, s.mem, w), senders := s.senders[i := x.(pc := pc, buf := StoreBuf(c, x.buf, w))])
  }

  function SenderAt(s: State, i: nat, pc: SenderPc): State
    requires i < |s.senders|
  {
    s.(senders := s.senders[i := s.senders[i].(pc := pc)])
  }

  ghost predicate SenderBegins(c: Config, s: State, s': State, i: nat, t: Target)
  {
    && i < |s.senders| && s.senders[i].pc.Idle? && c.Has(t)
    && s' == SenderStore(c, s.(senders := s.senders[i := s.senders[i].(target := t)], owed := s.owed + {t}),
                         i, Marked, Write(Mark(t), true))
  }

  function SenderNext(c: Config, s: State, i: nat): State
    requires i < |s.senders|
  {
    var x := s.senders[i];
    match x.pc
    case Idle => s
    case Marked => SenderAt(s, i, TestFlag)
    case TestFlag => SenderAt(s, i, if Load(s.mem, x.buf, Flag(x.target.kind)) then Idle else SetFlag)
    case SetFlag => SenderStore(c, s, i, SetSkipped, Write(Flag(x.target.kind), true))
    case SetSkipped => SenderStore(c, s, i, SkippedSet, Write(Skipped, true))
    case SkippedSet => SenderAt(s, i, TestWanted)
    case TestWanted => SenderAt(s, i, if Load(s.mem, x.buf, Wanted) then ClearSkipped else Idle)
    case ClearSkipped => SenderStore(c, s, i, WritePipe, Write(Skipped, false))
    case WritePipe => SenderAt(s, i, Idle).(bytes := if s.bytes < c.capacity then s.bytes + 1 else s.bytes)
  }

  /** A fence, or a system call that writes the pipe, waits for the thread's stores. */
  ghost predicate SenderSteps(c: Config, s: State, s': State, i: nat) {
    && i < |s.senders| && !s.senders[i].pc.Idle?
    && (s.senders[i].pc in {Marked, SkippedSet, WritePipe} ==> s.senders[i].buf == [])
    && s' == SenderNext(c, s, i)
  }

  ghost predicate SenderDrains(s: State, s': State, i: nat) {
    && i < |s.senders| && s.senders[i].buf != []
    && s' == s.(mem := Apply(s.mem, s.senders[i].buf[0]),
                senders := s.senders[i := s.senders[i].(buf := s.senders[i].buf[1..])])
  }

  ghost predicate SenderActs(c: Config, s: State, s': State, i: nat) {
    (exists t :: SenderBegins(c, s, s', i, t)) || SenderSteps(c, s, s', i) || SenderDrains(s, s', i)
  }

  // ---------- the loop: ev_run and pipecb ----------

  function LoopStore(c: Config, s: State, pc: LoopPc, w: Write): State {
    s.(mem := StoreMem(c, s.mem, w), loop := s.loop.(pc := pc, buf := StoreBuf(c, s.loop.buf, w)))
  }

  function LoopAt(s: State, pc: LoopPc): State {
    s.(loop := s.loop.(pc := pc))
  }

  /** What pipecb does after it is done with the targets of kind `k`. */
  function AfterKind(k: Kind): LoopPc {
    if k == Sig then PipeTest(Async) else Outside
  }

  /** Where a pass that starts may go: a blocking pass announces itself, a NOWAIT pass does not. */
  ghost predicate PassBegins(s: State, s': State) {
    s.loop.pc.Outside? && (s' == LoopAt(s, SetWanted) || s' == LoopAt(s, Polling))
  }

  /** The decision to sleep: other reasons than `pipe_write_skipped` may also forbid it. */
  ghost predicate Decides(s: State, s': State) {
    && s.loop.pc.TestSkipped?
    && (s' == LoopAt(s, Polling) || (s' == LoopAt(s, Sleeping) && !Load(s.mem, s.loop.buf, Skipped)))
  }

  /** The poll returns, at any time; it can report the pipe only when there is something in it. */
  ghost predicate PollReturns(s: State, s': State) {
    && (s.loop.pc.Sleeping? || s.loop.pc.Polling?)
    && exists readable: bool | (readable ==> s.bytes > 0) ::
         s' == s.(loop := s.loop.(pc := ClearWanted, readable := readable, fed := readable))
  }

  ghost predicate LoopChoice(s: State, s': State) {
    PassBegins(s, s') || Decides(s, s') || PollReturns(s, s')
  }

  /** The targets that a tail that starts now finds ready: marked, flagged, and not about to be cleared. */
  ghost predicate Ready(s: State, t: Target) {
    Mark(t) in s.mem && Flag(t.kind) in s.mem && Write(Mark(t), false) !in s.loop.buf
  }

  ghost function ReadyTargets(c: Config, s: State): set<Target> {
    set k: Kind, i | 0 <= i < c.Count(k) && Ready(s, Target(k, i)) :: Target(k, i)
  }

  function Drained(c: Config, bytes: nat): nat {
    if c.eventfd || bytes < 4 then 0 else bytes - 4
  }

  ghost predicate LoopDeterministic(s: State) {
    !(s.loop.pc.Outside? || s.loop.pc.TestSkipped? || s.loop.pc.Sleeping? || s.loop.pc.Polling?)
  }

  ghost function LoopNext(c: Config, s: State): State
  {
    var l := s.loop;
    match l.pc
    case SetWanted => LoopStore(c, s, WantedSet, Write(Wanted, true))
    case WantedSet => LoopAt(s, TestSkipped)
    case ClearWanted => LoopStore(c, s, TailSkipped, Write(Wanted, false)).(due := ReadyTargets(c, s))
    case TailSkipped =>
      if Load(s.mem, l.buf, Skipped) then s.(loop := l.(pc := Invoke, fed := true)) else LoopAt(s, TailFlag(Sig))
    case TailFlag(k) =>
      s.(loop := l.(pc := if k == Sig then TailFlag(Async) else Invoke, fed := l.fed || Load(s.mem, l.buf, Flag(k))))
    case Invoke => LoopAt(s, if !l.fed then Outside else if l.readable then Drain else PipeClear)
    case Drain => LoopAt(s, PipeClear).(bytes := Drained(c, s.bytes))
    case PipeClear => LoopStore(c, s, PipeFence, Write(Skipped, false))
    case PipeFence => LoopAt(s, PipeTest(Sig))
    case PipeTest(k) => LoopAt(s, if Load(s.mem, l.buf, Flag(k)) then PipeTake(k) else AfterKind(k))
    case PipeTake(k) => LoopStore(c, s, PipeTaken(k), Write(Flag(k), false))
    case PipeTaken(k) => LoopAt(s, Scan(k, c.Count(k)))
    case Scan(k, n) =>
      if n == 0 then LoopAt(s, AfterKind(k))
      else if Load(s.mem, l.buf, Mark(Target(k, n - 1))) then LoopAt(s, ScanClear(Target(k, n - 1)))
      else LoopAt(s, Scan(k, n - 1))
    case ScanClear(t) => LoopStore(c, s, ScanFeed(t), Write(Mark(t), false))
    case ScanFeed(t) => LoopAt(s, Scan(t.kind, t.index)).(owed := s.owed - {t}, due := s.due - {t})
    case _ => s
  }

  ghost predicate LoopSteps(c: Config, s: State, s': State)
  {
    && LoopDeterministic(s)
    && (s.loop.pc.WantedSet? || s.loop.pc.PipeFence? || s.loop.pc.PipeTaken? ==> s.loop.buf == [])
    && s' == LoopNext(c, s)
  }

  ghost predicate LoopDrains(s: State, s': State) {
    && s.loop.buf != []
    && s' == s.(mem := Apply(s.mem, s.loop.buf[0]), loop := s.loop.(buf := s.loop.buf[1..]))
  }

  // ---------- runs ----------

  ghost predicate Init(s: State) {
    && s.mem == {} && s.bytes == 0 && s.owed == {} && s.due == {}
    && s.loop == Loop(Outside, [], false, false)
    && (forall x | x in s.senders :: x.pc.Idle? && x.buf == [])
  }

  ghost predicate Step(c: Config, s: State, s': State)
  {
    || (exists i: nat :: SenderActs(c, s, s', i))
    || LoopChoice(s, s') || LoopSteps(c, s, s') || LoopDrains(s, s')
  }

  ghost predicate Run(c: Config, r: seq<State>)
  {
    r != [] && Init(r[0]) && forall i :: 0 <= i < |r| - 1 ==> Step(c, r[i], r[i + 1])
  }

  // ---------- what every run keeps ----------

  /** The stores that a sender may have in its buffer, step by step. */
  ghost predicate SenderOk(c: Config, x: Sender) {
    && (!c.tso ==> x.buf == [])
    && (!x.pc.Idle? ==> c.Has(x.target))
    && var mark, flag, skip, clear :=
         Write(Mark(x.target), true), Write(Flag(x.target.kind), true), Write(Skipped, true), Write(Skipped, false);
       match x.pc
       case Marked => x.buf == [] || x.buf == [mark]
       case SetSkipped => x.buf == [] || x.buf == [flag]
       case SkippedSet => x.buf == [] || x.buf == [skip] || x.buf == [flag, skip]
       case WritePipe => x.buf == [] || x.buf == [clear]
       case _ => x.buf == []
  }

  /** The stores that the loop may have in its buffer. */
  ghost predicate LoopWrite(pc: LoopPc, w: Write) {
    match w.addr
    case Wanted => !(pc.TestSkipped? || pc.Sleeping?) && !Piping(pc)
    case Skipped => !w.value && pc.PipeFence?
    case Flag(k) => !w.value && pc == PipeTaken(k)
    case Mark(t) => !w.value && !(pc.TestSkipped? || pc.Sleeping?) && Cleared(pc, t)
  }

  /** pipecb is past its first fence. */
  ghost predicate Piping(pc: LoopPc) {
    pc.PipeTest? || pc.PipeTake? || pc.PipeTaken? || pc.Scan? || pc.ScanClear? || pc.ScanFeed?
  }

  /** The scan of the current pipecb, if there is one, may have cleared the mark of `t`. */
  ghost predicate Cleared(pc: LoopPc, t: Target) {
    match pc
    case PipeTest(k) => k == Async && t.kind == Sig
    case PipeTake(k) => k == Async && t.kind == Sig
    case PipeTaken(k) => k == Async && t.kind == Sig
    case Scan(k, n) => if t.kind == k then t.index >= n else k == Async
    case ScanClear(u) => if t.kind == u.kind then t.index > u.index else u.kind == Async
    case ScanFeed(u) => if t.kind == u.kind then t.index >= u.index else u.kind == Async
    case _ => true
  }

  ghost predicate ValidLoop(c: Config, s: State) {
    && (!c.tso ==> s.loop.buf == [])
    && (forall w | w in s.loop.buf :: LoopWrite(s.loop.pc, w))
    && (s.loop.pc.Scan? ==> s.loop.pc.left <= c.Count(s.loop.pc.kind))
    && (s.loop.pc.ScanClear? || s.loop.pc.ScanFeed? ==> c.Has(s.loop.pc.target))
    && (forall t | Mark(t) in s.mem :: c.Has(t))
  }

  ghost predicate Buffers(c: Config, s: State) {
    ValidLoop(c, s) && forall i | 0 <= i < |s.senders| :: SenderOk(c, s.senders[i])
  }

  /** Between the drain of the pipe and the test of the flag of kind `k`, or while its clearing is under way. */
  ghost predicate Window(l: Loop, k: Kind) {
    match l.pc
    case PipeClear => true
    case PipeFence => true
    case PipeTest(j) => j == Sig || k == Async
    case PipeTake(j) => j == Sig || k == Async
    case PipeTaken(j) => if j == k then Write(Flag(k), false) in l.buf else j == Sig
    case Scan(j, n) => j == Sig && k == Async
    case ScanClear(t) => t.kind == Sig && k == Async
    case ScanFeed(t) => t.kind == Sig && k == Async
    case _ => false
  }

  /** A sender that is going to set `pipe_write_skipped`, or to write the pipe. */
  ghost predicate Waking(x: Sender) {
    || x.pc.SetSkipped? || (x.pc.SkippedSet? && Write(Skipped, true) in x.buf)
    || x.pc.ClearSkipped? || x.pc.WritePipe?
  }

  ghost predicate SomeWaking(xs: seq<Sender>) {
    exists i :: 0 <= i < |xs| && Waking(xs[i])
  }

  /** A raised flag is not forgotten. */
  ghost predicate FlagHeld(s: State) {
    forall k | Flag(k) in s.mem && !Window(s.loop, k) ::
      Skipped in s.mem || s.bytes > 0 || SomeWaking(s.senders)
  }

  /** A sender whose store of `pipe_write_skipped` is the one in memory. */
  ghost predicate Setter(x: Sender) {
    (x.pc.SkippedSet? && x.buf == []) || x.pc.TestWanted? || x.pc.ClearSkipped? || (x.pc.WritePipe? && x.buf != [])
  }

  ghost predicate SomeSetter(xs: seq<Sender>) {
    exists i :: 0 <= i < |xs| && Setter(xs[i])
  }

  /** The loop sleeps only while senders are told to wake it. */
  ghost predicate SleepSafe(s: State) {
    && (s.loop.pc.WantedSet? || s.loop.pc.TestSkipped? || s.loop.pc.Sleeping? ==> Load(s.mem, s.loop.buf, Wanted))
    && (s.loop.pc.Sleeping? && Skipped in s.mem ==> SomeSetter(s.senders))
  }

  /** A sender that has marked `t` and is going to raise its flag unless it is raised already. */
  ghost predicate Raising(x: Sender, t: Target) {
    x.target == t && (x.pc.Marked? || x.pc.TestFlag? || x.pc.SetFlag? || Write(Flag(t.kind), true) in x.buf)
  }

  ghost predicate SomeRaising(xs: seq<Sender>, t: Target) {
    exists i :: 0 <= i < |xs| && Raising(xs[i], t)
  }

  /** The change of one sender leaves what holds of another. */
  lemma OtherSenders(xs: seq<Sender>, i: nat, y: Sender)
    requires i < |xs|
    ensures SomeWaking(xs[i := y]) <== Waking(y) || (SomeWaking(xs) && !Waking(xs[i]))
    ensures SomeSetter(xs[i := y]) <== Setter(y) || (SomeSetter(xs) && !Setter(xs[i]))
    ensures forall t :: SomeRaising(xs[i := y], t) <== Raising(y, t) || (SomeRaising(xs, t) && !Raising(xs[i], t))
  {
    var ys := xs[i := y];
    assert ys[i] == y;
    if SomeWaking(xs) && !Waking(xs[i]) {
      var j :| 0 <= j < |xs| && Waking(xs[j]);
      assert Waking(ys[j]);
    }
    if SomeSetter(xs) && !Setter(xs[i]) {
      var j :| 0 <= j < |xs| && Setter(xs[j]);
      assert Setter(ys[j]);
    }
    forall t | SomeRaising(xs, t) && !Raising(xs[i], t) ensures SomeRaising(ys, t) {
      var j :| 0 <= j < |xs| && Raising(xs[j], t);
      assert Raising(ys[j], t);
    }
    assert forall t :: Raising(y, t) ==> Raising(ys[i], t);
  }

  /** The loop took the flag and has not looked at `t` yet. */
  ghost predicate ToScan(pc: LoopPc, t: Target) {
    match pc
    case PipeTake(k) => k == t.kind
    case PipeTaken(k) => k == t.kind
    case Scan(k, n) => k == t.kind && t.index < n
    case ScanClear(u) => u.kind == t.kind && t.index <= u.index
    case ScanFeed(u) => u.kind == t.kind && t.index < u.index
    case _ => false
  }

  /** A marked target is found by the current scan, or its flag is or will be raised. */
  ghost predicate MarkFound(s: State) {
    forall t | Mark(t) in s.mem && Write(Mark(t), false) !in s.loop.buf ::
      Flag(t.kind) in s.mem || ToScan(s.loop.pc, t) || SomeRaising(s.senders, t)
  }

  ghost predicate Inv(c: Config, s: State) {
    Buffers(c, s) && FlagHeld(s) && SleepSafe(s) && MarkFound(s)
  }

  lemma InitInv(c: Config, s: State)
    requires Init(s)
    ensures Inv(c, s)
  {
  }

  // ---------- the steps of the senders keep it ----------

  /** All that the rest of the state sees of a sender's step. */
  lemma SenderFrame(c: Config, s: State, s': State, i: nat)
    requires Inv(c, s) && SenderActs(c, s, s', i)
    ensures i < |s.senders| && |s'.senders| == |s.senders| && s'.senders == s.senders[i := s'.senders[i]]
    ensures s'.loop == s.loop && s'.due == s.due && s.bytes <= s'.bytes
    ensures s'.mem == s.mem || exists w :: s'.mem == Apply(s.mem, w) && SenderWrite(c, s.senders[i], s'.senders[i], w)
  {
    var x := s.senders[i];
    assert SenderOk(c, x);
    if SenderDrains(s, s', i) {
      assert SenderWrite(c, x, s'.senders[i], x.buf[0]);
    } else if SenderSteps(c, s, s', i) {
      match x.pc
      case SetFlag => if !c.tso { assert SenderWrite(c, x, s'.senders[i], Write(Flag(x.target.kind), true)); }
      case SetSkipped => if !c.tso { assert SenderWrite(c, x, s'.senders[i], Write(Skipped, true)); }
      case ClearSkipped => if !c.tso { assert SenderWrite(c, x, s'.senders[i], Write(Skipped, false)); }
      case _ =>
    } else {
      var t :| SenderBegins(c, s, s', i, t);
      if !c.tso { assert SenderWrite(c, x, s'.senders[i], Write(Mark(t), true)); }
    }
  }

  /** The store `w` reached memory when a sender went from `x` to `y`. */
  ghost predicate SenderWrite(c: Config, x: Sender, y: Sender, w: Write) {
    match w.addr
    case Wanted => false
    case Mark(t) => w.value && y.pc.Marked? && y.target == t && c.Has(t)
    case Flag(k) => w.value && x.target.kind == k && (y.pc.SetSkipped? || (y.pc.SkippedSet? && Write(Skipped, true) in y.buf))
    case Skipped => if w.value then y.pc.SkippedSet? && y.buf == [] else y.pc.WritePipe?
  }

  lemma SenderBuffers(c: Config, s: State, s': State, i: nat)
    requires Inv(c, s) && SenderActs(c, s, s', i)
    ensures Buffers(c, s')
  {
    SenderFrame(c, s, s', i);
    assert SenderOk(c, s.senders[i]);
  }

  lemma SenderFlagHeld(c: Config, s: State, s': State, i: nat)
    requires c.Valid() && Inv(c, s) && SenderActs(c, s, s', i)
    ensures FlagHeld(s')
  {
    SenderFrame(c, s, s', i);
    OtherSenders(s.senders, i, s'.senders[i]);
    assert SenderOk(c, s.senders[i]);
  }

  lemma SenderSleepSafe(c: Config, s: State, s': State, i: nat)
    requires c.Valid() && Inv(c, s) && SenderActs(c, s, s', i)
    ensures SleepSafe(s')
  {
    SenderFrame(c, s, s', i);
    OtherSenders(s.senders, i, s'.senders[i]);
    assert SenderOk(c, s.senders[i]);
    if s'.mem != s.mem {
      var w :| s'.mem == Apply(s.mem, w) && SenderWrite(c, s.senders[i], s'.senders[i], w);
      LoadOther(s.mem, w, s.loop.buf, Wanted);
    }
    if s.loop.pc.Sleeping? {
      assert s.loop.buf == [] by { LoopBufferEmpty(c, s); }
    }
  }

  lemma SenderMarkFound(c: Config, s: State, s': State, i: nat)
    requires c.Valid() && Inv(c, s) && SenderActs(c, s, s', i)
    ensures MarkFound(s')
  {
    SenderFrame(c, s, s', i);
    OtherSenders(s.senders, i, s'.senders[i]);
    assert SenderOk(c, s.senders[i]);
  }

  lemma SomeMember(buf: seq<Write>)
    requires buf != []
    ensures exists w :: w in buf
  {
    assert buf[0] in buf;
  }

  lemma LoopBufferEmpty(c: Config, s: State)
    requires Buffers(c, s) && (s.loop.pc.TestSkipped? || s.loop.pc.Sleeping? || s.loop.pc == PipeTest(Sig) || s.loop.pc == PipeTake(Sig))
    ensures s.loop.buf == []
  {
    if s.loop.buf != [] {
      SomeMember(s.loop.buf);
      assert false;
    }
  }

  lemma {:induction false} LoadOther(mem: set<Addr>, w: Write, buf: seq<Write>, a: Addr)
    requires w.addr != a
    ensures Load(Apply(mem, w), buf, a) == Load(mem, buf, a)
  {
    if buf != [] { LoadOther(mem, w, buf[..|buf| - 1], a); }
  }

  /** What a thread loads does not change when its oldest store reaches memory. */
  lemma {:induction false} LoadDrained(mem: set<Addr>, buf: seq<Write>, a: Addr)
    requires buf != []
    ensures Load(Apply(mem, buf[0]), buf[1..], a) == Load(mem, buf, a)
  {
    if |buf| > 1 {
      LoadDrained(mem, buf[..|buf| - 1], a);
      assert buf[..|buf| - 1][1..] == buf[1..][..|buf| - 2];
    }
  }

  // ---------- the steps of the loop keep it ----------

  lemma LoopChoiceKeeps(c: Config, s: State, s': State)
    requires Inv(c, s) && LoopChoice(s, s')
    ensures Inv(c, s')
  {
    if s.loop.pc.TestSkipped? {
      LoopBufferEmpty(c, s);
    }
  }

  lemma LoopBuffers(c: Config, s: State, s': State)
    requires c.Valid() && Inv(c, s) && LoopSteps(c, s, s')
    ensures Buffers(c, s')
  {
    LoopWrites(c, s, s');
    LoopMemory(c, s, s');
  }

  /** The loop's steps change nothing of the senders and only take marks away. */
  lemma LoopMemory(c: Config, s: State, s': State)
    requires c.Valid() && LoopSteps(c, s, s')
    ensures s'.senders == s.senders && forall t :: Mark(t) in s'.mem ==> Mark(t) in s.mem
    ensures s'.loop.buf == s.loop.buf || (c.tso && s'.loop.buf == s.loop.buf + [LoopWritten(s)])
  {
  }

  lemma LoopWrites(c: Config, s: State, s': State)
    requires c.Valid() && Inv(c, s) && LoopSteps(c, s, s')
    ensures forall w | w in s'.loop.buf :: LoopWrite(s'.loop.pc, w)
  {
    LoopMemory(c, s, s');
    forall w | w in s.loop.buf ensures LoopWrite(s'.loop.pc, w) {
      LoopWriteMoves(c, s, s', w);
    }
    if s'.loop.buf != s.loop.buf {
      assert LoopWrite(s'.loop.pc, LoopWritten(s));
    }
  }

  lemma LoopWriteMoves(c: Config, s: State, s': State, w: Write)
    requires c.Valid() && Inv(c, s) && LoopSteps(c, s, s') && w in s.loop.buf
    ensures LoopWrite(s'.loop.pc, w)
  {
    assert LoopWrite(s.loop.pc, w);
  }

  /** The store of the loop's next step, if that is one. */
  ghost function LoopWritten(s: State): Write {
    match s.loop.pc
    case SetWanted => Write(Wanted, true)
    case ClearWanted => Write(Wanted, false)
    case PipeTake(k) => Write(Flag(k), false)
    case ScanClear(t) => Write(Mark(t), false)
    case _ => Write(Skipped, false)
  }

  lemma LoopFlagHeld(c: Config, s: State, s': State)
    requires c.Valid() && Inv(c, s) && LoopSteps(c, s, s')
    ensures FlagHeld(s')
  {
    assert s'.senders == s.senders;
    forall k | Flag(k) in s'.mem && !Window(s'.loop, k)
      ensures Skipped in s'.mem || s'.bytes > 0 || SomeWaking(s'.senders)
    {
      FlagStillHeld(c, s, s', k);
    }
  }

  lemma FlagStillHeld(c: Config, s: State, s': State, k: Kind)
    requires c.Valid() && ValidLoop(c, s) && LoopSteps(c, s, s') && Flag(k) in s'.mem && !Window(s'.loop, k)
    requires Flag(k) in s.mem && !Window(s.loop, k) ==> Skipped in s.mem || s.bytes > 0 || SomeWaking(s.senders)
    ensures Skipped in s'.mem || s'.bytes > 0 || SomeWaking(s'.senders)
  {
    if Piping(s.loop.pc) {
      FlagHeldPiping(c, s, s', k);
    }
  }

  lemma FlagHeldPiping(c: Config, s: State, s': State, k: Kind)
    requires c.Valid() && ValidLoop(c, s) && LoopSteps(c, s, s') && Flag(k) in s'.mem && !Window(s'.loop, k) && Piping(s.loop.pc)
    requires Flag(k) in s.mem && !Window(s.loop, k) ==> Skipped in s.mem || s.bytes > 0 || SomeWaking(s.senders)
    ensures Skipped in s'.mem || s'.bytes > 0 || SomeWaking(s'.senders)
  {
    LoadsFromMemory(c, s);
    assert s'.senders == s.senders && s'.bytes == s.bytes && (Skipped in s'.mem <==> Skipped in s.mem);
  }

  lemma LoopSleepSafe(c: Config, s: State, s': State)
    requires c.Valid() && Inv(c, s) && LoopSteps(c, s, s')
    ensures SleepSafe(s')
  {
  }

  lemma LoopMarkFound(c: Config, s: State, s': State)
    requires c.Valid() && Inv(c, s) && LoopSteps(c, s, s')
    ensures MarkFound(s')
  {
    LoopMemory(c, s, s');
    forall t | Mark(t) in s'.mem && Write(Mark(t), false) !in s'.loop.buf
      ensures Flag(t.kind) in s'.mem || ToScan(s'.loop.pc, t) || SomeRaising(s'.senders, t)
    {
      MarkStillFound(c, s, s', t);
    }
  }

  lemma MarkStillFound(c: Config, s: State, s': State, t: Target)
    requires c.Valid() && ValidLoop(c, s) && LoopSteps(c, s, s') && Mark(t) in s'.mem && Write(Mark(t), false) !in s'.loop.buf
    requires Flag(t.kind) in s.mem || ToScan(s.loop.pc, t) || SomeRaising(s.senders, t)
    ensures Flag(t.kind) in s'.mem || ToScan(s'.loop.pc, t) || SomeRaising(s'.senders, t)
  {
    LoadsFromMemory(c, s);
  }

  lemma LoopDrainKeeps(c: Config, s: State, s': State)
    requires Inv(c, s) && LoopDrains(s, s')
    ensures Inv(c, s')
  {
    LoadDrained(s.mem, s.loop.buf, Wanted);
    assert s.loop.buf[0] in s.loop.buf;
  }

  lemma StepKeeps(c: Config, s: State, s': State)
    requires c.Valid() && Inv(c, s) && Step(c, s, s')
    ensures Inv(c, s')
  {
    if i: nat :| SenderActs(c, s, s', i) {
      SenderBuffers(c, s, s', i);
      SenderFlagHeld(c, s, s', i);
      SenderSleepSafe(c, s, s', i);
      SenderMarkFound(c, s, s', i);
    } else if LoopChoice(s, s') {
      LoopChoiceKeeps(c, s, s');
    } else if LoopSteps(c, s, s') {
      LoopBuffers(c, s, s');
      LoopFlagHeld(c, s, s');
      LoopSleepSafe(c, s, s');
      LoopMarkFound(c, s, s');
    } else {
      LoopDrainKeeps(c, s, s');
    }
  }

  lemma {:induction false} RunInv(c: Config, r: seq<State>, i: nat)
    requires c.Valid() && Run(c, r) && i < |r|
    ensures Inv(c, r[i])
  {
    if i == 0 {
      InitInv(c, r[0]);
    } else {
      RunInv(c, r, i - 1);
      assert Step(c, r[i - 1], r[i - 1 + 1]);
      StepKeeps(c, r[i - 1], r[i]);
    }
  }

  // ---------- no wake-up is lost ----------

  /** A sender past its test of the flag, and before the end of evpipe_write. */
  ghost predicate Committed(x: Sender) {
    x.pc.SetSkipped? || x.pc.SkippedSet? || x.pc.TestWanted? || x.pc.ClearSkipped? || x.pc.WritePipe?
  }

  /** While the loop sleeps, a raised flag comes with a byte in the pipe or a sender that has one to write. */
  lemma NoLostWake(c: Config, r: seq<State>, i: nat, k: Kind)
    requires c.Valid() && Run(c, r) && i < |r|
    requires r[i].loop.pc.Sleeping? && Flag(k) in r[i].mem
    ensures r[i].bytes > 0 || exists j :: 0 <= j < |r[i].senders| && Committed(r[i].senders[j])
  {
    RunInv(c, r, i);
    var s := r[i];
    if s.bytes == 0 {
      if SomeWaking(s.senders) {
        var j :| 0 <= j < |s.senders| && Waking(s.senders[j]);
        assert Committed(s.senders[j]);
      } else {
        var j :| 0 <= j < |s.senders| && Setter(s.senders[j]);
        assert Committed(s.senders[j]);
      }
    }
  }

  /** While the loop sleeps, a committed sender can end its call only by writing the pipe. */
  lemma CommittedWrites(c: Config, r: seq<State>, i: nat, s': State, j: nat)
    requires c.Valid() && Run(c, r) && i < |r| && r[i].loop.pc.Sleeping?
    requires SenderActs(c, r[i], s', j) && Committed(r[i].senders[j])
    ensures Committed(s'.senders[j]) || (s'.bytes > 0 && r[i].senders[j].pc.WritePipe?)
  {
    RunInv(c, r, i);
    var s := r[i];
    LoopBufferEmpty(c, s);
    assert SenderOk(c, s.senders[j]);
  }

  // ---------- every send is delivered ----------

  ghost predicate Marking(x: Sender, t: Target) {
    Write(Mark(t), true) in x.buf
  }

  ghost predicate SomeMarking(xs: seq<Sender>, t: Target) {
    exists i :: 0 <= i < |xs| && Marking(xs[i], t)
  }

  /** Every target with a send since its last delivery is marked, about to be marked, or being delivered. */
  ghost predicate Covered(s: State) {
    forall t | t in s.owed :: Mark(t) in s.mem || SomeMarking(s.senders, t) || s.loop.pc == ScanFeed(t)
  }

  /** The loop's clearing of a mark reaches memory after the delivery it was made for, and on top of a newer send. */
  ghost predicate StaleClear(s: State, s': State) {
    && LoopDrains(s, s')
    && var w := s.loop.buf[0];
       w.addr.Mark? && !w.value && w.addr.target in s.owed
       && !SomeMarking(s.senders, w.addr.target) && s.loop.pc != ScanFeed(w.addr.target)
  }

  lemma OtherMarks(xs: seq<Sender>, i: nat, y: Sender, t: Target)
    requires i < |xs|
    ensures SomeMarking(xs[i := y], t) <== Marking(y, t) || (SomeMarking(xs, t) && !Marking(xs[i], t))
  {
    var ys := xs[i := y];
    assert ys[i] == y;
    if SomeMarking(xs, t) && !Marking(xs[i], t) {
      var j :| 0 <= j < |xs| && Marking(xs[j], t);
      assert Marking(ys[j], t);
    }
  }

  lemma SenderCovers(c: Config, s: State, s': State, i: nat)
    requires Inv(c, s) && Covered(s) && SenderActs(c, s, s', i)
    ensures Covered(s')
  {
    SenderFrame(c, s, s', i);
    assert SenderOk(c, s.senders[i]);
    forall t | t in s'.owed ensures Mark(t) in s'.mem || SomeMarking(s'.senders, t) || s'.loop.pc == ScanFeed(t) {
      OtherMarks(s.senders, i, s'.senders[i], t);
    }
  }

  lemma LoopCovers(c: Config, s: State, s': State)
    requires c.Valid() && Inv(c, s) && Covered(s) && (LoopSteps(c, s, s') || LoopChoice(s, s'))
    ensures Covered(s')
  {
    assert s'.senders == s.senders;
    forall t | t in s'.owed ensures Mark(t) in s'.mem || SomeMarking(s'.senders, t) || s'.loop.pc == ScanFeed(t) {
      assert Mark(t) in s.mem || SomeMarking(s.senders, t) || s.loop.pc == ScanFeed(t);
    }
  }

  /** The only step after which a send may go undelivered. */
  lemma CoveredUnlessStale(c: Config, s: State, s': State)
    requires c.Valid() && Inv(c, s) && Covered(s) && Step(c, s, s')
    ensures Covered(s') <==> !StaleClear(s, s')
  {
    if StaleClear(s, s') {
      assert Mark(s.loop.buf[0].addr.target) !in s'.mem;
    } else if i: nat :| SenderActs(c, s, s', i) {
      SenderCovers(c, s, s', i);
    } else if LoopSteps(c, s, s') || LoopChoice(s, s') {
      LoopCovers(c, s, s');
    } else {
      assert s'.senders == s.senders;
    }
  }

  ghost predicate NoStaleClear(r: seq<State>) {
    forall i :: 0 <= i < |r| - 1 ==> !StaleClear(r[i], r[i + 1])
  }

  lemma SequentialHasNoStaleClear(c: Config, r: seq<State>)
    requires c.Valid() && Run(c, r) && !c.tso
    ensures NoStaleClear(r)
  {
    forall i | 0 <= i < |r| - 1 ensures !StaleClear(r[i], r[i + 1]) {
      RunInv(c, r, i);
    }
  }

  lemma {:induction false} RunCovered(c: Config, r: seq<State>, i: nat)
    requires c.Valid() && Run(c, r) && NoStaleClear(r) && i < |r|
    ensures Covered(r[i])
  {
    if i > 0 {
      RunCovered(c, r, i - 1);
      RunInv(c, r, i - 1);
      assert Step(c, r[i - 1], r[i - 1 + 1]);
      assert !StaleClear(r[i - 1], r[i - 1 + 1]);
      CoveredUnlessStale(c, r[i - 1], r[i]);
    }
  }

  /** The flag of `t` is set or will be, or `t` lies ahead of the scan that took the flag. */
  ghost predicate Ahead(s: State, t: Target) {
    Flag(t.kind) in s.mem || ToScan(s.loop.pc, t) || SomeRaising(s.senders, t)
  }

  /** A target with a send since its last delivery is found by a scan, is being marked or is being delivered; or the
      clearing of its mark is still on its way to memory. */
  lemma RunFound(c: Config, r: seq<State>, i: nat, t: Target)
    requires c.Valid() && Run(c, r) && NoStaleClear(r) && i < |r| && t in r[i].owed
    ensures Ahead(r[i], t) || SomeMarking(r[i].senders, t) || r[i].loop.pc == ScanFeed(t) || Write(Mark(t), false) in r[i].loop.buf
  {
    RunInv(c, r, i);
    RunCovered(c, r, i);
  }

  /** Under sequential consistency it is found, or is being delivered. */
  lemma SequentialFound(c: Config, r: seq<State>, i: nat, t: Target)
    requires c.Valid() && !c.tso && Run(c, r) && i < |r| && t in r[i].owed
    ensures (Mark(t) in r[i].mem && Ahead(r[i], t)) || r[i].loop.pc == ScanFeed(t)
  {
    SequentialHasNoStaleClear(c, r);
    RunInv(c, r, i);
    RunCovered(c, r, i);
    assert forall j | 0 <= j < |r[i].senders| :: SenderOk(c, r[i].senders[j]);
  }

  ghost predicate Quiet(s: State) {
    forall x | x in s.senders :: x.pc.Idle?
  }

  /** The loop does not sleep through a completed send: the pipe holds a byte for it. */
  lemma SendWakes(c: Config, r: seq<State>, i: nat)
    requires c.Valid() && Run(c, r) && NoStaleClear(r) && i < |r|
    requires r[i].loop.pc.Sleeping? && Quiet(r[i]) && r[i].owed != {}
    ensures r[i].bytes > 0
  {
    RunInv(c, r, i);
    RunCovered(c, r, i);
    var s := r[i];
    var t :| t in s.owed;
    assert forall j | 0 <= j < |s.senders| :: SenderOk(c, s.senders[j]) && s.senders[j].pc.Idle?;
    LoopBufferEmpty(c, s);
    assert Mark(t) in s.mem && Flag(t.kind) in s.mem;
    NoLostWake(c, r, i, t.kind);
  }

  // ---------- what is ready when the tail of a pass begins is delivered in that pass ----------

  /** pipecb, if the pass still comes to it, still comes to `t`. */
  ghost predicate ToCome(l: Loop, t: Target) {
    match l.pc
    case TailSkipped => true
    case TailFlag(k) => l.fed || k == Sig || t.kind == Async
    case Invoke => l.fed
    case Drain => true
    case PipeClear => true
    case PipeFence => true
    case PipeTest(k) => k == Sig || t.kind == Async
    case PipeTake(k) => k == t.kind || k == Sig
    case PipeTaken(k) => k == t.kind || k == Sig
    case Scan(k, n) => if k == t.kind then t.index < n else k == Sig
    case ScanClear(u) => if u.kind == t.kind then t.index <= u.index else u.kind == Sig
    case ScanFeed(u) => if u.kind == t.kind then t.index < u.index else u.kind == Sig
    case _ => false
  }

  ghost predicate DueHeld(c: Config, s: State) {
    forall t | t in s.due && s.loop.pc != ScanFeed(t) :: Due(c, s, t)
  }

  ghost predicate Due(c: Config, s: State, t: Target) {
    && c.Has(t) && Mark(t) in s.mem && Write(Mark(t), false) !in s.loop.buf && ToCome(s.loop, t)
    && (Flag(t.kind) in s.mem || ToScan(s.loop.pc, t))
  }

  lemma DueKept(c: Config, s: State, s': State)
    requires c.Valid() && Inv(c, s) && DueHeld(c, s) && Step(c, s, s')
    ensures DueHeld(c, s')
  {
    if i: nat :| SenderActs(c, s, s', i) {
      SenderFrame(c, s, s', i);
    } else if LoopSteps(c, s, s') {
      LoopDueKept(c, s, s');
    } else if LoopDrains(s, s') {
      assert s.loop.buf[0] in s.loop.buf;
      assert forall w | w in s'.loop.buf :: w in s.loop.buf;
    }
  }

  lemma LoopDueKept(c: Config, s: State, s': State)
    requires c.Valid() && Inv(c, s) && DueHeld(c, s) && LoopSteps(c, s, s')
    ensures DueHeld(c, s')
  {
    if !s.loop.pc.ClearWanted? {
      forall t | t in s'.due && s'.loop.pc != ScanFeed(t) ensures Due(c, s', t) {
        DueStep(c, s, s', t);
      }
    }
  }

  lemma DueStep(c: Config, s: State, s': State, t: Target)
    requires c.Valid() && ValidLoop(c, s) && LoopSteps(c, s, s') && !s.loop.pc.ClearWanted?
    requires Due(c, s, t) && s'.loop.pc != ScanFeed(t) && t in s'.due
    ensures Due(c, s', t)
  {
    DueMarked(c, s, s', t);
    DueToCome(c, s, s', t);
    LoadsFromMemory(c, s);
  }

  lemma DueMarked(c: Config, s: State, s': State, t: Target)
    requires c.Valid() && ValidLoop(c, s) && LoopSteps(c, s, s') && !s.loop.pc.ClearWanted?
    requires Due(c, s, t) && s'.loop.pc != ScanFeed(t) && t in s'.due
    ensures Mark(t) in s'.mem && Write(Mark(t), false) !in s'.loop.buf
  {
    LoopMemory(c, s, s');
    LoadsFromMemory(c, s);
  }

  lemma DueToCome(c: Config, s: State, s': State, t: Target)
    requires c.Valid() && ValidLoop(c, s) && LoopSteps(c, s, s') && !s.loop.pc.ClearWanted?
    requires Due(c, s, t) && s'.loop.pc != ScanFeed(t) && t in s'.due
    ensures ToCome(s'.loop, t)
  {
    if Piping(s.loop.pc) {
      DueToComePiping(c, s, s', t);
    } else {
      LoadsFromMemory(c, s);
    }
  }

  lemma DueToComePiping(c: Config, s: State, s': State, t: Target)
    requires c.Valid() && ValidLoop(c, s) && LoopSteps(c, s, s') && Piping(s.loop.pc)
    requires Due(c, s, t) && s'.loop.pc != ScanFeed(t) && t in s'.due
    ensures ToCome(s'.loop, t)
  {
    LoadsFromMemory(c, s);
  }

  /** The loop has none of its own stores to the flags and marks that it tests in its buffer. */
  lemma LoadsFromMemory(c: Config, s: State)
    requires ValidLoop(c, s)
    ensures s.loop.pc.PipeTest? || s.loop.pc.TailFlag? ==>
      (Load(s.mem, s.loop.buf, Flag(s.loop.pc.kind)) <==> Flag(s.loop.pc.kind) in s.mem)
    ensures s.loop.pc.Scan? && s.loop.pc.left > 0 ==>
      var a := Mark(Target(s.loop.pc.kind, s.loop.pc.left - 1)); Load(s.mem, s.loop.buf, a) <==> a in s.mem
  {
    if s.loop.pc.PipeTest? || s.loop.pc.TailFlag? {
      LoadFromMemory(s.mem, s.loop.buf, Flag(s.loop.pc.kind));
    } else if s.loop.pc.Scan? && s.loop.pc.left > 0 {
      LoadFromMemory(s.mem, s.loop.buf, Mark(Target(s.loop.pc.kind, s.loop.pc.left - 1)));
    }
  }

  lemma {:induction false} RunDue(c: Config, r: seq<State>, i: nat)
    requires c.Valid() && Run(c, r) && i < |r|
    ensures DueHeld(c, r[i])
  {
    if i > 0 {
      RunDue(c, r, i - 1);
      RunInv(c, r, i - 1);
      assert Step(c, r[i - 1], r[i - 1 + 1]);
      DueKept(c, r[i - 1], r[i]);
    }
  }

  /** A pass ends with nothing left of what its tail found ready. */
  lemma PassDelivers(c: Config, r: seq<State>, i: nat)
    requires c.Valid() && Run(c, r) && i < |r| && r[i].loop.pc.Outside?
    ensures r[i].due == {}
  {
    RunDue(c, r, i);
    assert forall t :: t !in r[i].due;
  }

  /** Nothing but the delivery of `t` takes it off the list that the tail drew up. */
  lemma DueOnlyDelivered(c: Config, s: State, s': State, t: Target)
    requires c.Valid() && Step(c, s, s') && t in s.due && t !in s'.due
    ensures s.loop.pc == ScanFeed(t) || s.loop.pc.ClearWanted?
  {
  }

  // ---------- a send that is lost when stores are buffered ----------

  function Final(r: seq<State>): State
    requires r != []
  {
    r[|r| - 1]
  }

  /** A run with buffered stores and one sender, which has nothing to store. */
  ghost predicate Calm(c: Config, r: seq<State>) {
    && c.Valid() && c.tso && Run(c, r)
    && var s := Final(r); |s.senders| == 1 && s.senders[0].pc.Idle? && s.senders[0].buf == []
  }

  lemma Extended(c: Config, r: seq<State>, s: State)
    requires c.Valid() && Run(c, r) && Step(c, Final(r), s)
    ensures Run(c, r + [s])
  {
    var q := r + [s];
    forall i | 0 <= i < |q| - 1 ensures Step(c, q[i], q[i + 1]) {
      if i < |r| - 1 {
        assert Step(c, r[i], r[i + 1]) && q[i] == r[i] && q[i + 1] == r[i + 1];
      } else {
        assert q[i] == Final(r) && q[i + 1] == s;
      }
    }
  }

  lemma SenderExtended(c: Config, r: seq<State>, s: State)
    requires c.Valid() && Run(c, r) && SenderActs(c, Final(r), s, 0)
    ensures Run(c, r + [s])
  {
    Extended(c, r, s);
  }

  /** A whole send while the loop does not want the pipe to be written. */
  lemma UnwantedSend(c: Config, r: seq<State>, t: Target) returns (q: seq<State>)
    requires Calm(c, r) && c.Has(t) && Wanted !in Final(r).mem && Flag(t.kind) !in Final(r).mem
    ensures Calm(c, q) && Final(q).loop == Final(r).loop
    ensures Final(q).mem == Final(r).mem + {Mark(t), Flag(t.kind), Skipped}
    ensures Final(q).owed == Final(r).owed + {t} && Final(q).bytes == Final(r).bytes
  {
    var s, mark := Final(r), Write(Mark(t), true);
    var s1 := s.(owed := s.owed + {t}, senders := [Sender(Marked, t, [mark])]);
    assert SenderBegins(c, s, s1, 0, t) by { assert [] + [mark] == [mark]; }
    SenderExtended(c, r, s1);
    q := SenderDrained(c, r + [s1]);
    q := SenderStepped(c, q);
    q := SenderStepped(c, q);
    assert Final(q).senders == [Sender(SetFlag, t, [])];
    q := UnwantedFlag(c, q, t);
  }

  /** The part of such a send that raises the flag. */
  lemma UnwantedFlag(c: Config, r: seq<State>, t: Target) returns (q: seq<State>)
    requires c.Valid() && c.tso && Run(c, r) && Final(r).senders == [Sender(SetFlag, t, [])] && Wanted !in Final(r).mem
    ensures Run(c, q)
    ensures Final(q) == Final(r).(mem := Final(r).mem + {Flag(t.kind), Skipped}, senders := [Sender(Idle, t, [])])
  {
    var flag, skip := Write(Flag(t.kind), true), Write(Skipped, true);
    q := SenderStepped(c, r);
    assert Final(q).senders == [Sender(SetSkipped, t, [flag])] by { assert [] + [flag] == [flag]; }
    q := SenderStepped(c, q);
    assert Final(q).senders == [Sender(SkippedSet, t, [flag, skip])] by { assert [flag] + [skip] == [flag, skip]; }
    q := SenderDrained(c, q);
    q := SenderDrained(c, q);
    q := SenderStepped(c, q);
    q := SenderStepped(c, q);
    assert Final(q).senders == [Sender(Idle, t, [])];
  }

  lemma SenderStepped(c: Config, r: seq<State>) returns (q: seq<State>)
    requires c.Valid() && Run(c, r) && |Final(r).senders| > 0 && SenderSteps(c, Final(r), SenderNext(c, Final(r), 0), 0)
    ensures Run(c, q) && Final(q) == SenderNext(c, Final(r), 0)
  {
    q := r + [SenderNext(c, Final(r), 0)];
    SenderExtended(c, r, SenderNext(c, Final(r), 0));
  }

  lemma SenderDrained(c: Config, r: seq<State>) returns (q: seq<State>)
    requires c.Valid() && Run(c, r) && |Final(r).senders| > 0 && Final(r).senders[0].buf != []
    ensures Run(c, q)
    ensures var s, x := Final(r), Final(r).senders[0];
      Final(q) == s.(mem := Apply(s.mem, x.buf[0]), senders := s.senders[0 := x.(buf := x.buf[1..])])
  {
    var s, x := Final(r), Final(r).senders[0];
    var s1 := s.(mem := Apply(s.mem, x.buf[0]), senders := s.senders[0 := x.(buf := x.buf[1..])]);
    assert SenderDrains(s, s1, 0);
    SenderExtended(c, r, s1);
    q := r + [s1];
  }

  lemma LoopExtended(c: Config, r: seq<State>) returns (q: seq<State>)
    requires c.Valid() && Run(c, r) && LoopSteps(c, Final(r), LoopNext(c, Final(r)))
    ensures Run(c, q) && Final(q) == LoopNext(c, Final(r))
  {
    q := r + [LoopNext(c, Final(r))];
    Extended(c, r, LoopNext(c, Final(r)));
  }

  lemma DrainExtended(c: Config, r: seq<State>) returns (q: seq<State>)
    requires c.Valid() && Run(c, r) && Final(r).loop.buf != []
    ensures Run(c, q)
    ensures var s := Final(r);
      Final(q) == s.(mem := Apply(s.mem, s.loop.buf[0]), loop := s.loop.(buf := s.loop.buf[1..]))
  {
    var s := Final(r);
    var s1 := s.(mem := Apply(s.mem, s.loop.buf[0]), loop := s.loop.(buf := s.loop.buf[1..]));
    assert LoopDrains(s, s1);
    Extended(c, r, s1);
    q := r + [s1];
  }

  function Other(k: Kind): Kind {
    if k == Sig then Async else Sig
  }

  /** Nothing but the loop's place, its own stores and the given addresses changed. */
  ghost predicate Went(s: State, s': State, pc: LoopPc, buf: seq<Write>, cleared: set<Addr>) {
    && s'.loop.pc == pc && s'.loop.buf == buf && s'.mem == s.mem - cleared
    && s'.senders == s.senders && s'.owed == s.owed && s'.bytes == s.bytes
  }

  /** A NOWAIT pass that finds `pipe_write_skipped` set and one flag raised, up to pipecb's scan. */
  lemma PassToScan(c: Config, r: seq<State>, k: Kind) returns (q: seq<State>)
    requires Calm(c, r) && Final(r).loop.pc.Outside? && Final(r).loop.buf == []
    requires {Flag(k), Skipped} <= Final(r).mem && {Flag(Other(k)), Wanted} !! Final(r).mem
    ensures Calm(c, q) && Went(Final(r), Final(q), Scan(k, c.Count(k)), [], {Flag(k), Skipped})
  {
    var s := Final(r);
    var s1 := LoopAt(s, Polling);
    Extended(c, r, s1);
    var s2 := s1.(loop := Loop(ClearWanted, [], false, false));
    Extended(c, r + [s1], s2);
    q := PassFromTail(c, r + [s1] + [s2], k);
  }

  lemma PassToPipe(c: Config, r: seq<State>) returns (q: seq<State>)
    requires Calm(c, r) && Final(r).loop == Loop(ClearWanted, [], false, false) && Skipped in Final(r).mem
    ensures Calm(c, q) && Final(q).loop == Loop(PipeClear, [Write(Wanted, false)], false, true)
    ensures Went(Final(r), Final(q), PipeClear, [Write(Wanted, false)], {})
  {
    q := LoopExtended(c, r);
    assert Final(q).loop.buf == [Write(Wanted, false)];
    LoadFromMemory(Final(q).mem, Final(q).loop.buf, Skipped);
    q := LoopExtended(c, q);
    q := LoopExtended(c, q);
  }

  lemma PassFromTail(c: Config, r: seq<State>, k: Kind) returns (q: seq<State>)
    requires Calm(c, r) && Final(r).loop == Loop(ClearWanted, [], false, false)
    requires {Flag(k), Skipped} <= Final(r).mem && {Flag(Other(k)), Wanted} !! Final(r).mem
    ensures Calm(c, q) && Went(Final(r), Final(q), Scan(k, c.Count(k)), [], {Flag(k), Skipped})
  {
    q := PassToPipe(c, r);
    q := LoopExtended(c, q);
    q := DrainExtended(c, q);
    q := DrainExtended(c, q);
    assert Final(q).loop == Loop(PipeFence, [], false, true) && Final(q).mem == Final(r).mem - {Skipped};
    q := PassFromFence(c, q, k);
  }

  lemma PassFromFence(c: Config, r: seq<State>, k: Kind) returns (q: seq<State>)
    requires Calm(c, r) && Final(r).loop == Loop(PipeFence, [], false, true)
    requires Flag(k) in Final(r).mem && Flag(Other(k)) !in Final(r).mem
    ensures Calm(c, q) && Went(Final(r), Final(q), Scan(k, c.Count(k)), [], {Flag(k)})
  {
    q := LoopExtended(c, r);
    if k == Async {
      q := LoopExtended(c, q);
    }
    q := LoopExtended(c, q);
    assert Final(q).loop == Loop(PipeTake(k), [], false, true);
    q := LoopExtended(c, q);
    q := DrainExtended(c, q);
    assert Final(q).loop == Loop(PipeTaken(k), [], false, true);
    q := LoopExtended(c, q);
  }

  /** The scan passes targets without a mark. */
  lemma {:induction false} ScanPast(c: Config, r: seq<State>, k: Kind, n: nat, m: nat) returns (q: seq<State>)
    requires c.Valid() && Run(c, r) && Final(r).loop.pc == Scan(k, n) && m <= n
    requires forall j | m <= j < n :: !Load(Final(r).mem, Final(r).loop.buf, Mark(Target(k, j)))
    ensures Run(c, q) && Final(q) == LoopAt(Final(r), Scan(k, m))
    decreases n
  {
    q := r;
    if m < n {
      q := LoopExtended(c, r);
      q := ScanPast(c, q, k, n - 1, m);
    }
  }

  /** The rest of a scan that finds no mark any more, and of its pass. */
  lemma ScanEnds(c: Config, r: seq<State>, k: Kind, n: nat) returns (q: seq<State>)
    requires Calm(c, r) && Final(r).loop.pc == Scan(k, n) && Flag(Other(k)) !in Final(r).mem
    requires forall w | w in Final(r).loop.buf :: !w.value && w.addr.Mark?
    requires forall j | 0 <= j < n :: !Load(Final(r).mem, Final(r).loop.buf, Mark(Target(k, j)))
    ensures Calm(c, q) && Went(Final(r), Final(q), Outside, Final(r).loop.buf, {})
  {
    q := ScanPast(c, r, k, n, 0);
    LoadFromMemory(Final(q).mem, Final(q).loop.buf, Flag(Async));
    q := LoopExtended(c, q);
    if k == Sig {
      q := LoopExtended(c, q);
    }
  }

  lemma ScanHits(c: Config, r: seq<State>, t: Target) returns (q: seq<State>)
    requires Calm(c, r) && Mark(t) in Final(r).mem
    requires Final(r).loop.pc == Scan(t.kind, t.index + 1) && Final(r).loop.buf == []
    ensures Calm(c, q) && Final(q).loop.pc == Scan(t.kind, t.index) && Final(q).loop.buf == [Write(Mark(t), false)]
    ensures Final(q).mem == Final(r).mem && Final(q).owed == Final(r).owed - {t} && Final(q).bytes == Final(r).bytes
  {
    q := LoopExtended(c, r);
    q := LoopExtended(c, q);
    q := LoopExtended(c, q);
  }

  /** A scan that finds the mark of `t` only: `t` is delivered while the clearing of its mark is still buffered. */
  lemma DeliveredBuffered(c: Config, r: seq<State>, t: Target) returns (q: seq<State>)
    requires Calm(c, r) && c.Has(t) && Final(r).mem == {Mark(t)}
    requires Final(r).loop.pc == Scan(t.kind, c.Count(t.kind)) && Final(r).loop.buf == []
    ensures Calm(c, q) && Final(q).loop.pc.Outside? && Final(q).loop.buf == [Write(Mark(t), false)]
    ensures Final(q).mem == {Mark(t)} && Final(q).owed == Final(r).owed - {t} && Final(q).bytes == Final(r).bytes
  {
    q := ScanPast(c, r, t.kind, c.Count(t.kind), t.index + 1);
    q := ScanHits(c, q, t);
    forall j | 0 <= j < t.index ensures !Load(Final(q).mem, Final(q).loop.buf, Mark(Target(t.kind, j))) {
      LoadFromMemory(Final(q).mem, Final(q).loop.buf, Mark(Target(t.kind, j)));
    }
    q := ScanEnds(c, q, t.kind, t.index);
  }

  /** A blocking pass goes to sleep. */
  lemma SleepExtended(c: Config, r: seq<State>) returns (q: seq<State>)
    requires Calm(c, r) && Final(r).loop.pc.Outside? && Final(r).loop.buf == [] && Final(r).mem == {}
    ensures Calm(c, q) && Final(q).loop.pc.Sleeping? && Final(q).loop.buf == [] && Final(q).mem == {Wanted}
    ensures Final(q).owed == Final(r).owed && Final(q).bytes == Final(r).bytes
  {
    var s1 := LoopAt(Final(r), SetWanted);
    Extended(c, r, s1);
    q := LoopExtended(c, r + [s1]);
    q := DrainExtended(c, q);
    q := LoopExtended(c, q);
    var s2 := LoopAt(Final(q), Sleeping);
    assert Decides(Final(q), s2);
    Extended(c, q, s2);
    q := q + [s2];
  }

  /** With buffered stores the release fence after the clearing of a mark is not enough, for signals as for asyncs:
      a send can complete between a delivery and the moment when that clearing reaches memory, and then the loop
      sleeps on an empty pipe although the send was not delivered. */
  lemma BufferedClearLosesSend(c: Config, t: Target) returns (r: seq<State>)
    requires c.Valid() && c.tso && c.Has(t)
    ensures Calm(c, r) && Final(r).loop.pc.Sleeping? && Final(r).loop.buf == []
    ensures t in Final(r).owed && Final(r).bytes == 0 && Final(r).mem == {Wanted}
  {
    r := [State({}, 0, [Sender(Idle, t, [])], Loop(Outside, [], false, false), {}, {})];
    r := UnwantedSend(c, r, t);
    r := PassToScan(c, r, t.kind);
    assert Final(r).mem == {Mark(t)};
    r := DeliveredBuffered(c, r, t);
    r := UnwantedSend(c, r, t);
    r := DrainExtended(c, r);
    assert Final(r).mem == {Flag(t.kind), Skipped};
    r := PassToScan(c, r, t.kind);
    r := ScanEnds(c, r, t.kind, c.Count(t.kind));
    assert Final(r).mem == {};
    r := SleepExtended(c, r);
  }

  ghost predicate AlwaysCovered(c: Config) {
    forall r: seq<State>, i: nat | Run(c, r) && i < |r| :: Covered(r[i])
  }

  lemma {:induction false} NobodyToSend(c: Config, r: seq<State>, i: nat)
    requires c.signals == 0 && c.asyncs == 0 && Run(c, r) && i < |r|
    ensures r[i].owed == {}
  {
    if i > 0 {
      NobodyToSend(c, r, i - 1);
      assert Step(c, r[i - 1], r[i - 1 + 1]);
    }
  }

  /** Every send stays covered in every run if and only if stores are not buffered, or there is nobody to send to. */
  lemma CoveredExactlyWhen(c: Config)
    requires c.Valid()
    ensures AlwaysCovered(c) <==> !c.tso || (c.signals == 0 && c.asyncs == 0)
  {
    if c.tso && (c.signals > 0 || c.asyncs > 0) {
      var t := Target(if c.signals > 0 then Sig else Async, 0);
      var r := BufferedClearLosesSend(c, t);
      assert !Covered(r[|r| - 1]);
    } else {
      forall r: seq<State>, i: nat | Run(c, r) && i < |r| ensures Covered(r[i]) {
        if c.tso {
          NobodyToSend(c, r, i);
        } else {
          SequentialHasNoStaleClear(c, r);
          RunCovered(c, r, i);
        }
      }
    }
  }
}
