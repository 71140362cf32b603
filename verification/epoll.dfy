/** The epoll backend as a cache of what the kernel has registered.

    The kernel keeps a registration for each pair of a descriptor and an open file; closing the descriptor does not
    end it as long as the file is open elsewhere, and the loop never deletes one when its watchers go. `open` says
    which file a descriptor refers to. Generations are unbounded here: fewer than 2^32 changes are made while an
    event is outstanding. */
module Epoll {
  import opened Lists

  datatype Bit = Read | Write | Eperm

  datatype Anfd = Anfd(events: set<Bit>, emask: set<Bit>, egen: nat)

  /** Only a pollable file can be registered. */
  datatype File = File(id: nat, pollable: bool)

  datatype Reg = Reg(mask: set<Bit>, gen: nat)

  type Regs = map<(nat, File), Reg>

  datatype State = State(anfds: seq<Anfd>, eperms: seq<nat>, regs: Regs, open: seq<File>)

  datatype Op = Add | Mod | Del

  datatype Errno = Ok | Eexist | Enoent | NotPermitted | Other

  function Key(st: State, fd: nat): (nat, File)
    requires fd < |st.open|
  {
    (fd, st.open[fd])
  }

  // ---------- what should hold ----------

  /** The kernel reports `mask` for the file that is open now, under the current generation. */
  ghost predicate Held(st: State, fd: nat, mask: set<Bit>)
    requires fd < |st.anfds| == |st.open|
  {
    Key(st, fd) in st.regs && st.regs[Key(st, fd)] == Reg(mask, st.anfds[fd].egen)
  }

  /** The kernel has nothing for the file that is open now, or what the loop last recorded for the descriptor;
      a record that was wiped is no claim. */
  ghost predicate Known(st: State, fd: nat)
    requires fd < |st.anfds| == |st.open|
  {
    Key(st, fd) in st.regs ==>
      st.regs[Key(st, fd)].gen == st.anfds[fd].egen
      && (st.anfds[fd].emask == st.regs[Key(st, fd)].mask || st.anfds[fd].emask == {})
  }

  /** What other files of the descriptor still have registered is older. */
  ghost predicate Latest(st: State, fd: nat)
    requires fd < |st.anfds| == |st.open|
  {
    Key(st, fd) in st.regs ==> forall j | j in st.regs && j.0 == fd && j != Key(st, fd) :: st.regs[j].gen < st.anfds[fd].egen
  }

  /** A registration is of the current generation or an earlier one. */
  ghost predicate RegOk(st: State, k: (nat, File))
    requires k in st.regs
  {
    k.0 < |st.anfds| && st.regs[k].gen <= st.anfds[k.0].egen && k.1.pollable && st.regs[k].mask != {}
  }

  ghost predicate RegsOk(st: State) {
    forall k | k in st.regs :: RegOk(st, k)
  }

  predicate EpermsInTable(st: State) {
    forall i | 0 <= i < |st.eperms| :: st.eperms[i] < |st.anfds|
  }

  ghost predicate EpermsOk(st: State) {
    && EpermsInTable(st)
    && forall fd: nat | fd < |st.anfds| :: Eperm !in st.anfds[fd].events && (Eperm in st.anfds[fd].emask ==> fd in st.eperms)
  }

  /** What holds whatever is closed, reopened or moved to another descriptor. */
  ghost predicate Sound(st: State) {
    |st.anfds| == |st.open| && RegsOk(st) && EpermsOk(st)
  }

  // ---------- epoll_modify ----------

  function Put(st: State, fd: nat, a: Anfd, regs: Regs): State
    requires fd < |st.anfds|
  {
    st.(anfds := st.anfds[fd := a], regs := regs)
  }

  /** What epoll_modify comes to: the mask is registered under the next generation, unless the file cannot be
      polled, there is no room for a new registration, or an existing one is taken to be unchanged. */
  function Modified(st: State, fd: nat, nev: set<Bit>, room: bool): State
    requires fd < |st.anfds| == |st.open|
  {
    var a, k := st.anfds[fd], Key(st, fd);
    var next := Anfd(a.events, nev, a.egen + 1);
    if nev == {} then st
    else if !st.open[fd].pollable then
      Put(st, fd, next.(emask := {Eperm}), st.regs).(eperms := if Eperm in a.emask then st.eperms else st.eperms + [fd])
    else if k in st.regs && a.emask == nev then st
    else if k !in st.regs && !room then Put(st, fd, a.(emask := nev), st.regs)
    else Put(st, fd, next, st.regs[k := Reg(nev, a.egen + 1)])
  }

  predicate Kills(st: State, fd: nat, nev: set<Bit>, room: bool)
    requires fd < |st.anfds| == |st.open|
  {
    nev != {} && st.open[fd].pollable && Key(st, fd) !in st.regs && !room
  }

  /** If the file is registered already or there is room, the kernel reports the new mask under the current
      generation -- except exactly when the file that is open was registered earlier, came back to the descriptor
      after others, and the mask looks unchanged. */
  lemma ModifyHolds(st: State, fd: nat, nev: set<Bit>, room: bool)
    requires Sound(st) && fd < |st.anfds| && nev != {} && st.open[fd].pollable && (room || Key(st, fd) in st.regs)
    ensures |Modified(st, fd, nev, room).anfds| == |st.open|
    ensures Held(Modified(st, fd, nev, room), fd, nev) <==> Known(st, fd) || st.anfds[fd].emask != nev
  {
    if Key(st, fd) in st.regs {
      assert RegOk(st, Key(st, fd));
    }
  }

  lemma ModifySound(st: State, fd: nat, nev: set<Bit>, room: bool)
    requires Sound(st) && fd < |st.anfds| && Eperm !in nev
    ensures Sound(Modified(st, fd, nev, room))
    ensures Known(st, fd) && Latest(st, fd) ==> Known(Modified(st, fd, nev, room), fd) && Latest(Modified(st, fd, nev, room), fd)
  {
    var to := Modified(st, fd, nev, room);
    forall k | k in to.regs ensures RegOk(to, k) {
      assert k in st.regs ==> RegOk(st, k);
    }
    forall j | j in st.regs && j.0 == fd && j != Key(st, fd) ensures st.regs[j].gen <= st.anfds[fd].egen {
      assert RegOk(st, j);
    }
  }

  /** No other descriptor is touched. */
  lemma ModifyOthers(st: State, fd: nat, nev: set<Bit>, room: bool, f: nat)
    requires Sound(st) && fd < |st.anfds| && f < |st.anfds| && f != fd
    ensures var to := Modified(st, fd, nev, room);
      to.open == st.open && |to.anfds| == |st.anfds| && (Known(to, f) <==> Known(st, f)) && (Latest(to, f) <==> Latest(st, f))
  {
    var to := Modified(st, fd, nev, room);
    assert forall j: (nat, File) | j.0 == f :: j in to.regs <==> j in st.regs;
  }

  /** What an older open file of the descriptor still has registered carries an earlier generation, so that its
      events are told apart. */
  lemma OldFilesAreOlder(st: State, fd: nat, nev: set<Bit>, room: bool, k: (nat, File))
    requires Sound(st) && fd < |st.anfds| && nev != {} && Eperm !in nev && st.open[fd].pollable && (room || Key(st, fd) in st.regs)
    requires Known(st, fd) && Latest(st, fd) && k in Modified(st, fd, nev, room).regs && k.0 == fd && k != Key(st, fd)
    ensures Held(Modified(st, fd, nev, room), fd, nev)
    ensures Modified(st, fd, nev, room).regs[k].gen < Modified(st, fd, nev, room).anfds[fd].egen
  {
    ModifySound(st, fd, nev, room);
    ModifyHolds(st, fd, nev, room);
  }

  // ---------- descriptors are closed and opened ----------

  /** The descriptor refers to another file now. */
  function Reopened(st: State, fd: nat, f: File): State
    requires fd < |st.open|
  {
    st.(open := st.open[fd := f])
  }

  /** The last descriptor of a file was closed. */
  function Released(st: State, f: File): State {
    st.(regs := map k | k in st.regs && k.1 != f :: st.regs[k])
  }

  /** Opening a file that is new, or at least not registered for the descriptor, keeps everything known. */
  lemma ReopenKnown(st: State, fd: nat, f: File)
    requires Sound(st) && fd < |st.anfds|
    ensures Sound(Reopened(st, fd, f))
    ensures (fd, f) !in st.regs ==> Known(Reopened(st, fd, f), fd) && Latest(Reopened(st, fd, f), fd)
    ensures forall g: nat | g < |st.anfds| && g != fd ::
      Known(Reopened(st, fd, f), g) == Known(st, g) && Latest(Reopened(st, fd, f), g) == Latest(st, g)
  {
    var to := Reopened(st, fd, f);
    forall k | k in to.regs ensures RegOk(to, k) {
      assert RegOk(st, k);
    }
  }

  lemma ReleaseKnown(st: State, f: File)
    requires Sound(st)
    ensures Sound(Released(st, f))
    ensures forall g: nat | g < |st.anfds| && Known(st, g) && Latest(st, g) :: Known(Released(st, f), g) && Latest(Released(st, f), g)
  {
    var to := Released(st, f);
    forall k | k in to.regs ensures RegOk(to, k) {
      assert RegOk(st, k);
    }
  }

  // ---------- events ----------

  /** An event with the generation that it was registered under; AfterEvent says what it does to the state, and
      Passes whether the watchers get it. When neither the state can be corrected nor the event passes, the kernel
      state is recreated. */
  function AfterEvent(st: State, fd: nat, gen: nat, got: set<Bit>): State
    requires |st.anfds| == |st.open|
  {
    if fd >= |st.anfds| || st.anfds[fd].egen != gen || got <= st.anfds[fd].events then st
    else
      var a, k := st.anfds[fd], Key(st, fd);
      Put(st, fd, a.(emask := a.events),
          if !st.open[fd].pollable || k !in st.regs then st.regs
          else if a.events == {} then st.regs - {k} else st.regs[k := Reg(a.events, gen)])
  }

  predicate Passes(st: State, fd: nat, gen: nat, got: set<Bit>)
    requires |st.anfds| == |st.open|
  {
    && fd < |st.anfds| && st.anfds[fd].egen == gen
    && (got <= st.anfds[fd].events || (st.open[fd].pollable && Key(st, fd) in st.regs))
  }

  lemma EventSound(st: State, fd: nat, gen: nat, got: set<Bit>)
    requires Sound(st) && fd < |st.anfds| && Known(st, fd) && Latest(st, fd)
    ensures var to := AfterEvent(st, fd, gen, got); Sound(to) && Known(to, fd) && Latest(to, fd)
  {
    var to := AfterEvent(st, fd, gen, got);
    forall k | k in to.regs ensures RegOk(to, k) {
      assert k in st.regs ==> RegOk(st, k);
    }
  }

  /** After epoll_modify nothing that an older open file has registered reaches the watchers: it is noticed, and
      the kernel state is recreated. */
  lemma OldEventsAreDropped(st: State, k: (nat, File), got: set<Bit>)
    requires Sound(st) && k in st.regs && k.0 < |st.anfds| && Latest(st, k.0) && Key(st, k.0) in st.regs && k != Key(st, k.0)
    ensures !Passes(st, k.0, st.regs[k].gen, got) && AfterEvent(st, k.0, st.regs[k].gen, got) == st
  {
  }

  // ---------- the descriptors that epoll refuses ----------

  predicate Refused(a: Anfd) {
    Eperm in a.emask && a.events != {}
  }

  /** The synthesis at the end of epoll_poll, for the first `i` entries of the list: what is not refused any more,
      or has no watchers, leaves it. */
  function Synthesized(st: State, i: nat): (to: State)
    requires EpermsInTable(st) && i <= |st.eperms|
    ensures EpermsInTable(to) && |to.anfds| == |st.anfds| && to.open == st.open && to.regs == st.regs
    decreases i
  {
    if i == 0 then st
    else if Refused(st.anfds[st.eperms[i - 1]]) then Synthesized(st, i - 1)
    else Synthesized(Dropped(st, i - 1), i - 1)
  }

  function Dropped(st: State, i: nat): (to: State)
    requires EpermsInTable(st) && i < |st.eperms|
    ensures EpermsInTable(to) && |to.anfds| == |st.anfds| && |to.eperms| == |st.eperms| - 1
  {
    SwapRemoved(st.eperms, i);
    var fd := st.eperms[i];
    var left := SwapRemove(st.eperms, i);
    assert forall j | 0 <= j < |left| :: left[j] in left;
    st.(eperms := left, anfds := st.anfds[fd := st.anfds[fd].(emask := {})])
  }

  /** The descriptors that the synthesis tells, in the order they are fed. */
  function Told(st: State, i: nat): seq<nat>
    requires EpermsInTable(st) && i <= |st.eperms|
    decreases i
  {
    if i == 0 then []
    else if Refused(st.anfds[st.eperms[i - 1]]) then [st.eperms[i - 1]] + Told(st, i - 1)
    else Told(Dropped(st, i - 1), i - 1)
  }

  /** Exactly the refused descriptors among the first `i` are told; the others may lose their mark. */
  lemma {:induction false} ToldRefused(st: State, i: nat)
    requires EpermsInTable(st) && i <= |st.eperms|
    ensures forall fd | fd in Told(st, i) :: fd < |st.anfds| && Refused(st.anfds[fd])
    ensures forall fd | fd in st.eperms[..i] && Refused(st.anfds[fd]) :: fd in Told(st, i)
    ensures forall fd: nat | fd < |st.anfds| ::
      (Synthesized(st, i).anfds[fd] == st.anfds[fd]
       || (!Refused(st.anfds[fd]) && Synthesized(st, i).anfds[fd] == st.anfds[fd].(emask := {})))
    decreases i
  {
    if i > 0 {
      assert st.eperms[..i] == st.eperms[..i - 1] + [st.eperms[i - 1]];
      if Refused(st.anfds[st.eperms[i - 1]]) {
        ToldRefused(st, i - 1);
      } else {
        ToldRefused(Dropped(st, i - 1), i - 1);
      }
    }
  }

  lemma DroppedSound(st: State, i: nat)
    requires Sound(st) && i < |st.eperms|
    ensures Sound(Dropped(st, i)) && (Tidy(st) ==> Tidy(Dropped(st, i)))
  {
    var to := Dropped(st, i);
    SwapRemoved(st.eperms, i);
    forall k | k in to.regs ensures RegOk(to, k) {
      assert RegOk(st, k);
    }
    forall g: nat | g < |to.anfds| && Known(st, g) && Latest(st, g) ensures Known(to, g) && Latest(to, g) {
    }
  }

  lemma {:induction false} SynthesizedSound(st: State, i: nat)
    requires Sound(st) && i <= |st.eperms|
    ensures Sound(Synthesized(st, i)) && (Tidy(st) ==> Tidy(Synthesized(st, i)))
    decreases i
  {
    if i == 0 {
    } else if Refused(st.anfds[st.eperms[i - 1]]) {
      SynthesizedSound(st, i - 1);
    } else {
      DroppedSound(st, i - 1);
      SynthesizedSound(Dropped(st, i - 1), i - 1);
    }
  }

  // ---------- recreating the kernel state ----------

  /** epoll_fork: a new epoll descriptor has no registrations, and fd_rearm_all has everything registered again. */
  function Recreated(st: State): State {
    st.(regs := map[],
        anfds := seq(|st.anfds|, i requires 0 <= i < |st.anfds| =>
          if st.anfds[i].events != {} then Anfd({}, {}, st.anfds[i].egen) else st.anfds[i]))
  }

  /** Whatever went wrong before, everything is known afterwards, and generations go on from where they were. */
  lemma RecreatedTidy(st: State)
    requires |st.anfds| == |st.open| && EpermsOk(st)
    ensures Tidy(Recreated(st))
    ensures forall fd: nat | fd < |st.anfds| :: Recreated(st).anfds[fd].egen == st.anfds[fd].egen
  {
    var to := Recreated(st);
    forall fd: nat | fd < |to.anfds| ensures Eperm !in to.anfds[fd].events && (Eperm in to.anfds[fd].emask ==> fd in to.eperms) {
      assert Eperm !in st.anfds[fd].events;
    }
  }

  /** And what is told to the backend then is held by the kernel, whatever it held before. */
  lemma RecreatedHolds(st: State, fd: nat, nev: set<Bit>)
    requires |st.anfds| == |st.open| && EpermsOk(st) && fd < |st.anfds| && nev != {} && st.open[fd].pollable
    ensures Held(Modified(Recreated(st), fd, nev, true), fd, nev)
  {
    RecreatedTidy(st);
    ModifyHolds(Recreated(st), fd, nev, true);
  }

  // ---------- runs ----------

  datatype Step =
    | Ask(fd: nat, events: set<Bit>)
    | Tell(fd: nat, nev: set<Bit>, room: bool)
    | Open(fd: nat, file: File)
    | Release(file: File)
    | Report(fd: nat, gen: nat, got: set<Bit>)
    | Synthesis
    | Recreation

  /** The one thing that must not happen: a descriptor gets back a file that is still registered for it. */
  predicate Allowed(st: State, s: Step)
    requires |st.anfds| == |st.open|
  {
    match s
    case Ask(fd, events) => fd < |st.anfds| && Eperm !in events
    case Tell(fd, nev, _) => fd < |st.anfds| && Eperm !in nev
    case Open(fd, f) => fd < |st.anfds| && (fd, f) !in st.regs
    case Release(_) => true
    case Report(fd, _, _) => fd < |st.anfds|
    case Synthesis => EpermsInTable(st)
    case Recreation => true
  }

  function After(st: State, s: Step): (to: State)
    requires |st.anfds| == |st.open| && Allowed(st, s)
    ensures |to.anfds| == |to.open| == |st.open|
  {
    match s
    case Ask(fd, events) => Put(st, fd, st.anfds[fd].(events := events), st.regs)
    case Tell(fd, nev, room) => Modified(st, fd, nev, room)
    case Open(fd, f) => Reopened(st, fd, f)
    case Release(f) => Released(st, f)
    case Report(fd, gen, got) => AfterEvent(st, fd, gen, got)
    case Synthesis => Synthesized(st, |st.eperms|)
    case Recreation => Recreated(st)
  }

  ghost predicate Tidy(st: State) {
    Sound(st) && forall fd: nat | fd < |st.anfds| :: Known(st, fd) && Latest(st, fd)
  }

  ghost predicate AllowedRun(st: State, steps: seq<Step>)
    requires |st.anfds| == |st.open|
    decreases |steps|
  {
    steps == [] || (Allowed(st, steps[0]) && AllowedRun(After(st, steps[0]), steps[1..]))
  }

  ghost function RunTo(st: State, steps: seq<Step>): (to: State)
    requires |st.anfds| == |st.open| && AllowedRun(st, steps)
    ensures |to.anfds| == |to.open| == |st.open|
    decreases |steps|
  {
    if steps == [] then st else RunTo(After(st, steps[0]), steps[1..])
  }

  lemma AskTidy(st: State, fd: nat, events: set<Bit>)
    requires Tidy(st) && fd < |st.anfds| && Eperm !in events
    ensures Tidy(After(st, Ask(fd, events)))
  {
    var to := After(st, Ask(fd, events));
    forall k | k in to.regs ensures RegOk(to, k) {
      assert RegOk(st, k);
    }
    forall g: nat | g < |to.anfds| ensures Known(to, g) && Latest(to, g) {
      assert Known(st, g) && Latest(st, g);
    }
  }

  lemma TellTidy(st: State, fd: nat, nev: set<Bit>, room: bool)
    requires Tidy(st) && fd < |st.anfds| && Eperm !in nev
    ensures Tidy(Modified(st, fd, nev, room))
  {
    ModifySound(st, fd, nev, room);
    forall g: nat | g < |st.anfds| ensures Known(Modified(st, fd, nev, room), g) && Latest(Modified(st, fd, nev, room), g) {
      if g != fd {
        ModifyOthers(st, fd, nev, room, g);
      }
    }
  }

  lemma ReportTidy(st: State, fd: nat, gen: nat, got: set<Bit>)
    requires Tidy(st) && fd < |st.anfds|
    ensures Tidy(AfterEvent(st, fd, gen, got))
  {
    EventSound(st, fd, gen, got);
    var to := AfterEvent(st, fd, gen, got);
    forall g: nat | g < |to.anfds| ensures Known(to, g) && Latest(to, g) {
      assert Known(st, g) && Latest(st, g);
      assert g != fd ==> forall j: (nat, File) | j.0 == g :: j in to.regs <==> j in st.regs;
    }
  }

  lemma StepTidy(st: State, s: Step)
    requires Tidy(st) && Allowed(st, s)
    ensures Tidy(After(st, s))
  {
    match s
    case Ask(fd, events) => AskTidy(st, fd, events);
    case Tell(fd, nev, room) => TellTidy(st, fd, nev, room);
    case Open(fd, f) => ReopenKnown(st, fd, f);
    case Release(f) => ReleaseKnown(st, f);
    case Report(fd, gen, got) => ReportTidy(st, fd, gen, got);
    case Synthesis => SynthesizedSound(st, |st.eperms|);
    case Recreation => RecreatedTidy(st);
  }

  /** In every run in which no descriptor gets back a file that is still registered for it, the loop knows what
      the kernel has for the files that are open, and other files' registrations are older. */
  lemma {:induction false} RunTidy(st: State, steps: seq<Step>)
    requires Tidy(st) && AllowedRun(st, steps)
    ensures Tidy(RunTo(st, steps))
    decreases |steps|
  {
    if steps != [] {
      StepTidy(st, steps[0]);
      RunTidy(After(st, steps[0]), steps[1..]);
    }
  }

  /** The exception is real: a descriptor is registered for writing, another file takes it over and is registered
      for reading, and then the first file, which is still open elsewhere, is put back. epoll_modify takes the mask
      for unchanged, and the kernel goes on reporting writability only, under a generation that is past. */
  lemma FileComesBack() returns (st: State, steps: seq<Step>, f: File)
    ensures Tidy(st) && st.regs == map[] && |st.open| == 1 && AllowedRun(st, steps)
    ensures var to := Reopened(RunTo(st, steps), 0, f);
      |to.anfds| == |to.open| == 1 && Modified(to, 0, {Read}, true) == to && !Held(to, 0, {Read})
  {
    f := File(0, true);
    var g := File(1, true);
    var tell0, open, ask, tell1 := Tell(0, {Write}, true), Open(0, g), Ask(0, {Read}), Tell(0, {Read}, true);
    st := State([Anfd({Write}, {}, 0)], [], map[], [f]);
    steps := [tell0] + ([open] + ([ask] + [tell1]));
    var s1 := After(st, tell0);
    var s2 := After(s1, open);
    var s3 := After(s2, ask);
    assert s1.regs.Keys == {(0, f)};
    RunOne(s3, tell1);
    RunMore(s2, ask, [tell1]);
    RunMore(s1, open, [ask] + [tell1]);
    RunMore(st, tell0, [open] + ([ask] + [tell1]));
    var to := Reopened(RunTo(st, steps), 0, f);
    assert to == State([Anfd({Read}, {Read}, 2)], [], map[(0, f) := Reg({Write}, 1), (0, g) := Reg({Read}, 2)], [f]);
  }

  lemma RunOne(st: State, s: Step)
    requires |st.anfds| == |st.open| && Allowed(st, s)
    ensures AllowedRun(st, [s]) && RunTo(st, [s]) == After(st, s)
  {
    assert [s][1..] == [];
  }

  lemma RunMore(st: State, s: Step, rest: seq<Step>)
    requires |st.anfds| == |st.open| && Allowed(st, s) && AllowedRun(After(st, s), rest)
    ensures AllowedRun(st, [s] + rest) && RunTo(st, [s] + rest) == RunTo(After(st, s), rest)
  {
    assert ([s] + rest)[1..] == rest;
  }

  // ---------- when a refused descriptor is listed twice ----------

  /** A descriptor that epoll refuses, then accepts, then refuses again before the next poll, is put on the list
      of refused descriptors twice. */
  lemma EpermsTwice() returns (st: State, steps: seq<Step>)
    ensures Tidy(st) && st.eperms == [] && AllowedRun(st, steps) && RunTo(st, steps).eperms == [0, 0]
  {
    var plain, socket := File(0, false), File(1, true);
    st := State([Anfd({Read}, {}, 0)], [], map[], [plain]);
    var tell := Tell(0, {Read}, true);
    steps := [tell, Open(0, socket), tell, Open(0, plain), tell];
    var s1 := After(st, tell);
    var s2 := After(s1, Open(0, socket));
    var s3 := After(s2, tell);
    var s4 := After(s3, Open(0, plain));
    assert s3.regs.Keys == {(0, socket)};
    assert After(s4, tell).eperms == [0, 0];
    RunOne(s4, tell);
    RunMore(s3, Open(0, plain), [tell]);
    RunMore(s2, tell, [Open(0, plain), tell]);
    RunMore(s1, Open(0, socket), [tell, Open(0, plain), tell]);
    RunMore(st, tell, [Open(0, socket), tell, Open(0, plain), tell]);
    assert steps == [tell] + [Open(0, socket), tell, Open(0, plain), tell];
  }

  /** epoll refuses the descriptor again although it is still on the list, without a mark. */
  predicate RefusedAgain(st: State, fd: nat, nev: set<Bit>)
    requires fd < |st.anfds| == |st.open|
  {
    nev != {} && !st.open[fd].pollable && Eperm !in st.anfds[fd].emask && fd in st.eperms
  }

  /** Exactly this lists a descriptor twice. */
  lemma ModifyDistinct(st: State, fd: nat, nev: set<Bit>, room: bool)
    requires fd < |st.anfds| == |st.open|
    ensures Distinct(Modified(st, fd, nev, room).eperms) <==> Distinct(st.eperms) && !RefusedAgain(st, fd, nev)
  {
    AppendedIff(st.eperms, fd);
  }

  /** What a caller knows since the last poll: the descriptors that are refused, and those that were refused and
      have since been registered, corrected or rearmed. */
  datatype History = History(refused: set<nat>, given: set<nat>)

  /** The descriptors for which a step wipes the mark of refusal, if they have it: those told of with a pollable
      file, those with an event that is not wanted, and all that are rearmed. */
  predicate Unmarks(st: State, s: Step, fd: nat)
    requires |st.anfds| == |st.open|
  {
    fd < |st.anfds| &&
    match s
    case Tell(f, nev, _) => f == fd && nev != {} && st.open[fd].pollable
    case Report(f, gen, got) => f == fd && st.anfds[fd].egen == gen && !(got <= st.anfds[fd].events)
    case Recreation => st.anfds[fd].events != {}
    case _ => false
  }

  predicate Refuses(st: State, s: Step, fd: nat)
    requires |st.anfds| == |st.open|
  {
    s.Tell? && s.fd == fd < |st.open| && s.nev != {} && !st.open[fd].pollable
  }

  function Later(st: State, s: Step, h: History): History
    requires |st.anfds| == |st.open|
  {
    if s.Synthesis? then History(set fd | fd in h.refused && fd < |st.anfds| && st.anfds[fd].events != {}, {})
    else if s.Tell? && Refuses(st, s, s.fd) then History(h.refused + {s.fd}, h.given - {s.fd})
    else
      var given := set fd | fd in h.refused && Unmarks(st, s, fd);
      History(h.refused - given, h.given + given)
  }

  /** Nowhere in the run is a descriptor refused after it was refused and then given something else, with no poll
      in between. */
  ghost predicate NeverAgain(st: State, steps: seq<Step>, h: History)
    requires |st.anfds| == |st.open| && AllowedRun(st, steps)
    decreases |steps|
  {
    steps == []
    || (!(steps[0].Tell? && Refuses(st, steps[0], steps[0].fd) && steps[0].fd in h.given)
        && NeverAgain(After(st, steps[0]), steps[1..], Later(st, steps[0], h)))
  }

  ghost predicate DistinctThroughout(st: State, steps: seq<Step>)
    requires |st.anfds| == |st.open| && AllowedRun(st, steps)
    decreases |steps|
  {
    Distinct(st.eperms) && (steps == [] || DistinctThroughout(After(st, steps[0]), steps[1..]))
  }

  /** The marks and the list say what happened. */
  ghost predicate Tracks(st: State, h: History) {
    && (forall fd | fd in h.refused + h.given :: fd < |st.anfds|) && h.refused !! h.given
    && (forall fd: nat | fd < |st.anfds| :: Eperm in st.anfds[fd].emask <==> fd in h.refused)
    && (forall fd: nat :: fd in st.eperms <==> fd in h.refused + h.given)
  }

  lemma DroppedDistinct(st: State, i: nat)
    requires EpermsInTable(st) && i < |st.eperms| && Distinct(st.eperms)
    ensures Distinct(Dropped(st, i).eperms) && Dropped(st, i).eperms[..i] == st.eperms[..i] && st.eperms[i] !in st.eperms[..i]
    ensures forall fd: nat :: fd in Dropped(st, i).eperms <==> fd in st.eperms && fd != st.eperms[i]
  {
    SwapRemovedDistinct(st.eperms, i);
    SwapRemoved(st.eperms, i);
    forall j | 0 <= j < i ensures st.eperms[j] != st.eperms[i] {
      DistinctAt(st.eperms, j, i);
    }
  }

  /** Of a list without duplicates, exactly what is refused and watched is left. */
  lemma {:induction false} SynthesizedAt(st: State, i: nat, fd: nat)
    requires EpermsInTable(st) && i <= |st.eperms| && Distinct(st.eperms) && fd < |st.anfds|
    ensures Distinct(Synthesized(st, i).eperms)
    ensures fd in Synthesized(st, i).eperms <==> fd in st.eperms && (fd in st.eperms[..i] ==> Refused(st.anfds[fd]))
    ensures Synthesized(st, i).anfds[fd]
      == if fd in st.eperms[..i] && !Refused(st.anfds[fd]) then st.anfds[fd].(emask := {}) else st.anfds[fd]
    decreases i
  {
    if i > 0 {
      assert st.eperms[..i] == st.eperms[..i - 1] + [st.eperms[i - 1]];
      DroppedDistinct(st, i - 1);
      SynthesizedAt(if Refused(st.anfds[st.eperms[i - 1]]) then st else Dropped(st, i - 1), i - 1, fd);
    }
  }

  lemma SynthesisTracked(st: State, h: History)
    requires Sound(st) && Tracks(st, h) && Distinct(st.eperms)
    ensures Tracks(After(st, Synthesis), Later(st, Synthesis, h)) && Distinct(After(st, Synthesis).eperms)
  {
    var to, h1 := After(st, Synthesis), Later(st, Synthesis, h);
    assert st.eperms[..|st.eperms|] == st.eperms;
    forall fd: nat | fd < |st.anfds|
      ensures Eperm in to.anfds[fd].emask <==> fd in h1.refused
      ensures fd in to.eperms <==> fd in h1.refused
    {
      SynthesizedAt(st, |st.eperms|, fd);
    }
    if st.eperms != [] {
      SynthesizedAt(st, |st.eperms|, st.eperms[0]);
    }
  }

  /** A step wipes the marks that Unmarks says, and a refusal is the only one that sets one. */
  lemma MarkAfter(st: State, s: Step, fd: nat)
    requires Sound(st) && Allowed(st, s) && fd < |st.anfds| && !s.Synthesis?
    ensures Eperm in After(st, s).anfds[fd].emask <==> Refuses(st, s, fd) || (Eperm in st.anfds[fd].emask && !Unmarks(st, s, fd))
  {
  }

  lemma OthersTracked(st: State, s: Step, h: History)
    requires Sound(st) && Allowed(st, s) && Tracks(st, h) && !s.Synthesis? && !(s.Tell? && Refuses(st, s, s.fd))
    ensures Tracks(After(st, s), Later(st, s, h)) && After(st, s).eperms == st.eperms
  {
    var to, h1 := After(st, s), Later(st, s, h);
    assert forall fd :: fd in h1.refused <==> fd in h.refused && !Unmarks(st, s, fd);
    assert h1.refused + h1.given == h.refused + h.given;
    forall fd: nat | fd < |st.anfds| ensures Eperm in to.anfds[fd].emask <==> fd in h1.refused {
      MarkAfter(st, s, fd);
    }
  }

  lemma RefusalTracked(st: State, s: Step, h: History)
    requires Sound(st) && Allowed(st, s) && Tracks(st, h) && Distinct(st.eperms)
    requires s.Tell? && Refuses(st, s, s.fd) && s.fd !in h.given
    ensures Tracks(After(st, s), Later(st, s, h)) && Distinct(After(st, s).eperms)
  {
    var to, h1 := After(st, s), Later(st, s, h);
    ModifyDistinct(st, s.fd, s.nev, s.room);
    assert h1 == History(h.refused + {s.fd}, h.given);
    assert forall fd: nat :: fd in to.eperms <==> fd in st.eperms || fd == s.fd;
    forall fd: nat | fd < |st.anfds| ensures Eperm in to.anfds[fd].emask <==> fd in h1.refused {
      MarkAfter(st, s, fd);
    }
  }

  lemma StepTracked(st: State, s: Step, h: History)
    requires Tidy(st) && Allowed(st, s) && Tracks(st, h) && Distinct(st.eperms)
    requires !(s.Tell? && Refuses(st, s, s.fd) && s.fd in h.given)
    ensures Tracks(After(st, s), Later(st, s, h)) && Distinct(After(st, s).eperms)
  {
    if s.Synthesis? {
      SynthesisTracked(st, h);
    } else if s.Tell? && Refuses(st, s, s.fd) {
      RefusalTracked(st, s, h);
    } else {
      OthersTracked(st, s, h);
    }
  }

  /** The list of refused descriptors stays without duplicates throughout a run if and only if no descriptor is
      refused, given a pollable file (or corrected, or rearmed), and refused again between two polls. */
  lemma {:induction false} DistinctUnlessAgain(st: State, steps: seq<Step>, h: History)
    requires Tidy(st) && AllowedRun(st, steps) && Distinct(st.eperms) && Tracks(st, h)
    ensures DistinctThroughout(st, steps) <==> NeverAgain(st, steps, h)
    decreases |steps|
  {
    if steps != [] {
      var s := steps[0];
      StepTidy(st, s);
      if s.Tell? && Refuses(st, s, s.fd) && s.fd in h.given {
        ModifyDistinct(st, s.fd, s.nev, s.room);
      } else {
        StepTracked(st, s, h);
        DistinctUnlessAgain(After(st, s), steps[1..], Later(st, s, h));
      }
    }
  }

  lemma DistinctFromStart(st: State, steps: seq<Step>)
    requires Tidy(st) && st.eperms == [] && AllowedRun(st, steps)
    ensures DistinctThroughout(st, steps) <==> NeverAgain(st, steps, History({}, {}))
  {
    DistinctUnlessAgain(st, steps, History({}, {}));
  }

  lemma NothingMore(a: set<Bit>, b: set<Bit>)
    ensures a - b == {} <==> a <= b
  {
    forall x | x in a ensures x in b || x in a - b {
    }
  }

  class Backend {
    var anfds: seq<Anfd>
    var eperms: seq<nat>
    var postfork: bool
    var regs: Regs
    var open: seq<File>

    function Now(): State
      reads this
    {
      State(anfds, eperms, regs, open)
    }

    /** epoll_ctl. Adding fails with EEXIST exactly when there is a registration, modifying and deleting with
        ENOENT exactly when there is none; adding may also run out of memory or of watches. */
    method Ctl(op: Op, fd: nat, mask: set<Bit>, gen: nat, room: bool) returns (e: Errno)
      requires fd < |open|
      modifies this`regs
      ensures var k := Key(Now(), fd);
        && (e == NotPermitted <==> !k.1.pollable)
        && (e == Eexist <==> k.1.pollable && op == Add && k in old(regs))
        && (e == Enoent <==> k.1.pollable && op != Add && k !in old(regs))
        && (e == Other <==> k.1.pollable && op == Add && k !in old(regs) && !room)
        && regs == if e != Ok then old(regs) else if op == Del then old(regs) - {k} else old(regs)[k := Reg(mask, gen)]
    {
      var k := (fd, open[fd]);
      if !open[fd].pollable { return NotPermitted; }
      if op == Add && k in regs { return Eexist; }
      if op != Add && k !in regs { return Enoent; }
      if op == Add && !room { return Other; }
      regs := if op == Del then regs - {k} else regs[k := Reg(mask, gen)];
      e := Ok;
    }

    /** epoll_modify. */
    method Modify(fd: nat, oev: set<Bit>, nev: set<Bit>, room: bool) returns (killed: bool)
      requires fd < |anfds| == |open|
      modifies this`anfds, this`regs, this`eperms
      ensures Now() == Modified(old(Now()), fd, nev, room) && killed == Kills(old(Now()), fd, nev, room)
      ensures killed <==> nev != {} && open[fd].pollable && Key(Now(), fd) !in regs
      ensures killed ==> !room && regs == old(regs) && anfds[fd].egen == old(anfds)[fd].egen
    {
      killed := false;
      if nev == {} { return; }
      var was := anfds[fd];
      var gen := was.egen + 1;
      anfds := anfds[fd := was.(emask := nev, egen := gen)];
      var e := Ctl(if oev != {} && was.emask != nev then Mod else Add, fd, nev, gen, room);
      if e == Ok { return; }
      if e == Enoent {
        e := Ctl(Add, fd, nev, gen, room);
        if e == Ok { return; }
        killed := true;
      } else if e == Eexist {
        if was.emask != nev {
          e := Ctl(Mod, fd, nev, gen, room);
          assert e == Ok;
          return;
        }
      } else if e == NotPermitted {
        anfds := anfds[fd := anfds[fd].(emask := {Eperm})];
        if Eperm !in was.emask {
          eperms := eperms + [fd];
        }
        return;
      } else {
        killed := true;
      }
      anfds := anfds[fd := anfds[fd].(egen := anfds[fd].egen - 1)];
    }

    /** The body of the event loop in epoll_poll. A wanted event of the current generation passes and changes nothing;
        an unwanted one passes if and only if the open file is registered, and then the kernel holds just what is
        wanted. Whatever does not pass has the kernel state recreated. */
    method Event(fd: nat, gen: nat, got: set<Bit>) returns (passed: bool)
      requires |anfds| == |open|
      modifies this`anfds, this`regs, this`postfork
      ensures Now() == AfterEvent(old(Now()), fd, gen, got) && passed == Passes(old(Now()), fd, gen, got)
      ensures postfork == (old(postfork) || (!passed && fd < |anfds|))
      ensures !(fd < |old(anfds)| && old(anfds)[fd].egen == gen) ==> !passed && Now() == old(Now())
      ensures fd < |old(anfds)| && old(anfds)[fd].egen == gen && got <= old(anfds)[fd].events ==> passed && Now() == old(Now())
      ensures fd < |old(anfds)| && old(anfds)[fd].egen == gen && !(got <= old(anfds)[fd].events) ==>
        var a, k := old(anfds)[fd], Key(old(Now()), fd);
        && (passed <==> k.1.pollable && k in old(regs)) && anfds == old(anfds)[fd := a.(emask := a.events)]
        && regs == if !passed then old(regs) else if a.events == {} then old(regs) - {k} else old(regs)[k := Reg(a.events, gen)]
    {
      if fd >= |anfds| { return false; }
      var want := anfds[fd].events;
      if anfds[fd].egen != gen {
        postfork := true;
        return false;
      }
      NothingMore(got, want);
      if got - want != {} {
        anfds := anfds[fd := anfds[fd].(emask := want)];
        var e := Ctl(if want != {} then Mod else Del, fd, want, gen, true);
        if e != Ok {
          postfork := true;
          return false;
        }
      }
      passed := true;
    }

    /** The entry at `i` leaves the list of refused descriptors. */
    method Drop(i: nat)
      requires EpermsInTable(Now()) && i < |eperms|
      modifies this`anfds, this`eperms
      ensures Now() == Dropped(old(Now()), i)
    {
      var fd := eperms[i];
      eperms := SwapRemove(eperms, i);
      anfds := anfds[fd := anfds[fd].(emask := {})];
    }

    /** The loop at the end of epoll_poll. */
    method TellRefused() returns (told: seq<nat>)
      requires EpermsInTable(Now())
      modifies this`anfds, this`eperms
      ensures Now() == Synthesized(old(Now()), old(|eperms|)) && told == Told(old(Now()), old(|eperms|))
    {
      told := [];
      var i := |eperms|;
      while i > 0
        invariant 0 <= i <= |eperms| && EpermsInTable(Now())
        invariant Synthesized(Now(), i) == Synthesized(old(Now()), old(|eperms|))
        invariant told + Told(Now(), i) == Told(old(Now()), old(|eperms|))
      {
        i := i - 1;
        var fd := eperms[i];
        if Eperm in anfds[fd].emask && anfds[fd].events != {} {
          Associates(told, [fd], Told(Now(), i));
          told := told + [fd];
        } else {
          Drop(i);
        }
      }
    }

    /** The synthesized events at the end of epoll_poll: every descriptor that epoll refused and that is watched
        is told, whatever else is still on the list; `told` has them in the order they are fed. */
    method Synthesize() returns (told: seq<nat>)
      requires Sound(Now())
      modifies this`anfds, this`eperms
      ensures Now() == Synthesized(old(Now()), old(|eperms|)) && Sound(Now())
      ensures forall fd: nat | fd < |anfds| :: fd in told <==> Eperm in old(anfds)[fd].emask && old(anfds)[fd].events != {}
      ensures forall fd: nat | fd < |anfds| :: anfds[fd] == old(anfds)[fd] || (fd !in told && anfds[fd] == old(anfds)[fd].(emask := {}))
    {
      SynthesizedSound(Now(), |eperms|);
      ToldRefused(Now(), |eperms|);
      assert eperms[..|eperms|] == eperms;
      told := TellRefused();
    }
  }
}
