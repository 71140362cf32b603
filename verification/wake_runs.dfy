/** What the wake-up protocol costs over whole runs: once nobody sends, the pipe is emptied and the loop can sleep;
    a loop that never blocks is never written to; and nothing is delivered more often than it was sent. */
module WakeRuns {
  import opened Wake

  // ---------- the pipe is emptied ----------

  /** The read of pipecb: an eventfd is emptied, a pipe loses up to four bytes. */
  lemma DrainShortens(c: Config, s: State, s': State)
    requires LoopSteps(c, s, s') && s.loop.pc.Drain?
    ensures s.bytes > 0 ==> s'.bytes < s.bytes
    ensures if c.eventfd then s'.bytes == 0 else s.bytes <= s'.bytes + 4
    ensures s'.mem == s.mem && s'.loop.pc.PipeClear?
  {
  }

  /** The poll of this pass reported the pipe, and pipecb has not read it yet. */
  predicate Unread(l: Loop) {
    l.readable && (l.pc.ClearWanted? || l.pc.TailSkipped? || l.pc.TailFlag? || l.pc.Invoke? || l.pc.Drain?)
  }

  ghost predicate UnreadOk(s: State) {
    && (Unread(s.loop) ==> s.loop.fed && s.bytes > 0)
    && (s.loop.pc.Drain? ==> s.loop.readable)
  }

  lemma UnreadKept(c: Config, s: State, s': State)
    requires Inv(c, s) && UnreadOk(s) && Step(c, s, s')
    ensures UnreadOk(s')
  {
    if i: nat :| SenderActs(c, s, s', i) {
      SenderFrame(c, s, s', i);
    }
  }

  lemma {:induction false} RunUnread(c: Config, r: seq<State>, i: nat)
    requires c.Valid() && Run(c, r) && i < |r|
    ensures UnreadOk(r[i])
  {
    if i > 0 {
      RunUnread(c, r, i - 1);
      RunInv(c, r, i - 1);
      assert Step(c, r[i - 1], r[i - 1 + 1]);
      UnreadKept(c, r[i - 1], r[i]);
    }
  }

  /** From `a` on nobody sends. */
  ghost predicate QuietRun(c: Config, r: seq<State>, a: nat) {
    c.Valid() && Run(c, r) && a < |r| && forall i | a <= i < |r| :: Quiet(r[i])
  }

  ghost predicate LoopActs(c: Config, s: State, s': State) {
    LoopChoice(s, s') || LoopSteps(c, s, s') || LoopDrains(s, s')
  }

  lemma SendersAreBusy(c: Config, s: State, s': State, i: nat)
    requires Inv(c, s) && Quiet(s) && SenderActs(c, s, s', i)
    ensures !Quiet(s')
  {
    SenderFrame(c, s, s', i);
    assert s.senders[i] in s.senders && s'.senders[i] in s'.senders;
    assert SenderOk(c, s.senders[i]);
  }

  lemma QuietStep(c: Config, s: State, s': State)
    requires Inv(c, s) && Quiet(s) && Quiet(s') && Step(c, s, s')
    ensures LoopActs(c, s, s')
  {
    if i: nat :| SenderActs(c, s, s', i) {
      SendersAreBusy(c, s, s', i);
    }
  }

  lemma QuietNext(c: Config, r: seq<State>, a: nat, i: nat)
    requires QuietRun(c, r, a) && a <= i < |r| - 1
    ensures Inv(c, r[i]) && UnreadOk(r[i]) && LoopActs(c, r[i], r[i + 1])
  {
    RunInv(c, r, i);
    RunUnread(c, r, i);
    assert Step(c, r[i], r[i + 1]);
    QuietStep(c, r[i], r[i + 1]);
  }

  ghost predicate Moves(r: seq<State>, i: nat, P: State -> bool)
    requires i + 1 < |r|
  {
    P(r[i]) ==> P(r[i + 1])
  }

  lemma {:induction false} Lasts(r: seq<State>, a: nat, j: nat, P: State -> bool)
    requires a <= j < |r| && P(r[a])
    requires forall i: nat | a <= i < |r| - 1 :: Moves(r, i, P)
    ensures P(r[j])
    decreases j
  {
    if a < j {
      Lasts(r, a, j - 1, P);
      assert Moves(r, j - 1, P);
    }
  }

  /** The poll wakes the loop for the pipe. */
  ghost predicate Reports(s: State, s': State) {
    PollReturns(s, s') && s'.loop.readable
  }

  ghost function Wakes(r: seq<State>, a: nat, j: nat): nat
    requires a <= j < |r|
    decreases j
  {
    if a == j then 0 else Wakes(r, a, j - 1) + if Reports(r[j - 1], r[j]) then 1 else 0
  }

  /** How a step of the loop changes what is in the pipe. */
  ghost predicate Shortens(c: Config, s: State, s': State) {
    && s'.bytes <= s.bytes && (!Unread(s.loop) && Unread(s'.loop) ==> Reports(s, s'))
    && (Unread(s.loop) && !Unread(s'.loop) ==> s'.bytes < s.bytes && (c.eventfd ==> s'.bytes == 0))
    && (Reports(s, s') ==> !Unread(s.loop) && Unread(s'.loop) && s.bytes == s'.bytes > 0)
  }

  ghost predicate ShortensAt(c: Config, r: seq<State>, i: nat)
    requires i + 1 < |r|
  {
    Shortens(c, r[i], r[i + 1])
  }

  lemma QuietShortens(c: Config, r: seq<State>, a: nat, i: nat)
    requires QuietRun(c, r, a) && a <= i < |r| - 1
    ensures ShortensAt(c, r, i)
  {
    QuietNext(c, r, a, i);
  }

  /** Each pass that the pipe wakes shortens it; one pass empties an eventfd. */
  lemma PassShortens(c: Config, r: seq<State>, a: nat, i: nat, j: nat)
    requires QuietRun(c, r, a) && a <= i < j < |r| && Reports(r[i], r[i + 1])
    ensures Unread(r[j].loop) || (r[j].bytes < r[i].bytes && (c.eventfd ==> r[j].bytes == 0))
    ensures r[j].bytes <= r[i].bytes
  {
    var b := r[i].bytes;
    var shorter := (s: State) => s.bytes <= b && (Unread(s.loop) || (s.bytes < b && (c.eventfd ==> s.bytes == 0)));
    QuietShortens(c, r, a, i);
    forall k: nat | i + 1 <= k < |r| - 1 ensures Moves(r, k, shorter) {
      QuietShortens(c, r, a, k);
    }
    Lasts(r, i + 1, j, shorter);
  }

  lemma {:induction false} WakesCounted(c: Config, r: seq<State>, a: nat, j: nat)
    requires a <= j < |r| && forall i: nat | a <= i < |r| - 1 :: ShortensAt(c, r, i)
    ensures Wakes(r, a, j) + r[j].bytes <= r[a].bytes + if Unread(r[j].loop) then 1 else 0
    ensures c.eventfd && Wakes(r, a, j) > 0 ==> Wakes(r, a, j) == 1 && (r[j].bytes == 0 || Unread(r[j].loop))
    decreases j
  {
    if a < j {
      WakesCounted(c, r, a, j - 1);
      assert ShortensAt(c, r, j - 1);
    }
  }

  /** Once nobody sends, the pipe wakes the loop at most once for each byte that is left in it, and an eventfd at
      most once. */
  lemma FewWakes(c: Config, r: seq<State>, a: nat, j: nat)
    requires QuietRun(c, r, a) && a <= j < |r|
    ensures Wakes(r, a, j) <= r[a].bytes && (c.eventfd ==> Wakes(r, a, j) <= 1)
  {
    forall i: nat | a <= i < |r| - 1 ensures ShortensAt(c, r, i) {
      QuietShortens(c, r, a, i);
    }
    WakesCounted(c, r, a, j);
    RunUnread(c, r, j);
  }

  // ---------- the loop can sleep ----------

  ghost predicate Clean(s: State) {
    Skipped !in s.mem && Flag(Sig) !in s.mem && Flag(Async) !in s.mem
  }

  /** What the present pass has cleared, or is going to clear, when its tail began after the last send. */
  ghost predicate Settles(s: State) {
    var skipped, sig, async := Skipped in s.mem, Flag(Sig) in s.mem, Flag(Async) in s.mem;
    match s.loop.pc
    case TailSkipped => true
    case TailFlag(k) => !skipped && (k == Async ==> s.loop.fed || !sig)
    case Invoke => s.loop.fed || Clean(s)
    case Drain => true
    case PipeClear => true
    case PipeFence => !skipped || Write(Skipped, false) in s.loop.buf
    case PipeTest(k) => !skipped && (k == Async ==> !sig)
    case PipeTake(k) => !skipped && (k == Async ==> !sig)
    case PipeTaken(k) => !skipped && (k == Async ==> !sig) && (Flag(k) in s.mem ==> Write(Flag(k), false) in s.loop.buf)
    case Scan(k, _) => !skipped && !sig && (k == Async ==> !async)
    case ScanClear(t) => !skipped && !sig && (t.kind == Async ==> !async)
    case ScanFeed(t) => !skipped && !sig && (t.kind == Async ==> !async)
    case _ => Clean(s)
  }

  lemma SettlesDrained(c: Config, s: State, s': State)
    requires Inv(c, s) && Settles(s) && LoopDrains(s, s')
    ensures Settles(s')
  {
    var w := s.loop.buf[0];
    assert w in s.loop.buf && s.loop.buf == [w] + s'.loop.buf;
    assert LoopWrite(s.loop.pc, w);
  }

  lemma SettlesKept(c: Config, s: State, s': State)
    requires c.Valid() && Inv(c, s) && Settles(s) && LoopActs(c, s, s')
    ensures Settles(s')
  {
    if LoopDrains(s, s') {
      SettlesDrained(c, s, s');
    } else if LoopSteps(c, s, s') {
      SettlesOn(c, s, s');
    }
  }

  lemma SettlesOn(c: Config, s: State, s': State)
    requires c.Valid() && Inv(c, s) && Settles(s) && LoopSteps(c, s, s')
    ensures Settles(s')
  {
    LoadsFromMemory(c, s);
    if s.loop.pc.TailSkipped? {
      LoadFromMemory(s.mem, s.loop.buf, Skipped);
    }
  }

  /** Once nobody sends, one pass from its tail on clears whatever would keep the loop from sleeping. */
  lemma QuietSettles(c: Config, r: seq<State>, a: nat, j: nat)
    requires QuietRun(c, r, a) && a <= j < |r| && r[a].loop.pc.TailSkipped?
    ensures Settles(r[j]) && (r[j].loop.pc.Outside? ==> Clean(r[j]))
  {
    var settles := (s: State) => Settles(s);
    forall i: nat | a <= i < |r| - 1 ensures Moves(r, i, settles) {
      QuietNext(c, r, a, i);
      if Settles(r[i]) {
        SettlesKept(c, r[i], r[i + 1]);
      }
    }
    Lasts(r, a, j, settles);
  }

  /** And a blocking pass after that may sleep. */
  lemma MaySleep(c: Config, r: seq<State>, a: nat, j: nat)
    requires QuietRun(c, r, a) && a <= j < |r| && r[a].loop.pc.TailSkipped? && r[j].loop.pc.TestSkipped?
    ensures Step(c, r[j], LoopAt(r[j], Sleeping))
  {
    QuietSettles(c, r, a, j);
    RunInv(c, r, j);
    LoopBufferEmpty(c, r[j]);
    assert Decides(r[j], LoopAt(r[j], Sleeping));
  }

  /** Nothing is left to do for pipecb. */
  ghost predicate Rests(s: State) {
    && Clean(s) && s.bytes == 0
    && !(s.loop.pc.Drain? || s.loop.pc.PipeClear? || s.loop.pc.PipeFence? || Piping(s.loop.pc))
    && (s.loop.pc.ClearWanted? || s.loop.pc.TailSkipped? || s.loop.pc.TailFlag? || s.loop.pc.Invoke? ==> !s.loop.fed)
  }

  lemma RestsKept(c: Config, s: State, s': State)
    requires c.Valid() && Inv(c, s) && Rests(s) && LoopActs(c, s, s')
    ensures Rests(s') && !Reports(s, s')
  {
    if LoopDrains(s, s') {
      assert s.loop.buf[0] in s.loop.buf && LoopWrite(s.loop.pc, s.loop.buf[0]);
    } else if LoopSteps(c, s, s') {
      LoadsFromMemory(c, s);
      if s.loop.pc.TailSkipped? {
        LoadFromMemory(s.mem, s.loop.buf, Skipped);
      }
    }
  }

  /** When the pipe is empty after such a pass, nothing wakes the loop for it and pipecb does not run any more. */
  lemma QuietRests(c: Config, r: seq<State>, a: nat, i: nat, j: nat)
    requires QuietRun(c, r, a) && a <= i <= j < |r| && r[a].loop.pc.TailSkipped? && r[i].loop.pc.Outside? && r[i].bytes == 0
    ensures Rests(r[j]) && Wakes(r, i, j) == 0
  {
    var rests := (s: State) => Rests(s);
    forall k: nat | i <= k < |r| - 1 ensures Moves(r, k, rests) {
      QuietNext(c, r, a, k);
      if Rests(r[k]) {
        RestsKept(c, r[k], r[k + 1]);
      }
    }
    QuietSettles(c, r, a, i);
    Lasts(r, i, j, rests);
    FewWakes(c, r, i, j);
  }

  // ---------- a pass delivers ----------

  ghost predicate LeavesDelivered(r: seq<State>, k: nat, t: Target)
    requires k + 1 < |r|
  {
    t in r[k].due && t !in r[k + 1].due ==> r[k].loop.pc == ScanFeed(t)
  }

  lemma DueLeaves(c: Config, r: seq<State>, k: nat, t: Target)
    requires c.Valid() && Run(c, r) && k + 1 < |r|
    ensures LeavesDelivered(r, k, t)
  {
    RunDue(c, r, k);
    assert Step(c, r[k], r[k + 1]);
    if t in r[k].due && t !in r[k + 1].due {
      DueOnlyDelivered(c, r[k], r[k + 1], t);
      assert r[k].loop.pc != ScanFeed(t) ==> Due(c, r[k], t);
    }
  }

  lemma {:induction false} DueUntilDelivered(r: seq<State>, i: nat, j: nat, t: Target)
    requires i <= j < |r| && t in r[i].due && forall k: nat | k + 1 < |r| :: LeavesDelivered(r, k, t)
    ensures t in r[j].due || exists k :: i <= k < j && r[k].loop.pc == ScanFeed(t)
    decreases j
  {
    if i < j {
      DueUntilDelivered(r, i, j - 1, t);
      assert LeavesDelivered(r, j - 1, t);
    }
  }

  /** A target that is marked and flagged when the tail of a pass begins is delivered before that pass is over,
      unless the loop has a clearing of its mark under way. */
  lemma ReadyIsDelivered(c: Config, r: seq<State>, i: nat, j: nat, t: Target)
    requires c.Valid() && Run(c, r) && i < j < |r| && r[i].loop.pc.ClearWanted? && r[i + 1].loop.pc.TailSkipped? && r[j].loop.pc.Outside?
    requires Mark(t) in r[i].mem && Flag(t.kind) in r[i].mem && Write(Mark(t), false) !in r[i].loop.buf
    ensures exists k :: i < k < j && r[k].loop.pc == ScanFeed(t)
  {
    RunInv(c, r, i);
    assert Step(c, r[i], r[i + 1]);
    TailFindsReady(c, r[i], r[i + 1], t);
    forall k: nat | k + 1 < |r| ensures LeavesDelivered(r, k, t) {
      DueLeaves(c, r, k, t);
    }
    DueUntilDelivered(r, i + 1, j, t);
    PassDelivers(c, r, j);
  }

  lemma TailFindsReady(c: Config, s: State, s': State, t: Target)
    requires c.Valid() && Inv(c, s) && Step(c, s, s') && s.loop.pc.ClearWanted? && s'.loop.pc.TailSkipped?
    requires Mark(t) in s.mem && Flag(t.kind) in s.mem && Write(Mark(t), false) !in s.loop.buf
    ensures t in s'.due
  {
    if i: nat :| SenderActs(c, s, s', i) {
      SenderFrame(c, s, s', i);
    }
    assert Ready(s, Target(t.kind, t.index)) && c.Has(t);
  }

  // ---------- who does not block is not written to ----------

  ghost predicate Unwanted(s: State) {
    && Wanted !in s.mem && Write(Wanted, true) !in s.loop.buf && s.bytes == 0
    && !(s.loop.pc.SetWanted? || s.loop.pc.WantedSet? || s.loop.pc.TestSkipped? || s.loop.pc.Sleeping?)
    && forall i | 0 <= i < |s.senders| :: !(s.senders[i].pc.ClearSkipped? || s.senders[i].pc.WritePipe?)
  }

  lemma UnwantedKept(c: Config, s: State, s': State)
    requires c.Valid() && Inv(c, s) && Unwanted(s) && Step(c, s, s') && !s'.loop.pc.SetWanted?
    ensures Unwanted(s')
  {
    if i: nat :| SenderActs(c, s, s', i) {
      UnwantedBySender(c, s, s', i);
    } else {
      UnwantedByLoop(c, s, s');
    }
  }

  lemma UnwantedByLoop(c: Config, s: State, s': State)
    requires c.Valid() && Unwanted(s) && LoopActs(c, s, s') && !s'.loop.pc.SetWanted?
    ensures Unwanted(s')
  {
    if LoopSteps(c, s, s') {
      LoopMemory(c, s, s');
    } else if LoopDrains(s, s') {
      assert s.loop.buf[0] in s.loop.buf && s.loop.buf == [s.loop.buf[0]] + s'.loop.buf;
    }
  }

  lemma UnwantedBySender(c: Config, s: State, s': State, i: nat)
    requires c.Valid() && Inv(c, s) && Unwanted(s) && SenderActs(c, s, s', i)
    ensures Unwanted(s')
  {
    SenderFrame(c, s, s', i);
    assert SenderOk(c, s.senders[i]);
    assert s'.bytes == s.bytes && !(s'.senders[i].pc.ClearSkipped? || s'.senders[i].pc.WritePipe?);
  }

  /** As long as every pass is a NOWAIT pass, senders leave the pipe alone. */
  lemma NeverWritten(c: Config, r: seq<State>, j: nat)
    requires c.Valid() && Run(c, r) && j < |r| && forall i | 0 <= i < |r| :: !r[i].loop.pc.SetWanted?
    ensures Unwanted(r[j])
  {
    var unwanted := (s: State) => Unwanted(s);
    forall i: nat | i < |r| - 1 ensures Moves(r, i, unwanted) {
      RunInv(c, r, i);
      assert Step(c, r[i], r[i + 1]);
      if Unwanted(r[i]) {
        UnwantedKept(c, r[i], r[i + 1]);
      }
    }
    Lasts(r, 0, j, unwanted);
  }

  /** A sender that finds the flag raised is done. */
  lemma RaisedIsEnough(c: Config, r: seq<State>, k: nat, s': State, i: nat)
    requires c.Valid() && Run(c, r) && k < |r| && SenderSteps(c, r[k], s', i)
    requires r[k].senders[i].pc.TestFlag? && Flag(r[k].senders[i].target.kind) in r[k].mem
    ensures s' == r[k].(senders := r[k].senders[i := r[k].senders[i].(pc := Idle)])
  {
    RunInv(c, r, k);
    assert SenderOk(c, r[k].senders[i]);
  }

  // ---------- nothing is delivered that was not sent ----------

  function One(b: bool): nat {
    if b then 1 else 0
  }

  /** How many senders have a store of the mark of `t` in their buffers. */
  function Markers(xs: seq<Sender>, t: Target): nat {
    if xs == [] then 0 else Markers(xs[..|xs| - 1], t) + One(Write(Mark(t), true) in xs[|xs| - 1].buf)
  }

  lemma {:induction false} MarkersChange(xs: seq<Sender>, i: nat, y: Sender, t: Target)
    requires i < |xs|
    ensures Markers(xs[i := y], t) == Markers(xs, t) - One(Write(Mark(t), true) in xs[i].buf) + One(Write(Mark(t), true) in y.buf)
  {
    var ys := xs[i := y];
    if i == |xs| - 1 {
      assert ys[..|xs| - 1] == xs[..|xs| - 1];
    } else {
      assert ys[..|xs| - 1] == xs[..|xs| - 1][i := y];
      MarkersChange(xs[..|xs| - 1], i, y, t);
    }
  }

  /** The mark of `t` is up, and the loop has not stored its clearing. */
  ghost predicate Up(s: State, t: Target) {
    Mark(t) in s.mem && Write(Mark(t), false) !in s.loop.buf
  }

  /** The deliveries of `t` that may still come from the sends that were begun. */
  ghost function Outstanding(s: State, t: Target): nat {
    One(Up(s, t)) + Markers(s.senders, t) + One(s.loop.pc == ScanFeed(t))
  }

  ghost predicate Begins(c: Config, s: State, s': State, t: Target) {
    exists i: nat :: SenderBegins(c, s, s', i, t)
  }

  ghost predicate Delivers(s: State, s': State, t: Target) {
    s.loop.pc == ScanFeed(t) != s'.loop.pc
  }

  ghost function Sends(c: Config, r: seq<State>, j: nat, t: Target): nat
    requires j < |r|
    decreases j
  {
    if j == 0 then 0 else Sends(c, r, j - 1, t) + One(Begins(c, r[j - 1], r[j], t))
  }

  ghost function Deliveries(r: seq<State>, j: nat, t: Target): nat
    requires j < |r|
    decreases j
  {
    if j == 0 then 0 else Deliveries(r, j - 1, t) + One(Delivers(r[j - 1], r[j], t))
  }

  /** The loop clears a mark that it has seen. */
  ghost predicate ClearsMarked(s: State) {
    s.loop.pc.ScanClear? ==> Up(s, s.loop.pc.target)
  }

  lemma ClearsMarkedKept(c: Config, s: State, s': State)
    requires c.Valid() && Inv(c, s) && ClearsMarked(s) && Step(c, s, s')
    ensures ClearsMarked(s')
  {
    if i: nat :| SenderActs(c, s, s', i) {
      SenderFrame(c, s, s', i);
    } else if LoopSteps(c, s, s') {
      LoadsFromMemory(c, s);
    } else if LoopDrains(s, s') {
      assert s.loop.buf[0] in s.loop.buf && LoopWrite(s.loop.pc, s.loop.buf[0]);
    }
  }

  lemma SenderOutstanding(c: Config, s: State, s': State, i: nat, t: Target)
    requires Inv(c, s) && SenderActs(c, s, s', i)
    ensures Outstanding(s', t) <= Outstanding(s, t) + One(Begins(c, s, s', t)) && !Delivers(s, s', t)
  {
    SenderFrame(c, s, s', i);
    MarkersChange(s.senders, i, s'.senders[i], t);
    assert SenderOk(c, s.senders[i]);
    if u :| SenderBegins(c, s, s', i, u) {
      assert u == t ==> Begins(c, s, s', t);
    }
  }

  lemma LoopOutstanding(c: Config, s: State, s': State, t: Target)
    requires c.Valid() && Inv(c, s) && ClearsMarked(s) && LoopActs(c, s, s')
    ensures Outstanding(s', t) + One(Delivers(s, s', t)) <= Outstanding(s, t)
  {
    if LoopDrains(s, s') {
      assert s.loop.buf == [s.loop.buf[0]] + s'.loop.buf && LoopWrite(s.loop.pc, s.loop.buf[0]);
    } else if LoopSteps(c, s, s') {
      LoopMemory(c, s, s');
    }
  }

  lemma StepOutstanding(c: Config, s: State, s': State, t: Target)
    requires c.Valid() && Inv(c, s) && ClearsMarked(s) && Step(c, s, s')
    ensures Outstanding(s', t) + One(Delivers(s, s', t)) <= Outstanding(s, t) + One(Begins(c, s, s', t))
  {
    if i: nat :| SenderActs(c, s, s', i) {
      SenderOutstanding(c, s, s', i, t);
    } else {
      LoopOutstanding(c, s, s', t);
    }
  }

  lemma {:induction false} NoMarkers(xs: seq<Sender>, t: Target)
    requires forall x | x in xs :: x.buf == []
    ensures Markers(xs, t) == 0
  {
    if xs != [] {
      NoMarkers(xs[..|xs| - 1], t);
      assert forall x | x in xs[..|xs| - 1] :: x in xs;
    }
  }

  /** Whatever is buffered: a target is delivered no more often than it was sent to. */
  lemma {:induction false} NothingUnsent(c: Config, r: seq<State>, j: nat, t: Target)
    requires c.Valid() && Run(c, r) && j < |r|
    ensures Deliveries(r, j, t) + Outstanding(r[j], t) <= Sends(c, r, j, t) && ClearsMarked(r[j])
  {
    if j == 0 {
      NoMarkers(r[0].senders, t);
    } else {
      NothingUnsent(c, r, j - 1, t);
      RunInv(c, r, j - 1);
      assert Step(c, r[j - 1], r[j - 1 + 1]);
      ClearsMarkedKept(c, r[j - 1], r[j]);
      StepOutstanding(c, r[j - 1], r[j], t);
    }
  }
}
