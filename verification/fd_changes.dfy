/** The io watchers of each descriptor, the list of descriptors that changed, and the pass that tells the backend.

    `held` is what the backend really watches a descriptor for. It is told a new mask by backend_modify, and it
    may lose what it was told: when the descriptor is closed, or when a one-shot registration is used up. */
module FdChanges {
  import opened Lists

  datatype Bit = Read | Write | FdSet | Reify

  class IoWatcher {
    var fd: nat
    var events: set<Bit>
    var active: bool

    /** ev_io_set. */
    constructor (fd: nat, events: set<Bit>)
      ensures this.fd == fd && this.events == events + {FdSet} && !active
    {
      this.fd, this.events, active := fd, events + {FdSet}, false;
    }
  }

  datatype Anfd = Anfd(head: seq<IoWatcher>, events: set<Bit>, reify: set<Bit>)

  /** `e` is what the watchers ask for together. */
  ghost predicate IsUnion(e: set<Bit>, ws: seq<IoWatcher>)
    reads (set w | w in ws :: w)`events
  {
    (forall w | w in ws :: w.events <= e) && forall b | b in e :: exists w :: w in ws && b in w.events
  }

  lemma UnionOn(e: set<Bit>, ws: seq<IoWatcher>, w: IoWatcher)
    requires IsUnion(e, ws)
    ensures IsUnion(e + w.events, ws + [w])
  {
    assert w in ws + [w];
    forall b | b in e + w.events ensures exists v :: v in ws + [w] && b in v.events {
      if b !in w.events {
        var v :| v in ws && b in v.events;
        assert v in ws + [w];
      }
    }
  }

  lemma UnionNext(e: set<Bit>, ws: seq<IoWatcher>, k: nat)
    requires k < |ws| && IsUnion(e, ws[..k])
    ensures IsUnion(e + ws[k].events, ws[..k + 1])
  {
    UnionOn(e, ws[..k], ws[k]);
    assert ws[..k + 1] == ws[..k] + [ws[k]];
  }

  /** What the watchers ask for together. */
  ghost function Union(ws: seq<IoWatcher>): (e: set<Bit>)
    reads (set w | w in ws :: w)`events
    ensures IsUnion(e, ws)
    decreases |ws|
  {
    if ws == [] then {}
    else
      var n := |ws| - 1;
      assert ws[n] in ws && forall w | w in ws[..n] :: w in ws;
      UnionNext(Union(ws[..n]), ws, n);
      assert ws[..n + 1] == ws;
      Union(ws[..n]) + ws[n].events
  }

  lemma UnionUnique(e: set<Bit>, f: set<Bit>, ws: seq<IoWatcher>)
    requires IsUnion(e, ws) && IsUnion(f, ws)
    ensures e == f
  {
    assert forall b | b in e :: b in f;
    assert forall b | b in f :: b in e;
  }

  /** What can happen to descriptors while the backend is told about one of them. */
  datatype Effect = Kill(fd: nat) | UsedUp(fd: nat) | Touch(fd: nat, flags: set<Bit>)

  /** How one call of backend_modify goes. */
  datatype Answer = Answer(effects: seq<Effect>, accepted: bool)

  /** The answer to call number `k`; calls beyond the end of the script go without effects. */
  function AnswerAt(script: seq<Answer>, k: nat): Answer {
    if k < |script| then script[k] else Answer([], true)
  }

  function Rest(script: seq<Answer>): seq<Answer> {
    if script == [] then [] else script[1..]
  }

  /** What is left of the script after `n` calls. */
  function Left(script: seq<Answer>, n: nat): seq<Answer> {
    if n < |script| then script[n..] else []
  }

  lemma LeftOn(script: seq<Answer>, n: nat)
    ensures AnswerAt(Left(script, n), 0) == AnswerAt(script, n) && Rest(Left(script, n)) == Left(script, n + 1)
    ensures forall a | a in Left(script, n) :: a in script
  {
    if n < |script| {
      assert script[n..][1..] == script[n + 1..];
    }
  }

  /** The answers to the first `n` calls that the script gives. */
  function Used(script: seq<Answer>, n: nat): seq<Answer> {
    if n < |script| then script[..n] else script
  }

  ghost predicate Touched(effects: seq<Effect>, fd: nat) {
    exists e :: e in effects && e.fd == fd
  }

  lemma InRest(effects: seq<Effect>, e: Effect)
    requires effects != []
    ensures e in effects <==> e == effects[0] || e in effects[1..]
  {
    assert effects == [effects[0]] + effects[1..];
  }

  lemma TouchedRest(effects: seq<Effect>, fd: nat)
    requires effects != []
    ensures Touched(effects, fd) <==> effects[0].fd == fd || Touched(effects[1..], fd)
  {
    assert effects[0] in effects;
    forall e ensures e in effects <==> e == effects[0] || e in effects[1..] {
      InRest(effects, e);
    }
  }

  ghost predicate TouchedIn(script: seq<Answer>, fd: nat) {
    exists a :: a in script && Touched(a.effects, fd)
  }

  ghost predicate HappensIn(script: seq<Answer>, e: Effect) {
    exists a :: a in script && e in a.effects
  }

  /** The backend was told about the descriptors `told`, one after the other, and refused `fd`. */
  ghost predicate RefusedIn(script: seq<Answer>, told: seq<nat>, fd: nat) {
    exists k :: 0 <= k < |told| && told[k] == fd && !AnswerAt(script, k).accepted
  }

  ghost predicate InTable(script: seq<Answer>, n: nat) {
    forall a, e | a in script && e in a.effects :: e.fd < n
  }

  /** What happened to a descriptor in a part of the pass: something, among that the loss of its registration or of
      its watchers; a refusal by the backend; and whether it had its turn. */
  datatype Fate = Fate(touched: bool, usedUp: bool, killed: bool, refused: bool, turn: bool) {
    function And(f: Fate): Fate {
      Fate(touched || f.touched, usedUp || f.usedUp, killed || f.killed, refused || f.refused, turn || f.turn)
    }
  }

  /** The fate of `f` in the turn of `fd`, when the backend gives this answer. */
  ghost function TurnFate(answer: Answer, fd: nat, f: nat): Fate {
    Fate(Touched(answer.effects, f), UsedUp(f) in answer.effects, Kill(f) in answer.effects, f == fd && !answer.accepted, f == fd)
  }

  /** The fate of `f` when the descriptors `turns` had their turn and the backend was told about `told`. */
  ghost function FateOf(script: seq<Answer>, told: seq<nat>, turns: seq<nat>, f: nat): Fate {
    var used := Used(script, |told|);
    Fate(TouchedIn(used, f), HappensIn(used, UsedUp(f)), HappensIn(used, Kill(f)), RefusedIn(script, told, f), f in turns)
  }

  lemma UsedOn(script: seq<Answer>, n: nat, f: nat)
    ensures TouchedIn(Used(script, n + 1), f) <==> TouchedIn(Used(script, n), f) || Touched(AnswerAt(script, n).effects, f)
    ensures forall e :: HappensIn(Used(script, n + 1), e) <==> HappensIn(Used(script, n), e) || e in AnswerAt(script, n).effects
  {
    var u, v := Used(script, n), Used(script, n + 1);
    if n < |script| {
      assert v == u + [script[n]];
      assert script[n] in v && forall a | a in u :: a in v;
      assert forall a | a in v :: a in u || a == script[n];
    } else {
      assert v == u;
    }
  }

  lemma RefusedOn(script: seq<Answer>, told: seq<nat>, fd: nat, f: nat)
    ensures RefusedIn(script, told + [fd], f) <==> RefusedIn(script, told, f) || (fd == f && !AnswerAt(script, |told|).accepted)
  {
    var all := told + [fd];
    assert all[|told|] == fd;
    if RefusedIn(script, told, f) {
      var k :| 0 <= k < |told| && told[k] == f && !AnswerAt(script, k).accepted;
      assert all[k] == f;
    }
  }

  /** One more turn, of a descriptor that the backend is told about or not. */
  lemma FateOn(script: seq<Answer>, told: seq<nat>, turns: seq<nat>, fd: nat, tell: bool, f: nat)
    ensures FateOf(script, if tell then told + [fd] else told, turns + [fd], f)
      == FateOf(script, told, turns, f).And(TurnFate(if tell then AnswerAt(script, |told|) else Answer([], true), fd, f))
  {
    if tell {
      UsedOn(script, |told|, f);
      RefusedOn(script, told, fd, f);
    }
    assert f in turns + [fd] <==> f in turns || f == fd;
  }

  /** A descriptor with the mask that the backend holds for it, and the one that its watchers ask for. */
  datatype View = View(a: Anfd, held: set<Bit>, wants: set<Bit>) {
    /** The backend does not hold the recorded mask, and no flag makes fd_reify tell it again. */
    predicate Lost() {
      held != a.events && FdSet !in a.reify
    }

    /** The backend has to be told about the descriptor when its turn comes. */
    predicate Needs() {
      FdSet in a.reify || a.events != wants
    }
  }

  /** A descriptor loses its watchers if it is killed, or refused while they ask for anything. */
  predicate Heads(was: View, now: View, fate: Fate) {
    var gone := fate.killed || (fate.refused && was.wants != {});
    now.a.head == (if gone then [] else was.a.head) && now.wants == if gone then {} else was.wants
  }

  /** The mask recorded for a descriptor: a new one if it had its turn, or none if its registration was used up. */
  predicate Recorded(was: View, now: View, fate: Fate) {
    || (now.a.events == {} && (fate.usedUp || (fate.turn && now.a.head == [])))
    || now.a.events == if fate.turn then was.wants else was.a.events
  }

  /** What nothing happened to is as it was, or as its turn leaves it. */
  predicate Undisturbed(was: View, now: View, fate: Fate) {
    !fate.touched && !fate.refused ==>
      now == if fate.turn then View(Anfd(was.a.head, was.wants, {}), if was.Needs() then was.wants else was.held, was.wants) else was
  }

  /** What became of a descriptor. Only a refusal loses one. */
  predicate Passed(was: View, now: View, fate: Fate) {
    && Heads(was, now, fate) && Recorded(was, now, fate) && Undisturbed(was, now, fate)
    && (now.Lost() ==> was.Lost() || fate.refused)
  }

  lemma PassedThen(was: View, mid: View, now: View, f1: Fate, f2: Fate)
    requires Passed(was, mid, f1) && Passed(mid, now, f2)
    ensures Passed(was, now, f1.And(f2))
  {
  }

  /** When nothing happens to a descriptor, a turn that finds its recorded mask out of date makes the backend hold the
      mask that is asked for; else it stays lost if it was. */
  lemma UndisturbedLost(was: View, now: View, fate: Fate)
    requires Passed(was, now, fate) && !fate.touched && !fate.refused
    ensures now.Lost() <==> was.Lost() && (fate.turn ==> was.a.events == was.wants)
  {
  }

  /** The turn of a descriptor. */
  lemma OwnTurn(was: View, now: View, answer: Answer, fd: nat)
    requires now.wants == if now.a.head == [] then {} else was.wants
    requires was.a.head == [] ==> was.wants == {}
    requires !was.Needs() ==> answer == Answer([], true) && now == View(Anfd(was.a.head, was.wants, {}), was.held, was.wants)
    requires was.Needs() ==>
      && now.a.events == (if UsedUp(fd) in answer.effects then {} else was.wants)
      && now.a.head == (if Kill(fd) in answer.effects || (was.wants != {} && !answer.accepted) then [] else was.a.head)
      && now.held == (if was.wants == {} || answer.accepted then was.wants else {})
      && (now.Lost() ==> was.wants != {} && !answer.accepted)
      && (!Touched(answer.effects, fd) && (was.wants == {} || answer.accepted) ==> now.a == Anfd(was.a.head, was.wants, {}))
    ensures Passed(was, now, TurnFate(answer, fd, fd))
  {
  }

  /** What another descriptor goes through meanwhile. */
  lemma OtherTurn(was: View, now: View, answer: Answer, fd: nat, f: nat)
    requires f != fd && (now.Lost() ==> was.Lost()) && now.wants == if now.a.head == [] then {} else was.wants
    requires was.a.head == [] ==> was.wants == {}
    requires now.a.events == if UsedUp(f) in answer.effects then {} else was.a.events
    requires now.a.head == if Kill(f) in answer.effects then [] else was.a.head
    requires !Touched(answer.effects, f) ==> now.a == was.a && now.held == was.held
    ensures Passed(was, now, TurnFate(answer, fd, f))
  {
  }

  /** `a` is what is left of `b` when some of it is taken out. */
  predicate PartOf(a: seq<nat>, b: seq<nat>)
    decreases |b|
  {
    a == [] || (b != [] && (PartOf(a, b[..|b| - 1]) || (a[|a| - 1] == b[|b| - 1] && PartOf(a[..|a| - 1], b[..|b| - 1]))))
  }

  lemma PartOn(a: seq<nat>, b: seq<nat>, x: nat)
    requires PartOf(a, b)
    ensures PartOf(a, b + [x]) && PartOf(a + [x], b + [x])
  {
    assert (b + [x])[..|b|] == b && (a + [x])[..|a|] == a;
  }

  /** Why a descriptor is on the list again: it was touched, or it was refused and lost its watchers. */
  predicate Again(was: View, now: View, fate: Fate) {
    fate.touched || (fate.refused && was.a.head != [] && now.a.head == [])
  }

  lemma AgainThen(was: View, mid: View, now: View, f1: Fate, f2: Fate)
    requires Heads(was, mid, f1) && Heads(mid, now, f2)
    ensures Again(was, mid, f1) || Again(mid, now, f2) ==> Again(was, now, f1.And(f2))
  {
  }

  /** What the pass has come to when the descriptors `turns` had their turn, and the backend was told about `told`:
      of those that nothing happened to, exactly about those that needed it. */
  ghost predicate AllPassed(was: seq<View>, now: seq<View>, script: seq<Answer>, told: seq<nat>, turns: seq<nat>) {
    && |was| == |now| && PartOf(told, turns)
    && (forall f: nat | f < |was| :: Passed(was[f], now[f], FateOf(script, told, turns, f)))
    && (forall f: nat | f < |was| && f in turns && !FateOf(script, told, turns, f).touched :: f in told <==> was[f].Needs())
  }

  /** Everything on the list from `j` on is there again for a reason. */
  ghost predicate ListedAgain(was: seq<View>, now: seq<View>, script: seq<Answer>, told: seq<nat>, turns: seq<nat>,
                              list: seq<nat>, j: nat) {
    forall k | j <= k < |list| ::
      list[k] < |was| == |now| && Again(was[list[k]], now[list[k]], FateOf(script, told, turns, list[k]))
  }

  lemma {:induction false} PartIn(a: seq<nat>, b: seq<nat>)
    requires PartOf(a, b)
    ensures forall x | x in a :: x in b
    decreases |b|
  {
    if a != [] {
      var n, m := |a| - 1, |b| - 1;
      if PartOf(a, b[..m]) {
        PartIn(a, b[..m]);
      } else {
        PartIn(a[..n], b[..m]);
        assert a == a[..n] + [a[n]];
      }
    }
  }

  /** The descriptor that has its turn is told of, now or before, if it needed that and nothing happened to it. */
  lemma TellOn(was: seq<View>, mid: seq<View>, script: seq<Answer>, told: seq<nat>, turns: seq<nat>, fd: nat)
    requires AllPassed(was, mid, script, told, turns) && fd < |was| && !FateOf(script, told, turns, fd).touched
    ensures fd in told || mid[fd].Needs() <==> was[fd].Needs()
  {
    PartIn(told, turns);
    assert Passed(was[fd], mid[fd], FateOf(script, told, turns, fd));
  }

  /** What one turn, of `fd`, does to all descriptors and to the list. */
  ghost predicate TurnOver(mid: seq<View>, now: seq<View>, answer: Answer, fd: nat, before: seq<nat>, list: seq<nat>) {
    && |mid| == |now| && fd < |mid| && before <= list
    && (forall f: nat | f < |mid| :: Passed(mid[f], now[f], TurnFate(answer, fd, f)))
    && forall k | |before| <= k < |list| :: list[k] < |mid| && Again(mid[list[k]], now[list[k]], TurnFate(answer, fd, list[k]))
  }

  lemma AllPassedOn(was: seq<View>, mid: seq<View>, now: seq<View>, script: seq<Answer>, told: seq<nat>, turns: seq<nat>,
                    fd: nat, answer: Answer, before: seq<nat>, list: seq<nat>)
    requires AllPassed(was, mid, script, told, turns) && TurnOver(mid, now, answer, fd, before, list)
    requires answer == if mid[fd].Needs() then AnswerAt(script, |told|) else Answer([], true)
    ensures AllPassed(was, now, script, if mid[fd].Needs() then told + [fd] else told, turns + [fd])
  {
    var all := if mid[fd].Needs() then told + [fd] else told;
    PartOn(told, turns, fd);
    forall f: nat | f < |was| ensures Passed(was[f], now[f], FateOf(script, all, turns + [fd], f)) {
      FateOn(script, told, turns, fd, mid[fd].Needs(), f);
      PassedThen(was[f], mid[f], now[f], FateOf(script, told, turns, f), TurnFate(answer, fd, f));
    }
    forall f: nat | f < |was| && f in turns + [fd] && !FateOf(script, all, turns + [fd], f).touched
      ensures f in all <==> was[f].Needs()
    {
      FateOn(script, told, turns, fd, mid[fd].Needs(), f);
      if f == fd {
        TellOn(was, mid, script, told, turns, fd);
      }
    }
  }

  lemma ListedWhy(was: seq<View>, now: seq<View>, script: seq<Answer>, told: seq<nat>, turns: seq<nat>, list: seq<nat>)
    requires ListedAgain(was, now, script, told, turns, list, 0)
    ensures forall fd | fd in list :: TouchedIn(Used(script, |told|), fd) || RefusedIn(script, told, fd)
    ensures script == [] ==> list == []
  {
    forall fd | fd in list ensures TouchedIn(Used(script, |told|), fd) || RefusedIn(script, told, fd) {
      var k :| 0 <= k < |list| && list[k] == fd;
      assert Again(was[fd], now[fd], FateOf(script, told, turns, fd));
    }
    assert list != [] ==> list[0] in list;
  }

  lemma ListedOn(was: seq<View>, mid: seq<View>, now: seq<View>, script: seq<Answer>, told: seq<nat>, turns: seq<nat>,
                 fd: nat, answer: Answer, before: seq<nat>, list: seq<nat>, j: nat)
    requires AllPassed(was, mid, script, told, turns) && TurnOver(mid, now, answer, fd, before, list)
    requires answer == if mid[fd].Needs() then AnswerAt(script, |told|) else Answer([], true)
    requires ListedAgain(was, mid, script, told, turns, before, j)
    ensures ListedAgain(was, now, script, if mid[fd].Needs() then told + [fd] else told, turns + [fd], list, j)
  {
    var all := if mid[fd].Needs() then told + [fd] else told;
    forall k | j <= k < |list|
      ensures list[k] < |was| && Again(was[list[k]], now[list[k]], FateOf(script, all, turns + [fd], list[k]))
    {
      var f := list[k];
      assert k < |before| ==> before[k] == f;
      FateOn(script, told, turns, fd, mid[fd].Needs(), f);
      AgainThen(was[f], mid[f], now[f], FateOf(script, told, turns, f), TurnFate(answer, fd, f));
    }
  }

  class Loop {
    var anfds: seq<Anfd>
    var fdchanges: seq<nat>
    ghost var held: seq<set<Bit>>
    ghost var watchers: set<IoWatcher>

    ghost predicate HeadOk(fd: nat)
      requires fd < |anfds|
      reads this, watchers
    {
      && Distinct(anfds[fd].head)
      && forall w | w in anfds[fd].head :: w in watchers && w.active && w.fd == fd && w.events <= {Read, Write}
    }

    ghost predicate WatchersOk()
      reads this, watchers
    {
      && |held| == |anfds|
      && (forall fd: nat | fd < |anfds| :: HeadOk(fd))
      && (forall w | w in watchers && w.active :: w.fd < |anfds| && w in anfds[w.fd].head)
    }

    /** The recorded mask is what the watchers ask for, and the backend watches for it. */
    ghost predicate Settled(fd: nat)
      requires fd < |anfds| == |held| && HeadOk(fd)
      reads this, watchers
    {
      anfds[fd].reify == {} && anfds[fd].events == held[fd] && IsUnion(anfds[fd].events, anfds[fd].head)
    }

    /** The backend does not hold the recorded mask, and no flag makes fd_reify tell it again. */
    ghost predicate Lost(fd: nat)
      requires fd < |anfds| == |held|
      reads this
    {
      held[fd] != anfds[fd].events && FdSet !in anfds[fd].reify
    }

    ghost predicate FdOk(fd: nat, list: seq<nat>)
      requires fd < |anfds| == |held| && HeadOk(fd)
      reads this, watchers
    {
      && (fd in list || (anfds[fd].reify == {} && IsUnion(anfds[fd].events, anfds[fd].head)))
      && (Lost(fd) ==> held[fd] == {})
    }

    /** The backend is being told to watch for `n`. */
    ghost predicate BusyOk(fd: nat, n: set<Bit>, list: seq<nat>)
      requires fd < |anfds| == |held| && HeadOk(fd)
      reads this, watchers
    {
      && (fd in list || (anfds[fd].reify == {} && IsUnion(n, anfds[fd].head)))
      && (anfds[fd].events == n || FdSet in anfds[fd].reify)
    }

    /** Every descriptor is among the changes from `j` on or its recorded mask is what its watchers ask for; and the
        backend watches a lost one for nothing. The descriptor `b`, if it is one, is being told to watch for `n`. */
    ghost predicate Inv(j: nat, b: int, n: set<Bit>)
      reads this, watchers
    {
      && WatchersOk() && j <= |fdchanges| && (forall fd | fd in fdchanges :: fd < |anfds|)
      && (forall fd: nat | fd < |anfds| && fd != b :: FdOk(fd, fdchanges[j..]))
      && (0 <= b < |anfds| ==> BusyOk(b, n, fdchanges[j..]))
    }

    ghost predicate Valid()
      reads this, watchers
    {
      Inv(0, -1, {})
    }

    constructor ()
      ensures Valid() && anfds == [] && fdchanges == [] && watchers == {}
    {
      anfds, fdchanges, held, watchers := [], [], [], {};
    }

    /** A watcher that was just initialised. */
    ghost method Admit(w: IoWatcher)
      requires Valid() && !w.active
      modifies this`watchers
      ensures Valid() && watchers == old(watchers) + {w}
    {
      watchers := watchers + {w};
      forall f: nat | f < |anfds| ensures HeadOk(f) && FdOk(f, fdchanges[0..]) {
        assert old(HeadOk(f)) && old(FdOk(f, fdchanges[0..]));
      }
    }

    lemma Appends(fd: nat, list: seq<nat>, j: nat)
      requires j <= |list|
      ensures fd in (list + [fd])[j..] && forall x | x in list[j..] :: x in (list + [fd])[j..]
    {
      assert (list + [fd])[j..] == list[j..] + [fd];
    }

    /** fd_change. */
    method FdChange(fd: nat, flags: set<Bit>)
      requires fd < |anfds|
      modifies this`anfds, this`fdchanges
      ensures anfds == old(anfds)[fd := old(anfds)[fd].(reify := old(anfds)[fd].reify + flags)]
      ensures fdchanges == old(Listing(fd)) == if old(anfds)[fd].reify == {} then old(fdchanges) + [fd] else old(fdchanges)
    {
      var reify := anfds[fd].reify;
      anfds := anfds[fd := anfds[fd].(reify := reify + flags)];
      if reify == {} {
        fdchanges := fdchanges + [fd];
      }
    }

    ghost function Stopped(w: IoWatcher): seq<Anfd>
      requires w.fd < |anfds|
      reads this, w
    {
      var a := anfds[w.fd];
      anfds[w.fd := Anfd(Without(a.head, w), a.events, a.reify + {Reify})]
    }

    /** The list after fd_change. */
    ghost function Listing(fd: nat): seq<nat>
      requires fd < |anfds|
      reads this
    {
      if anfds[fd].reify == {} then fdchanges + [fd] else fdchanges
    }

    /** The part of ev_io_stop that makes the watcher inactive. */
    method Detach(w: IoWatcher, ghost j: nat, ghost b: int, ghost n: set<Bit>)
      requires Inv(j, b, n) && w in watchers && w.active
      modifies this`anfds, this`fdchanges, w`active
      ensures Inv(j, b, n) && !w.active && w.fd in fdchanges[j..]
      ensures anfds == old(Stopped(w)) && fdchanges == old(Listing(w.fd))
    {
      var fd := w.fd;
      assert HeadOk(fd) && (fd != b ==> FdOk(fd, fdchanges[j..]));
      Appends(fd, fdchanges, j);
      WithoutDistinct(anfds[fd].head, w);
      anfds := anfds[fd := anfds[fd].(head := Without(anfds[fd].head, w))];
      w.active := false;
      FdChange(fd, {Reify});
      forall f: nat | f < |anfds| ensures HeadOk(f) {
        assert old(HeadOk(f));
      }
      forall f: nat | f < |anfds| && f != b ensures FdOk(f, fdchanges[j..]) {
        assert old(FdOk(f, fdchanges[j..]));
      }
    }

    /** ev_io_stop, but for the pending queue. */
    method IoStop(w: IoWatcher, ghost j: nat, ghost b: int, ghost n: set<Bit>)
      requires Inv(j, b, n) && w in watchers
      modifies this`anfds, this`fdchanges, w`active
      ensures Inv(j, b, n) && !w.active && old(fdchanges) <= fdchanges
      ensures if !old(w.active) then anfds == old(anfds) && fdchanges == old(fdchanges)
        else w.fd in fdchanges[j..] && anfds == old(Stopped(w)) && fdchanges == old(Listing(w.fd))
      ensures old(w.active) ==> var a := old(anfds)[w.fd];
        && anfds == old(anfds)[w.fd := Anfd(Without(a.head, w), a.events, a.reify + {Reify})]
        && fdchanges == if a.reify == {} then old(fdchanges) + [w.fd] else old(fdchanges)
    {
      if w.active {
        Detach(w, j, b, n);
      }
    }

    /** fd_change for a descriptor that stays as it is. */
    method Change(fd: nat, flags: set<Bit>, ghost j: nat, ghost b: int, ghost n: set<Bit>)
      requires Inv(j, b, n) && fd < |anfds|
      modifies this`anfds, this`fdchanges
      ensures Inv(j, b, n) && fd in fdchanges[j..] && |anfds| == old(|anfds|) && Lists(fd) && NoneLost(-1)
      ensures anfds == old(anfds)[fd := old(anfds)[fd].(reify := old(anfds)[fd].reify + flags)]
    {
      assert HeadOk(fd) && (fd != b ==> FdOk(fd, fdchanges[j..]));
      Appends(fd, fdchanges, j);
      FdChange(fd, flags);
      forall f: nat | f < |anfds| ensures HeadOk(f) {
        assert old(HeadOk(f));
      }
      forall f: nat | f < |anfds| && f != b ensures FdOk(f, fdchanges[j..]) {
        assert old(FdOk(f, fdchanges[j..]));
      }
    }

    /** A descriptor is lost only if it was. */
    twostate predicate NoneLost(b: int)
      requires |anfds| == |held| == old(|anfds|) == old(|held|)
      reads this
    {
      forall f: nat | f < |anfds| && f != b :: Lost(f) ==> old(Lost(f))
    }

    /** What was appended to the list is `fd`. */
    twostate predicate Lists(fd: nat)
      reads this`fdchanges
    {
      old(fdchanges) <= fdchanges && forall k | old(|fdchanges|) <= k < |fdchanges| :: fdchanges[k] == fd
    }

    ghost predicate SameHeads(was: seq<Anfd>)
      reads this`anfds
    {
      |was| == |anfds| && forall f: nat | f < |was| :: anfds[f].head == was[f].head
    }

    /** fd_kill, but for the pending queue. */
    method FdKill(fd: nat, ghost j: nat, ghost b: int, ghost n: set<Bit>)
      requires Inv(j, b, n) && fd < |anfds|
      modifies this`anfds, this`fdchanges, watchers`active
      ensures Inv(j, b, n) && |anfds| == old(|anfds|) && anfds[fd].head == [] && anfds == old(anfds)[fd := anfds[fd]]
      ensures anfds[fd].events == old(anfds)[fd].events && Lists(fd) && NoneLost(-1)
      ensures if old(anfds)[fd].head != [] then fd in fdchanges[j..] else fdchanges == old(fdchanges)
    {
      while anfds[fd].head != []
        invariant Inv(j, b, n) && |anfds| == old(|anfds|) && Lists(fd) && NoneLost(-1)
        invariant old(anfds)[fd].head == [] ==> fdchanges == old(fdchanges)
        invariant anfds == old(anfds)[fd := anfds[fd]] && anfds[fd].events == old(anfds)[fd].events
        invariant fd in fdchanges[j..] || anfds[fd].head == old(anfds)[fd].head
        decreases |anfds[fd].head|
      {
        var w := anfds[fd].head[0];
        assert HeadOk(fd) && w in anfds[fd].head;
        IoStop(w, j, b, n);
      }
    }

    /** A one-shot registration is used up, or the backend starts afresh after a fork. */
    method Forget(fd: nat, flags: set<Bit>, ghost j: nat, ghost b: int, ghost n: set<Bit>)
      requires Inv(j, b, n) && fd < |anfds| && (fd == b ==> FdSet in flags)
      modifies this`anfds, this`fdchanges, this`held
      ensures anfds == old(anfds)[fd := Anfd(old(anfds)[fd].head, {}, old(anfds)[fd].reify + flags)]
      ensures held == old(held)[fd := {}]
      ensures Inv(j, b, n) && Lists(fd) && fd in fdchanges[j..] && NoneLost(-1) && !Lost(fd)
    {
      assert HeadOk(fd) && (fd != b ==> FdOk(fd, fdchanges[j..]));
      Appends(fd, fdchanges, j);
      anfds := anfds[fd := anfds[fd].(events := {})];
      held := held[fd := {}];
      FdChange(fd, flags);
      forall f: nat | f < |anfds| ensures HeadOk(f) {
        assert old(HeadOk(f));
      }
      forall f: nat | f < |anfds| && f != b ensures FdOk(f, fdchanges[j..]) {
        assert old(FdOk(f, fdchanges[j..]));
      }
    }

    method Happen(e: Effect, ghost j: nat, ghost b: int, ghost n: set<Bit>)
      requires Inv(j, b, n) && e.fd < |anfds|
      modifies this`anfds, this`fdchanges, this`held, watchers`active
      ensures Inv(j, b, n) && |anfds| == old(|anfds|) && Lists(e.fd) && NoneLost(-1)
      ensures forall f: nat | f < |anfds| :: anfds[f].events == if e == UsedUp(f) then {} else old(anfds)[f].events
      ensures forall f: nat | f < |anfds| :: anfds[f].head == if e == Kill(f) then [] else old(anfds)[f].head
      ensures forall f: nat | f < |anfds| && f != e.fd :: anfds[f] == old(anfds)[f] && held[f] == old(held)[f]
    {
      match e {
        case Kill(fd) => FdKill(fd, j, b, n);
        case UsedUp(fd) => Forget(fd, {FdSet}, j, b, n);
        case Touch(fd, flags) => Change(fd, flags, j, b, n);
      }
    }

    lemma Told(fd: nat, n: set<Bit>, j: nat)
      requires Inv(j, fd, n) && fd < |anfds| && (held[fd] == n || held[fd] == {})
      ensures Inv(j, -1, {})
    {
      assert HeadOk(fd);
    }

    /** The backend holds `mask` for a descriptor that it is being told about. */
    ghost method Hold(fd: nat, mask: set<Bit>, j: nat, n: set<Bit>)
      requires Inv(j, fd, n) && fd < |anfds|
      modifies this`held
      ensures Inv(j, fd, n) && held == old(held)[fd := mask]
    {
      held := held[fd := mask];
      forall f: nat | f < |anfds| ensures HeadOk(f) && (f != fd ==> FdOk(f, fdchanges[j..])) {
        assert old(HeadOk(f));
        assert f != fd ==> old(FdOk(f, fdchanges[j..]));
      }
    }

    /** What happens to descriptors during one call of backend_modify. */
    method HappenAll(effects: seq<Effect>, ghost j: nat, ghost b: int, ghost n: set<Bit>)
      requires Inv(j, b, n) && forall e | e in effects :: e.fd < |anfds|
      modifies this`anfds, this`fdchanges, this`held, watchers`active
      ensures Inv(j, b, n) && |anfds| == old(|anfds|) && NoneLost(-1) && old(fdchanges) <= fdchanges
      ensures forall k | old(|fdchanges|) <= k < |fdchanges| :: Touched(effects, fdchanges[k])
      ensures forall f: nat | f < |anfds| :: anfds[f].events == if UsedUp(f) in effects then {} else old(anfds)[f].events
      ensures forall f: nat | f < |anfds| :: anfds[f].head == if Kill(f) in effects then [] else old(anfds)[f].head
      ensures forall f: nat | f < |anfds| && !Touched(effects, f) :: anfds[f] == old(anfds)[f] && held[f] == old(held)[f]
      decreases |effects|
    {
      if effects == [] { return; }
      Happen(effects[0], j, b, n);
      label First:
      HappenAll(effects[1..], j, b, n);
      forall e ensures e in effects <==> e == effects[0] || e in effects[1..] {
        InRest(effects, e);
      }
      forall f: nat ensures Touched(effects, f) <==> effects[0].fd == f || Touched(effects[1..], f) {
        TouchedRest(effects, f);
      }
    }

    /** backend_modify. The backend takes the mask, or the descriptor turns out to be unusable and is killed. What
        is listed meanwhile was touched meanwhile, or is the descriptor itself when it was refused. */
    method BackendModify(fd: nat, n: set<Bit>, answer: Answer, ghost j: nat)
      requires Inv(j, fd, n) && fd < |anfds| && forall e | e in answer.effects :: e.fd < |anfds|
      modifies this`anfds, this`fdchanges, this`held, watchers`active
      ensures Inv(j, -1, {}) && |anfds| == old(|anfds|) && old(fdchanges) <= fdchanges
      ensures held[fd] == if n == {} || answer.accepted then n else {}
      ensures NoneLost(fd) && (Lost(fd) ==> n != {} && !answer.accepted)
      ensures forall k | old(|fdchanges|) <= k < |fdchanges| ::
        (Touched(answer.effects, fdchanges[k]) || (fdchanges[k] == fd && n != {} && !answer.accepted))
      ensures forall f: nat | f < |anfds| ::
        anfds[f].events == if UsedUp(f) in answer.effects then {} else old(anfds)[f].events
      ensures forall f: nat | f < |anfds| ::
        anfds[f].head == if Kill(f) in answer.effects || (f == fd && n != {} && !answer.accepted) then [] else old(anfds)[f].head
      ensures forall f: nat | f < |anfds| && !Touched(answer.effects, f) && (f != fd || n == {} || answer.accepted) ::
        anfds[f] == old(anfds)[f] && (f != fd ==> held[f] == old(held)[f])
    {
      HappenAll(answer.effects, j, fd, n);
      if n == {} || answer.accepted {
        Hold(fd, n, j, n);
      } else {
        Hold(fd, {}, j, n);
        assert HeadOk(fd);
        FdKill(fd, j, fd, n);
      }
      Told(fd, n, j);
    }

    /** The inner loop of fd_reify: what the watchers ask for together. */
    method Collect(fd: nat) returns (events: set<Bit>)
      requires fd < |anfds|
      ensures IsUnion(events, anfds[fd].head)
    {
      var ws := anfds[fd].head;
      events := {};
      var k := 0;
      while k < |ws|
        invariant 0 <= k <= |ws| && IsUnion(events, ws[..k])
      {
        UnionNext(events, ws, k);
        events := events + ws[k].events;
        k := k + 1;
      }
      assert ws[..k] == ws;
    }

    /** The change at `i` is taken up: the new mask is recorded. */
    method Begin(i: nat, n: set<Bit>)
      requires i < |fdchanges| && Inv(i, -1, {}) && fdchanges[i] in fdchanges && IsUnion(n, anfds[fdchanges[i]].head)
      modifies this`anfds
      ensures Inv(i + 1, fdchanges[i], n)
      ensures anfds == old(anfds)[fdchanges[i] := Anfd(old(anfds)[fdchanges[i]].head, n, {})]
    {
      var fd := fdchanges[i];
      anfds := anfds[fd := anfds[fd].(reify := {}, events := n)];
      assert fdchanges[i..] == [fd] + fdchanges[i + 1..];
      assert old(HeadOk(fd)) && BusyOk(fd, n, fdchanges[i + 1..]);
      forall f: nat | f < |anfds| ensures HeadOk(f) {
        assert old(HeadOk(f));
      }
      ghost var list := fdchanges[i + 1..];
      forall f: nat | f < |anfds| && f != fd ensures FdOk(f, list) {
        assert old(FdOk(f, fdchanges[i..]));
      }
      assert Inv(i + 1, fd, n);
    }

    /** What is not on the list is settled, unless it is lost. */
    lemma Unlisted()
      requires Valid()
      ensures forall fd: nat | fd < |anfds| && fd !in fdchanges :: HeadOk(fd) && (Settled(fd) <==> !Lost(fd))
    {
      assert fdchanges[0..] == fdchanges;
      forall fd: nat | fd < |anfds| && fd !in fdchanges ensures HeadOk(fd) && (Settled(fd) <==> !Lost(fd)) {
        assert FdOk(fd, fdchanges[0..]);
      }
    }

    ghost function ViewOf(fd: nat): (v: View)
      requires fd < |anfds| == |held|
      reads this, (set w | w in anfds[fd].head :: w)`events
      ensures v.Lost() == Lost(fd) && (v.a.head == [] ==> v.wants == {})
    {
      View(anfds[fd], held[fd], Union(anfds[fd].head))
    }

    ghost function Views(): (vs: seq<View>)
      requires WatchersOk()
      reads this, watchers
      ensures |vs| == |anfds| && forall f: nat | f < |anfds| :: vs[f] == ViewOf(f)
    {
      seq(|anfds|, f requires 0 <= f < |anfds| && WatchersOk() reads this, watchers => OkView(f))
    }

    ghost function OkView(fd: nat): View
      requires WatchersOk() && fd < |anfds|
      reads this, watchers
    {
      assert HeadOk(fd);
      ViewOf(fd)
    }

    /** The mask that the descriptor at `i` gets; FdSet says that the backend has to be told. */
    method TakeUp(i: nat) returns (n: set<Bit>, reify: set<Bit>)
      requires i < |fdchanges| && Inv(i, -1, {})
      modifies this`anfds
      ensures fdchanges[i] < |anfds| == old(|anfds|) && Inv(i + 1, fdchanges[i], n)
      ensures n == old(ViewOf(fdchanges[i])).wants && (FdSet in reify <==> old(ViewOf(fdchanges[i])).Needs())
      ensures anfds == old(anfds)[fdchanges[i] := Anfd(old(anfds)[fdchanges[i]].head, n, {})]
      ensures forall f: nat | f < |anfds| && f != fdchanges[i] :: Views()[f] == old(Views())[f]
      ensures ViewOf(fdchanges[i]).wants == n
      ensures FdSet in reify || old(held)[fdchanges[i]] in {n, {}}
    {
      var fd := fdchanges[i];
      assert fd in fdchanges;
      assert HeadOk(fd) && FdOk(fd, fdchanges[i..]);
      var o := anfds[fd].events;
      reify := anfds[fd].reify;
      n := Collect(fd);
      UnionUnique(n, Union(anfds[fd].head), anfds[fd].head);
      Begin(i, n);
      if o != n {
        reify := {FdSet};
      }
    }

    lemma OthersKeep(fd: nat)
      requires WatchersOk()
      ensures forall f: nat | f < |anfds| && f != fd :: Passed(Views()[f], Views()[f], TurnFate(Answer([], true), fd, f))
    {
      forall f: nat | f < |anfds| && f != fd ensures Passed(Views()[f], Views()[f], TurnFate(Answer([], true), fd, f)) {
        OtherTurn(ViewOf(f), ViewOf(f), Answer([], true), fd, f);
      }
    }

    /** A call of backend_modify, seen from the other descriptors. */
    method TellOthers(fd: nat, n: set<Bit>, answer: Answer, ghost j: nat)
      requires Inv(j, fd, n) && fd < |anfds| && n == ViewOf(fd).wants && forall e | e in answer.effects :: e.fd < |anfds|
      modifies this`anfds, this`fdchanges, this`held, watchers`active
      ensures Inv(j, -1, {}) && |anfds| == old(|anfds|) && old(fdchanges) <= fdchanges
      ensures held[fd] == if n == {} || answer.accepted then n else {}
      ensures Lost(fd) ==> n != {} && !answer.accepted
      ensures anfds[fd].events == if UsedUp(fd) in answer.effects then {} else old(anfds)[fd].events
      ensures anfds[fd].head == if Kill(fd) in answer.effects || (n != {} && !answer.accepted) then [] else old(anfds)[fd].head
      ensures ViewOf(fd).wants == if anfds[fd].head == [] then {} else n
      ensures !Touched(answer.effects, fd) && (n == {} || answer.accepted) ==> anfds[fd] == old(anfds)[fd]
      ensures forall k | old(|fdchanges|) <= k < |fdchanges| ::
        fdchanges[k] < |anfds| && (Touched(answer.effects, fdchanges[k]) || (fdchanges[k] == fd && n != {} && !answer.accepted))
      ensures forall f: nat | f < |anfds| && f != fd :: Passed(old(Views())[f], Views()[f], TurnFate(answer, fd, f))
    {
      BackendModify(fd, n, answer, j);
      forall f: nat | f < |anfds| ensures ViewOf(f).wants == if anfds[f].head == [] then {} else old(ViewOf(f)).wants {
        assert anfds[f].head == [] || anfds[f].head == old(anfds)[f].head;
      }
      forall f: nat | f < |anfds| && f != fd ensures Passed(old(Views())[f], Views()[f], TurnFate(answer, fd, f)) {
        assert Lost(f) ==> old(Lost(f));
        OtherTurn(old(ViewOf(f)), ViewOf(f), answer, fd, f);
      }
      assert forall k | old(|fdchanges|) <= k < |fdchanges| :: fdchanges[k] in fdchanges;
    }

    /** The same call in the turn of `fd`, which began with `was`. */
    method Tell(fd: nat, n: set<Bit>, answer: Answer, ghost was: View, ghost j: nat)
      requires Inv(j, fd, n) && fd < |anfds| && forall e | e in answer.effects :: e.fd < |anfds|
      requires was.Needs() && was.wants == n == ViewOf(fd).wants && anfds[fd] == Anfd(was.a.head, n, {})
      modifies this`anfds, this`fdchanges, this`held, watchers`active
      ensures Inv(j, -1, {}) && |anfds| == old(|anfds|) && old(fdchanges) <= fdchanges
      ensures forall k | old(|fdchanges|) <= k < |fdchanges| ::
        && fdchanges[k] < |anfds|
        && Again(if fdchanges[k] == fd then was else old(Views())[fdchanges[k]], Views()[fdchanges[k]], TurnFate(answer, fd, fdchanges[k]))
      ensures Passed(was, Views()[fd], TurnFate(answer, fd, fd))
      ensures forall f: nat | f < |anfds| && f != fd :: Passed(old(Views())[f], Views()[f], TurnFate(answer, fd, f))
    {
      assert n != {} ==> anfds[fd].head != [];
      TellOthers(fd, n, answer, j);
      OwnTurn(was, ViewOf(fd), answer, fd);
    }

    /** The body of fd_reify, for the change at `i`. */
    method ReifyOne(i: nat, script: seq<Answer>) returns (left: seq<Answer>, ghost answer: Answer)
      requires i < |fdchanges| && Inv(i, -1, {}) && InTable(script, |anfds|)
      modifies this`anfds, this`fdchanges, this`held, watchers`active
      ensures Inv(i + 1, -1, {}) && fdchanges[i] < |anfds| == old(|anfds|) && old(fdchanges) <= fdchanges
      ensures var needs := old(ViewOf(fdchanges[i])).Needs();
        left == (if needs then Rest(script) else script) && answer == if needs then AnswerAt(script, 0) else Answer([], true)
      ensures TurnOver(old(Views()), Views(), answer, fdchanges[i], old(fdchanges), fdchanges)
    {
      left, answer := script, Answer([], true);
      var fd := fdchanges[i];
      assert fd in fdchanges;
      var n, reify := TakeUp(i);
      if FdSet in reify {
        answer, left := AnswerAt(script, 0), Rest(script);
        Tell(fd, n, AnswerAt(script, 0), old(ViewOf(fd)), i + 1);
      } else {
        Told(fd, n, i + 1);
        OthersKeep(fd);
        OwnTurn(old(ViewOf(fd)), ViewOf(fd), answer, fd);
      }
    }

    /** The body of the loop in fd_reify, as a part of the pass that began with `was`. */
    method ReifyNext(i: nat, left1: seq<Answer>, ghost script: seq<Answer>, ghost told1: seq<nat>, ghost turns: seq<nat>,
                     ghost was: seq<View>, ghost j: nat)
      returns (left: seq<Answer>, ghost told: seq<nat>)
      requires i < j <= |fdchanges| && Inv(i, -1, {}) && InTable(script, |anfds|) && left1 == Left(script, |told1|)
      requires AllPassed(was, Views(), script, told1, turns) && ListedAgain(was, Views(), script, told1, turns, fdchanges, j)
      modifies this`anfds, this`fdchanges, this`held, watchers`active
      ensures Inv(i + 1, -1, {}) && |anfds| == old(|anfds|) && old(fdchanges) <= fdchanges && left == Left(script, |told|)
      ensures AllPassed(was, Views(), script, told, turns + [fdchanges[i]])
      ensures ListedAgain(was, Views(), script, told, turns + [fdchanges[i]], fdchanges, j)
    {
      ghost var mid, before := Views(), fdchanges;
      LeftOn(script, |told1|);
      assert fdchanges[i] in fdchanges;
      ghost var answer;
      left, answer := ReifyOne(i, left1);
      ghost var fd := fdchanges[i];
      told := if mid[fd].Needs() then told1 + [fd] else told1;
      AllPassedOn(was, mid, Views(), script, told1, turns, fd, answer, before, fdchanges);
      ListedOn(was, mid, Views(), script, told1, turns, fd, answer, before, fdchanges, j);
    }

    /** The changes that were handled leave the list. */
    method Shift(changecnt: nat)
      requires Inv(changecnt, -1, {})
      modifies this`fdchanges
      ensures Valid() && fdchanges == old(fdchanges)[changecnt..]
      ensures forall f: nat | f < |anfds| && f !in fdchanges :: Settled(f) <==> !Lost(f)
    {
      assert forall fd | fd in fdchanges[changecnt..] :: fd in fdchanges;
      fdchanges := fdchanges[changecnt..];
      forall f: nat | f < |anfds| ensures HeadOk(f) && FdOk(f, fdchanges[0..]) {
        assert old(HeadOk(f)) && old(FdOk(f, fdchanges[changecnt..]));
      }
      Unlisted();
    }

    /** fd_reify: `script` holds how the calls of backend_modify go, one after the other; those beyond its end
        go without effects. `told` has the descriptors that they are made for. Afterwards the list holds only what
        was touched or refused meanwhile, and whatever is not on it is settled, unless it was lost and still is. */
    method FdReify(script: seq<Answer>) returns (ghost told: seq<nat>)
      requires Valid() && InTable(script, |anfds|)
      modifies this`anfds, this`fdchanges, this`held, watchers`active
      ensures Valid() && AllPassed(old(Views()), Views(), script, told, old(fdchanges))
      ensures ListedAgain(old(Views()), Views(), script, told, old(fdchanges), fdchanges, 0)
      ensures forall f: nat | f < |anfds| && f !in fdchanges :: Settled(f) <==> !Lost(f)
    {
      ghost var was, turns := Views(), fdchanges;
      var changecnt := |fdchanges|;
      var left := script;
      var i := 0;
      told := [];
      while i < changecnt
        invariant 0 <= i <= changecnt <= |fdchanges| && Inv(i, -1, {}) && turns <= fdchanges
        invariant |anfds| == |was| && left == Left(script, |told|)
        invariant AllPassed(was, Views(), script, told, turns[..i])
        invariant ListedAgain(was, Views(), script, told, turns[..i], fdchanges, changecnt)
      {
        assert turns[..i + 1] == turns[..i] + [fdchanges[i]];
        left, told := ReifyNext(i, left, script, told, turns[..i], was, changecnt);
        i := i + 1;
      }
      assert turns[..i] == turns;
      Shift(changecnt);
    }

    /** The descriptor is closed: the backend silently drops it. */
    ghost method Closed(fd: nat)
      requires Valid() && fd < |anfds|
      modifies this`held
      ensures Valid() && held == old(held)[fd := {}]
    {
      assert HeadOk(fd) && FdOk(fd, fdchanges[0..]);
      held := held[fd := {}];
      forall f: nat | f < |anfds| ensures HeadOk(f) && (f != fd ==> FdOk(f, fdchanges[0..])) {
        assert old(HeadOk(f)) && old(FdOk(f, fdchanges[0..]));
      }
    }

    /** array_needsize for the descriptors, which are zeroed. */
    method NeedSize(fd: nat)
      requires Valid()
      modifies this`anfds, this`held
      ensures Valid() && |anfds| == (if fd < old(|anfds|) then old(|anfds|) else fd + 1) && old(anfds) <= anfds && old(held) <= held
      ensures old(|anfds|) <= fd ==> anfds[fd] == Anfd([], {}, {}) && held[fd] == {}
    {
      if |anfds| <= fd {
        var more := fd + 1 - |anfds|;
        anfds := anfds + seq(more, _ => Anfd([], {}, {}));
        held := held + seq(more, _ => {});
        forall f: nat | f < |anfds| ensures HeadOk(f) && FdOk(f, fdchanges[0..]) {
          if f < old(|anfds|) {
            assert old(HeadOk(f)) && old(FdOk(f, fdchanges[0..]));
          }
        }
      }
    }

    function HeadOf(fd: nat): seq<IoWatcher>
      reads this`anfds
    {
      if fd < |anfds| then anfds[fd].head else []
    }

    ghost function Joined(w: IoWatcher): seq<Anfd>
      requires w.fd < |anfds|
      reads this, w
    {
      var a := anfds[w.fd];
      anfds[w.fd := Anfd([w] + a.head, a.events, a.reify + (w.events * {FdSet} + {Reify}))]
    }

    /** The part of ev_io_start that makes the watcher active. */
    method Attach(w: IoWatcher)
      requires Valid() && w in watchers && w.events <= {Read, Write, FdSet} && !w.active && w.fd < |anfds|
      modifies this`anfds, this`fdchanges, w`active, w`events
      ensures Valid() && w.active && w.events == old(w.events) - {FdSet}
      ensures w.fd in fdchanges && anfds == old(Joined(w)) && fdchanges == old(Listing(w.fd))
    {
      var fd := w.fd;
      assert HeadOk(fd) && FdOk(fd, fdchanges[0..]);
      Appends(fd, fdchanges, 0);
      w.active := true;
      anfds := anfds[fd := anfds[fd].(head := [w] + anfds[fd].head)];
      FdChange(fd, w.events * {FdSet} + {Reify});
      w.events := w.events - {FdSet};
      forall f: nat | f < |anfds| ensures HeadOk(f) && FdOk(f, fdchanges[0..]) {
        assert old(HeadOk(f)) && old(FdOk(f, fdchanges[0..]));
      }
    }

    /** ev_io_start. A lost descriptor is told to the backend again only if the watcher was set anew. */
    method IoStart(w: IoWatcher)
      requires Valid() && w in watchers && w.events <= {Read, Write, FdSet}
      modifies this`anfds, this`fdchanges, this`held, w`active, w`events
      ensures Valid() && w.active && |anfds| == if w.fd < old(|anfds|) then old(|anfds|) else w.fd + 1
      ensures if old(w.active) then anfds == old(anfds) && fdchanges == old(fdchanges) && w.events == old(w.events)
        else w.fd in fdchanges && anfds[w.fd].head == [w] + old(HeadOf(w.fd)) && w.events == old(w.events) - {FdSet}
      ensures forall f: nat | f < old(|anfds|) && f != w.fd :: anfds[f] == old(anfds)[f] && held[f] == old(held)[f]
      ensures w.fd < old(|anfds|) ==> anfds[w.fd].events == old(anfds)[w.fd].events && held[w.fd] == old(held)[w.fd]
      ensures !old(w.active) ==> var reify := if w.fd < old(|anfds|) then old(anfds)[w.fd].reify else {};
        && anfds[w.fd].reify == reify + old(w.events) * {FdSet} + {Reify}
        && fdchanges == if reify == {} then old(fdchanges) + [w.fd] else old(fdchanges)
      ensures Lost(w.fd) <==> w.fd < old(|anfds|) && old(Lost(w.fd)) && (old(w.active) || FdSet !in old(w.events))
    {
      if w.active { return; }
      NeedSize(w.fd);
      Attach(w);
    }

    /** fd_reify, seen from one descriptor. */
    method ReifySeen(fd: nat, script: seq<Answer>) returns (ghost told: seq<nat>)
      requires Valid() && fd in fdchanges && InTable(script, |anfds|)
      modifies this`anfds, this`fdchanges, this`held, watchers`active
      ensures Valid() && |anfds| == old(|anfds|) && (script == [] ==> fdchanges == [])
      ensures forall f | f in fdchanges :: TouchedIn(Used(script, |told|), f) || RefusedIn(script, told, f)
      ensures !TouchedIn(Used(script, |told|), fd) && !RefusedIn(script, told, fd) ==>
        && anfds[fd].head == old(anfds)[fd].head && HeadOk(fd)
        && (Settled(fd) <==> !(old(Lost(fd)) && old(IsUnion(anfds[fd].events, anfds[fd].head))))
        && (!Settled(fd) ==> held[fd] == {} != anfds[fd].events == old(anfds)[fd].events)
    {
      assert HeadOk(fd);
      ghost var was, turns := ViewOf(fd), fdchanges;
      if IsUnion(anfds[fd].events, anfds[fd].head) {
        UnionUnique(anfds[fd].events, Union(anfds[fd].head), anfds[fd].head);
      }
      told := FdReify(script);
      ListedWhy(old(Views()), Views(), script, told, turns, fdchanges);
      assert HeadOk(fd) && FdOk(fd, fdchanges[0..]);
      ghost var fate := FateOf(script, told, turns, fd);
      assert Passed(was, Views()[fd], fate);
      if !fate.touched && !fate.refused {
        UndisturbedLost(was, Views()[fd], fate);
      }
    }

    /** ev_io_start and the next fd_reify. Unless the descriptor is touched or refused meanwhile, the backend then
        holds what its watchers ask for; except when it was lost, the watcher was not set anew, and all that is
        recorded is what they ask for. */
    method StartAndReify(w: IoWatcher, script: seq<Answer>) returns (ghost told: seq<nat>)
      requires Valid() && w in watchers && w.events <= {Read, Write, FdSet} && !w.active
      requires InTable(script, if w.fd < |anfds| then |anfds| else w.fd + 1)
      modifies this`anfds, this`fdchanges, this`held, watchers`active, w`events
      ensures Valid() && w.fd < |anfds| && w.events == old(w.events) - {FdSet}
      ensures script == [] ==> fdchanges == []
      ensures forall fd | fd in fdchanges :: TouchedIn(Used(script, |told|), fd) || RefusedIn(script, told, fd)
      ensures !TouchedIn(Used(script, |told|), w.fd) && !RefusedIn(script, told, w.fd) ==>
        && w.active && anfds[w.fd].head == [w] + old(HeadOf(w.fd))
        && (Settled(w.fd) <==> !(w.fd < old(|anfds|) && old(Lost(w.fd)) && FdSet !in old(w.events)
                                 && IsUnion(old(anfds)[w.fd].events, anfds[w.fd].head)))
        && (!Settled(w.fd) ==> held[w.fd] == {} != anfds[w.fd].events == old(anfds)[w.fd].events)
    {
      IoStart(w);
      told := ReifySeen(w.fd, script);
    }

    /** ev_io_modify. */
    method IoModify(w: IoWatcher, events: set<Bit>)
      requires Valid() && w in watchers
      modifies this`anfds, this`fdchanges, w`events
      ensures Valid() && anfds == old(anfds) && w.events == old(w.events) * {FdSet} + events * {Read, Write}
      ensures fdchanges == if w.active && w.events != old(w.events) then old(Listing(w.fd)) else old(fdchanges)
    {
      var wanted := events * {Read, Write};
      if w.events == w.events * {FdSet} + wanted { return; }
      w.events := w.events * {FdSet} + wanted;
      if w.active {
        assert old(HeadOk(w.fd)) && old(FdOk(w.fd, fdchanges[0..]));
        Appends(w.fd, fdchanges, 0);
        FdChange(w.fd, {});
        assert old(anfds)[w.fd].reify + {} == old(anfds)[w.fd].reify;
        assert anfds == old(anfds);
      }
      forall f: nat | f < |anfds| ensures HeadOk(f) && FdOk(f, fdchanges[0..]) {
        assert old(HeadOk(f)) && old(FdOk(f, fdchanges[0..]));
      }
    }

    /** fd_rearm_all: whatever was registered will be registered again. */
    method RearmAll()
      requires Valid()
      modifies this`anfds, this`fdchanges, this`held
      ensures Valid() && SameHeads(old(anfds))
      ensures forall fd: nat | fd < |anfds| :: anfds[fd].events == {} && !Lost(fd)
      ensures forall fd: nat | fd < |anfds| && old(anfds)[fd].events == {} :: anfds[fd] == old(anfds)[fd]
      ensures forall fd: nat | fd < |anfds| && old(anfds)[fd].events != {} :: FdSet in anfds[fd].reify && fd in fdchanges
    {
      var fd := 0;
      while fd < |anfds|
        invariant 0 <= fd <= |anfds| == old(|anfds|) && Valid()
        invariant SameHeads(old(anfds)) && forall f: nat | f < fd :: anfds[f].events == {}
        invariant forall f: nat | f < fd && old(anfds)[f].events != {} :: FdSet in anfds[f].reify && f in fdchanges
        invariant forall f: nat | f < |anfds| && (fd <= f || old(anfds)[f].events == {}) :: anfds[f] == old(anfds)[f]
      {
        if anfds[fd].events != {} {
          Forget(fd, {FdSet, Reify}, 0, -1, {});
        }
        fd := fd + 1;
      }
      forall f: nat | f < |anfds| ensures !Lost(f) {
        assert HeadOk(f) && FdOk(f, fdchanges[0..]);
      }
    }
  }

  /** A watcher was used and stopped, and its descriptor closed. */
  method ClosedAfterUse() returns (loop: Loop, w: IoWatcher)
    ensures fresh(loop) && fresh(w) && fresh(loop.watchers) && loop.Valid() && w in loop.watchers
    ensures !w.active && w.events == {Read} && w.fd < |loop.anfds| == |loop.held| && loop.Lost(w.fd)
    ensures loop.HeadOf(w.fd) == [] && loop.anfds[w.fd].events == {Read}
  {
    loop := new Loop();
    w := new IoWatcher(0, {Read});
    loop.Admit(w);
    var _ := loop.StartAndReify(w, []);
    loop.IoStop(w, 0, -1, {});
    loop.Closed(w.fd);
  }

  /** When the descriptor is opened again and the watcher is started on it without being set, the backend is never
      told, and watches the descriptor for nothing. */
  method StartedUnset() returns (loop: Loop, w: IoWatcher)
    ensures loop.Valid() && loop.fdchanges == [] && w.active && w.events == {Read}
    ensures w.fd < |loop.anfds| == |loop.held| && loop.anfds[w.fd].head == [w] && loop.held[w.fd] == {}
  {
    loop, w := ClosedAfterUse();
    var _ := loop.StartAndReify(w, []);
  }
}
