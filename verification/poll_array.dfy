/** The poll backend: a dense array of descriptors with their masks, and for each descriptor its index there.
    Together they stand for a map from descriptors to masks. */
module PollArray {

  datatype Event = Read | Write

  datatype PollFd = PollFd(fd: nat, events: set<Event>)

  /** What poll_modify does to the map. It trusts the old mask it is given. */
  function Modified(m: map<nat, set<Event>>, fd: nat, oev: set<Event>, nev: set<Event>): map<nat, set<Event>> {
    if oev == nev then m else if nev == {} then m - {fd} else m[fd := nev]
  }

  function Replay(m: map<nat, set<Event>>, calls: seq<(nat, set<Event>, set<Event>)>): map<nat, set<Event>>
    decreases |calls|
  {
    if calls == [] then m else Replay(Modified(m, calls[0].0, calls[0].1, calls[0].2), calls[1..])
  }

  /** What is recorded for a descriptor; none means the empty mask. */
  function Mask(m: map<nat, set<Event>>, fd: nat): set<Event> {
    if fd in m then m[fd] else {}
  }

  /** A descriptor ends up with the new mask exactly when the old mask it is changed from is not the new one by
      mistake. */
  lemma ModifyTakes(m: map<nat, set<Event>>, fd: nat, oev: set<Event>, nev: set<Event>)
    ensures Mask(Modified(m, fd, oev, nev), fd) == nev <==> oev != nev || Mask(m, fd) == nev
    ensures forall g | g != fd :: Mask(Modified(m, fd, oev, nev), g) == Mask(m, g)
  {
  }

  /** The calls of fd_reify: each one gives the mask that is recorded as the old one. */
  ghost predicate Faithful(m: map<nat, set<Event>>, calls: seq<(nat, set<Event>, set<Event>)>)
    decreases |calls|
  {
    calls == [] ||
    (calls[0].1 == Mask(m, calls[0].0) && Faithful(Modified(m, calls[0].0, calls[0].1, calls[0].2), calls[1..]))
  }

  function Asked(calls: seq<(nat, set<Event>, set<Event>)>, fd: nat, before: set<Event>): set<Event>
    decreases |calls|
  {
    if calls == [] then before else Asked(calls[1..], fd, if calls[0].0 == fd then calls[0].2 else before)
  }

  ghost predicate NoneEmpty(m: map<nat, set<Event>>) {
    forall fd | fd in m :: m[fd] != {}
  }

  /** After any faithful calls every descriptor is polled for what was last asked of it, and has no entry when that
      was nothing. */
  lemma {:induction false} LastAskedFor(m: map<nat, set<Event>>, calls: seq<(nat, set<Event>, set<Event>)>, fd: nat)
    requires Faithful(m, calls)
    ensures Mask(Replay(m, calls), fd) == Asked(calls, fd, Mask(m, fd))
    ensures NoneEmpty(m) ==> (fd in Replay(m, calls) <==> Asked(calls, fd, Mask(m, fd)) != {})
    decreases |calls|
  {
    if calls != [] {
      var to := Modified(m, calls[0].0, calls[0].1, calls[0].2);
      ModifyTakes(m, calls[0].0, calls[0].1, calls[0].2);
      LastAskedFor(to, calls[1..], fd);
    }
  }

  class Backend {
    var polls: array<PollFd>
    var pollcnt: nat
    var pollidxs: array<int>

    ghost predicate Valid()
      reads this, polls, pollidxs
    {
      && pollcnt <= polls.Length
      && (forall i: nat | i < pollcnt :: polls[i].fd < pollidxs.Length && pollidxs[polls[i].fd] == i)
      && (forall fd: nat | fd < pollidxs.Length :: Indexed(fd))
    }

    ghost predicate Indexed(fd: nat)
      requires fd < pollidxs.Length && pollcnt <= polls.Length
      reads this, polls, pollidxs
    {
      pollidxs[fd] == -1 || (0 <= pollidxs[fd] < pollcnt && polls[pollidxs[fd]].fd == fd)
    }

    ghost function View(): map<nat, set<Event>>
      requires Valid()
      reads this, polls, pollidxs
    {
      map fd: nat | fd < pollidxs.Length && Indexed(fd) && pollidxs[fd] >= 0 :: polls[pollidxs[fd]].events
    }

    constructor ()
      ensures Valid() && View() == map[] && fresh(polls) && fresh(pollidxs)
    {
      polls, pollcnt, pollidxs := new PollFd[0], 0, new int[0];
    }

    /** array_needsize with array_needsize_pollidx. */
    method NeedIndex(fd: nat)
      requires Valid()
      modifies this`pollidxs
      ensures Valid() && View() == old(View()) && fd < pollidxs.Length && (pollidxs == old(pollidxs) || fresh(pollidxs))
    {
      if fd < pollidxs.Length { return; }
      ghost var view := View();
      var was := pollidxs;
      pollidxs := new int[2 * fd + 1](i requires 0 <= i reads was => if i < was.Length then was[i] else -1);
      forall f: nat | f < pollidxs.Length
        ensures Indexed(f) && (pollidxs[f] >= 0 ==> f in view && view[f] == polls[pollidxs[f]].events)
      {
        assert f < was.Length ==> old(Indexed(f));
      }
      ViewIs(view);
    }

    /** array_needsize for the array of descriptors, which stays as it is otherwise. */
    method NeedPoll()
      requires Valid()
      modifies this`polls
      ensures Valid() && View() == old(View()) && pollcnt < polls.Length && (polls == old(polls) || fresh(polls))
    {
      if pollcnt < polls.Length { return; }
      var was := polls;
      polls := new PollFd[2 * pollcnt + 1](i requires 0 <= i reads was => if i < was.Length then was[i] else PollFd(0, {}));
      forall f: nat | f < pollidxs.Length ensures Indexed(f) {
        assert old(Indexed(f));
      }
    }

    lemma ViewIs(m: map<nat, set<Event>>)
      requires Valid() && forall fd | fd in m :: fd < pollidxs.Length && pollidxs[fd] >= 0
      requires forall fd: nat | fd < pollidxs.Length && pollidxs[fd] >= 0 :: Indexed(fd) && fd in m && m[fd] == polls[pollidxs[fd]].events
      ensures View() == m
    {
      assert forall fd: nat | fd < pollidxs.Length :: Indexed(fd);
    }

    /** The part of poll_modify that gives a descriptor an entry, with any mask. */
    method Allocate(fd: nat)
      requires Valid() && fd < pollidxs.Length && pollidxs[fd] < 0 && pollcnt < polls.Length
      modifies this`pollcnt, polls, pollidxs
      ensures Valid() && pollidxs[fd] >= 0 && View() - {fd} == old(View())
    {
      ghost var was := View();
      var idx := pollcnt;
      pollcnt := pollcnt + 1;
      pollidxs[fd] := idx;
      polls[idx] := PollFd(fd, polls[idx].events);
      forall f: nat | f < pollidxs.Length ensures Indexed(f) {
        assert old(Indexed(f));
      }
      ViewIs(was[fd := polls[idx].events]);
    }

    /** The part of poll_modify that sets the mask of an entry. */
    method SetMask(fd: nat, nev: set<Event>)
      requires Valid() && fd < pollidxs.Length && pollidxs[fd] >= 0
      modifies polls
      ensures Valid() && View() == old(View())[fd := nev]
    {
      assert Indexed(fd);
      ghost var was := View();
      polls[pollidxs[fd]] := PollFd(fd, nev);
      forall f: nat | f < pollidxs.Length ensures Indexed(f) {
        assert old(Indexed(f));
      }
      ViewIs(was[fd := nev]);
    }

    /** The part of poll_modify that takes a descriptor out: the last entry takes its place. */
    method Remove(fd: nat)
      requires Valid() && fd < pollidxs.Length && pollidxs[fd] >= 0
      modifies this`pollcnt, polls, pollidxs
      ensures Valid() && View() == old(View()) - {fd}
    {
      assert Indexed(fd);
      ghost var was := View();
      var idx := pollidxs[fd];
      pollidxs[fd] := -1;
      pollcnt := pollcnt - 1;
      if idx < pollcnt {
        polls[idx] := polls[pollcnt];
        pollidxs[polls[idx].fd] := idx;
      }
      forall f: nat | f < pollidxs.Length
        ensures Indexed(f) && (pollidxs[f] >= 0 ==> f in was && f != fd && was[f] == polls[pollidxs[f]].events)
      {
        assert old(Indexed(f));
        assert f != fd && pollidxs[f] >= 0 ==> f in was && was[f] == old(polls[pollidxs[f]].events);
      }
      ViewIs(was - {fd});
    }

    /** poll_modify. */
    method Modify(fd: nat, oev: set<Event>, nev: set<Event>)
      requires Valid()
      modifies this, polls, pollidxs
      ensures Valid() && View() == Modified(old(View()), fd, oev, nev)
      ensures oev != nev ==> if nev == {} then fd !in View() else fd in View() && View()[fd] == nev
      ensures (polls == old(polls) || fresh(polls)) && (pollidxs == old(pollidxs) || fresh(pollidxs))
    {
      if oev == nev { return; }
      ghost var was := View();
      NeedIndex(fd);
      if pollidxs[fd] < 0 {
        NeedPoll();
        Allocate(fd);
      }
      SameBut(was, View(), fd, nev);
      if nev != {} {
        SetMask(fd, nev);
      } else {
        Remove(fd);
      }
    }
  }

  lemma SameBut(a: map<nat, set<Event>>, b: map<nat, set<Event>>, fd: nat, nev: set<Event>)
    requires a == b || b - {fd} == a
    ensures a[fd := nev] == b[fd := nev] && a - {fd} == b - {fd}
  {
    assert b - {fd} == a ==> a - {fd} == a && forall g | g != fd && g in b :: g in b - {fd} && (b - {fd})[g] == b[g];
  }
}
