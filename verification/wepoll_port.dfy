/** The sockets of a wepoll port: poll operations, the update queue and the deleted queue.

    `inflight` stands for the system: the poll operations that were submitted and whose
    completion has not been fed yet. What the system answers is left open (`*`). A sock_state
    and a poll_group are values here, found by the address (`Id`) they were allocated at, and
    the tree of sockets is a map; `RbTree` is the tree itself. Masks are sets of bits. */
module WepollPort {
  import opened Wrappers
  import opened Lists

  datatype Event = In | Pri | Out | Err | Hup | RdNorm | RdBand | WrNorm | WrBand | Msg | RdHup | OneShot | Unknown(bit: nat)

  datatype Afd = Receive | ReceiveExpedited | Send | Disconnect | Abort | LocalClose | Accept | ConnectFail

  /** SOCK__KNOWN_events. */
  predicate Known(e: Event) {
    !e.OneShot? && !e.Unknown?
  }

  const MAX_GROUP_SIZE := 32

  function If<T>(b: bool, s: set<T>): set<T> {
    if b then s else {}
  }

  /** sock__events_to_afd_events. */
  function ToAfd(e: set<Event>): set<Afd> {
    {LocalClose}
    + If(e * {In, RdNorm} != {}, {Receive, Accept})
    + If(e * {Pri, RdBand} != {}, {ReceiveExpedited})
    + If(e * {Out, WrNorm, WrBand} != {}, {Send})
    + If(e * {In, RdNorm, RdHup} != {}, {Disconnect})
    + If(e * {Hup} != {}, {Abort})
    + If(e * {Err} != {}, {ConnectFail})
  }

  /** sock__afd_events_to_events. */
  function ToEvents(a: set<Afd>): set<Event> {
    If(a * {Receive, Accept} != {}, {In, RdNorm})
    + If(a * {ReceiveExpedited} != {}, {Pri, RdBand})
    + If(a * {Send} != {}, {Out, WrNorm, WrBand})
    + If(a * {Disconnect} != {}, {In, RdNorm, RdHup})
    + If(a * {Abort} != {}, {Hup})
    + If(a * {ConnectFail} != {}, {In, Out, Err, RdNorm, WrNorm, RdHup})
  }

  /** Whatever a socket is watched for, except for EPOLLMSG, some condition that the AFD driver
      is asked for reports it. */
  lemma AskedFor(e: set<Event>, x: Event)
    requires Known(x) && !x.Msg? && x in e
    ensures exists a :: a in ToAfd(e) && x in ToEvents({a})
  {
      var a := match x
        case In => Receive
        case RdNorm => Receive
        case Pri => ReceiveExpedited
        case RdBand => ReceiveExpedited
        case Out => Send
        case WrNorm => Send
        case WrBand => Send
        case Hup => Abort
        case Err => ConnectFail
        case _ => Disconnect;
      Overlaps({a}, a);
      Overlaps(e, x);
      assert x in ToEvents({a}) && a in ToAfd(e);
  }

  lemma Overlaps<T>(s: set<T>, x: T)
    requires x in s
    ensures forall r: set<T> | x in r :: s * r != {}
  {
    assert forall r: set<T> | x in r :: x in s * r;
  }

  lemma Common<T>(s: set<T>, r: set<T>)
    ensures s * r != {} <==> exists x :: x in s && x in r
  {
    if s * r != {} {
      var x :| x in s * r;
      assert x in s && x in r;
    }
    forall x | x in s && x in r ensures s * r != {} {
      assert x in s * r;
    }
  }

  /** The events that make the driver be asked for a condition. */
  function Askers(a: Afd): set<Event> {
    match a
    case Receive => {In, RdNorm}
    case Accept => {In, RdNorm}
    case ReceiveExpedited => {Pri, RdBand}
    case Send => {Out, WrNorm, WrBand}
    case Disconnect => {In, RdNorm, RdHup}
    case Abort => {Hup}
    case ConnectFail => {Err}
    case LocalClose => {}
  }

  lemma Asks(e: set<Event>, a: Afd)
    ensures a in ToAfd(e) <==> a == LocalClose || e * Askers(a) != {}
  {
    match a {
      case Receive =>
      case Accept =>
      case _ =>
    }
  }

  /** The driver is asked for LocalClose, and besides for what some event of the mask asks for by itself. */
  lemma AskedBy(e: set<Event>, a: Afd)
    ensures a in ToAfd(e) <==> a == LocalClose || exists x :: x in e && a in ToAfd({x})
  {
    Asks(e, a);
    Common(e, Askers(a));
    forall x ensures a in ToAfd({x}) <==> a == LocalClose || x in Askers(a) {
      Asks({x}, a);
      Common({x}, Askers(a));
    }
  }

  predicate Reports(a: Afd, x: Event) {
    match a
    case Receive => x.In? || x.RdNorm?
    case Accept => x.In? || x.RdNorm?
    case ReceiveExpedited => x.Pri? || x.RdBand?
    case Send => x.Out? || x.WrNorm? || x.WrBand?
    case Disconnect => x.In? || x.RdNorm? || x.RdHup?
    case Abort => x.Hup?
    case ConnectFail => x.In? || x.Out? || x.Err? || x.RdNorm? || x.WrNorm? || x.RdHup?
    case LocalClose => false
  }

  lemma Alone<T>(x: T, s: set<T>)
    ensures {x} * s != {} <==> x in s
  {
    Common({x}, s);
  }

  lemma ReportsAlone(a: Afd, x: Event)
    ensures x in ToEvents({a}) <==> Reports(a, x)
  {
    Alone(a, {Receive, Accept});
    Alone(a, {ReceiveExpedited});
    Alone(a, {Send});
    Alone(a, {Disconnect});
    Alone(a, {Abort});
    Alone(a, {ConnectFail});
  }

  lemma Either<T>(a: set<T>, b: set<T>, x: T)
    ensures x in a + b <==> x in a || x in b
  {
  }

  lemma Grouped(c: set<Afd>, x: Event)
    requires x in ToEvents(c)
    ensures || (c * {Receive, Accept} != {} && (x.In? || x.RdNorm?))
            || (c * {ReceiveExpedited} != {} && (x.Pri? || x.RdBand?))
            || (c * {Send} != {} && (x.Out? || x.WrNorm? || x.WrBand?))
            || (c * {Disconnect} != {} && (x.In? || x.RdNorm? || x.RdHup?))
            || (c * {Abort} != {} && x.Hup?)
            || (c * {ConnectFail} != {} && Reports(ConnectFail, x))
  {
    var a, b := If(c * {Receive, Accept} != {}, {In, RdNorm}), If(c * {ReceiveExpedited} != {}, {Pri, RdBand});
    var d, e := If(c * {Send} != {}, {Out, WrNorm, WrBand}), If(c * {Disconnect} != {}, {In, RdNorm, RdHup});
    var f, g := If(c * {Abort} != {}, {Hup}), If(c * {ConnectFail} != {}, {In, Out, Err, RdNorm, WrNorm, RdHup});
    Either(a + b + d + e + f, g, x);
    Either(a + b + d + e, f, x);
    Either(a + b + d, e, x);
    Either(a + b, d, x);
    Either(a, b, x);
  }

  lemma Reporter(c: set<Afd>, x: Event) returns (a: Afd)
    requires x in ToEvents(c)
    ensures a in c && Reports(a, x)
  {
    Grouped(c, x);
    if c * {Receive, Accept} != {} && (x.In? || x.RdNorm?) {
      a :| a in c * {Receive, Accept};
    } else if c * {Disconnect} != {} && (x.In? || x.RdNorm? || x.RdHup?) {
      a :| a in c * {Disconnect};
    } else if c * {Send} != {} && (x.Out? || x.WrNorm? || x.WrBand?) {
      a :| a in c * {Send};
    } else if c * {ReceiveExpedited} != {} && (x.Pri? || x.RdBand?) {
      a :| a in c * {ReceiveExpedited};
    } else if c * {Abort} != {} && x.Hup? {
      a :| a in c * {Abort};
    } else {
      a :| a in c * {ConnectFail};
    }
  }

  /** What is reported for some conditions is what one of them reports by itself. */
  lemma ReportedBy(c: set<Afd>, x: Event)
    ensures x in ToEvents(c) <==> exists a :: a in c && x in ToEvents({a})
  {
    if x in ToEvents(c) {
      var a := Reporter(c, x);
      ReportsAlone(a, x);
    }
    forall a | a in c && x in ToEvents({a}) ensures x in ToEvents(c) {
      MoreEvents(a, c, x);
    }
  }

  /** A condition is asked for on behalf of exactly the events that it reports; except that a failed connection, which
      reports readiness as well, is asked for on behalf of EPOLLERR only. */
  lemma AskedAsReported(a: Afd, x: Event)
    requires a != LocalClose
    ensures a in ToAfd({x}) <==> x in ToEvents({a}) && (a == ConnectFail ==> x == Err)
  {
    AskedAlone(a, x);
    ReportsAlone(a, x);
  }

  lemma AskedAlone(a: Afd, x: Event)
    ensures a in ToAfd({x}) <==> a == LocalClose || x in Askers(a)
  {
    Asks({x}, a);
    Common({x}, Askers(a));
  }

  datatype PollStatus = Idle | Pending | Cancelled

  type Id = nat

  datatype Sock = Sock(key: nat, group: Id, userEvents: set<Event>, userData: nat, pendingEvents: set<Event>,
                       status: PollStatus, deletePending: bool, polledFor: set<Afd>)

  /** The pending poll was submitted for all that the user waits for. */
  predicate Covered(s: Sock) {
    forall e | e in s.userEvents && Known(e) :: e in s.pendingEvents
  }

  // ---------- the state of a port ----------

  datatype State = State(socks: map<Id, Sock>, tree: map<nat, Id>, updateQueue: seq<Id>, deletedQueue: seq<Id>,
                         groups: seq<Id>, sizes: map<Id, nat>, inflight: set<Id>)

  /** The poll that is running, or the next one, covers what the user waits for. */
  ghost predicate Watched(st: State, x: Id)
    requires x in st.socks
  {
    var s := st.socks[x];
    x in st.updateQueue || s.status.Cancelled? || (s.status.Pending? && Covered(s))
  }

  ghost predicate SockOk(st: State, x: Id)
    requires x in st.socks
  {
    var s := st.socks[x];
    && (x in st.inflight <==> !s.status.Idle?)
    && (s.status.Pending? ==> s.polledFor == ToAfd(s.pendingEvents))
    && (!s.status.Pending? ==> s.pendingEvents == {})
    && (if s.deletePending
        then x in st.deletedQueue && x in st.inflight && x !in st.updateQueue
        else s.key in st.tree && st.tree[s.key] == x && x !in st.deletedQueue)
    && s.group in st.groups
  }

  ghost function Members(socks: map<Id, Sock>, g: Id): set<Id> {
    set x | x in socks && socks[x].group == g
  }

  /** The sizes are right, and the groups with room come after the full ones. */
  ghost predicate GroupsOk(st: State) {
    && Distinct(st.groups)
    && (forall g | g in st.groups :: g in st.sizes && st.sizes[g] == |Members(st.socks, g)| <= MAX_GROUP_SIZE)
    && FullFirst(st.groups, st.sizes)
  }

  ghost predicate QueuesOk(st: State) {
    && Distinct(st.updateQueue) && Distinct(st.deletedQueue)
    && (forall x | x in st.updateQueue :: x in st.socks && !st.socks[x].deletePending)
    && (forall x | x in st.deletedQueue :: x in st.socks && st.socks[x].deletePending)
    && (forall x | x in st.inflight :: x in st.socks)
    && (forall k | k in st.tree :: st.tree[k] in st.socks && st.socks[st.tree[k]].key == k && !st.socks[st.tree[k]].deletePending)
  }

  /** What holds between any two calls, but for the watching of `except`. */
  ghost predicate SoundBut(st: State, except: set<Id>) {
    QueuesOk(st) && GroupsOk(st) && SocksOk(st, except)
  }

  ghost predicate SocksOk(st: State, except: set<Id>) {
    && (forall x | x in st.socks :: SockOk(st, x))
    && (forall x | x in st.socks && x !in except && !st.socks[x].deletePending :: Watched(st, x))
  }

  ghost predicate Sound(st: State) {
    SoundBut(st, {})
  }

  /** The update queue after port_request_socket_update. */
  function Requested(st: State, x: Id): seq<Id> {
    if x in st.updateQueue || x in st.deletedQueue then st.updateQueue else st.updateQueue + [x]
  }

  function AfterSetEvent(st: State, x: Id, events: set<Event>, data: nat): State
    requires x in st.socks
  {
    var s := st.socks[x].(userEvents := events + {Err, Hup}, userData := data);
    st.(socks := st.socks[x := s],
        updateQueue := if !Covered(s) then Requested(st, x) else st.updateQueue)
  }

  lemma RequestedQueues(st: State, x: Id)
    requires Distinct(st.updateQueue) && x !in st.deletedQueue
    ensures Distinct(Requested(st, x)) && x in Requested(st, x)
    ensures forall y | y != x :: y in Requested(st, x) <==> y in st.updateQueue
  {
    if x !in st.updateQueue {
      Appended(st.updateQueue, x);
    }
  }

  /** Changing a socket that stays where it is. */
  lemma SameQueuesOk(st: State, to: State, x: Id)
    requires QueuesOk(st) && x in st.socks && to.tree == st.tree && to.deletedQueue == st.deletedQueue
    requires x in to.socks && to.socks == st.socks[x := to.socks[x]]
    requires to.socks[x].key == st.socks[x].key && to.socks[x].deletePending == st.socks[x].deletePending
    requires Distinct(to.updateQueue) && (x in to.updateQueue ==> !to.socks[x].deletePending)
    requires forall y | y != x :: y in to.updateQueue ==> y in st.updateQueue
    requires forall y | y != x :: y in to.inflight <==> y in st.inflight
    ensures QueuesOk(to)
  {
  }

  lemma SetEventSound(st: State, x: Id, events: set<Event>, data: nat)
    requires x in st.socks && !st.socks[x].deletePending && SoundBut(st, {x})
    ensures Sound(AfterSetEvent(st, x, events, data))
  {
    var to := AfterSetEvent(st, x, events, data);
    assert SockOk(st, x);
    SameGroups(st, to);
    RequestedQueues(st, x);
    SameQueuesOk(st, to, x);
    SetEventWatched(st, x, events, data);
    ChangedSock(st, to, x, {x}, {});
  }

  lemma SetEventWatched(st: State, x: Id, events: set<Event>, data: nat)
    requires x in st.socks && !st.socks[x].deletePending && SockOk(st, x) && Distinct(st.updateQueue)
    ensures var to := AfterSetEvent(st, x, events, data); SockOk(to, x) && Watched(to, x) && OthersSame(st, to, x)
  {
    RequestedQueues(st, x);
    var s := AfterSetEvent(st, x, events, data).socks[x];
    assert s.pendingEvents == {} ==> Err in s.userEvents && Known(Err) && !Covered(s);
  }

  /** The two states differ in one socket only, and in the queues only where it concerns that socket. */
  ghost predicate OthersSame(st: State, to: State, x: Id) {
    && (forall y | y != x :: y in to.socks <==> y in st.socks)
    && (forall y | y in st.socks && y != x :: to.socks[y] == st.socks[y] && SameQueues(st, to, y))
    && (forall k | k in st.tree && st.tree[k] != x :: k in to.tree && to.tree[k] == st.tree[k])
    && (forall g | g in st.groups :: g in to.groups)
  }

  ghost predicate SameQueues(st: State, to: State, y: Id) {
    && (y in to.updateQueue <==> y in st.updateQueue)
    && (y in to.deletedQueue <==> y in st.deletedQueue)
    && (y in to.inflight <==> y in st.inflight)
  }

  lemma ChangedSock(st: State, to: State, x: Id, e: set<Id>, f: set<Id>)
    requires SocksOk(st, e) && OthersSame(st, to, x) && e <= f + {x}
    requires x in to.socks ==> SockOk(to, x) && (x !in f && !to.socks[x].deletePending ==> Watched(to, x))
    ensures SocksOk(to, f)
  {
    forall y | y in to.socks ensures SockOk(to, y) && (y !in f && !to.socks[y].deletePending ==> Watched(to, y)) {
      if y != x {
        assert SockOk(st, y) && SameQueues(st, to, y);
      }
    }
  }

  /** A step that moves no socket to another group leaves the groups alone. */
  lemma SameGroups(st: State, to: State)
    requires GroupsOk(st) && to.groups == st.groups && to.sizes == st.sizes && to.socks.Keys == st.socks.Keys
    requires forall x | x in st.socks :: to.socks[x].group == st.socks[x].group
    ensures GroupsOk(to)
  {
    forall g ensures Members(to.socks, g) == Members(st.socks, g) {
    }
  }

  // ---------- poll groups ----------

  lemma MembersChange(socks: map<Id, Sock>, x: Id, s: Sock, g: Id)
    requires x !in socks
    ensures |Members(socks[x := s], g)| == |Members(socks, g)| + if s.group == g then 1 else 0
  {
    var was, now := Members(socks, g), Members(socks[x := s], g);
    if s.group == g {
      assert now == was + {x};
    } else {
      assert now == was;
    }
  }

  /** poll_group_acquire: the group that a socket joins; `spare` is where a new group would be allocated. */
  function Acquired(st: State, spare: Id): Id
    requires forall g | g in st.groups :: g in st.sizes
  {
    if st.groups == [] || st.sizes[st.groups[|st.groups| - 1]] >= MAX_GROUP_SIZE then spare else st.groups[|st.groups| - 1]
  }

  function AfterAcquire(st: State, spare: Id): State
    requires forall g | g in st.groups :: g in st.sizes
  {
    var g := Acquired(st, spare);
    var groups := if g == spare then st.groups + [g] else st.groups;
    var size := if g == spare then 1 else st.sizes[g] + 1;
    st.(groups := if size == MAX_GROUP_SIZE then [g] + Without(groups, g) else groups, sizes := st.sizes[g := size])
  }

  /** poll_group_release. */
  function AfterRelease(st: State, g: Id): State
    requires g in st.sizes && st.sizes[g] > 0
  {
    st.(groups := Without(st.groups, g) + [g], sizes := st.sizes[g := st.sizes[g] - 1])
  }

  /** A new group is made only when all groups are full. */
  lemma NewGroupOnlyWhenFull(st: State, spare: Id)
    requires GroupsOk(st) && spare !in st.groups
    ensures Acquired(st, spare) == spare <==> forall g | g in st.groups :: st.sizes[g] == MAX_GROUP_SIZE
  {
    if st.groups != [] {
      assert st.groups[|st.groups| - 1] in st.groups;
    }
  }

  ghost predicate RoomIn(groups: seq<Id>, sizes: map<Id, nat>) {
    exists g :: g in groups && g in sizes && sizes[g] < MAX_GROUP_SIZE
  }

  lemma RoomToJoin(st: State, spare: Id)
    requires GroupsOk(st) && spare !in st.groups
    ensures Acquired(st, spare) != spare <==> RoomIn(st.groups, st.sizes)
  {
    NewGroupOnlyWhenFull(st, spare);
    assert forall g | g in st.groups :: g in st.sizes && st.sizes[g] <= MAX_GROUP_SIZE;
  }

  /** The full groups come first. */
  ghost predicate FullFirst(groups: seq<Id>, sizes: map<Id, nat>)
    requires forall g | g in groups :: g in sizes
  {
    forall i, j | 0 <= i < j < |groups| :: sizes[groups[j]] == MAX_GROUP_SIZE ==> sizes[groups[i]] == MAX_GROUP_SIZE
  }

  lemma {:induction false} FullFirstWithout(groups: seq<Id>, sizes: map<Id, nat>, g: Id)
    requires (forall h | h in groups :: h in sizes) && FullFirst(groups, sizes)
    ensures FullFirst(Without(groups, g), sizes)
  {
    if groups != [] {
      FullFirstWithout(groups[1..], sizes, g);
      var r := Without(groups[1..], g);
      assert forall i | 0 <= i < |r| :: r[i] in groups[1..];
    }
  }

  lemma {:induction false} FullFirstAgrees(groups: seq<Id>, sizes: map<Id, nat>, sizes2: map<Id, nat>)
    requires (forall h | h in groups :: h in sizes && h in sizes2 && sizes2[h] == sizes[h]) && FullFirst(groups, sizes)
    ensures FullFirst(groups, sizes2)
  {
  }

  /** A socket that is not watched yet joins the group that poll_group_acquire found for it. */
  function AfterJoin(st: State, x: Id, key: nat, spare: Id): State
    requires forall g | g in st.groups :: g in st.sizes
  {
    var s := Sock(key, Acquired(st, spare), {}, 0, {}, Idle, false, {});
    AfterAcquire(st, spare).(socks := st.socks[x := s], tree := st.tree[key := x])
  }

  lemma JoinGroups(st: State, x: Id, key: nat, spare: Id)
    requires GroupsOk(st) && x !in st.socks && spare !in st.groups && (forall y | y in st.socks :: st.socks[y].group in st.groups)
    ensures GroupsOk(AfterJoin(st, x, key, spare))
  {
    var to, g := AfterJoin(st, x, key, spare), Acquired(st, spare);
    NewGroupOnlyWhenFull(st, spare);
    var appended := if g == spare then st.groups + [g] else st.groups;
    assert g != spare ==> g == st.groups[|st.groups| - 1];
    if g == spare {
      Appended(st.groups, g);
      assert Members(st.socks, spare) == {};
    }
    WithoutDistinct(appended, g);
    forall h | h in to.groups ensures h in to.sizes && to.sizes[h] == |Members(to.socks, h)| <= MAX_GROUP_SIZE {
      MembersChange(st.socks, x, to.socks[x], h);
    }
    JoinOrder(st, spare);
  }

  lemma JoinOrder(st: State, spare: Id)
    requires GroupsOk(st) && spare !in st.groups
    ensures var to := AfterAcquire(st, spare);
      (forall g | g in to.groups :: g in to.sizes) && FullFirst(to.groups, to.sizes) && Distinct(to.groups)
  {
    var to, g := AfterAcquire(st, spare), Acquired(st, spare);
    if g == spare {
      Appended(st.groups, g);
    } else {
      var n := |st.groups|;
      WithoutLast(st.groups, g);
      WithoutDistinct(st.groups, g);
      forall i | 0 <= i < n - 1 ensures to.sizes[st.groups[i]] == st.sizes[st.groups[i]] {
        DistinctAt(st.groups, i, n - 1);
      }
    }
  }

  /** A socket is freed and gives its group back. */
  function AfterFree(st: State, x: Id): State
    requires x in st.socks && st.socks[x].group in st.sizes && st.sizes[st.socks[x].group] > 0
  {
    AfterRelease(st, st.socks[x].group).(socks := st.socks - {x}, deletedQueue := Without(st.deletedQueue, x))
  }

  lemma FreeGroups(st: State, x: Id)
    requires GroupsOk(st) && x in st.socks && st.socks[x].group in st.groups
    ensures st.sizes[st.socks[x].group] > 0 && GroupsOk(AfterFree(st, x))
  {
    var g := st.socks[x].group;
    assert x in Members(st.socks, g);
    var to := AfterFree(st, x);
    WithoutDistinct(st.groups, g);
    Appended(Without(st.groups, g), g);
    assert st.socks == to.socks[x := st.socks[x]];
    forall h | h in to.groups ensures h in to.sizes && to.sizes[h] == |Members(to.socks, h)| <= MAX_GROUP_SIZE {
      MembersChange(to.socks, x, st.socks[x], h);
    }
    FullFirstWithout(st.groups, st.sizes, g);
    FullFirstAgrees(Without(st.groups, g), st.sizes, to.sizes);
  }

  // ---------- sock_new ----------

  lemma NewSound(st: State, x: Id, key: nat, spare: Id)
    requires Sound(st) && x !in st.socks && key !in st.tree && spare !in st.groups
    ensures SoundBut(AfterJoin(st, x, key, spare), {x})
  {
    var to := AfterJoin(st, x, key, spare);
    assert forall y | y in st.socks :: SockOk(st, y);
    JoinGroups(st, x, key, spare);
    JoinKeepsGroups(st, spare);
    NewQueues(st, to, x, key);
    NewOthers(st, x, key, spare);
    ChangedSock(st, to, x, {}, {x});
  }

  lemma NewOthers(st: State, x: Id, key: nat, spare: Id)
    requires (forall g | g in st.groups :: g in st.sizes) && x !in st.socks && key !in st.tree
    ensures OthersSame(st, AfterJoin(st, x, key, spare), x)
  {
    JoinKeepsGroups(st, spare);
  }

  lemma NewQueues(st: State, to: State, x: Id, key: nat)
    requires QueuesOk(st) && x !in st.socks && key !in st.tree && x in to.socks && to.socks == st.socks[x := to.socks[x]]
    requires to.tree == st.tree[key := x] && to.socks[x].key == key && !to.socks[x].deletePending
    requires to.updateQueue == st.updateQueue && to.deletedQueue == st.deletedQueue && to.inflight == st.inflight
    ensures QueuesOk(to)
  {
  }

  lemma JoinKeepsGroups(st: State, spare: Id)
    requires forall g | g in st.groups :: g in st.sizes
    ensures var to := AfterAcquire(st, spare);
      Acquired(st, spare) in to.groups && forall g | g in st.groups :: g in to.groups
  {
    var g := Acquired(st, spare);
    var appended := if g == spare then st.groups + [g] else st.groups;
    assert g in appended;
    assert forall h | h in st.groups :: h in appended;
    assert forall h | h in appended && h != g :: h in Without(appended, g);
  }

  // ---------- sock__delete ----------

  /** sock__cancel_poll. */
  function CancelledSock(s: Sock): Sock {
    s.(status := Cancelled, pendingEvents := {})
  }

  /** The part of sock__delete for a socket that is not deleted yet; `cancelled` is what afd_cancel_poll answers. */
  function AfterUnregister(st: State, x: Id, cancelled: bool): State
    requires x in st.socks
  {
    var s := st.socks[x];
    var s1 := if s.status.Pending? && cancelled then CancelledSock(s) else s;
    st.(socks := st.socks[x := s1.(deletePending := true)], updateQueue := Without(st.updateQueue, x), tree := st.tree - {s.key})
  }

  function AfterDelete(st: State, x: Id, cancelled: bool, force: bool): State
    requires x in st.socks && st.socks[x].group in st.sizes && st.sizes[st.socks[x].group] > 0
  {
    var st1 := if st.socks[x].deletePending then st else AfterUnregister(st, x, cancelled);
    if force || st1.socks[x].status.Idle? then
      AfterFree(st1, x).(inflight := if force then st.inflight - {x} else st.inflight)
    else
      st1.(deletedQueue := if x in st1.updateQueue || x in st1.deletedQueue then st1.deletedQueue else st1.deletedQueue + [x])
  }

  /** What sock__delete needs of its socket: it may be unwatched, or have just completed. */
  ghost predicate Placed(st: State, x: Id)
    requires x in st.socks
  {
    var s := st.socks[x];
    && (x in st.inflight <==> !s.status.Idle?)
    && (s.status.Pending? ==> s.polledFor == ToAfd(s.pendingEvents))
    && (!s.status.Pending? ==> s.pendingEvents == {})
    && (if s.deletePending
        then x in st.deletedQueue && x !in st.updateQueue
        else s.key in st.tree && st.tree[s.key] == x && x !in st.deletedQueue)
    && s.group in st.groups
  }

  /** Sound, but for one socket that is only placed. */
  ghost predicate SoundAround(st: State, x: Id) {
    && x in st.socks && QueuesOk(st) && GroupsOk(st) && Placed(st, x)
    && (forall y | y in st.socks && y != x :: SockOk(st, y) && (!st.socks[y].deletePending ==> Watched(st, y)))
  }

  lemma OthersSound(st: State, to: State, x: Id)
    requires SoundAround(st, x) && OthersSame(st, to, x) && QueuesOk(to) && GroupsOk(to)
    requires x in to.socks ==> SockOk(to, x) && (to.socks[x].deletePending || Watched(to, x))
    ensures Sound(to)
  {
    forall y | y in to.socks ensures SockOk(to, y) && (!to.socks[y].deletePending ==> Watched(to, y)) {
      if y != x {
        assert SockOk(st, y) && SameQueues(st, to, y);
      }
    }
  }

  lemma UnregisterOthers(st: State, x: Id, cancelled: bool)
    requires x in st.socks && st.socks[x].key in st.tree && st.tree[st.socks[x].key] == x
    ensures OthersSame(st, AfterUnregister(st, x, cancelled), x)
  {
  }

  lemma UnregisterKeeps(st: State, x: Id, cancelled: bool)
    requires SoundAround(st, x) && !st.socks[x].deletePending
    ensures var to := AfterUnregister(st, x, cancelled);
      && OthersSame(st, to, x) && GroupsOk(to) && Distinct(to.updateQueue) && x !in to.updateQueue && x !in to.deletedQueue
      && (forall k | k in to.tree :: to.tree[k] != x)
  {
    UnregisterOthers(st, x, cancelled);
    WithoutDistinct(st.updateQueue, x);
    SameGroups(st, AfterUnregister(st, x, cancelled));
  }

  /** A socket that is freed is in no queue and has no poll in flight. */
  lemma FreeSound(st: State, st1: State, x: Id, inflight: set<Id>)
    requires SoundAround(st, x) && OthersSame(st, st1, x) && GroupsOk(st1) && x in st1.socks && st1.groups == st.groups
    requires st1.socks[x].group == st.socks[x].group && Distinct(st1.updateQueue) && st1.deletedQueue == st.deletedQueue
    requires x !in st1.updateQueue && (forall y | y in st1.updateQueue :: y in st.updateQueue)
    requires (forall k | k in st1.tree :: k in st.tree && st1.tree[k] == st.tree[k] && st1.tree[k] != x)
    requires inflight == st.inflight - {x}
    ensures st1.sizes[st1.socks[x].group] > 0 && Sound(AfterFree(st1, x).(inflight := inflight))
  {
    FreeGroups(st1, x);
    FreeOthers(st, st1, x, inflight);
    WithoutDistinct(st.deletedQueue, x);
    FreeQueues(st, AfterFree(st1, x).(inflight := inflight), x);
    OthersSound(st, AfterFree(st1, x).(inflight := inflight), x);
  }

  lemma FreeOthers(st: State, st1: State, x: Id, inflight: set<Id>)
    requires OthersSame(st, st1, x) && x in st1.socks && st1.groups == st.groups
    requires st1.socks[x].group in st1.sizes && st1.sizes[st1.socks[x].group] > 0 && inflight == st.inflight - {x}
    ensures OthersSame(st, AfterFree(st1, x).(inflight := inflight), x)
  {
    var to := AfterFree(st1, x).(inflight := inflight);
    forall y | y in st.socks && y != x ensures to.socks[y] == st.socks[y] && SameQueues(st, to, y) {
      assert SameQueues(st, st1, y);
    }
  }

  lemma FreeQueues(st: State, to: State, x: Id)
    requires QueuesOk(st) && OthersSame(st, to, x) && x !in to.socks
    requires Distinct(to.updateQueue) && (forall y | y in to.updateQueue :: y in st.updateQueue && y != x)
    requires Distinct(to.deletedQueue) && (forall y | y in to.deletedQueue :: y in st.deletedQueue && y != x)
    requires to.inflight == st.inflight - {x}
    requires (forall k | k in to.tree :: k in st.tree && to.tree[k] == st.tree[k] && to.tree[k] != x)
    ensures QueuesOk(to)
  {
  }

  /** A socket that has to wait for its completion before it can be freed. */
  lemma DeferSound(st: State, st1: State, x: Id)
    requires SoundAround(st, x) && OthersSame(st, st1, x) && GroupsOk(st1) && x in st1.socks && st1.groups == st.groups
    requires Placed(st1, x) || (x in st1.inflight && x !in st1.updateQueue)
    requires SockDeferred(st1, x) && Distinct(st1.updateQueue) && (forall y | y in st1.updateQueue :: y in st.updateQueue)
    requires st1.deletedQueue == st.deletedQueue && st1.inflight == st.inflight && (forall y | y in st1.socks :: y in st.socks)
    requires (forall k | k in st1.tree :: k in st.tree && st1.tree[k] == st.tree[k] && st1.tree[k] != x)
    ensures Sound(st1.(deletedQueue := if x in st1.deletedQueue then st1.deletedQueue else st1.deletedQueue + [x]))
  {
    var to := st1.(deletedQueue := if x in st1.deletedQueue then st1.deletedQueue else st1.deletedQueue + [x]);
    if x !in st1.deletedQueue { Appended(st1.deletedQueue, x); }
    DeferOthers(st, st1, x);
    DeferQueues(st, to, x);
    SameGroups(st1, to);
    OthersSound(st, to, x);
  }

  /** A deleted socket whose poll is in flight, wherever it is queued. */
  ghost predicate SockDeferred(st: State, x: Id) {
    && x in st.socks && x in st.inflight && x !in st.updateQueue
    && st.socks[x].deletePending && !st.socks[x].status.Idle? && st.socks[x].group in st.groups
    && (st.socks[x].status.Pending? ==> st.socks[x].polledFor == ToAfd(st.socks[x].pendingEvents))
    && (!st.socks[x].status.Pending? ==> st.socks[x].pendingEvents == {})
  }

  lemma DeferOthers(st: State, st1: State, x: Id)
    requires OthersSame(st, st1, x)
    ensures OthersSame(st, st1.(deletedQueue := if x in st1.deletedQueue then st1.deletedQueue else st1.deletedQueue + [x]), x)
  {
    var to := st1.(deletedQueue := if x in st1.deletedQueue then st1.deletedQueue else st1.deletedQueue + [x]);
    forall y | y in st.socks && y != x ensures to.socks[y] == st.socks[y] && SameQueues(st, to, y) {
      assert SameQueues(st, st1, y);
    }
  }

  lemma DeferQueues(st: State, to: State, x: Id)
    requires QueuesOk(st) && OthersSame(st, to, x) && x in to.socks && to.socks[x].deletePending
    requires Distinct(to.updateQueue) && (forall y | y in to.updateQueue :: y in st.updateQueue && y != x)
    requires Distinct(to.deletedQueue) && (forall y | y in to.deletedQueue :: y in st.deletedQueue || y == x)
    requires to.inflight == st.inflight
    requires (forall k | k in to.tree :: k in st.tree && to.tree[k] == st.tree[k] && to.tree[k] != x)
    ensures QueuesOk(to)
  {
  }

  lemma DeleteDefined(st: State, x: Id)
    requires SoundAround(st, x)
    ensures st.socks[x].group in st.sizes && st.sizes[st.socks[x].group] > 0
  {
    FreeGroups(st, x);
  }

  lemma DeleteSound(st: State, x: Id, cancelled: bool, force: bool)
    requires SoundAround(st, x)
    ensures st.socks[x].group in st.sizes && st.sizes[st.socks[x].group] > 0
    ensures Sound(AfterDelete(st, x, cancelled, force))
  {
    DeleteDefined(st, x);
    if st.socks[x].deletePending {
      DeletedAgain(st, x, force);
    } else {
      DeletedFirst(st, x, cancelled, force);
    }
  }

  lemma DeletedAgain(st: State, x: Id, force: bool)
    requires SoundAround(st, x) && st.socks[x].deletePending
    requires st.socks[x].group in st.sizes && st.sizes[st.socks[x].group] > 0
    ensures Sound(AfterDelete(st, x, false, force)) && AfterDelete(st, x, true, force) == AfterDelete(st, x, false, force)
  {
    if force || st.socks[x].status.Idle? {
      assert st.inflight - {x} == if force then st.inflight - {x} else st.inflight;
      FreeSound(st, st, x, st.inflight - {x});
    } else {
      DeferSound(st, st, x);
    }
  }

  lemma DeletedFirst(st: State, x: Id, cancelled: bool, force: bool)
    requires SoundAround(st, x) && !st.socks[x].deletePending
    requires st.socks[x].group in st.sizes && st.sizes[st.socks[x].group] > 0
    ensures Sound(AfterDelete(st, x, cancelled, force))
  {
    var st1 := AfterUnregister(st, x, cancelled);
    UnregisterKeeps(st, x, cancelled);
    if force || st1.socks[x].status.Idle? {
      assert st.inflight - {x} == if force then st.inflight - {x} else st.inflight;
      FreeSound(st, st1, x, st.inflight - {x});
    } else {
      DeferSound(st, st1, x);
    }
  }

  /** Except when it is forced, sock__delete frees a socket exactly when no completion can still arrive for it. */
  lemma DeleteFrees(st: State, x: Id, cancelled: bool)
    requires SoundAround(st, x)
    ensures st.socks[x].group in st.sizes && st.sizes[st.socks[x].group] > 0
    ensures x in AfterDelete(st, x, cancelled, false).socks <==> x in st.inflight
  {
    DeleteDefined(st, x);
  }

  // ---------- sock_update ----------

  /** What the system answers to a poll request. */
  datatype Answer = Submitted | SocketGone | Failed

  function Unqueued(st: State, x: Id, s: Sock): State {
    st.(socks := st.socks[x := s], updateQueue := Without(st.updateQueue, x))
  }

  /** The socket as the poll request is made. */
  function Asking(s: Sock): Sock {
    s.(polledFor := ToAfd(s.userEvents))
  }

  function Asked(st: State, x: Id): State
    requires x in st.socks
  {
    st.(socks := st.socks[x := Asking(st.socks[x])])
  }

  function AfterUpdate(st: State, x: Id, cancelled: bool, answer: Answer): State
    requires x in st.socks && st.socks[x].group in st.sizes && st.sizes[st.socks[x].group] > 0
  {
    var s := st.socks[x];
    match s.status
    case Pending =>
      if Covered(s) then Unqueued(st, x, s) else if cancelled then Unqueued(st, x, CancelledSock(s)) else st
    case Cancelled => Unqueued(st, x, s)
    case Idle =>
      match answer
      case Submitted =>
        Unqueued(st, x, Asking(s).(status := Pending, pendingEvents := s.userEvents)).(inflight := st.inflight + {x})
      case SocketGone => AfterDelete(st.(socks := st.socks[x := Asking(s)]), x, true, false)
      case Failed => st.(socks := st.socks[x := Asking(s)])
  }

  /** sock_update fails when the poll cannot be cancelled, or cannot be submitted. */
  function UpdateOk(st: State, x: Id, cancelled: bool, answer: Answer): bool
    requires x in st.socks
  {
    var s := st.socks[x];
    match s.status
    case Pending => Covered(s) || cancelled
    case Cancelled => true
    case Idle => !answer.Failed?
  }

  /** A change of a socket that stays where it is, but may leave the update queue. */
  lemma InPlace(st: State, to: State, x: Id)
    requires Sound(st) && x in st.socks && to == st.(socks := to.socks, updateQueue := to.updateQueue, inflight := to.inflight)
    requires x in to.socks && to.socks == st.socks[x := to.socks[x]] && to.socks[x].key == st.socks[x].key && to.socks[x].group == st.socks[x].group
    requires to.socks[x].deletePending == st.socks[x].deletePending
    requires to.updateQueue == st.updateQueue || to.updateQueue == Without(st.updateQueue, x)
      || (to.updateQueue == Requested(st, x) && !st.socks[x].deletePending)
    requires forall y | y != x :: y in to.inflight <==> y in st.inflight
    requires SockOk(to, x) && (!to.socks[x].deletePending ==> Watched(to, x))
    ensures Sound(to)
  {
    assert SockOk(st, x);
    InPlaceQueue(st, to, x);
    InPlaceOthers(st, to, x);
    InPlaceSound(st, to, x);
  }

  lemma InPlaceSound(st: State, to: State, x: Id)
    requires Sound(st) && x in st.socks && x in to.socks && OthersSame(st, to, x)
    requires to == st.(socks := st.socks[x := to.socks[x]], updateQueue := to.updateQueue, inflight := to.inflight)
    requires to.socks[x].key == st.socks[x].key && to.socks[x].group == st.socks[x].group
    requires to.socks[x].deletePending == st.socks[x].deletePending
    requires Distinct(to.updateQueue) && (x in to.updateQueue ==> !st.socks[x].deletePending)
    requires forall y | y != x :: y in to.updateQueue <==> y in st.updateQueue
    requires forall y | y != x :: y in to.inflight <==> y in st.inflight
    requires SockOk(to, x) && (!to.socks[x].deletePending ==> Watched(to, x))
    ensures Sound(to)
  {
    SameQueuesOk(st, to, x);
    SameGroups(st, to);
    ChangedSock(st, to, x, {}, {});
  }

  lemma InPlaceQueue(st: State, to: State, x: Id)
    requires x in st.socks && SockOk(st, x) && Distinct(st.updateQueue)
    requires to.updateQueue == st.updateQueue || to.updateQueue == Without(st.updateQueue, x)
      || (to.updateQueue == Requested(st, x) && !st.socks[x].deletePending)
    ensures Distinct(to.updateQueue) && (x in to.updateQueue ==> !st.socks[x].deletePending)
  {
    WithoutDistinct(st.updateQueue, x);
    if x !in st.deletedQueue { RequestedQueues(st, x); }
  }

  lemma InPlaceOthers(st: State, to: State, x: Id)
    requires x in st.socks && to == st.(socks := to.socks, updateQueue := to.updateQueue, inflight := to.inflight)
    requires x in to.socks && to.socks == st.socks[x := to.socks[x]] && forall y | y != x :: y in to.inflight <==> y in st.inflight
    requires to.updateQueue == st.updateQueue || to.updateQueue == Without(st.updateQueue, x) || to.updateQueue == Requested(st, x)
    ensures OthersSame(st, to, x)
    ensures forall y | y != x :: y in to.updateQueue <==> y in st.updateQueue
  {
    assert forall y :: y in st.updateQueue + [x] <==> y in st.updateQueue || y == x;
  }

  lemma UpdateSound(st: State, x: Id, cancelled: bool, answer: Answer)
    requires Sound(st) && x in st.updateQueue
    ensures x in st.socks && st.socks[x].group in st.sizes && st.sizes[st.socks[x].group] > 0
    ensures Sound(AfterUpdate(st, x, cancelled, answer))
    ensures UpdateOk(st, x, cancelled, answer) ==>
      AfterUpdate(st, x, cancelled, answer).updateQueue == Without(st.updateQueue, x)
  {
    assert SockOk(st, x);
    FreeGroups(st, x);
    if !st.socks[x].status.Idle? {
      BusyUpdate(st, x, cancelled, answer);
    } else if answer.SocketGone? {
      GoneUpdate(st, x, cancelled);
    } else {
      IdleUpdate(st, x, cancelled, answer);
    }
  }

  lemma BusyUpdate(st: State, x: Id, cancelled: bool, answer: Answer)
    requires Sound(st) && x in st.updateQueue && x in st.socks && SockOk(st, x) && !st.socks[x].status.Idle?
    requires st.socks[x].group in st.sizes && st.sizes[st.socks[x].group] > 0
    ensures Sound(AfterUpdate(st, x, cancelled, answer))
  {
    InPlace(st, AfterUpdate(st, x, cancelled, answer), x);
  }

  lemma IdleUpdate(st: State, x: Id, cancelled: bool, answer: Answer)
    requires Sound(st) && x in st.updateQueue && x in st.socks && SockOk(st, x) && st.socks[x].status.Idle? && !answer.SocketGone?
    requires st.socks[x].group in st.sizes && st.sizes[st.socks[x].group] > 0
    ensures Sound(AfterUpdate(st, x, cancelled, answer))
  {
    InPlace(st, AfterUpdate(st, x, cancelled, answer), x);
  }

  lemma GoneUpdate(st: State, x: Id, cancelled: bool)
    requires Sound(st) && x in st.updateQueue && x in st.socks && SockOk(st, x) && st.socks[x].status.Idle?
    requires st.socks[x].group in st.sizes && st.sizes[st.socks[x].group] > 0
    ensures Sound(AfterUpdate(st, x, cancelled, SocketGone))
  {
    AskingAround(st, x);
    DeleteSound(Asked(st, x), x, true, false);
  }

  lemma AskingAround(st: State, x: Id)
    requires Sound(st) && x in st.updateQueue && x in st.socks && st.socks[x].status.Idle?
    ensures SoundAround(Asked(st, x), x)
  {
    var st1 := Asked(st, x);
    assert SockOk(st, x);
    InPlace(st, st1, x);
    AroundSound(st1, x);
  }

  lemma AroundSound(st: State, x: Id)
    requires Sound(st) && x in st.socks
    ensures SoundAround(st, x)
  {
    assert SockOk(st, x);
  }

  // ---------- sock_feed_event ----------

  /** How a poll operation ended. */
  datatype Completion = Aborted | Erred | Nothing | Reported(events: set<Afd>)

  datatype Report = Report(data: nat, events: set<Event>)

  function Ended(st: State, x: Id): State
    requires x in st.socks
  {
    st.(socks := st.socks[x := st.socks[x].(status := Idle, pendingEvents := {})], inflight := st.inflight - {x})
  }

  /** The events of a completion that the user asked for. */
  function Wanted(s: Sock, c: Completion): set<Event> {
    Meant(c) * s.userEvents
  }

  function Meant(c: Completion): set<Event> {
    match c
    case Aborted => {}
    case Erred => {Err}
    case Nothing => {}
    case Reported(a) => ToEvents(a)
  }

  predicate ClosedSocket(c: Completion) {
    c.Reported? && LocalClose in c.events
  }

  function AfterFeed(st: State, x: Id, c: Completion): State
    requires x in st.socks && st.socks[x].group in st.sizes && st.sizes[st.socks[x].group] > 0
  {
    var st1 := Ended(st, x);
    var s := st1.socks[x];
    if s.deletePending || ClosedSocket(c) then AfterDelete(st1, x, true, false)
    else
      var s1 := if Wanted(s, c) != {} && OneShot in s.userEvents then s.(userEvents := {}) else s;
      st1.(socks := st1.socks[x := s1], updateQueue := Requested(st1, x))
  }

  /** What the completion tells the user. */
  function Told(s: Sock, c: Completion): Option<Report> {
    if s.deletePending || ClosedSocket(c) || Wanted(s, c) == {} then None else Some(Report(s.userData, Wanted(s, c)))
  }

  lemma FeedSound(st: State, x: Id, c: Completion)
    requires Sound(st) && x in st.inflight
    ensures x in st.socks && st.socks[x].group in st.sizes && st.sizes[st.socks[x].group] > 0
    ensures Sound(AfterFeed(st, x, c))
    ensures AfterFeed(st, x, c).inflight == st.inflight - {x}
  {
    assert SockOk(st, x);
    FreeGroups(st, x);
    FeedInflight(st, x, c);
    if st.socks[x].deletePending || ClosedSocket(c) {
      FeedDeletes(st, x, c);
    } else {
      FeedRequeues(st, x, c);
    }
  }

  lemma FeedInflight(st: State, x: Id, c: Completion)
    requires x in st.socks && st.socks[x].group in st.sizes && st.sizes[st.socks[x].group] > 0
    ensures AfterFeed(st, x, c).inflight == st.inflight - {x}
  {
  }

  lemma FeedDeletes(st: State, x: Id, c: Completion)
    requires Sound(st) && x in st.inflight && x in st.socks && (st.socks[x].deletePending || ClosedSocket(c))
    requires st.socks[x].group in st.sizes && st.sizes[st.socks[x].group] > 0
    ensures Sound(AfterFeed(st, x, c))
  {
    EndedAround(st, x);
    DeleteSound(Ended(st, x), x, true, false);
  }

  lemma FeedRequeues(st: State, x: Id, c: Completion)
    requires Sound(st) && x in st.inflight && x in st.socks && SockOk(st, x) && !st.socks[x].deletePending && !ClosedSocket(c)
    requires st.socks[x].group in st.sizes && st.sizes[st.socks[x].group] > 0
    ensures Sound(AfterFeed(st, x, c))
  {
    FedSock(st, x, c);
    InPlace(st, AfterFeed(st, x, c), x);
  }

  lemma FedSock(st: State, x: Id, c: Completion)
    requires x in st.socks && SockOk(st, x) && !st.socks[x].deletePending && !ClosedSocket(c)
    requires st.socks[x].group in st.sizes && st.sizes[st.socks[x].group] > 0
    ensures var to := AfterFeed(st, x, c);
      && to == st.(socks := st.socks[x := to.socks[x]], updateQueue := Requested(st, x), inflight := st.inflight - {x})
      && to.socks[x].key == st.socks[x].key && to.socks[x].group == st.socks[x].group && !to.socks[x].deletePending
      && x in to.updateQueue && SockOk(to, x) && Watched(to, x)
  {
    assert x in st.updateQueue + [x];
  }

  lemma EndedAround(st: State, x: Id)
    requires Sound(st) && x in st.inflight
    ensures SoundAround(Ended(st, x), x)
  {
    EndedQueues(st, x);
    EndedOthers(st, x);
    assert SockOk(st, x);
  }

  lemma EndedQueues(st: State, x: Id)
    requires Sound(st) && x in st.inflight
    ensures QueuesOk(Ended(st, x)) && GroupsOk(Ended(st, x))
  {
    assert SockOk(st, x);
    SameQueuesOk(st, Ended(st, x), x);
    SameGroups(st, Ended(st, x));
  }

  lemma EndedOthers(st: State, x: Id)
    requires Sound(st) && x in st.inflight
    ensures var to := Ended(st, x);
      forall y | y in to.socks && y != x :: SockOk(to, y) && (!to.socks[y].deletePending ==> Watched(to, y))
  {
    var to := Ended(st, x);
    forall y | y in to.socks && y != x ensures SockOk(to, y) && (!to.socks[y].deletePending ==> Watched(to, y)) {
      assert SockOk(st, y);
    }
  }

  // ---------- the port ----------

  /** A batch of completions that were dequeued together. */
  ghost predicate Feedable(st: State, batch: seq<(Id, Completion)>) {
    && Sound(st)
    && (forall i | 0 <= i < |batch| :: batch[i].0 in st.inflight)
    && (forall i, j | 0 <= i < j < |batch| :: batch[i].0 != batch[j].0)
  }

  lemma FeedsOn(st: State, batch: seq<(Id, Completion)>)
    requires Feedable(st, batch) && batch != []
    ensures var x := batch[0].0;
      x in st.socks && st.socks[x].group in st.sizes && st.sizes[st.socks[x].group] > 0
      && Feedable(AfterFeed(st, x, batch[0].1), batch[1..])
  {
    FeedSound(st, batch[0].0, batch[0].1);
  }

  /** The state after port__feed_events, and the events that it reports. */
  ghost function AfterFeeds(st: State, batch: seq<(Id, Completion)>): State
    requires Feedable(st, batch)
    decreases |batch|
  {
    if batch == [] then st else
      FeedsOn(st, batch);
      AfterFeeds(AfterFeed(st, batch[0].0, batch[0].1), batch[1..])
  }

  function Listed<T>(o: Option<T>): seq<T> {
    if o.Some? then [o.value] else []
  }

  ghost function ToldAll(st: State, batch: seq<(Id, Completion)>): seq<Report>
    requires Feedable(st, batch)
    decreases |batch|
  {
    if batch == [] then [] else
      FeedsOn(st, batch);
      Listed(Told(st.socks[batch[0].0], batch[0].1)) + ToldAll(AfterFeed(st, batch[0].0, batch[0].1), batch[1..])
  }

  // ---------- what the user asked for ----------

  datatype Registration = Registration(events: set<Event>, data: nat)

  /** The sockets that the port watches for the user, with the events and the data registered for each. */
  ghost function Interest(st: State): map<nat, Registration> {
    map k | k in st.tree && st.tree[k] in st.socks :: Registration(st.socks[st.tree[k]].userEvents, st.socks[st.tree[k]].userData)
  }

  /** Nothing but dropped sockets tells the two apart. */
  ghost predicate Fewer(now: map<nat, Registration>, was: map<nat, Registration>) {
    forall k | k in now :: k in was && now[k] == was[k]
  }

  /** The socket is where the tree says, and nowhere else. */
  ghost predicate Keyed(st: State, x: Id) {
    && x in st.socks
    && (forall k | k in st.tree :: st.tree[k] in st.socks)
    && (forall k | k in st.tree :: st.tree[k] == x <==> k == st.socks[x].key && !st.socks[x].deletePending)
    && (!st.socks[x].deletePending ==> st.socks[x].key in st.tree)
  }

  lemma PlacedIsKeyed(st: State, x: Id)
    requires QueuesOk(st) && x in st.socks && Placed(st, x)
    ensures Keyed(st, x)
  {
  }

  lemma OkIsKeyed(st: State, x: Id)
    requires QueuesOk(st) && x in st.socks && SockOk(st, x)
    ensures Keyed(st, x)
  {
  }

  lemma SetEventInterest(st: State, x: Id, events: set<Event>, data: nat)
    requires Keyed(st, x) && !st.socks[x].deletePending
    ensures Interest(AfterSetEvent(st, x, events, data))
      == Interest(st)[st.socks[x].key := Registration(events + {Err, Hup}, data)]
  {
  }

  /** The state after port__ctl_add has set the events of the new socket. */
  function AfterAdd(st: State, x: Id, key: nat, spare: Id, events: set<Event>, data: nat): State
    requires forall g | g in st.groups :: g in st.sizes
  {
    AfterSetEvent(AfterJoin(st, x, key, spare), x, events, data)
  }

  lemma AddInterest(st: State, x: Id, key: nat, spare: Id, events: set<Event>, data: nat)
    requires QueuesOk(st) && GroupsOk(st) && x !in st.socks && key !in st.tree && spare !in st.groups
    ensures Interest(AfterAdd(st, x, key, spare, events, data))
      == Interest(st)[key := Registration(events + {Err, Hup}, data)]
  {
    var joined := AfterJoin(st, x, key, spare);
    JoinInterest(st, joined, x, key, Registration(events + {Err, Hup}, data));
    SetEventInterest(joined, x, events, data);
  }

  lemma JoinInterest(st: State, to: State, x: Id, key: nat, r: Registration)
    requires (forall k | k in st.tree :: st.tree[k] in st.socks) && x !in st.socks && key !in st.tree && x in to.socks
    requires to.tree == st.tree[key := x] && to.socks == st.socks[x := to.socks[x]] && to.socks[x].key == key && !to.socks[x].deletePending
    ensures Keyed(to, x) && Interest(to)[key := r] == Interest(st)[key := r]
  {
  }

  /** A socket that is deleted takes its own registration away, and no other. */
  lemma DeleteInterest(st: State, x: Id, cancelled: bool, force: bool)
    requires Keyed(st, x) && st.socks[x].group in st.sizes && st.sizes[st.socks[x].group] > 0
    ensures Interest(AfterDelete(st, x, cancelled, force))
      == if st.socks[x].deletePending then Interest(st) else Interest(st) - {st.socks[x].key}
  {
    DeleteTree(st, x, cancelled, force);
  }

  lemma DeleteTree(st: State, x: Id, cancelled: bool, force: bool)
    requires Keyed(st, x) && st.socks[x].group in st.sizes && st.sizes[st.socks[x].group] > 0
    ensures var to := AfterDelete(st, x, cancelled, force);
      && to.tree == (if st.socks[x].deletePending then st.tree else st.tree - {st.socks[x].key})
      && (forall k | k in to.tree :: to.tree[k] in to.socks && to.socks[to.tree[k]] == st.socks[st.tree[k]])
  {
  }

  /** A change that keeps the socket in place, with the registration `r`. */
  lemma SameTreeInterest(st: State, to: State, x: Id, r: Registration)
    requires Keyed(st, x) && to.tree == st.tree && x in to.socks && to.socks == st.socks[x := to.socks[x]]
    requires r == Registration(to.socks[x].userEvents, to.socks[x].userData)
    ensures Interest(to) == if st.socks[x].deletePending then Interest(st) else Interest(st)[st.socks[x].key := r]
  {
  }

  /** sock_update changes no registration; it only drops a socket that the system says is closed. */
  lemma UpdateInterest(st: State, x: Id, cancelled: bool, answer: Answer)
    requires Keyed(st, x) && !st.socks[x].deletePending && st.socks[x].group in st.sizes && st.sizes[st.socks[x].group] > 0
    ensures Interest(AfterUpdate(st, x, cancelled, answer))
      == if st.socks[x].status.Idle? && answer.SocketGone? then Interest(st) - {st.socks[x].key} else Interest(st)
  {
    var s := st.socks[x];
    var asking := st.(socks := st.socks[x := Asking(s)]);
    var r := Registration(s.userEvents, s.userData);
    assert Interest(st)[s.key := r] == Interest(st);
    SameTreeInterest(st, asking, x, r);
    if s.status.Idle? && answer.SocketGone? {
      DeleteInterest(asking, x, true, false);
    } else {
      SameTreeInterest(st, AfterUpdate(st, x, cancelled, answer), x, r);
    }
  }

  lemma UpdateFacts(st: State, x: Id, cancelled: bool, answer: Answer)
    requires Sound(st) && x in st.updateQueue
    ensures x in st.socks && st.socks[x].group in st.sizes && 0 < st.sizes[st.socks[x].group] <= MAX_GROUP_SIZE
    ensures var to := AfterUpdate(st, x, cancelled, answer);
      && Sound(to) && Fewer(Interest(to), Interest(st)) && (!answer.SocketGone? ==> Interest(to) == Interest(st))
      && Interest(to) == UpdatedInterest(Interest(st), st.socks[x], answer)
      && (UpdateOk(st, x, cancelled, answer) ==> |to.updateQueue| < |st.updateQueue|)
  {
    UpdateSound(st, x, cancelled, answer);
    assert SockOk(st, x);
    OkIsKeyed(st, x);
    UpdateInterest(st, x, cancelled, answer);
  }

  // ---------- port__update_events ----------

  /** What the system does for one sock_update. */
  datatype Turn = Turn(cancelled: bool, answer: Answer)

  /** The turns that are not given go well. */
  function NextTurn(turns: seq<Turn>): Turn {
    if turns == [] then Turn(true, Submitted) else turns[0]
  }

  function LaterTurns(turns: seq<Turn>): seq<Turn> {
    if turns == [] then [] else turns[1..]
  }

  datatype Walked = Walked(st: State, ok: bool)

  /** The walk: the first socket of the queue is updated, until one fails or none is left. */
  ghost function Walk(st: State, turns: seq<Turn>): Walked
    requires Sound(st)
    decreases |st.updateQueue|
  {
    if st.updateQueue == [] then Walked(st, true)
    else
      var x, turn := st.updateQueue[0], NextTurn(turns);
      UpdateFacts(st, x, turn.cancelled, turn.answer);
      var to := AfterUpdate(st, x, turn.cancelled, turn.answer);
      if UpdateOk(st, x, turn.cancelled, turn.answer) then Walk(to, LaterTurns(turns)) else Walked(to, false)
  }

  /** The walk keeps all invariants and only drops registrations, none unless a socket is found closed; when it
      does not fail, nothing is left to update. */
  lemma {:induction false} WalkFacts(st: State, turns: seq<Turn>)
    requires Sound(st)
    ensures Sound(Walk(st, turns).st) && (Walk(st, turns).ok ==> Walk(st, turns).st.updateQueue == [])
    ensures Fewer(Interest(Walk(st, turns).st), Interest(st))
    ensures (forall t | t in turns :: !t.answer.SocketGone?) ==> Interest(Walk(st, turns).st) == Interest(st)
    decreases |st.updateQueue|
  {
    if st.updateQueue != [] {
      var x, turn := st.updateQueue[0], NextTurn(turns);
      UpdateFacts(st, x, turn.cancelled, turn.answer);
      if UpdateOk(st, x, turn.cancelled, turn.answer) {
        WalkFacts(AfterUpdate(st, x, turn.cancelled, turn.answer), LaterTurns(turns));
      }
    }
  }

  lemma FirstTurn(turns: seq<Turn>)
    ensures turns == [] || (NextTurn(turns) in turns && forall t | t in LaterTurns(turns) :: t in turns)
  {
  }

  /** When the driver refuses nothing, the walk succeeds. */
  lemma {:induction false} WalkSucceeds(st: State, turns: seq<Turn>)
    requires Sound(st) && forall t | t in turns :: t.cancelled && !t.answer.Failed?
    ensures Walk(st, turns).ok && Walk(st, turns).st.updateQueue == []
    decreases |st.updateQueue|
  {
    if st.updateQueue != [] {
      var x, turn := st.updateQueue[0], NextTurn(turns);
      UpdateFacts(st, x, turn.cancelled, turn.answer);
      FirstTurn(turns);
      WalkSucceeds(AfterUpdate(st, x, turn.cancelled, turn.answer), LaterTurns(turns));
    }
  }

  /** sock_update keeps a poll that covers what the user waits for, and cancels one that does not; a cancelled one is
      left to complete. */
  lemma UpdateBusy(st: State, x: Id, cancelled: bool, answer: Answer)
    requires Sound(st) && x in st.updateQueue && x in st.socks && !st.socks[x].status.Idle?
    ensures st.socks[x].group in st.sizes && st.sizes[st.socks[x].group] > 0
    ensures var s, to, ok := st.socks[x], AfterUpdate(st, x, cancelled, answer), UpdateOk(st, x, cancelled, answer);
      && x in to.socks && x in to.inflight
      && if s.status.Pending? && exists e :: e in s.userEvents && Known(e) && e !in s.pendingEvents
         then (ok <==> cancelled) && to.socks[x].status == if cancelled then Cancelled else Pending
         else ok && to.socks[x] == s
  {
    FreeGroups(st, x);
    assert SockOk(st, x);
  }

  /** When none is running it submits one for exactly what the user waits for; it fails only when the driver does. */
  lemma UpdateIdle(st: State, x: Id, cancelled: bool, answer: Answer)
    requires Sound(st) && x in st.updateQueue && x in st.socks && st.socks[x].status.Idle?
    ensures st.socks[x].group in st.sizes && st.sizes[st.socks[x].group] > 0
    ensures UpdateOk(st, x, cancelled, answer) <==> !answer.Failed?
    ensures var s, to := st.socks[x], AfterUpdate(st, x, cancelled, answer);
      && (x !in to.socks <==> answer.SocketGone?)
      && (answer.Submitted? ==>
            && x in to.inflight && to.socks[x].status == Pending
            && to.socks[x].pendingEvents == s.userEvents && to.socks[x].polledFor == ToAfd(s.userEvents))
      && (answer.Failed? ==> to.socks[x].status.Idle? && x in to.updateQueue)
  {
    FreeGroups(st, x);
    assert SockOk(st, x);
  }

  lemma WalkOn(st: State, turns: seq<Turn>)
    requires Sound(st) && st.updateQueue != []
    ensures var x, turn := st.updateQueue[0], NextTurn(turns);
      && x in st.socks && st.socks[x].group in st.sizes && st.sizes[st.socks[x].group] > 0
      && var to := AfterUpdate(st, x, turn.cancelled, turn.answer);
         && Sound(to)
         && Walk(st, turns) == (if UpdateOk(st, x, turn.cancelled, turn.answer) then Walk(to, LaterTurns(turns)) else Walked(to, false))
         && (UpdateOk(st, x, turn.cancelled, turn.answer) ==> |to.updateQueue| < |st.updateQueue|)
  {
    UpdateFacts(st, st.updateQueue[0], NextTurn(turns).cancelled, NextTurn(turns).answer);
  }

  /** port__update_events_if_polling. */
  ghost function Polled(st: State, polls: nat, turns: seq<Turn>): State
    requires Sound(st)
  {
    if polls > 0 then Walk(st, turns).st else st
  }

  /** While a thread waits in the port, a change is submitted at once, unless the system refuses; no registration
      is touched by that, except that closed sockets may be dropped. */
  lemma PolledFacts(st: State, polls: nat, turns: seq<Turn>)
    requires Sound(st)
    ensures Sound(Polled(st, polls, turns)) && Fewer(Interest(Polled(st, polls, turns)), Interest(st))
    ensures polls == 0 || (forall t | t in turns :: !t.answer.SocketGone?) ==> Interest(Polled(st, polls, turns)) == Interest(st)
    ensures polls > 0 && Walk(st, turns).ok ==> Polled(st, polls, turns).updateQueue == []
  {
    WalkFacts(st, turns);
  }

  /** A completion leaves the registrations alone, except that a one-shot registration is disarmed by its
      report, and that a closed socket is dropped. */
  lemma FeedInterest(st: State, x: Id, c: Completion)
    requires Keyed(st, x) && st.socks[x].group in st.sizes && st.sizes[st.socks[x].group] > 0
    ensures Interest(AfterFeed(st, x, c)) == FedInterest(Interest(st), st.socks[x], Told(st.socks[x], c), c)
  {
    var s := st.socks[x];
    var r := Registration(s.userEvents, s.userData);
    assert !s.deletePending ==> Interest(st)[s.key := r] == Interest(st);
    SameTreeInterest(st, Ended(st, x), x, r);
    if s.deletePending || ClosedSocket(c) {
      DeleteInterest(Ended(st, x), x, true, false);
    } else {
      var to := AfterFeed(st, x, c);
      SameTreeInterest(st, to, x, Registration(to.socks[x].userEvents, to.socks[x].userData));
    }
  }

  ghost function FedInterest(was: map<nat, Registration>, s: Sock, told: Option<Report>, c: Completion): map<nat, Registration> {
    if s.deletePending then was
    else if ClosedSocket(c) then was - {s.key}
    else if told.Some? && OneShot in s.userEvents then was[s.key := Registration({}, s.userData)]
    else was
  }

  /** When the update queue has been walked, every socket of the user has exactly one poll in flight, which
      covers what the user waits for or has been cancelled. */
  lemma UpdatedMeansPolled(st: State, k: nat)
    requires Sound(st) && st.updateQueue == [] && k in st.tree
    ensures var x := st.tree[k];
      x in st.socks && x in st.inflight && (st.socks[x].status.Cancelled? || (st.socks[x].status.Pending? && Covered(st.socks[x])))
  {
    assert SockOk(st, st.tree[k]) && Watched(st, st.tree[k]);
  }

  // ---------- each operation on one socket, as a whole ----------

  lemma SetEventFacts(st: State, x: Id, events: set<Event>, data: nat)
    requires SoundBut(st, {x}) && x in st.socks && !st.socks[x].deletePending
    ensures var to := AfterSetEvent(st, x, events, data);
      Sound(to) && Interest(to) == Interest(st)[st.socks[x].key := Registration(events + {Err, Hup}, data)]
  {
    assert SockOk(st, x);
    OkIsKeyed(st, x);
    SetEventSound(st, x, events, data);
    SetEventInterest(st, x, events, data);
  }

  lemma DeleteFacts(st: State, x: Id, cancelled: bool, force: bool)
    requires SoundAround(st, x)
    ensures st.socks[x].group in st.sizes && 0 < st.sizes[st.socks[x].group] <= MAX_GROUP_SIZE
    ensures var to := AfterDelete(st, x, cancelled, force);
      Sound(to) && Interest(to) == if st.socks[x].deletePending then Interest(st) else Interest(st) - {st.socks[x].key}
  {
    DeleteSound(st, x, cancelled, force);
    PlacedIsKeyed(st, x);
    DeleteInterest(st, x, cancelled, force);
  }

  /** A deleted socket whose poll can be cancelled waits for the end of a cancelled poll, or is gone. */
  lemma DeleteCancels(st: State, x: Id, force: bool)
    requires SoundAround(st, x) && !st.socks[x].deletePending
    ensures st.socks[x].group in st.sizes && st.sizes[st.socks[x].group] > 0
    ensures var to := AfterDelete(st, x, true, force);
      x in to.socks ==> to.socks[x].status.Cancelled? && to.socks[x].deletePending && x in to.deletedQueue
  {
    DeleteDefined(st, x);
  }

  /** What sock_update leaves of the registrations. */
  ghost function UpdatedInterest(was: map<nat, Registration>, s: Sock, answer: Answer): map<nat, Registration> {
    if s.status.Idle? && answer.SocketGone? then was - {s.key} else was
  }

  lemma FeedFacts(st: State, x: Id, c: Completion)
    requires Sound(st) && x in st.inflight
    ensures x in st.socks && st.socks[x].group in st.sizes && 0 < st.sizes[st.socks[x].group] <= MAX_GROUP_SIZE
    ensures var to := AfterFeed(st, x, c);
      Sound(to) && Interest(to) == FedInterest(Interest(st), st.socks[x], Told(st.socks[x], c), c)
  {
    FeedSound(st, x, c);
    assert SockOk(st, x);
    OkIsKeyed(st, x);
    FeedInterest(st, x, c);
  }

  /** The completion is for the event: the poll failed and it is EPOLLERR, or one of the conditions reports it. */
  ghost predicate Causes(c: Completion, e: Event) {
    (c.Erred? && e == Err) || (c.Reported? && exists a :: a in c.events && e in ToEvents({a}))
  }

  /** A report has the user's data, and exactly the events that the user asked for and the completion is for; there is
      one exactly when there are such events, and the socket was neither deleted nor closed. */
  lemma ToldExactly(s: Sock, c: Completion)
    ensures Told(s, c).Some?
      <==> !s.deletePending && !(c.Reported? && LocalClose in c.events) && exists e :: e in s.userEvents && Causes(c, e)
    ensures Told(s, c).Some? ==> Told(s, c).value.data == s.userData
    ensures Told(s, c).Some? ==> forall e :: e in Told(s, c).value.events <==> e in s.userEvents && Causes(c, e)
  {
    forall e ensures e in Meant(c) <==> Causes(c, e) {
      if c.Reported? {
        ReportedBy(c.events, e);
      }
    }
    if Wanted(s, c) != {} {
      var e :| e in Wanted(s, c);
      assert e in s.userEvents && Causes(c, e);
    }
    forall e | e in s.userEvents && Causes(c, e) ensures Wanted(s, c) != {} {
      assert e in Wanted(s, c);
    }
  }

  /** A socket whose poll was cancelled is queued for a new one when the completion arrives. */
  lemma CancelledIsRequeued(st: State, x: Id, c: Completion)
    requires Sound(st) && x in st.inflight && x in st.socks && !st.socks[x].deletePending && !ClosedSocket(c)
    ensures st.socks[x].group in st.sizes && st.sizes[st.socks[x].group] > 0
    ensures x in AfterFeed(st, x, c).updateQueue && AfterFeed(st, x, c).socks[x].status.Idle?
  {
    FeedSound(st, x, c);
    assert SockOk(st, x);
  }

  lemma MoreEvents(a: Afd, events: set<Afd>, e: Event)
    requires a in events && e in ToEvents({a})
    ensures e in ToEvents(events)
  {
    Overlaps(events, a);
  }

  /** No event is lost: for whatever the user waits for (EPOLLMSG apart), a running poll that covers it was
      submitted for a condition whose completion reports it. */
  lemma EventReachesUser(s: Sock, e: Event)
    requires !s.deletePending && Covered(s) && e in s.userEvents && Known(e) && !e.Msg?
    ensures exists a | a in ToAfd(s.pendingEvents) ::
      forall events | a in events && LocalClose !in events :: Tells(Told(s, Reported(events)), e)
  {
    AskedFor(s.pendingEvents, e);
    var a :| a in ToAfd(s.pendingEvents) && e in ToEvents({a});
    forall events | a in events && LocalClose !in events ensures Tells(Told(s, Reported(events)), e) {
      OneIsEnough(s, a, events, e);
    }
  }

  lemma OneIsEnough(s: Sock, a: Afd, events: set<Afd>, e: Event)
    requires !s.deletePending && e in s.userEvents && e in ToEvents({a}) && a in events && LocalClose !in events
    ensures Tells(Told(s, Reported(events)), e)
  {
    MoreEvents(a, events, e);
    assert e in Wanted(s, Reported(events));
  }

  predicate Tells(r: Option<Report>, e: Event) {
    r.Some? && e in r.value.events
  }

  // ---------- a group that nobody joins after all ----------

  /** sock_new acquired a group and then failed. */
  function AfterRefused(st: State, spare: Id): State
    requires forall g | g in st.groups :: g in st.sizes
  {
    AfterRelease(AfterAcquire(st, spare), Acquired(st, spare))
  }

  lemma RefusedSound(st: State, spare: Id)
    requires Sound(st) && spare !in st.groups
    ensures Sound(AfterRefused(st, spare))
  {
    var to := AfterRefused(st, spare);
    assert forall y | y in st.socks :: SockOk(st, y);
    RefusedGroups(st, spare);
    RefusedKeeps(st, spare);
    forall y | y in st.socks ensures SockOk(to, y) && (!to.socks[y].deletePending ==> Watched(to, y)) {
      assert SockOk(st, y);
    }
  }

  lemma RefusedKeeps(st: State, spare: Id)
    requires forall g | g in st.groups :: g in st.sizes
    ensures forall g | g in st.groups :: g in AfterRefused(st, spare).groups
  {
    var g, mid := Acquired(st, spare), AfterAcquire(st, spare);
    JoinKeepsGroups(st, spare);
    assert forall h | h in mid.groups && h != g :: h in Without(mid.groups, g);
  }

  lemma RefusedGroups(st: State, spare: Id)
    requires GroupsOk(st) && spare !in st.groups && (forall y | y in st.socks :: st.socks[y].group in st.groups)
    ensures GroupsOk(AfterRefused(st, spare))
  {
    var mid, to, g := AfterAcquire(st, spare), AfterRefused(st, spare), Acquired(st, spare);
    RefusedSizes(st, spare);
    JoinOrder(st, spare);
    WithoutDistinct(mid.groups, g);
    Appended(Without(mid.groups, g), g);
    FullFirstWithout(mid.groups, mid.sizes, g);
    FullFirstAgrees(Without(mid.groups, g), mid.sizes, to.sizes);
  }

  lemma RefusedSizes(st: State, spare: Id)
    requires GroupsOk(st) && spare !in st.groups && (forall y | y in st.socks :: st.socks[y].group in st.groups)
    ensures var to := AfterRefused(st, spare);
      && to.sizes[Acquired(st, spare)] < MAX_GROUP_SIZE
      && forall g | g in to.groups :: g in to.sizes && to.sizes[g] == |Members(to.socks, g)| <= MAX_GROUP_SIZE
  {
    var g, to := Acquired(st, spare), AfterRefused(st, spare);
    RefusedSize(st, spare);
    forall h | h in to.groups ensures h in to.sizes && to.sizes[h] == |Members(to.socks, h)| <= MAX_GROUP_SIZE {
      if h != g {
        RefusedMember(st, spare, h);
      }
    }
  }

  lemma RefusedMember(st: State, spare: Id, h: Id)
    requires (forall g | g in st.groups :: g in st.sizes) && h in AfterRefused(st, spare).groups && h != Acquired(st, spare)
    ensures h in st.groups && AfterRefused(st, spare).sizes[h] == st.sizes[h]
  {
  }

  lemma RefusedSize(st: State, spare: Id)
    requires GroupsOk(st) && spare !in st.groups && (forall y | y in st.socks :: st.socks[y].group in st.groups)
    ensures AfterRefused(st, spare).sizes[Acquired(st, spare)] == |Members(st.socks, Acquired(st, spare))| < MAX_GROUP_SIZE
  {
    var g := Acquired(st, spare);
    if g == spare {
      assert Members(st.socks, spare) == {};
    } else {
      assert g == st.groups[|st.groups| - 1] && g in st.groups;
    }
  }

  lemma AcquiredSize(st: State, spare: Id)
    requires GroupsOk(st)
    ensures 0 < AfterAcquire(st, spare).sizes[Acquired(st, spare)] <= MAX_GROUP_SIZE
  {
    assert st.groups != [] ==> st.groups[|st.groups| - 1] in st.groups;
  }

  /** The batch `all` was begun in the state `first`; what is left of it is fed to `st`. */
  ghost predicate Feeding(first: State, all: seq<(Id, Completion)>, st: State, left: seq<(Id, Completion)>, reports: seq<Report>)
    requires Feedable(first, all)
  {
    Feedable(st, left) && AfterFeeds(st, left) == AfterFeeds(first, all) && reports + ToldAll(st, left) == ToldAll(first, all)
  }

  lemma FeedingBegins(first: State, batch: seq<(Id, Completion)>)
    requires Feedable(first, batch)
    ensures Feeding(first, batch, first, batch[0..], [])
  {
    assert batch[0..] == batch;
  }

  lemma FeedingEnds(first: State, batch: seq<(Id, Completion)>, st: State, left: seq<(Id, Completion)>, reports: seq<Report>)
    requires Feedable(first, batch) && Feeding(first, batch, st, left, reports) && left == []
    ensures st == AfterFeeds(first, batch) && reports == ToldAll(first, batch)
  {
  }

  lemma FeedHead(st: State, left: seq<(Id, Completion)>)
    requires Feedable(st, left) && left != []
    ensures var (x, c) := left[0];
      && x in st.socks && st.socks[x].group in st.sizes && st.sizes[st.socks[x].group] > 0
      && Feedable(AfterFeed(st, x, c), left[1..])
      && AfterFeeds(st, left) == AfterFeeds(AfterFeed(st, x, c), left[1..])
      && ToldAll(st, left) == Listed(Told(st.socks[x], c)) + ToldAll(AfterFeed(st, x, c), left[1..])
  {
    FeedsOn(st, left);
  }

  lemma FeedStep(first: State, batch: seq<(Id, Completion)>, st: State, i: nat, reports: seq<Report>)
    requires Feedable(first, batch) && i < |batch| && Feeding(first, batch, st, batch[i..], reports)
    ensures var (x, c) := batch[i];
      && Sound(st) && x in st.inflight
      && x in st.socks && st.socks[x].group in st.sizes && st.sizes[st.socks[x].group] > 0
      && Feeding(first, batch, AfterFeed(st, x, c), batch[i + 1..], reports + Listed(Told(st.socks[x], c)))
  {
    FeedHead(st, batch[i..]);
    assert batch[i..][1..] == batch[i + 1..];
    Associates(reports, Listed(Told(st.socks[batch[i].0], batch[i].1)), ToldAll(AfterFeed(st, batch[i].0, batch[i].1), batch[i + 1..]));
  }

  /** A batch leaves the port sound, completes the polls in it and no other, and fits the caller's array. */
  lemma {:induction false} FeedsSound(st: State, batch: seq<(Id, Completion)>)
    requires Feedable(st, batch)
    ensures Sound(AfterFeeds(st, batch)) && |ToldAll(st, batch)| <= |batch|
    ensures forall x :: x in AfterFeeds(st, batch).inflight <==> x in st.inflight && !Completes(batch, x)
    decreases |batch|
  {
    if batch != [] {
      FeedHead(st, batch);
      FeedSound(st, batch[0].0, batch[0].1);
      FeedsSound(AfterFeed(st, batch[0].0, batch[0].1), batch[1..]);
    }
  }

  /** The report that is due for a completion: of the events that were asked for and that it causes, if any. */
  ghost predicate Due(s: Sock, c: Completion, r: Report) {
    && !s.deletePending && !(c.Reported? && LocalClose in c.events)
    && r.data == s.userData && r.events != {} && forall e :: e in r.events <==> e in s.userEvents && Causes(c, e)
  }

  ghost predicate DueIn(socks: map<Id, Sock>, batch: seq<(Id, Completion)>, r: Report) {
    exists i :: 0 <= i < |batch| && batch[i].0 in socks && Due(socks[batch[i].0], batch[i].1, r)
  }

  lemma ToldIsDue(s: Sock, c: Completion, r: Report)
    ensures Told(s, c) == Some(r) <==> Due(s, c, r)
  {
    ToldExactly(s, c);
    if Due(s, c, r) {
      var e :| e in r.events;
      assert e in s.userEvents && Causes(c, e);
      assert Told(s, c).value.events == r.events;
    }
  }

  /** A completion leaves the other sockets alone. */
  lemma FeedOthers(st: State, x: Id, c: Completion, y: Id)
    requires Sound(st) && x in st.inflight && x in st.socks && st.socks[x].group in st.sizes && st.sizes[st.socks[x].group] > 0
    requires y != x
    ensures y in AfterFeed(st, x, c).socks <==> y in st.socks
    ensures y in st.socks ==> AfterFeed(st, x, c).socks[y] == st.socks[y]
  {
    if st.socks[x].deletePending || ClosedSocket(c) {
      DeleteOthers(Ended(st, x), x, y);
    }
  }

  lemma DeleteOthers(st: State, x: Id, y: Id)
    requires x in st.socks && st.socks[x].group in st.sizes && st.sizes[st.socks[x].group] > 0 && y != x
    ensures y in AfterDelete(st, x, true, false).socks <==> y in st.socks
    ensures y in st.socks ==> AfterDelete(st, x, true, false).socks[y] == st.socks[y]
  {
  }

  lemma DueNext(st: State, to: State, batch: seq<(Id, Completion)>, r: Report)
    requires batch != [] && forall i | 0 < i < |batch| :: batch[i].0 in to.socks <==> batch[i].0 in st.socks
    requires forall i | 0 < i < |batch| && batch[i].0 in st.socks :: to.socks[batch[i].0] == st.socks[batch[i].0]
    ensures DueIn(st.socks, batch, r)
      <==> (batch[0].0 in st.socks && Due(st.socks[batch[0].0], batch[0].1, r)) || DueIn(to.socks, batch[1..], r)
  {
    assert forall i | 0 < i < |batch| :: batch[1..][i - 1] == batch[i];
    if DueIn(to.socks, batch[1..], r) {
      var i :| 0 <= i < |batch[1..]| && batch[1..][i].0 in to.socks && Due(to.socks[batch[1..][i].0], batch[1..][i].1, r);
      assert batch[i + 1] == batch[1..][i];
    }
  }

  /** A batch is reported by exactly the reports that are due for its completions. */
  lemma {:induction false} ToldAllExactly(st: State, batch: seq<(Id, Completion)>)
    requires Feedable(st, batch)
    ensures forall r :: r in ToldAll(st, batch) <==> DueIn(st.socks, batch, r)
    decreases |batch|
  {
    if batch != [] {
      FeedHead(st, batch);
      var (x, c) := batch[0];
      var to := AfterFeed(st, x, c);
      ToldAllExactly(to, batch[1..]);
      forall i | 0 < i < |batch|
        ensures (batch[i].0 in to.socks <==> batch[i].0 in st.socks) && (batch[i].0 in st.socks ==> to.socks[batch[i].0] == st.socks[batch[i].0])
      {
        FeedOthers(st, x, c, batch[i].0);
      }
      forall r ensures r in ToldAll(st, batch) <==> DueIn(st.socks, batch, r) {
        DueNext(st, to, batch, r);
        ToldIsDue(st.socks[x], c, r);
      }
    }
  }

  predicate Completes(batch: seq<(Id, Completion)>, x: Id) {
    batch != [] && (batch[0].0 == x || Completes(batch[1..], x))
  }

  // ---------- what other threads do while a batch is on its way ----------

  /** What happens to a port under its lock: a socket gets its events, joins or leaves; the update queue is walked; or
      another batch of completions is fed. */
  datatype Deed =
    | Sets(x: Id, events: set<Event>, data: nat)
    | Joins(x: Id, key: nat, spare: Id, events: set<Event>, data: nat)
    | Refuses(spare: Id)
    | Leaves(x: Id, cancelled: bool)
    | Walks(turns: seq<Turn>)
    | Feeds(batch: seq<(Id, Completion)>)

  ghost predicate Possible(st: State, d: Deed) {
    match d
    case Sets(x, _, _) => x in st.socks && !st.socks[x].deletePending
    case Joins(x, key, spare, _, _) => x !in st.socks && key !in st.tree && spare !in st.groups
    case Refuses(spare) => spare !in st.groups
    case Leaves(x, _) => x in st.socks
    case Walks(_) => true
    case Feeds(batch) => Feedable(st, batch)
  }

  ghost function AfterDeed(st: State, d: Deed): State
    requires Sound(st) && Possible(st, d)
  {
    match d
    case Sets(x, events, data) => AfterSetEvent(st, x, events, data)
    case Joins(x, key, spare, events, data) => AfterAdd(st, x, key, spare, events, data)
    case Refuses(spare) => AfterRefused(st, spare)
    case Leaves(x, cancelled) =>
      AroundSound(st, x);
      DeleteDefined(st, x);
      AfterDelete(st, x, cancelled, false)
    case Walks(turns) => Walk(st, turns).st
    case Feeds(batch) => AfterFeeds(st, batch)
  }

  lemma DeedSound(st: State, d: Deed)
    requires Sound(st) && Possible(st, d)
    ensures Sound(AfterDeed(st, d))
  {
    match d
    case Sets(x, events, data) => SetEventSound(st, x, events, data);
    case Joins(x, key, spare, events, data) =>
      NewSound(st, x, key, spare);
      SetEventSound(AfterJoin(st, x, key, spare), x, events, data);
    case Refuses(spare) => RefusedSound(st, spare);
    case Leaves(x, cancelled) =>
      AroundSound(st, x);
      DeleteSound(st, x, cancelled, false);
    case Walks(turns) => WalkFacts(st, turns);
    case Feeds(batch) => FeedsSound(st, batch);
  }

  lemma UpdateKeepsPolls(st: State, x: Id, cancelled: bool, answer: Answer)
    requires x in st.socks && st.socks[x].group in st.sizes && st.sizes[st.socks[x].group] > 0
    ensures st.inflight <= AfterUpdate(st, x, cancelled, answer).inflight
  {
  }

  lemma {:induction false} WalkKeepsPolls(st: State, turns: seq<Turn>)
    requires Sound(st)
    ensures st.inflight <= Walk(st, turns).st.inflight
    decreases |st.updateQueue|
  {
    if st.updateQueue != [] {
      var x, turn := st.updateQueue[0], NextTurn(turns);
      UpdateFacts(st, x, turn.cancelled, turn.answer);
      UpdateKeepsPolls(st, x, turn.cancelled, turn.answer);
      if UpdateOk(st, x, turn.cancelled, turn.answer) {
        WalkKeepsPolls(AfterUpdate(st, x, turn.cancelled, turn.answer), LaterTurns(turns));
      }
    }
  }

  /** Only its own completion ends a poll. */
  lemma DeedKeepsPolls(st: State, d: Deed, x: Id)
    requires Sound(st) && Possible(st, d) && x in st.inflight && (d.Feeds? ==> !Completes(d.batch, x))
    ensures x in AfterDeed(st, d).inflight
  {
    match d
    case Walks(turns) => WalkKeepsPolls(st, turns);
    case Feeds(batch) => FeedsSound(st, batch);
    case _ =>
  }

  /** Whether the two batches have no socket in common. */
  predicate Apart(a: seq<(Id, Completion)>, b: seq<(Id, Completion)>) {
    forall i | 0 <= i < |a| :: !Completes(b, a[i].0)
  }

  ghost predicate PossibleRun(st: State, deeds: seq<Deed>, batch: seq<(Id, Completion)>)
    requires Sound(st)
    decreases |deeds|
  {
    deeds == []
    || (Possible(st, deeds[0]) && (deeds[0].Feeds? ==> Apart(batch, deeds[0].batch))
        && (DeedSound(st, deeds[0]); PossibleRun(AfterDeed(st, deeds[0]), deeds[1..], batch)))
  }

  ghost function AfterRun(st: State, deeds: seq<Deed>, batch: seq<(Id, Completion)>): State
    requires Sound(st) && PossibleRun(st, deeds, batch)
    decreases |deeds|
  {
    if deeds == [] then st else
      DeedSound(st, deeds[0]);
      AfterRun(AfterDeed(st, deeds[0]), deeds[1..], batch)
  }

  /** Whatever other threads do meanwhile, a batch that was dequeued can be fed, once the lock is held again: no
      poll in it ends by anything but its completion, and no two threads dequeue the same one. */
  lemma {:induction false} BatchKept(st: State, deeds: seq<Deed>, batch: seq<(Id, Completion)>)
    requires Feedable(st, batch) && PossibleRun(st, deeds, batch)
    ensures Feedable(AfterRun(st, deeds, batch), batch)
    decreases |deeds|
  {
    if deeds != [] {
      DeedSound(st, deeds[0]);
      forall i | 0 <= i < |batch| ensures batch[i].0 in AfterDeed(st, deeds[0]).inflight {
        DeedKeepsPolls(st, deeds[0], batch[i].0);
      }
      BatchKept(AfterDeed(st, deeds[0]), deeds[1..], batch);
    }
  }

  // ---------- port_ctl ----------

  /** How the system takes a new socket: whether it is a socket, and whether what has to be allocated can be. */
  datatype Luck = Luck(isSocket: bool, deviceOpens: bool, memory: bool)

  predicate Adds(st: State, key: nat, spare: Id, luck: Luck)
    requires forall g | g in st.groups :: g in st.sizes
  {
    luck.isSocket && (luck.deviceOpens || Acquired(st, spare) != spare) && luck.memory && key !in st.tree
  }

  /** The state after sock_new. */
  function AfterNew(st: State, x: Id, key: nat, spare: Id, luck: Luck): State
    requires forall g | g in st.groups :: g in st.sizes
  {
    if Adds(st, key, spare, luck) then AfterJoin(st, x, key, spare)
    else if luck.isSocket && (luck.deviceOpens || Acquired(st, spare) != spare) then AfterRefused(st, spare)
    else st
  }

  lemma NoNewSound(st: State, x: Id, key: nat, spare: Id, luck: Luck)
    requires Sound(st) && spare !in st.groups && !Adds(st, key, spare, luck)
    ensures Sound(AfterNew(st, x, key, spare, luck)) && Interest(AfterNew(st, x, key, spare, luck)) == Interest(st)
  {
    RefusedSound(st, spare);
  }

  lemma DelSound(st: State, key: nat, cancelled: bool)
    requires Sound(st) && key in st.tree
    ensures var x := st.tree[key];
      && x in st.socks && st.socks[x].group in st.sizes && st.sizes[st.socks[x].group] > 0
      && SoundAround(st, x) && st.socks[x].key == key && !st.socks[x].deletePending
  {
    var x := st.tree[key];
    AroundSound(st, x);
    DeleteSound(st, x, cancelled, false);
  }

  lemma ModSound(st: State, key: nat, events: set<Event>, data: nat)
    requires Sound(st) && key in st.tree
    ensures var x := st.tree[key];
      && x in st.socks && !st.socks[x].deletePending && SoundBut(st, {x}) && Sound(AfterSetEvent(st, x, events, data))
      && Interest(AfterSetEvent(st, x, events, data)) == Interest(st)[key := Registration(events + {Err, Hup}, data)]
  {
    SetEventFacts(st, st.tree[key], events, data);
  }

  // ---------- port_delete ----------

  lemma ForcedFrees(st: State, x: Id)
    requires Sound(st) && x in st.socks
    ensures st.socks[x].group in st.sizes && st.sizes[st.socks[x].group] > 0
    ensures SoundAround(st, x) && Shrinks(st, AfterDelete(st, x, false, true), x)
  {
    AroundSound(st, x);
    DeleteSound(st, x, false, true);
    ForcedShape(st, x);
  }

  lemma ForcedTree(st: State, k: nat)
    requires Sound(st) && k in st.tree
    ensures var x := st.tree[k];
      && x in st.socks && st.socks[x].group in st.sizes && st.sizes[st.socks[x].group] > 0
      && SoundAround(st, x) && |AfterDelete(st, x, false, true).tree| < |st.tree|
  {
    ForcedFrees(st, st.tree[k]);
    assert (st.tree - {k}).Keys == st.tree.Keys - {k};
  }

  ghost predicate Shrinks(st: State, to: State, x: Id)
    requires x in st.socks
  {
    && to.socks == st.socks - {x}
    && to.tree == (if st.socks[x].deletePending then st.tree else st.tree - {st.socks[x].key})
    && (st.socks[x].deletePending ==> |to.deletedQueue| < |st.deletedQueue|)
  }

  lemma ForcedShape(st: State, x: Id)
    requires x in st.socks && Placed(st, x) && st.socks[x].group in st.sizes && st.sizes[st.socks[x].group] > 0
    ensures Shrinks(st, AfterDelete(st, x, false, true), x)
  {
  }

  lemma AllPlaced(st: State)
    requires SocksOk(st, {})
    ensures forall x | x in st.socks :: x in st.deletedQueue || st.socks[x].key in st.tree
  {
    forall x | x in st.socks ensures x in st.deletedQueue || st.socks[x].key in st.tree {
      assert SockOk(st, x);
    }
  }

  /** When the tree and the deleted queue are empty, no socket is left, every group is empty, and nothing is
      queued for an update. */
  lemma NothingLeft(st: State)
    requires Sound(st) && st.tree == map[] && st.deletedQueue == []
    ensures st.socks == map[] && st.updateQueue == [] && st.inflight == {}
    ensures forall g | g in st.groups :: g in st.sizes && st.sizes[g] == 0
  {
    AllPlaced(st);
    assert forall x :: x !in st.socks;
    FirstIn(st.updateQueue);
    assert forall g :: Members(map[], g) == {};
  }

  class Port {
    var socks: map<Id, Sock>
    var tree: map<nat, Id>
    var updateQueue: seq<Id>
    var deletedQueue: seq<Id>
    var groups: seq<Id>
    var sizes: map<Id, nat>
    var activePolls: nat
    ghost var inflight: set<Id>

    ghost function Now(): State
      reads this
    {
      State(socks, tree, updateQueue, deletedQueue, groups, sizes, inflight)
    }

    /** port_new. */
    constructor ()
      ensures Sound(Now()) && socks == map[] && inflight == {} && activePolls == 0
    {
      socks, tree, updateQueue, deletedQueue, groups, sizes, activePolls := map[], map[], [], [], [], map[], 0;
      inflight := {};
    }

    /** port_request_socket_update. */
    method RequestUpdate(x: Id)
      modifies this`updateQueue
      ensures updateQueue == Requested(old(Now()), x)
    {
      if x in updateQueue || x in deletedQueue { return; }
      updateQueue := updateQueue + [x];
    }

    /** sock_set_event. */
    method SetEvent(x: Id, events: set<Event>, data: nat)
      requires SoundBut(Now(), {x}) && x in socks && !socks[x].deletePending
      modifies this`socks, this`updateQueue
      ensures Now() == AfterSetEvent(old(Now()), x, events, data) && Sound(Now())
      ensures Interest(Now()) == old(Interest(Now()))[old(socks[x]).key := Registration(events + {Err, Hup}, data)]
    {
      SetEventFacts(Now(), x, events, data);
      StoreEvents(x, events, data);
    }

    /** The body of sock_set_event. */
    method StoreEvents(x: Id, events: set<Event>, data: nat)
      requires x in socks
      modifies this`socks, this`updateQueue
      ensures Now() == AfterSetEvent(old(Now()), x, events, data)
    {
      socks := socks[x := socks[x].(userEvents := events + {Err, Hup}, userData := data)];
      if !Covered(socks[x]) {
        RequestUpdate(x);
      }
    }

    /** poll_group_acquire; `spare` is where a new group would be allocated, which fails unless `opens`. */
    method AcquireGroup(spare: Id, opens: bool) returns (g: Option<Id>)
      requires (forall h | h in groups :: h in sizes) && spare !in groups
      modifies this`groups, this`sizes
      ensures g.Some? <==> opens || Acquired(old(Now()), spare) != spare
      ensures if g.Some? then g.value == Acquired(old(Now()), spare) && Now() == AfterAcquire(old(Now()), spare) else Now() == old(Now())
    {
      var found: Id;
      if groups == [] || sizes[groups[|groups| - 1]] >= MAX_GROUP_SIZE {
        if !opens { return None; }
        found := spare;
        sizes := sizes[found := 0];
        groups := groups + [found];
      } else {
        found := groups[|groups| - 1];
      }
      sizes := sizes[found := sizes[found] + 1];
      if sizes[found] == MAX_GROUP_SIZE {
        groups := [found] + Without(groups, found);
      }
      g := Some(found);
    }

    /** poll_group_release. */
    method ReleaseGroup(g: Id)
      requires g in sizes && 0 < sizes[g] <= MAX_GROUP_SIZE
      modifies this`groups, this`sizes
      ensures Now() == AfterRelease(old(Now()), g) && sizes[g] < MAX_GROUP_SIZE
    {
      sizes := sizes[g := sizes[g] - 1];
      groups := Without(groups, g) + [g];
    }

    /** The part of sock__delete for a socket that is not deleted yet. `cancelled` is what afd_cancel_poll
        answers; a poll that it cannot cancel ends by itself. */
    method Unregister(x: Id, cancelled: bool)
      requires x in socks
      modifies this`socks, this`tree, this`updateQueue
      ensures Now() == AfterUnregister(old(Now()), x, cancelled)
    {
      var s := socks[x];
      if s.status.Pending? && cancelled {
        s := CancelledSock(s);
      }
      updateQueue := Without(updateQueue, x);
      tree := tree - {s.key};
      socks := socks[x := s.(deletePending := true)];
    }

    /** The part of sock__delete that frees a socket. */
    method FreeSock(x: Id)
      requires x in socks && socks[x].group in sizes && 0 < sizes[socks[x].group] <= MAX_GROUP_SIZE
      modifies this`socks, this`deletedQueue, this`groups, this`sizes
      ensures Now() == AfterFree(old(Now()), x)
    {
      deletedQueue := Without(deletedQueue, x);
      ReleaseGroup(socks[x].group);
      socks := socks - {x};
    }

    /** sock__delete. */
    method DeleteSock(x: Id, cancelled: bool, force: bool)
      requires SoundAround(Now(), x) && socks[x].group in sizes && sizes[socks[x].group] > 0
      modifies this`socks, this`tree, this`updateQueue, this`deletedQueue, this`groups, this`sizes, this`inflight
      ensures Now() == AfterDelete(old(Now()), x, cancelled, force) && Sound(Now())
      ensures Interest(Now()) == if old(socks[x]).deletePending then old(Interest(Now())) else old(Interest(Now())) - {old(socks[x]).key}
      ensures cancelled && !old(socks[x]).deletePending && x in socks ==> socks[x].status.Cancelled? && x in deletedQueue
    {
      DeleteFacts(Now(), x, cancelled, force);
      if !socks[x].deletePending {
        DeleteCancels(Now(), x, force);
      }
      Discard(x, cancelled, force);
    }

    /** The body of sock__delete. */
    method Discard(x: Id, cancelled: bool, force: bool)
      requires x in socks && socks[x].group in sizes && 0 < sizes[socks[x].group] <= MAX_GROUP_SIZE
      modifies this`socks, this`tree, this`updateQueue, this`deletedQueue, this`groups, this`sizes, this`inflight
      ensures Now() == AfterDelete(old(Now()), x, cancelled, force)
    {
      if !socks[x].deletePending {
        Unregister(x, cancelled);
      }
      if force || socks[x].status.Idle? {
        FreeSock(x);
        if force { inflight := inflight - {x}; }
      } else if x !in updateQueue && x !in deletedQueue {
        deletedQueue := deletedQueue + [x];
      }
    }

    /** The part of sock_update that starts a poll. */
    method StartPoll(x: Id, answer: Answer) returns (ok: bool)
      requires x in socks && socks[x].group in sizes && 0 < sizes[socks[x].group] <= MAX_GROUP_SIZE && socks[x].status.Idle?
      modifies this`socks, this`tree, this`updateQueue, this`deletedQueue, this`groups, this`sizes, this`inflight
      ensures Now() == AfterUpdate(old(Now()), x, true, answer) && ok == !answer.Failed?
    {
      socks := socks[x := Asking(socks[x])];
      match answer {
        case Submitted =>
          socks := socks[x := socks[x].(status := Pending, pendingEvents := socks[x].userEvents)];
          inflight := inflight + {x};
          updateQueue := Without(updateQueue, x);
          ok := true;
        case SocketGone =>
          Discard(x, true, false);
          ok := true;
        case Failed =>
          ok := false;
      }
    }

    /** sock_update. */
    method UpdateSock(x: Id, cancelled: bool, answer: Answer) returns (ok: bool)
      requires Sound(Now()) && x in updateQueue && x in socks && socks[x].group in sizes && sizes[socks[x].group] > 0
      modifies this`socks, this`tree, this`updateQueue, this`deletedQueue, this`groups, this`sizes, this`inflight
      ensures Now() == AfterUpdate(old(Now()), x, cancelled, answer) && Sound(Now())
      ensures ok == UpdateOk(old(Now()), x, cancelled, answer) && (ok ==> |updateQueue| < |old(updateQueue)|)
      ensures Interest(Now()) ==
        if old(socks[x]).status.Idle? && answer.SocketGone? then old(Interest(Now())) - {old(socks[x]).key} else old(Interest(Now()))
    {
      UpdateFacts(Now(), x, cancelled, answer);
      ok := Resubmit(x, cancelled, answer);
    }

    /** The body of sock_update. */
    method Resubmit(x: Id, cancelled: bool, answer: Answer) returns (ok: bool)
      requires x in socks && socks[x].group in sizes && 0 < sizes[socks[x].group] <= MAX_GROUP_SIZE
      modifies this`socks, this`tree, this`updateQueue, this`deletedQueue, this`groups, this`sizes, this`inflight
      ensures Now() == AfterUpdate(old(Now()), x, cancelled, answer) && ok == UpdateOk(old(Now()), x, cancelled, answer)
    {
      if socks[x].status.Idle? {
        ok := StartPoll(x, answer);
        return;
      }
      if socks[x].status.Pending? && !Covered(socks[x]) {
        if !cancelled { return false; }
        socks := socks[x := CancelledSock(socks[x])];
      }
      updateQueue := Without(updateQueue, x);
      ok := true;
    }

    /** sock_feed_event. */
    method FeedSock(x: Id, c: Completion) returns (r: Option<Report>)
      requires Sound(Now()) && x in inflight && x in socks && socks[x].group in sizes && sizes[socks[x].group] > 0
      modifies this`socks, this`tree, this`updateQueue, this`deletedQueue, this`groups, this`sizes, this`inflight
      ensures Now() == AfterFeed(old(Now()), x, c) && r == Told(old(socks[x]), c) && Sound(Now())
      ensures r.Some?
        <==> !old(socks[x]).deletePending && !(c.Reported? && LocalClose in c.events)
             && exists e :: e in old(socks[x]).userEvents && Causes(c, e)
      ensures r.Some? ==> r.value.data == old(socks[x]).userData
      ensures r.Some? ==> forall e :: e in r.value.events <==> e in old(socks[x]).userEvents && Causes(c, e)
      ensures var was, s := old(Interest(Now())), old(socks[x]);
        Interest(Now()) ==
          if s.deletePending then was
          else if c.Reported? && LocalClose in c.events then was - {s.key}
          else if r.Some? && OneShot in s.userEvents then was[s.key := Registration({}, s.userData)]
          else was
    {
      FeedFacts(Now(), x, c);
      ToldExactly(socks[x], c);
      r := Complete(x, c);
    }

    /** The body of sock_feed_event. */
    method Complete(x: Id, c: Completion) returns (r: Option<Report>)
      requires x in socks && socks[x].group in sizes && 0 < sizes[socks[x].group] <= MAX_GROUP_SIZE
      modifies this`socks, this`tree, this`updateQueue, this`deletedQueue, this`groups, this`sizes, this`inflight
      ensures Now() == AfterFeed(old(Now()), x, c) && r == Told(old(socks[x]), c)
    {
      var s := socks[x].(status := Idle, pendingEvents := {});
      socks := socks[x := s];
      inflight := inflight - {x};
      if s.deletePending || ClosedSocket(c) {
        Discard(x, true, false);
        return None;
      }
      var events := Meant(c);
      RequestUpdate(x);
      events := events * s.userEvents;
      if events == {} {
        return None;
      }
      if OneShot in s.userEvents {
        socks := socks[x := s.(userEvents := {})];
      }
      r := Some(Report(s.userData, events));
    }

    /** The body of the loop in port__feed_events. */
    method FeedNext(ghost first: State, batch: seq<(Id, Completion)>, i: nat, reports1: seq<Report>) returns (reports: seq<Report>)
      requires Feedable(first, batch) && i < |batch| && Feeding(first, batch, Now(), batch[i..], reports1)
      modifies this`socks, this`tree, this`updateQueue, this`deletedQueue, this`groups, this`sizes, this`inflight
      ensures Feeding(first, batch, Now(), batch[i + 1..], reports)
    {
      FeedStep(first, batch, Now(), i, reports1);
      var r := FeedSock(batch[i].0, batch[i].1);
      reports := reports1 + Listed(r);
    }

    /** port__feed_events: each completion reports at most one event, in the order they were dequeued. */
    method FeedEvents(batch: seq<(Id, Completion)>) returns (reports: seq<Report>)
      requires Feedable(Now(), batch)
      modifies this`socks, this`tree, this`updateQueue, this`deletedQueue, this`groups, this`sizes, this`inflight
      ensures Now() == AfterFeeds(old(Now()), batch) && reports == ToldAll(old(Now()), batch)
      ensures forall r :: r in reports <==> DueIn(old(socks), batch, r)
    {
      ghost var first := Now();
      ToldAllExactly(first, batch);
      reports := [];
      FeedingBegins(first, batch);
      var i := 0;
      while i < |batch|
        invariant 0 <= i <= |batch| && Feeding(first, batch, Now(), batch[i..], reports)
      {
        reports := FeedNext(first, batch, i, reports);
        i := i + 1;
      }
      FeedingEnds(first, batch, Now(), batch[i..], reports);
    }

    /** port__update_events. */
    method UpdateEvents(turns: seq<Turn>) returns (ok: bool)
      requires Sound(Now())
      modifies this`socks, this`tree, this`updateQueue, this`deletedQueue, this`groups, this`sizes, this`inflight
      ensures Walked(Now(), ok) == Walk(old(Now()), turns)
    {
      var left := turns;
      while updateQueue != []
        invariant Sound(Now()) && Walk(Now(), left) == Walk(old(Now()), turns)
        decreases |updateQueue|
      {
        WalkOn(Now(), left);
        var turn := NextTurn(left);
        ok := UpdateSock(updateQueue[0], turn.cancelled, turn.answer);
        if !ok { return; }
        left := LaterTurns(left);
      }
      ok := true;
    }

    /** port__update_events_if_polling. */
    method UpdateEventsIfPolling(turns: seq<Turn>)
      requires Sound(Now())
      modifies this`socks, this`tree, this`updateQueue, this`deletedQueue, this`groups, this`sizes, this`inflight
      ensures Sound(Now()) && Now() == Polled(old(Now()), activePolls, turns)
    {
      WalkFacts(Now(), turns);
      if activePolls > 0 {
        var ok := UpdateEvents(turns);
      }
    }

    /** sock_new; the socket would be allocated at `x`. */
    method NewSock(x: Id, key: nat, spare: Id, luck: Luck) returns (ok: bool)
      requires GroupsOk(Now()) && spare !in groups && x !in socks
      modifies this`socks, this`tree, this`groups, this`sizes
      ensures ok == Adds(old(Now()), key, spare, luck) && Now() == AfterNew(old(Now()), x, key, spare, luck)
    {
      AcquiredSize(Now(), spare);
      if !luck.isSocket { return false; }
      var g := AcquireGroup(spare, luck.deviceOpens);
      if g.None? { return false; }
      ok := luck.memory && key !in tree;
      if ok {
        tree := tree[key := x];
        socks := socks[x := Sock(key, g.value, {}, 0, {}, Idle, false, {})];
      } else {
        ReleaseGroup(g.value);
      }
    }

    /** port__ctl_add. While some thread waits in the port, the new poll is submitted at once. */
    method CtlAdd(x: Id, key: nat, events: set<Event>, data: nat, spare: Id, luck: Luck, turns: seq<Turn>) returns (ok: bool)
      requires Sound(Now()) && spare !in groups && x !in socks
      modifies this`socks, this`tree, this`updateQueue, this`deletedQueue, this`groups, this`sizes, this`inflight
      ensures Sound(Now()) && ok == Adds(old(Now()), key, spare, luck)
      ensures ok <==> luck.isSocket && luck.memory && key !in old(tree) && (luck.deviceOpens || RoomIn(old(groups), old(sizes)))
      ensures !ok ==> Now() == AfterNew(old(Now()), x, key, spare, luck)
      ensures ok ==> Sound(AfterAdd(old(Now()), x, key, spare, events, data))
      ensures ok ==> Now() == Polled(AfterAdd(old(Now()), x, key, spare, events, data), activePolls, turns)
    {
      ghost var was := Now();
      RoomToJoin(was, spare);
      ok := NewSock(x, key, spare, luck);
      if !ok {
        NoNewSound(was, x, key, spare, luck);
        return;
      }
      NewSound(was, x, key, spare);
      SetEvent(x, events, data);
      UpdateEventsIfPolling(turns);
    }

    /** port__ctl_mod. */
    method CtlMod(key: nat, events: set<Event>, data: nat, turns: seq<Turn>) returns (ok: bool)
      requires Sound(Now())
      modifies this`socks, this`tree, this`updateQueue, this`deletedQueue, this`groups, this`sizes, this`inflight
      ensures Sound(Now()) && ok == (key in old(tree)) && (!ok ==> Now() == old(Now()))
      ensures ok ==> old(tree)[key] in old(socks) && Sound(AfterSetEvent(old(Now()), old(tree)[key], events, data))
      ensures ok ==> Now() == Polled(AfterSetEvent(old(Now()), old(tree)[key], events, data), activePolls, turns)
    {
      ok := key in tree;
      if ok {
        ModSound(Now(), key, events, data);
        SetEvent(tree[key], events, data);
        UpdateEventsIfPolling(turns);
      }
    }

    /** port__ctl_del. */
    method CtlDel(key: nat, cancelled: bool) returns (ok: bool)
      requires Sound(Now())
      modifies this`socks, this`tree, this`updateQueue, this`deletedQueue, this`groups, this`sizes, this`inflight
      ensures Sound(Now()) && ok == (key in old(tree)) && (!ok ==> Now() == old(Now()))
      ensures Interest(Now()) == old(Interest(Now())) - {key}
    {
      ok := key in tree;
      if ok {
        DelSound(Now(), key, cancelled);
        DeleteSock(tree[key], cancelled, false);
      }
    }

    /** port__poll until the lock is released: whatever is watched has been submitted. */
    method PollBegin(turns: seq<Turn>) returns (ok: bool)
      requires Sound(Now())
      modifies this
      ensures Sound(Now()) && Walked(Now(), ok) == Walk(old(Now()), turns)
      ensures activePolls == old(activePolls) + (if ok then 1 else 0) && (ok ==> updateQueue == [])
    {
      WalkFacts(Now(), turns);
      ok := UpdateEvents(turns);
      if ok {
        activePolls := activePolls + 1;
      }
    }

    /** port__poll once the lock is held again, with the completions that were dequeued meanwhile, if any. */
    method PollEnd(dequeued: Option<seq<(Id, Completion)>>) returns (reports: Option<seq<Report>>)
      requires Sound(Now()) && activePolls > 0 && (dequeued.Some? ==> Feedable(Now(), dequeued.value))
      modifies this
      ensures Sound(Now()) && activePolls == old(activePolls) - 1 && (reports.Some? <==> dequeued.Some?)
      ensures if dequeued.None? then Now() == old(Now())
        else Now() == AfterFeeds(old(Now()), dequeued.value) && reports.value == ToldAll(old(Now()), dequeued.value)
    {
      activePolls := activePolls - 1;
      if dequeued.None? { return None; }
      FeedsSound(Now(), dequeued.value);
      var fed := FeedEvents(dequeued.value);
      reports := Some(fed);
    }

    /** The first loop of port_delete. */
    method DeleteTree()
      requires Sound(Now())
      modifies this`socks, this`tree, this`updateQueue, this`deletedQueue, this`groups, this`sizes, this`inflight
      ensures Sound(Now()) && tree == map[]
    {
      while tree != map[]
        invariant Sound(Now())
        decreases |tree|
      {
        var k :| k in tree;
        ForcedTree(Now(), k);
        DeleteSock(tree[k], false, true);
      }
    }

    /** The second loop of port_delete. */
    method DeleteDeleted()
      requires Sound(Now()) && tree == map[]
      modifies this`socks, this`tree, this`updateQueue, this`deletedQueue, this`groups, this`sizes, this`inflight
      ensures Sound(Now()) && tree == map[] && deletedQueue == []
    {
      while deletedQueue != []
        invariant Sound(Now()) && tree == map[]
        decreases |deletedQueue|
      {
        var x := deletedQueue[0];
        ForcedFrees(Now(), x);
        DeleteSock(x, false, true);
      }
    }

    /** port_delete: the loops end, the assertions hold, and every socket and every group is freed. */
    method DeletePort()
      requires Sound(Now())
      modifies this
      ensures Now() == State(map[], map[], [], [], [], sizes, {})
    {
      DeleteTree();
      DeleteDeleted();
      NothingLeft(Now());
      while groups != []
        invariant Now() == State(map[], map[], [], [], groups, sizes, {})
        invariant forall g | g in groups :: g in sizes && sizes[g] == 0
        decreases |groups|
      {
        assert sizes[groups[0]] == 0;
        groups := groups[1..];
      }
      assert updateQueue == [];
    }
  }
}
