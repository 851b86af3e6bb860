/** Whole runs of one loop thread serving connections: src/tcp_server.cc, the dispatch order of
    src/channel.cc and the life cycle of src/tcp_connection.cc, with user code taking a step wherever
    a callback may run. A connection exists while something refers to it and is destroyed when the
    last reference goes. */
module ServerRuns {
  import opened Bytes
  import opened Pollers
  import opened Connections

  type ConnId = nat

  /** A TcpConnection object: its state and its descriptor, which stays open as long as it lives. */
  datatype Peer = Peer(conn: Conn, fd: int)

  /** What QueueInLoop was given, as far as it keeps connections alive. */
  datatype Functor = Destroy(id: ConnId) | WriteComplete(id: ConnId) | User(refs: set<ConnId>)

  function Refs(f: Functor): set<ConnId>
  {
    match f
    case Destroy(id) => {id}
    case WriteComplete(id) => {id}
    case User(refs) => refs
  }

  datatype Phase = Polling | Dispatching | Timers | Calling

  /** Channel::Handle on one channel: `stage` counts its four tests, in the order read, write,
      error, close. `closing`: HandleClose is inside conn_cb_ and close_cb_ is still to come. */
  datatype Handling = Handling(id: ConnId, revents: Revents, stage: nat, closing: bool)

  /** `active` is the part of actived_channels_ not handled yet; `newborn` is a connection inside
      conn_cb_ of OnEstablished, not yet in id_conn_; the first `done` functors of `calling` have run;
      `held` are the connections user code keeps a pointer to; `called` is the history of functors. */
  datatype World = World(
    conns: map<ConnId, Peer>, idConn: set<ConnId>, nextId: nat, phase: Phase,
    active: seq<(ConnId, Revents)>, current: Option<Handling>, newborn: Option<ConnId>,
    pending: seq<Functor>, calling: seq<Functor>, done: nat, held: set<ConnId>,
    called: seq<Functor>)

  const START := World(map[], {}, 0, Polling, [], None, None, [], [], 0, {}, [])

  datatype Step =
    | PollReturns(active: seq<(ConnId, Revents)>)
    | Accept(fd: int)                       // NewConnection up to conn_cb_
    | AcceptDone                            // conn_cb_ has returned
    | Handle                                // Channel::Handle on the next active channel
    | SkipStage                             // a test of Handle that fails
    | ReadData                              // HandleRead, readable_cb_ follows
    | ReadEof
    | ReadError
    | Writable(r: WriteResult)
    | HandleError
    | HangUp
    | CloseReturns                          // conn_cb_ has returned, close_cb_ runs
    | HandleDone
    | DispatchDone
    | SwapFunctors
    | CallFunctor
    | ClearFunctors
    | UserSend(id: ConnId, data: string, r: WriteResult)
    | UserShutdown(id: ConnId)
    | UserQueue(refs: set<ConnId>)
    | UserHold(id: ConnId)
    | UserDrop(id: ConnId)

  function ConnOf(w: World, id: ConnId): Conn
    requires id in w.conns
  {
    w.conns[id].conn
  }

  predicate InUserCode(w: World)
  {
    w.phase != Polling
  }

  /** Between two callbacks of Handle: stage `k` is about to be tested. */
  predicate AtStage(w: World, k: nat)
  {
    w.phase == Dispatching && w.newborn.None? && w.current.Some? && !w.current.value.closing &&
    w.current.value.stage == k && w.current.value.id in w.conns
  }

  /** What the code, the kernel and the user may do next. */
  predicate Enabled(w: World, s: Step)
  {
    match s
    case PollReturns(active) =>
      // poll and epoll report registered descriptors, each once, and POLLOUT only when asked for
      w.phase == Polling &&
      (forall i | 0 <= i < |active| ::
         active[i].0 in w.conns && ConnOf(w, active[i].0).registered &&
         (active[i].1.writable ==> ConnOf(w, active[i].0).writing)) &&
      (forall i, j | 0 <= i < j < |active| :: active[i].0 != active[j].0)
    case Accept(fd) =>
      // accept returns a descriptor that is not open
      w.phase == Dispatching && w.current.None? && w.newborn.None? && fd >= 0 &&
      (forall id | id in w.conns :: w.conns[id].fd != fd)
    case AcceptDone => w.newborn.Some?
    case Handle => w.phase == Dispatching && w.current.None? && w.newborn.None? && w.active != []
    case SkipStage =>
      w.current.Some? && w.current.value.stage < 4 && AtStage(w, w.current.value.stage) &&
      !Flagged(w.current.value.revents, w.current.value.stage)
    case ReadData => AtStage(w, 0) && Flagged(w.current.value.revents, 0)
    case ReadEof => AtStage(w, 0) && Flagged(w.current.value.revents, 0)
    case ReadError => AtStage(w, 0) && Flagged(w.current.value.revents, 0)
    case Writable(r) =>
      AtStage(w, 1) && Flagged(w.current.value.revents, 1) &&
      Possible(r, |ConnOf(w, w.current.value.id).out|)
    case HandleError => AtStage(w, 2) && Flagged(w.current.value.revents, 2)
    case HangUp => AtStage(w, 3) && Flagged(w.current.value.revents, 3)
    case CloseReturns => w.current.Some? && w.current.value.closing
    case HandleDone => AtStage(w, 4)
    case DispatchDone => w.phase == Dispatching && w.current.None? && w.newborn.None? && w.active == []
    case SwapFunctors => w.phase == Timers
    case CallFunctor => w.phase == Calling && w.done < |w.calling| && Refs(w.calling[w.done]) <= w.conns.Keys
    case ClearFunctors => w.phase == Calling && w.done == |w.calling|
    case UserSend(id, data, r) => InUserCode(w) && id in w.conns && Possible(r, |data|)
    case UserShutdown(id) => InUserCode(w) && id in w.conns
    case UserQueue(refs) => InUserCode(w) && refs <= w.conns.Keys
    case UserHold(id) => InUserCode(w) && id in w.conns
    case UserDrop(id) => InUserCode(w) && id in w.held
  }

  function Put(w: World, id: ConnId, c: Conn): World
    requires id in w.conns
  {
    w.(conns := w.conns[id := w.conns[id].(conn := c)])
  }

  function Push(w: World, f: Functor): World
  {
    w.(pending := w.pending + [f])
  }

  /** Store the outcome of an operation on a connection; a queued write_cb_ goes to the loop. */
  function Commit(w: World, id: ConnId, c: Conn): World
    requires id in w.conns
  {
    if Queued(ConnOf(w, id), c) then Push(Put(w, id, c), WriteComplete(id)) else Put(w, id, c)
  }

  function NextStage(w: World): World
    requires w.current.Some?
  {
    w.(current := Some(w.current.value.(stage := w.current.value.stage + 1)))
  }

  /** HandleClose called from the current stage: a second call returns at once (line 130). */
  function Close(w: World): World
    requires w.current.Some? && w.current.value.id in w.conns
  {
    var id := w.current.value.id;
    var c := ConnOf(w, id);
    if c.state == Disconnected then NextStage(w)
    else
      Put(w, id, HandleClose(c)).(
        current := Some(w.current.value.(stage := w.current.value.stage + 1, closing := true)))
  }

  /** Does anything still point at the connection? */
  predicate Referenced(w: World, id: ConnId)
  {
    id in w.idConn || w.newborn == Some(id) || id in w.held ||
    (exists f | f in w.pending :: id in Refs(f)) || (exists f | f in w.calling :: id in Refs(f))
  }

  /** Destroy every connection that has lost its last reference. */
  function Reap(w: World): World
  {
    w.(conns := map id | id in w.conns && Referenced(w, id) :: w.conns[id])
  }

  function Next(w: World, s: Step): World
    requires Enabled(w, s)
  {
    match s
    case PollReturns(active) => w.(phase := Dispatching, active := active)
    case Accept(fd) =>
      w.(conns := w.conns[w.nextId := Peer(OPENED, fd)], newborn := Some(w.nextId), nextId := w.nextId + 1)
    case AcceptDone => w.(idConn := w.idConn + {w.newborn.value}, newborn := None)
    case Handle =>
      w.(current := Some(Handling(w.active[0].0, w.active[0].1, 0, false)), active := w.active[1..])
    case SkipStage => NextStage(w)
    case ReadData => NextStage(w)
    case ReadEof => Close(w)
    case ReadError => NextStage(w)
    case Writable(r) =>
      var id := w.current.value.id;
      NextStage(Commit(w, id, HandleWrite(ConnOf(w, id), r)))
    case HandleError => NextStage(w)
    case HangUp => Close(w)
    case CloseReturns =>
      var id := w.current.value.id;
      Push(w, Destroy(id)).(idConn := w.idConn - {id}, current := Some(w.current.value.(closing := false)))
    case HandleDone => w.(current := None)
    case DispatchDone => w.(phase := Timers)
    case SwapFunctors => w.(phase := Calling, calling := w.pending, pending := [], done := 0)
    case CallFunctor =>
      var f := w.calling[w.done];
      var called := if f.Destroy? then Commit(w, f.id, DestroyConnection(ConnOf(w, f.id))) else w;
      called.(done := w.done + 1, called := w.called + [f])
    case ClearFunctors => Reap(w.(phase := Polling, calling := [], done := 0))
    case UserSend(id, data, r) => Commit(w, id, Send(ConnOf(w, id), data, r))
    case UserShutdown(id) => Commit(w, id, Shutdown(ConnOf(w, id)))
    case UserQueue(refs) => Push(w, User(refs))
    case UserHold(id) => w.(held := w.held + {id})
    case UserDrop(id) => Reap(w.(held := w.held - {id}))
  }

  // ---------------------------------------------------------------- the invariant

  predicate Open(w: World, id: ConnId)
  {
    id in w.conns && w.conns[id].conn.state != Disconnected
  }

  predicate Closing(w: World, id: ConnId)
  {
    w.current.Some? && w.current.value.id == id && w.current.value.closing
  }

  /** DestroyConnection is queued and has not run. */
  predicate Doomed(w: World, id: ConnId)
    requires w.done <= |w.calling|
  {
    Destroy(id) in w.pending || Destroy(id) in w.calling[w.done..]
  }

  ghost predicate Phases(w: World)
  {
    && w.done <= |w.calling|
    && (w.phase != Dispatching ==> w.active == [] && w.current.None? && w.newborn.None?)
    && (w.phase != Calling ==> w.calling == [])
    && (w.newborn.Some? ==> w.current.None?)
  }

  /** Pointers are not dangling, and each connection keeps its own invariant. */
  ghost predicate Pointers(w: World)
  {
    && (forall id | id in w.conns :: id < w.nextId && Inv(w.conns[id].conn))
    && w.idConn <= w.conns.Keys && w.held <= w.conns.Keys
    && (w.newborn.Some? ==> w.newborn.value in w.conns)
    && (forall f | f in w.pending || f in w.calling :: Refs(f) <= w.conns.Keys)
  }

  /** Nothing leaks: every connection is still pointed at. */
  ghost predicate NoLeak(w: World)
  {
    forall id | id in w.conns :: Referenced(w, id)
  }

  /** Descriptors of live connections differ, so a lookup by descriptor finds the right channel. */
  ghost predicate DistinctFds(w: World)
  {
    forall a, b | a in w.conns && b in w.conns && a != b :: w.conns[a].fd != w.conns[b].fd
  }

  /** Open connections are owned by the server; a closed one that is (again) in the poller has its
      DestroyConnection still to come. */
  ghost predicate Owners(w: World)
    requires w.done <= |w.calling|
  {
    && (forall id | id in w.conns ::
          if Open(w, id) then id in w.idConn || w.newborn == Some(id)
          else
            && w.newborn != Some(id)
            && (id in w.idConn <==> Closing(w, id))
            && (w.conns[id].conn.registered ==> Doomed(w, id)))
    && (forall id | Closing(w, id) :: id in w.conns && !Open(w, id) && !w.conns[id].conn.registered)
  }

  ghost predicate Queues(w: World)
  {
    && (forall f | f in w.pending || f in w.calling :: f.Destroy? ==> !Open(w, f.id))
    && (w.phase == Calling || w.phase == Polling ==>
          forall f | f in w.pending :: !f.Destroy? && (f.WriteComplete? ==> Open(w, f.id)))
  }

  /** A channel still to be handled belongs to a live connection, and if POLLOUT was reported for it
      there are bytes to write. */
  ghost predicate Handleable(w: World, id: ConnId, writes: bool)
    requires w.done <= |w.calling|
  {
    && id in w.conns
    && (Open(w, id) || Doomed(w, id) || Closing(w, id))
    && (writes ==> w.conns[id].conn.out != "")
  }

  ghost predicate Batch(w: World)
    requires w.done <= |w.calling|
  {
    && (forall i | 0 <= i < |w.active| :: Handleable(w, w.active[i].0, w.active[i].1.writable))
    && (forall i, j | 0 <= i < j < |w.active| :: w.active[i].0 != w.active[j].0)
    && (w.current.Some? ==>
          var h := w.current.value;
          && Handleable(w, h.id, h.stage <= 1 && h.revents.writable)
          && (forall i | 0 <= i < |w.active| :: w.active[i].0 != h.id))
  }

  ghost predicate Sound(w: World)
  {
    Phases(w) && Pointers(w) && NoLeak(w) && DistinctFds(w) && Owners(w) && Queues(w) && Batch(w)
  }

  lemma StartSound()
    ensures Sound(START)
  {
  }

  // ---------------------------------------------------------------- every step keeps it

  predicate WritesLeft(current: Option<Handling>, id: ConnId)
  {
    current.Some? && current.value.id == id && current.value.stage <= 1 && current.value.revents.writable
  }

  /** If POLLOUT was reported for the connection and is still to be handled, `c` has bytes to write. */
  predicate KeepsBytes(w: World, id: ConnId, c: Conn)
  {
    && (forall i | 0 <= i < |w.active| :: w.active[i].0 == id && w.active[i].1.writable ==> c.out != "")
    && (WritesLeft(w.current, id) ==> c.out != "")
  }

  lemma PutRefs(w: World, id: ConnId, c: Conn)
    requires id in w.conns
    ensures Put(w, id, c).conns.Keys == w.conns.Keys
    ensures forall x :: Referenced(Put(w, id, c), x) <==> Referenced(w, x)
  {
  }

  lemma PutBatch(w: World, id: ConnId, c: Conn)
    requires Phases(w) && Batch(w) && id in w.conns && KeepsBytes(w, id, c)
    requires c.state == Disconnected <==> ConnOf(w, id).state == Disconnected
    ensures Batch(Put(w, id, c))
  {
    hide Inv;
    var r := Put(w, id, c);
    forall x, writes | Handleable(w, x, writes) && (x == id && writes ==> c.out != "")
      ensures Handleable(r, x, writes)
    {
      assert Open(r, x) <==> Open(w, x);
      assert Doomed(r, x) <==> Doomed(w, x);
    }
  }

  lemma PutSound(w: World, id: ConnId, c: Conn)
    requires Sound(w) && id in w.conns && Inv(c) && KeepsBytes(w, id, c)
    requires c.state == Disconnected <==> ConnOf(w, id).state == Disconnected
    requires c.state == Disconnected && c.registered ==> Doomed(w, id) && !Closing(w, id)
    ensures Sound(Put(w, id, c))
  {
    hide Inv, Owners, Queues, Batch, Referenced, KeepsBytes;
    PutRefs(w, id, c);
    PutBatch(w, id, c);
    PutOwners(w, id, c);
  }

  lemma PutOwners(w: World, id: ConnId, c: Conn)
    requires Phases(w) && Owners(w) && Queues(w) && id in w.conns
    requires c.state == Disconnected <==> ConnOf(w, id).state == Disconnected
    requires c.state == Disconnected && c.registered ==> Doomed(w, id) && !Closing(w, id)
    ensures Owners(Put(w, id, c)) && Queues(Put(w, id, c))
  {
    var r := Put(w, id, c);
    assert forall x :: Open(r, x) <==> Open(w, x);
    assert forall x :: Closing(r, x) <==> Closing(w, x);
  }

  lemma PushSound(w: World, f: Functor)
    requires Sound(w) && Refs(f) <= w.conns.Keys
    requires f.Destroy? ==> !Open(w, f.id) && w.phase != Calling
    requires f.WriteComplete? && w.phase == Calling ==> Open(w, f.id)
    requires w.phase != Polling
    ensures Sound(Push(w, f))
  {
    hide Inv;
    var r := Push(w, f);
    forall g ensures g in r.pending <==> g == f || g in w.pending {
    }
    forall x ensures Referenced(w, x) ==> Referenced(r, x) {
      if g :| g in w.pending && x in Refs(g) { assert g in r.pending; }
    }
    assert forall x :: Open(r, x) <==> Open(w, x);
  }

  lemma CommitSound(w: World, id: ConnId, c: Conn)
    requires Sound(w) && id in w.conns && Inv(c) && KeepsBytes(w, id, c) && w.phase != Polling
    requires c.state == Disconnected <==> ConnOf(w, id).state == Disconnected
    requires c.state == Disconnected && c.registered ==> Doomed(w, id) && !Closing(w, id)
    requires Queued(ConnOf(w, id), c) && w.phase == Calling ==> c.state != Disconnected
    ensures Sound(Commit(w, id, c))
  {
    hide Inv, Sound, Queued, KeepsBytes;
    PutSound(w, id, c);
    if Queued(ConnOf(w, id), c) {
      PushSound(Put(w, id, c), WriteComplete(id));
    }
  }

  lemma NextStageSound(w: World)
    requires Sound(w) && w.current.Some?
    ensures Sound(NextStage(w))
  {
    hide Inv;
    var r := NextStage(w);
    assert forall x :: Closing(r, x) <==> Closing(w, x);
    assert forall x :: Referenced(r, x) <==> Referenced(w, x);
  }

  /** HandleClose on the current channel, up to conn_cb_. */
  lemma CloseSound(w: World)
    requires Sound(w) && w.phase == Dispatching && w.current.Some? && !w.current.value.closing
    ensures w.current.value.id in w.conns && Sound(Close(w))
  {
    hide Inv;
    var id := w.current.value.id;
    var c := ConnOf(w, id);
    if c.state == Disconnected {
      NextStageSound(w);
    } else {
      HandleCloseKeeps(c);
      CloseOpenSound(w);
    }
  }

  lemma CloseOpenSound(w: World)
    requires Sound(w) && w.phase == Dispatching && w.current.Some? && !w.current.value.closing
    requires w.current.value.id in w.conns && Open(w, w.current.value.id)
    requires Inv(HandleClose(ConnOf(w, w.current.value.id)))
    ensures Sound(Close(w))
  {
    hide Inv;
    var id := w.current.value.id;
    var r := Close(w);
    PutRefs(w, id, HandleClose(ConnOf(w, id)));
    assert forall x :: Referenced(r, x) <==> Referenced(w, x);
    assert forall x | x != id :: Open(r, x) <==> Open(w, x);
    assert forall x :: Closing(r, x) <==> x == id;
    assert !(Destroy(id) in w.pending || Destroy(id) in w.calling);
    assert forall x :: Doomed(r, x) <==> Doomed(w, x);
  }

  /** close_cb_, RemoveConnection. */
  lemma CloseReturnsSound(w: World)
    requires Sound(w) && Enabled(w, CloseReturns)
    ensures Sound(Next(w, CloseReturns))
  {
    hide Inv;
    var id := w.current.value.id;
    var r := Next(w, CloseReturns);
    assert Destroy(id) in r.pending;
    forall g ensures g in r.pending <==> g == Destroy(id) || g in w.pending {
    }
    assert forall x :: Open(r, x) <==> Open(w, x);
    assert forall x :: !Closing(r, x);
    forall x ensures Referenced(w, x) ==> Referenced(r, x) {
      if g :| g in w.pending && x in Refs(g) { assert g in r.pending; }
      if x == id { assert id in Refs(Destroy(id)); }
    }
  }

  lemma ConnFacts(w: World, id: ConnId)
    requires Sound(w) && id in w.conns
    ensures Phases(w) && Inv(ConnOf(w, id))
    ensures !Open(w, id) && ConnOf(w, id).registered ==> Doomed(w, id) && !Closing(w, id)
  {
  }

  lemma CurrentFacts(w: World)
    requires Sound(w) && w.current.Some?
    ensures Phases(w) && w.phase == Dispatching && w.current.value.id in w.conns
    ensures forall i | 0 <= i < |w.active| :: w.active[i].0 != w.current.value.id
    ensures !w.current.value.closing && !Open(w, w.current.value.id) ==> Doomed(w, w.current.value.id)
    ensures WritesLeft(w.current, w.current.value.id) ==> ConnOf(w, w.current.value.id).out != ""
  {
    hide Inv;
  }

  lemma WritableSound(w: World, r: WriteResult)
    requires Sound(w) && Enabled(w, Writable(r))
    ensures Sound(Next(w, Writable(r)))
  {
    hide Inv, Queued, Sound;
    var id := w.current.value.id;
    var c := ConnOf(w, id);
    ConnFacts(w, id);
    CurrentFacts(w);
    HandleWriteKeeps(c, r);
    HandleWriteState(c, r);
    NextStageSound(w);
    CommitSound(NextStage(w), id, HandleWrite(c, r));
  }

  lemma HandleWriteState(c: Conn, r: WriteResult)
    requires Possible(r, |c.out|)
    ensures HandleWrite(c, r).state == c.state
  {
  }

  lemma SendShape(c: Conn, data: string, r: WriteResult)
    requires Inv(c) && Possible(r, |data|)
    ensures Send(c, data, r).state == c.state
    ensures c.state == Disconnected ==> Send(c, data, r) == c
    ensures c.out != "" ==> Send(c, data, r).out != ""
  {
    if c.state == Established { BufferedMeansArmed(c); }
  }

  lemma NotQueued(c: Conn)
    ensures !Queued(c, c)
  {
  }

  lemma StillKeepsBytes(w: World, id: ConnId, c: Conn)
    requires Sound(w) && id in w.conns && (ConnOf(w, id).out != "" ==> c.out != "")
    ensures KeepsBytes(w, id, c)
  {
    hide Inv;
  }

  lemma UserSendSound(w: World, id: ConnId, data: string, r: WriteResult)
    requires Sound(w) && Enabled(w, UserSend(id, data, r))
    ensures Sound(Next(w, UserSend(id, data, r)))
  {
    hide Inv, Queued, Sound, Send;
    var c := ConnOf(w, id);
    ConnFacts(w, id);
    SendKeeps(c, data, r);
    SendShape(c, data, r);
    NotQueued(c);
    StillKeepsBytes(w, id, Send(c, data, r));
    CommitSound(w, id, Send(c, data, r));
  }

  lemma UserShutdownSound(w: World, id: ConnId)
    requires Sound(w) && Enabled(w, UserShutdown(id))
    ensures Sound(Next(w, UserShutdown(id)))
  {
    hide Inv, Queued, Sound;
    var c := ConnOf(w, id);
    ConnFacts(w, id);
    ShutdownKeeps(c);
    NotQueued(c);
    StillKeepsBytes(w, id, Shutdown(c));
    CommitSound(w, id, Shutdown(c));
  }

  lemma FunctorFacts(w: World)
    requires Sound(w) && w.phase == Calling && w.done < |w.calling| && w.calling[w.done].Destroy?
    ensures !Open(w, w.calling[w.done].id) && w.active == [] && w.current.None?
    ensures Destroy(w.calling[w.done].id) in w.calling[w.done..]
  {
    hide Inv;
    assert w.calling[w.done..][0] == w.calling[w.done];
  }

  /** A DestroyConnection functor finds a closed connection, and its RemoveChannel assert holds. */
  lemma CallFunctorSound(w: World)
    requires Sound(w) && Enabled(w, CallFunctor)
    ensures Sound(Next(w, CallFunctor))
    ensures var f := w.calling[w.done];
            f.Destroy? ==> f.id in w.conns && !Open(w, f.id) && Removable(ConnOf(w, f.id))
  {
    hide Inv, Queued, Sound;
    var f := w.calling[w.done];
    if f.Destroy? {
      assert f.id in Refs(f);
      var c := ConnOf(w, f.id);
      FunctorFacts(w);
      ConnFacts(w, f.id);
      DestroyKeeps(c);
      NotQueued(c);
      SameLogNotQueued(c, DestroyConnection(c));
      PutSound(w, f.id, DestroyConnection(c));
      DoneSound(Put(w, f.id, DestroyConnection(c)));
      CalledSound(Put(w, f.id, DestroyConnection(c)).(done := w.done + 1), w.called + [f]);
    } else {
      DoneSound(w);
      CalledSound(w.(done := w.done + 1), w.called + [f]);
    }
  }

  lemma SameLogNotQueued(before: Conn, after: Conn)
    requires before.log == after.log
    ensures !Queued(before, after)
  {
  }

  lemma CalledSound(w: World, called: seq<Functor>)
    requires Sound(w)
    ensures Sound(w.(called := called))
  {
    hide Inv;
    var r := w.(called := called);
    SameReferences(w, r);
    assert forall x :: Open(r, x) <==> Open(w, x);
    assert forall x :: Doomed(r, x) <==> Doomed(w, x);
    assert forall x :: Closing(r, x) <==> Closing(w, x);
  }

  lemma DoneSound(w: World)
    requires Sound(w) && w.phase == Calling && w.done < |w.calling|
    requires var f := w.calling[w.done]; f.Destroy? && f.id in w.conns ==> !w.conns[f.id].conn.registered
    ensures Sound(w.(done := w.done + 1))
  {
    hide Inv;
    var r := w.(done := w.done + 1);
    assert w.calling[w.done..] == [w.calling[w.done]] + r.calling[r.done..];
    assert forall x :: Referenced(r, x) <==> Referenced(w, x);
    assert forall x :: Doomed(w, x) ==> Doomed(r, x) || Destroy(x) == w.calling[w.done];
  }

  lemma PollReturnsSound(w: World, active: seq<(ConnId, Revents)>)
    requires Sound(w) && Enabled(w, PollReturns(active))
    ensures Sound(Next(w, PollReturns(active)))
  {
    hide Inv, Batch, Referenced;
    var r := Next(w, PollReturns(active));
    PollBatch(w, active);
    assert forall x :: Referenced(r, x) <==> Referenced(w, x) by { SameReferences(w, r); }
  }

  lemma SameReferences(w: World, r: World)
    requires r.idConn == w.idConn && r.newborn == w.newborn && r.held == w.held
    requires r.pending == w.pending && r.calling == w.calling
    ensures forall x :: Referenced(r, x) <==> Referenced(w, x)
  {
  }

  lemma PollBatch(w: World, active: seq<(ConnId, Revents)>)
    requires Sound(w) && Enabled(w, PollReturns(active))
    ensures Batch(Next(w, PollReturns(active)))
  {
    var r := Next(w, PollReturns(active));
    forall i | 0 <= i < |active| ensures Handleable(r, active[i].0, active[i].1.writable) {
      var id := active[i].0;
      assert Armed(ConnOf(w, id));
      hide Inv;
      RegisteredIsOpen(w, id);
    }
  }

  lemma AcceptSound(w: World, fd: int)
    requires Sound(w) && Enabled(w, Accept(fd))
    ensures Sound(Next(w, Accept(fd)))
  {
    OpenedInv();
    hide Inv, Batch;
    var r := Next(w, Accept(fd));
    AcceptBatch(w, fd);
    assert r.conns.Keys == w.conns.Keys + {w.nextId};
    assert forall x | x != w.nextId :: Referenced(r, x) <==> Referenced(w, x);
    assert forall x | x != w.nextId :: Open(r, x) <==> Open(w, x);
    assert w.nextId !in w.conns;
    forall f | f in w.pending || f in w.calling ensures f.Destroy? || f.WriteComplete? ==> f.id != w.nextId {
      assert Refs(f) <= w.conns.Keys;
      assert f.Destroy? || f.WriteComplete? ==> f.id in Refs(f);
    }
  }

  lemma AcceptBatch(w: World, fd: int)
    requires Phases(w) && Pointers(w) && Batch(w) && Enabled(w, Accept(fd))
    ensures Batch(Next(w, Accept(fd)))
  {
    hide Inv;
    var r := Next(w, Accept(fd));
    forall x, writes | Handleable(w, x, writes) ensures Handleable(r, x, writes) {
      assert x != w.nextId && (Doomed(w, x) ==> Doomed(r, x));
    }
  }

  lemma AcceptDoneSound(w: World)
    requires Sound(w) && Enabled(w, AcceptDone)
    ensures Sound(Next(w, AcceptDone))
  {
    hide Inv;
    var r := Next(w, AcceptDone);
    assert forall x :: Referenced(r, x) <==> Referenced(w, x);
    assert forall x :: Open(r, x) <==> Open(w, x);
  }

  lemma HandleSound(w: World)
    requires Sound(w) && Enabled(w, Handle)
    ensures Sound(Next(w, Handle))
  {
    hide Inv;
    var r := Next(w, Handle);
    assert forall x :: Referenced(r, x) <==> Referenced(w, x);
    assert forall x :: Open(r, x) <==> Open(w, x);
  }

  lemma HandleDoneSound(w: World)
    requires Sound(w) && Enabled(w, HandleDone)
    ensures Sound(Next(w, HandleDone))
  {
    hide Inv;
    var r := Next(w, HandleDone);
    assert forall x :: Referenced(r, x) <==> Referenced(w, x);
  }

  lemma SwapFunctorsSound(w: World)
    requires Sound(w) && Enabled(w, SwapFunctors)
    ensures Sound(Next(w, SwapFunctors))
  {
    hide Inv;
    var r := Next(w, SwapFunctors);
    assert r.calling[r.done..] == w.pending;
    assert forall x :: Referenced(r, x) <==> Referenced(w, x);
  }

  /** Whatever is still to be handled is still pointed at. */
  lemma HandleableReferenced(w: World, id: ConnId, writes: bool)
    requires Phases(w) && Owners(w)
    ensures Handleable(w, id, writes) ==> Referenced(w, id)
  {
    hide Inv;
    if Doomed(w, id) {
      DoomedReferenced(w, id);
    } else if Handleable(w, id, writes) {
      assert id in w.idConn || w.newborn == Some(id);
    }
  }

  lemma DoomedReferenced(w: World, id: ConnId)
    requires w.done <= |w.calling| && Doomed(w, id)
    ensures Referenced(w, id)
  {
    assert id in Refs(Destroy(id));
    assert Destroy(id) in w.pending || Destroy(id) in w.calling;
  }

  lemma ReapSound(w: World)
    requires Phases(w) && Pointers(w) && DistinctFds(w) && Owners(w) && Queues(w) && Batch(w)
    ensures Sound(Reap(w))
  {
    hide Inv;
    var r := Reap(w);
    assert forall x :: Referenced(r, x) <==> Referenced(w, x);
    forall x, writes ensures Handleable(w, x, writes) ==> Handleable(r, x, writes) {
      HandleableReferenced(w, x, writes);
    }
    ReapOwners(w);
    ReapPointers(w);
    ReapQueues(w);
  }

  lemma ReapPointers(w: World)
    requires Pointers(w)
    ensures Pointers(Reap(w))
  {
    hide Inv;
    var r := Reap(w);
    forall f | f in w.pending || f in w.calling ensures Refs(f) <= r.conns.Keys {
      assert forall x | x in Refs(f) :: Referenced(w, x);
    }
  }

  lemma ReapOwners(w: World)
    requires Phases(w) && Owners(w) && Batch(w)
    ensures Phases(w) && Owners(Reap(w))
  {
    hide Inv;
    var r := Reap(w);
    forall id | Closing(r, id) ensures id in r.conns {
      assert Closing(w, id) && id in w.idConn;
      assert Referenced(w, id);
    }
    assert forall x :: Doomed(r, x) <==> Doomed(w, x);
  }

  lemma ReapQueues(w: World)
    requires Pointers(w) && Queues(w)
    ensures Queues(Reap(w))
  {
    hide Inv;
    var r := Reap(w);
    forall f | f in w.pending && f.WriteComplete? && Open(w, f.id) ensures Open(r, f.id) {
      assert f.id in Refs(f);
      assert Referenced(w, f.id);
    }
  }

  lemma ClearFunctorsSound(w: World)
    requires Sound(w) && Enabled(w, ClearFunctors)
    ensures Sound(Next(w, ClearFunctors))
  {
    hide Inv;
    var r := w.(phase := Polling, calling := [], done := 0);
    assert w.calling[w.done..] == [];
    assert forall x :: !Doomed(w, x);
    ReapSound(r);
  }

  lemma UserDropSound(w: World, id: ConnId)
    requires Sound(w) && Enabled(w, UserDrop(id))
    ensures Sound(Next(w, UserDrop(id)))
  {
    hide Inv;
    var r := w.(held := w.held - {id});
    assert forall x :: Open(r, x) <==> Open(w, x);
    ReapSound(r);
  }

  lemma UserHoldSound(w: World, id: ConnId)
    requires Sound(w) && Enabled(w, UserHold(id))
    ensures Sound(Next(w, UserHold(id)))
  {
    hide Inv;
    var r := Next(w, UserHold(id));
    assert forall x :: Referenced(w, x) ==> Referenced(r, x);
  }

  lemma StepSound(w: World, s: Step)
    requires Sound(w) && Enabled(w, s)
    ensures Sound(Next(w, s))
  {
    match s
    case PollReturns(active) => PollReturnsSound(w, active);
    case Accept(fd) => AcceptSound(w, fd);
    case AcceptDone => AcceptDoneSound(w);
    case Handle => HandleSound(w);
    case SkipStage => NextStageSound(w);
    case ReadData => NextStageSound(w);
    case ReadEof => CloseSound(w);
    case ReadError => NextStageSound(w);
    case Writable(r) => WritableSound(w, r);
    case HandleError => NextStageSound(w);
    case HangUp => CloseSound(w);
    case CloseReturns => CloseReturnsSound(w);
    case HandleDone => HandleDoneSound(w);
    case DispatchDone => DispatchDoneSound(w);
    case SwapFunctors => SwapFunctorsSound(w);
    case CallFunctor => CallFunctorSound(w);
    case ClearFunctors => ClearFunctorsSound(w);
    case UserSend(id, data, r) => UserSendSound(w, id, data, r);
    case UserShutdown(id) => UserShutdownSound(w, id);
    case UserQueue(refs) => PushSound(w, User(refs));
    case UserHold(id) => UserHoldSound(w, id);
    case UserDrop(id) => UserDropSound(w, id);
  }

  lemma DispatchDoneSound(w: World)
    requires Sound(w) && Enabled(w, DispatchDone)
    ensures Sound(Next(w, DispatchDone))
  {
    hide Inv;
    var r := Next(w, DispatchDone);
    assert forall x :: Referenced(r, x) <==> Referenced(w, x);
  }

  // ---------------------------------------------------------------- whole runs

  /** `steps` leads from `w` to `end`. */
  ghost predicate Run(w: World, steps: seq<Step>, end: World)
    decreases |steps|
  {
    if steps == [] then w == end else Enabled(w, steps[0]) && Run(Next(w, steps[0]), steps[1..], end)
  }

  lemma {:induction false} RunSound(w: World, steps: seq<Step>, end: World)
    requires Sound(w) && Run(w, steps, end)
    ensures Sound(end)
    decreases |steps|
  {
    hide Sound, Next, Enabled;
    if steps != [] {
      StepSound(w, steps[0]);
      RunSound(Next(w, steps[0]), steps[1..], end);
    }
  }

  /** In every run and for every connection: the bytes taken by the kernel and the buffered ones are
      the accepted payloads in order; SHUT_WR came last or not at all; write_cb_ is owed exactly for
      buffered bytes and never queued without a payload since the last one; POLLOUT is armed exactly
      for buffered bytes. */
  lemma StreamsHold(steps: seq<Step>, w: World, id: ConnId)
    requires Run(START, steps, w) && id in w.conns
    ensures Conserved(ConnOf(w, id)) && FinIsLast(ConnOf(w, id)) && Accounted(ConnOf(w, id)) && Armed(ConnOf(w, id))
  {
    hide Run, Conserved, FinIsLast, Accounted, Armed;
    StartSound();
    RunSound(START, steps, w);
  }

  /** A connection goes only when the finished functors are dropped, after dispatch and timers, or
      when user code lets go of its own pointer; it is then closed, wants no events, is in no poller,
      and no part of the dispatch loop will touch it again. */
  lemma DestroySafe(steps: seq<Step>, w: World, s: Step, id: ConnId)
    requires Run(START, steps, w) && Enabled(w, s)
    requires id in w.conns && id !in Next(w, s).conns
    ensures s == ClearFunctors || s == UserDrop(id)
    ensures var c := ConnOf(w, id);
            c.state == Disconnected && !c.reading && !c.writing && !c.registered
    ensures forall i | 0 <= i < |w.active| :: w.active[i].0 != id
    ensures w.current.Some? ==> w.current.value.id != id
  {
    hide Run, Sound;
    StartSound();
    RunSound(START, steps, w);
    ConnFacts(w, id);
    assert Armed(ConnOf(w, id));
    hide Inv, Armed;
    LastReference(w, s, id);
  }

  lemma LastReference(w: World, s: Step, id: ConnId)
    requires Sound(w) && Enabled(w, s) && id in w.conns && id !in Next(w, s).conns
    ensures s == ClearFunctors || s == UserDrop(id)
    ensures !Open(w, id) && !ConnOf(w, id).registered
    ensures forall i | 0 <= i < |w.active| :: w.active[i].0 != id
    ensures w.current.Some? ==> w.current.value.id != id
  {
    hide Inv, Sound, Referenced, Queued;
    assert s == ClearFunctors || s.UserDrop?;
    if s == ClearFunctors {
      LastFunctor(w, id);
    } else {
      Unreferenced(w, s.id, id);
    }
  }

  lemma LastFunctor(w: World, id: ConnId)
    requires Sound(w) && Enabled(w, ClearFunctors) && id in w.conns
    requires !Referenced(w.(phase := Polling, calling := [], done := 0), id)
    ensures !Open(w, id) && !ConnOf(w, id).registered && w.active == [] && w.current.None?
  {
    hide Inv;
    assert w.calling[w.done..] == [];
    assert id in Refs(Destroy(id));
  }

  lemma Unreferenced(w: World, dropped: ConnId, id: ConnId)
    requires Sound(w) && id in w.conns && !Referenced(w.(held := w.held - {dropped}), id)
    ensures id == dropped && !Open(w, id) && !ConnOf(w, id).registered
    ensures forall i | 0 <= i < |w.active| :: w.active[i].0 != id
    ensures w.current.Some? ==> w.current.value.id != id
  {
    hide Inv;
    var r := w.(held := w.held - {dropped});
    assert Referenced(w, id);
    HandleableReferenced(r, id, false);
    HandleableReferenced(r, id, true);
    assert forall x, writes :: Handleable(r, x, writes) <==> Handleable(w, x, writes);
  }

  /** Nothing is left behind: at every poll a closed connection that still exists is one that user code
      keeps a pointer to, and it is in no poller. */
  lemma NoClosedSurvivor(steps: seq<Step>, w: World, id: ConnId)
    requires Run(START, steps, w) && w.phase == Polling && id in w.conns && !Open(w, id)
    ensures !ConnOf(w, id).registered
    ensures id in w.held || exists f | f in w.pending :: f.User? && id in f.refs
  {
    hide Run, Inv;
    StartSound();
    RunSound(START, steps, w);
    assert Referenced(w, id);
    assert w.calling[w.done..] == [];
    if f :| f in w.pending && id in Refs(f) { assert f.User?; }
  }

  /** poll only ever reports open connections, and a descriptor names one connection. */
  lemma PollReportsOpen(steps: seq<Step>, w: World, active: seq<(ConnId, Revents)>)
    requires Run(START, steps, w) && Enabled(w, PollReturns(active))
    ensures forall i | 0 <= i < |active| :: Open(w, active[i].0)
    ensures forall a, b | a in w.conns && b in w.conns && w.conns[a].fd == w.conns[b].fd :: a == b
  {
    hide Run;
    StartSound();
    RunSound(START, steps, w);
    hide Pointers, NoLeak, Owners, Queues, Batch, Open;
    forall i | 0 <= i < |active| ensures Open(w, active[i].0) {
      RegisteredIsOpen(w, active[i].0);
    }
  }

  lemma RegisteredIsOpen(w: World, id: ConnId)
    requires Phases(w) && Owners(w) && Queues(w) && w.phase == Polling
    requires id in w.conns && ConnOf(w, id).registered
    ensures Open(w, id)
  {
    hide Inv;
    assert w.calling[w.done..] == [];
    assert !Doomed(w, id);
  }

  /** A DestroyConnection functor runs on a live, closed connection, so that RemoveChannel's assert
      holds, and leaves it in no poller. */
  lemma DestroyFindsClosed(steps: seq<Step>, w: World)
    requires Run(START, steps, w) && Enabled(w, CallFunctor) && w.calling[w.done].Destroy?
    ensures var id := w.calling[w.done].id;
            && id in w.conns && !Open(w, id) && Removable(ConnOf(w, id))
            && !ConnOf(Next(w, CallFunctor), id).registered
  {
    hide Run, Sound, Inv;
    StartSound();
    RunSound(START, steps, w);
    CallFunctorSound(w);
  }

  /** POLLIN, POLLOUT and POLLHUP in one event: after the read end closed the connection, HandleWrite
      drains the buffer and DisableWrite puts the closed channel back into the poller. Its
      DestroyConnection is then still queued. */
  lemma ClosedChannelRegisteredAgain(w: World)
    requires Sound(w) && AtStage(w, 1) && w.current.value.revents.writable && !Open(w, w.current.value.id)
    ensures var id := w.current.value.id;
            var s := Writable(Wrote(|ConnOf(w, id).out|));
            && Enabled(w, s)
            && ConnOf(Next(w, s), id).registered && ConnOf(Next(w, s), id).state == Disconnected
            && Destroy(id) in Next(w, s).pending
  {
    CurrentFacts(w);
    var id := w.current.value.id;
    assert Destroy(id) in w.pending by {
      hide Inv;
      assert w.calling[w.done..] == [];
    }
    hide Sound;
  }

  lemma {:induction false} RunOn(w: World, steps: seq<Step>, end: World, s: Step)
    requires Run(w, steps, end) && Enabled(end, s)
    ensures Run(w, steps + [s], Next(end, s))
    decreases |steps|
  {
    hide Enabled, Next;
    if steps == [] {
      assert [s][1..] == [];
      assert Run(Next(end, s), [], Next(end, s));
    } else {
      assert (steps + [s])[1..] == steps[1..] + [s];
      RunOn(Next(w, steps[0]), steps[1..], end, s);
    }
  }

  const ALL_AT_ONCE := Revents(true, true, false, false, true)

  const BUFFERED := Conn(Established, true, true, true, "ab", [Submitted("ab"), Taken("")])

  /** A run in which a connection with bytes buffered gets POLLIN, POLLOUT and POLLHUP at once, and its
      read handler meets end of file. */
  function Script(k: nat, fd: int): Step
  {
    match k
    case 0 => PollReturns([])
    case 1 => Accept(fd)
    case 2 => UserSend(0, "ab", Again)
    case 3 => AcceptDone
    case 4 => DispatchDone
    case 5 => SwapFunctors
    case 6 => ClearFunctors
    case 7 => PollReturns([(0, ALL_AT_ONCE)])
    case 8 => Handle
    case 9 => ReadEof
    case _ => CloseReturns
  }

  function Serving(fd: int, c: Conn): World
  {
    START.(conns := map[0 := Peer(c, fd)], idConn := {0}, nextId := 1, phase := Dispatching)
  }

  function Scene(k: nat, fd: int): World
  {
    match k
    case 0 => START
    case 1 => START.(phase := Dispatching)
    case 2 => Serving(fd, OPENED).(idConn := {}, newborn := Some(0))
    case 3 => Serving(fd, BUFFERED).(idConn := {}, newborn := Some(0))
    case 4 => Serving(fd, BUFFERED)
    case 5 => Serving(fd, BUFFERED).(phase := Timers)
    case 6 => Serving(fd, BUFFERED).(phase := Calling)
    case 7 => Serving(fd, BUFFERED).(phase := Polling)
    case 8 => Serving(fd, BUFFERED).(active := [(0, ALL_AT_ONCE)])
    case 9 => Serving(fd, BUFFERED).(current := Some(Handling(0, ALL_AT_ONCE, 0, false)))
    case 10 => Serving(fd, HandleClose(BUFFERED)).(current := Some(Handling(0, ALL_AT_ONCE, 1, true)))
    case _ =>
      Serving(fd, HandleClose(BUFFERED)).(
        idConn := {}, pending := [Destroy(0)], current := Some(Handling(0, ALL_AT_ONCE, 1, false)))
  }

  lemma AcceptScenes(k: nat, fd: int)
    requires k < 5 && fd >= 0
    ensures Enabled(Scene(k, fd), Script(k, fd)) && Next(Scene(k, fd), Script(k, fd)) == Scene(k + 1, fd)
  {
    if k == 2 { FirstSend(); }
  }

  lemma PollScenes(k: nat, fd: int)
    requires 5 <= k < 8 && fd >= 0
    ensures Enabled(Scene(k, fd), Script(k, fd)) && Next(Scene(k, fd), Script(k, fd)) == Scene(k + 1, fd)
  {
    hide HandleClose, Referenced;
    if k == 6 { NothingToReap(fd); }
  }

  lemma NothingToReap(fd: int)
    ensures Reap(Scene(7, fd)) == Scene(7, fd)
  {
    assert Referenced(Scene(7, fd), 0);
    assert Reap(Scene(7, fd)).conns == Scene(7, fd).conns;
  }

  lemma CloseScenes(k: nat, fd: int)
    requires 8 <= k < 11 && fd >= 0
    ensures Enabled(Scene(k, fd), Script(k, fd)) && Next(Scene(k, fd), Script(k, fd)) == Scene(k + 1, fd)
  {
    hide Referenced;
  }

  lemma FirstSend()
    ensures Send(OPENED, "ab", Again) == BUFFERED && !Queued(OPENED, BUFFERED)
  {
    assert "ab"[..0] == "" && "ab"[0..] == "ab";
    assert [] + [Submitted("ab")] + [Taken("")] == [Submitted("ab"), Taken("")];
  }

  lemma {:induction false} SceneReached(k: nat, fd: int) returns (steps: seq<Step>)
    requires k <= 11 && fd >= 0
    ensures Run(START, steps, Scene(k, fd))
  {
    hide Enabled, Next;
    if k == 0 {
      steps := [];
    } else {
      if k <= 5 { AcceptScenes(k - 1, fd); } else if k <= 8 { PollScenes(k - 1, fd); } else { CloseScenes(k - 1, fd); }
      steps := SceneReached(k - 1, fd);
      RunOn(START, steps, Scene(k - 1, fd), Script(k - 1, fd));
      steps := steps + [Script(k - 1, fd)];
    }
  }

  /** The situation of ClosedChannelRegisteredAgain does arise. */
  lemma ClosedThenWritable(fd: int) returns (steps: seq<Step>)
    requires fd >= 0
    ensures var w := Scene(11, fd);
            && Run(START, steps, w) && Sound(w)
            && AtStage(w, 1) && w.current.value.revents.writable && !Open(w, w.current.value.id)
  {
    hide Sound, Run;
    steps := SceneReached(11, fd);
    StartSound();
    RunSound(START, steps, Scene(11, fd));
  }

  /** Once SHUT_WR has been issued, nothing more is written to, accepted by or signalled for the
      connection. */
  lemma SilentAfterFin(w: World, s: Step, id: ConnId)
    requires Sound(w) && Enabled(w, s) && id in w.conns && id in Next(w, s).conns && FinSent(ConnOf(w, id))
    ensures ConnOf(Next(w, s), id).log == ConnOf(w, id).log
  {
    StepSound(w, s);
    LogsGrow(w, s, id);
    ConnFacts(w, id);
    ConnFacts(Next(w, s), id);
    hide Sound, Next, Enabled;
    var log, later := ConnOf(w, id).log, ConnOf(Next(w, s), id).log;
    assert later[|log| - 1] == Fin;
  }

  lemma LogsGrow(w: World, s: Step, id: ConnId)
    requires Sound(w) && Enabled(w, s) && id in w.conns && id in Next(w, s).conns
    ensures ConnOf(w, id).log <= ConnOf(Next(w, s), id).log
  {
    hide Sound, Send, Shutdown, HandleWrite, HandleClose, DestroyConnection, Queued, Referenced;
    OldId(w, id);
    match s {
      case Writable(r) => HandleWriteGrows(ConnOf(w, w.current.value.id), r);
      case ReadEof => HandleCloseGrows(ConnOf(w, w.current.value.id));
      case HangUp => HandleCloseGrows(ConnOf(w, w.current.value.id));
      case UserSend(x, data, r) => SendGrows(ConnOf(w, x), data, r);
      case UserShutdown(x) => ShutdownGrows(ConnOf(w, x));
      case CallFunctor => CallFunctorGrows(w, id);
      case _ =>
    }
  }

  lemma CallFunctorGrows(w: World, id: ConnId)
    requires Enabled(w, CallFunctor) && id in w.conns
    ensures id in Next(w, CallFunctor).conns && ConnOf(Next(w, CallFunctor), id).log == ConnOf(w, id).log
  {
    hide DestroyConnection, Queued;
    var f := w.calling[w.done];
    if f.Destroy? {
      assert f.id in Refs(f);
      DestroyGrows(ConnOf(w, f.id));
    }
  }

  lemma OldId(w: World, id: ConnId)
    requires Sound(w) && id in w.conns
    ensures id < w.nextId
  {
  }
}
