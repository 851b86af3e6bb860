/** What the runs of ServerRuns owe to the outside: every write_cb_ that a connection notes down reaches
    the loop's queue, every closed connection is destroyed once, and the stream of a connection is what
    user code has sent on it. */
module ServerBooks {
  import opened Bytes
  import opened Pollers
  import opened Connections
  import opened ServerRuns

  /** How often a functor has been queued: called already, in the round, or waiting. */
  function Times(w: World, f: Functor): nat
    requires w.done <= |w.calling|
  {
    multiset(w.called)[f] + multiset(w.calling[w.done..])[f] + multiset(w.pending)[f]
  }

  /** The functor a step has to queue, if any. */
  function Due(w: World, s: Step): Option<Functor>
    requires Enabled(w, s)
  {
    match s
    case Writable(r) =>
      var id := w.current.value.id;
      if r.Wrote? && r.n == |ConnOf(w, id).out| then Some(WriteComplete(id)) else None
    case UserSend(id, data, r) =>
      if TakenWhole(ConnOf(w, id), data, r) then Some(WriteComplete(id)) else None
    case UserQueue(refs) => Some(User(refs))
    case CloseReturns => Some(Destroy(w.current.value.id))
    case _ => None
  }

  predicate TakenWhole(c: Conn, data: string, r: WriteResult)
  {
    && c.state == Established && !c.writing && c.out == ""
    && ((r.Wrote? && r.n == |data|) || (r.Again? && data == ""))
  }

  // ---------------------------------------------------------------- what the operations leave alone

  /** Everything but the connections and the functors waiting. */
  predicate SameRest(w: World, r: World)
  {
    && r.idConn == w.idConn && r.nextId == w.nextId && r.phase == w.phase && r.active == w.active
    && r.current == w.current && r.newborn == w.newborn && r.held == w.held
    && r.calling == w.calling && r.done == w.done && r.called == w.called
  }

  lemma CommitFrame(w: World, id: ConnId, c: Conn)
    requires id in w.conns
    ensures var r := Commit(w, id, c);
            && SameRest(w, r)
            && r.conns == w.conns[id := w.conns[id].(conn := c)]
            && r.pending == if Queued(ConnOf(w, id), c) then w.pending + [WriteComplete(id)] else w.pending
  {
    hide Queued;
  }

  lemma CloseFrame(w: World)
    requires w.current.Some? && w.current.value.id in w.conns
    ensures var id, r := w.current.value.id, Close(w);
            && SameRest(w, r.(current := w.current)) && r.pending == w.pending
            && r.conns == w.conns[id := w.conns[id].(conn := HandleClose(ConnOf(w, id)))]
            && r.current.Some? && r.current.value.id == id
            && r.current.value.closing == (Open(w, id) || w.current.value.closing)
  {
    assert w.conns[w.current.value.id].(conn := ConnOf(w, w.current.value.id)) == w.conns[w.current.value.id];
    assert w.conns[w.current.value.id := w.conns[w.current.value.id]] == w.conns;
  }

  lemma ReapFrame(w: World)
    ensures SameRest(w, Reap(w)) && Reap(w).pending == w.pending
    ensures forall id | id in Reap(w).conns :: id in w.conns && Reap(w).conns[id] == w.conns[id]
  {
    hide Referenced;
  }

  // ---------------------------------------------------------------- each functor once

  lemma TimesPush(w: World, f: Functor, g: Functor)
    requires w.done <= |w.calling|
    ensures Times(Push(w, f), g) == Times(w, g) + if f == g then 1 else 0
  {
  }

  lemma TimesCommit(w: World, id: ConnId, c: Conn, f: Functor)
    requires id in w.conns && w.done <= |w.calling|
    ensures Times(Commit(w, id, c), f) ==
            Times(w, f) + if Queued(ConnOf(w, id), c) && f == WriteComplete(id) then 1 else 0
  {
    hide Queued;
    TimesPush(Put(w, id, c), WriteComplete(id), f);
  }

  lemma PhasesOf(w: World)
    requires Sound(w)
    ensures Phases(w)
  {
  }

  /** Steps that go through Commit. */
  predicate Commits(s: Step)
  {
    s.Writable? || s.UserSend? || s.UserShutdown?
  }

  /** Each step queues what is due, once; the loop moves functors and loses none. */
  lemma StepTimes(w: World, s: Step, f: Functor)
    requires Sound(w) && Enabled(w, s)
    ensures w.done <= |w.calling| && Next(w, s).done <= |Next(w, s).calling|
    ensures Times(Next(w, s), f) == Times(w, f) + if Due(w, s) == Some(f) then 1 else 0
  {
    PhasesOf(w);
    if Commits(s) {
      CommitTimes(w, s, f);
    } else if s == SwapFunctors || s == CallFunctor || s == ClearFunctors {
      MoveTimes(w, s, f);
    } else {
      OtherTimes(w, s, f);
    }
  }

  lemma CommitTimes(w: World, s: Step, f: Functor)
    requires w.done <= |w.calling| && Enabled(w, s) && Commits(s)
    ensures Next(w, s).done <= |Next(w, s).calling|
    ensures Times(Next(w, s), f) == Times(w, f) + if Due(w, s) == Some(f) then 1 else 0
  {
    hide Queued, Commit, HandleWrite, Send, Shutdown;
    match s {
      case Writable(r) =>
        var id := w.current.value.id;
        WriteNotifies(ConnOf(w, id), r);
        CommitFrame(w, id, HandleWrite(ConnOf(w, id), r));
        TimesCommit(w, id, HandleWrite(ConnOf(w, id), r), f);
      case UserSend(id, data, r) =>
        SendNotifies(ConnOf(w, id), data, r);
        CommitFrame(w, id, Send(ConnOf(w, id), data, r));
        TimesCommit(w, id, Send(ConnOf(w, id), data, r), f);
      case UserShutdown(id) =>
        ShutdownNotifies(ConnOf(w, id));
        CommitFrame(w, id, Shutdown(ConnOf(w, id)));
        TimesCommit(w, id, Shutdown(ConnOf(w, id)), f);
    }
  }

  lemma MoveTimes(w: World, s: Step, f: Functor)
    requires Sound(w) && Enabled(w, s) && (s == SwapFunctors || s == CallFunctor || s == ClearFunctors)
    ensures w.done <= |w.calling| && Next(w, s).done <= |Next(w, s).calling|
    ensures Times(Next(w, s), f) == Times(w, f)
  {
    PhasesOf(w);
    hide Sound, Reap;
    match s {
      case SwapFunctors => assert w.pending[0..] == w.pending && w.calling[w.done..] == [];
      case CallFunctor => CallTimes(w, f);
      case ClearFunctors =>
        assert w.calling[w.done..] == [];
        ReapFrame(w.(phase := Polling, calling := [], done := 0));
    }
  }

  lemma OtherTimes(w: World, s: Step, f: Functor)
    requires Sound(w) && Enabled(w, s) && !Commits(s) && s != SwapFunctors && s != CallFunctor && s != ClearFunctors
    ensures w.done <= |w.calling| && Next(w, s).done <= |Next(w, s).calling|
    ensures Times(Next(w, s), f) == Times(w, f) + if Due(w, s) == Some(f) then 1 else 0
  {
    PhasesOf(w);
    if w.current.Some? { CurrentFacts(w); }
    OtherQueues(w, s);
    hide Sound, Enabled, Next;
    var due := Due(w, s);
    if due.Some? { TimesPush(w, due.value, f); }
  }

  lemma OtherQueues(w: World, s: Step)
    requires Enabled(w, s) && !Commits(s) && s != SwapFunctors && s != CallFunctor && s != ClearFunctors
    requires w.current.Some? ==> w.current.value.id in w.conns
    ensures var r := Next(w, s);
            && r.calling == w.calling && r.done == w.done && r.called == w.called
            && r.pending == if Due(w, s).Some? then w.pending + [Due(w, s).value] else w.pending
  {
    hide Close, Reap, Flagged;
    match s {
      case ReadEof => CloseFrame(w);
      case HangUp => CloseFrame(w);
      case UserDrop(id) => ReapFrame(w.(held := w.held - {id}));
      case _ =>
    }
  }

  lemma CallTimes(w: World, f: Functor)
    requires Sound(w) && Enabled(w, CallFunctor)
    ensures Next(w, CallFunctor).done <= |Next(w, CallFunctor).calling|
    ensures Times(Next(w, CallFunctor), f) == Times(w, f)
  {
    hide Sound, Times;
    var g := w.calling[w.done];
    if g.Destroy? {
      assert g.id in Refs(g);
      var c := ConnOf(w, g.id);
      DestroyGrows(c);
      SameLogNotQueued(c, DestroyConnection(c));
      hide Queued, DestroyConnection;
      CommitFrame(w, g.id, DestroyConnection(c));
    }
    CalledTimes(w, Next(w, CallFunctor), f);
  }

  lemma CalledTimes(w: World, r: World, f: Functor)
    requires w.done < |w.calling| && r.calling == w.calling && r.done == w.done + 1
    requires r.called == w.called + [w.calling[w.done]] && r.pending == w.pending
    ensures Times(r, f) == Times(w, f)
  {
    assert w.calling[w.done..] == [w.calling[w.done]] + r.calling[r.done..];
  }

  // ---------------------------------------------------------------- what a step does to a connection

  /** The payload of an accepted Send. */
  function Payload(w: World, s: Step, id: ConnId): string
    requires Enabled(w, s)
  {
    if s.UserSend? && s.id == id && Accepted(ConnOf(w, id), s.r) then s.data else ""
  }

  /** Established, and no hard write error on the direct path. */
  predicate Accepted(c: Conn, r: WriteResult)
  {
    c.state == Established && !(c.out == "" && r.HardError?)
  }

  /** What the kernel says it took. */
  function Written(w: World, s: Step, id: ConnId): string
    requires Enabled(w, s)
  {
    match s
    case UserSend(x, data, r) =>
      if x == id && ConnOf(w, id).state == Established && ConnOf(w, id).out == "" && r.Wrote? then data[..r.n] else ""
    case Writable(r) =>
      if w.current.value.id == id && r.Wrote? then ConnOf(w, id).out[..r.n] else ""
    case _ => ""
  }

  /** The books of one connection across one step of its own. */
  ghost predicate Entered(before: Conn, after: Conn, payload: string, written: string, notices: nat)
  {
    && SubmittedBytes(after.log) == SubmittedBytes(before.log) + payload
    && TakenBytes(after.log) == TakenBytes(before.log) + written
    && Notices(after.log) == Notices(before.log) + notices
  }

  lemma NothingEntered(before: Conn, after: Conn)
    requires after.log == before.log || after.log == before.log + [Fin]
    ensures Entered(before, after, "", "", 0)
  {
    BytesAppend(before.log, Fin);
    OneNotice(before.log, [Fin]);
  }

  lemma SendEntered(c: Conn, data: string, r: WriteResult)
    requires Inv(c) && Possible(r, |data|)
    ensures Entered(c, Send(c, data, r), if Accepted(c, r) then data else "",
                    if c.state == Established && c.out == "" && r.Wrote? then data[..r.n] else "",
                    if TakenWhole(c, data, r) then 1 else 0)
  {
    if c.state != Established {
      NothingEntered(c, c);
    } else {
      BufferedMeansArmed(c);
      hide Inv;
      if c.out != "" {
        BusyEntered(c, data, r);
      } else if r.HardError? {
        NothingEntered(c, c);
      } else {
        IdleEntered(c, data, r);
      }
    }
    hide Entered;
  }

  lemma BusyEntered(c: Conn, data: string, r: WriteResult)
    requires c.state == Established && c.out != "" && Possible(r, |data|)
    ensures Entered(c, Send(c, data, r), data, "", 0)
  {
    SendLogged(c, data, r);
    hide Notices, Send, TakenBytes, SubmittedBytes;
    OneMore(c.log, Submitted(data));
    assert TakenBytes(c.log) + "" == TakenBytes(c.log);
  }

  lemma IdleEntered(c: Conn, data: string, r: WriteResult)
    requires c.state == Established && !c.writing && c.out == "" && Possible(r, |data|) && !r.HardError?
    ensures Entered(c, Send(c, data, r), data, if r.Wrote? then data[..r.n] else "",
                    if TakenWhole(c, data, r) then 1 else 0)
  {
    var n := if r.Wrote? then r.n else 0;
    var bytes := if r.Wrote? then data[..r.n] else "";
    assert data[..n] == bytes;
    SendLogged(c, data, r);
    hide Notices, Send, TakenBytes, SubmittedBytes;
    LogEntered(c, Send(c, data, r), data, bytes, n == |data|);
  }

  lemma LogEntered(before: Conn, after: Conn, data: string, bytes: string, whole: bool)
    requires var log := before.log + [Submitted(data)] + [Taken(bytes)];
             after.log == if whole then log + [Notified] else log
    ensures Entered(before, after, data, bytes, if whole then 1 else 0)
  {
    hide Notices, TakenBytes, SubmittedBytes;
    TwoMore(before.log, data, bytes);
    OneMore(before.log + [Submitted(data)] + [Taken(bytes)], Notified);
  }

  lemma TwoMore(log: seq<Event>, data: string, bytes: string)
    ensures var later := log + [Submitted(data)] + [Taken(bytes)];
            && SubmittedBytes(later) == SubmittedBytes(log) + data
            && TakenBytes(later) == TakenBytes(log) + bytes
            && Notices(later) == Notices(log)
  {
    hide Notices, TakenBytes, SubmittedBytes;
    OneMore(log, Submitted(data));
    OneMore(log + [Submitted(data)], Taken(bytes));
  }

  lemma WriteEntered(c: Conn, r: WriteResult)
    requires Possible(r, |c.out|)
    ensures Entered(c, HandleWrite(c, r), "", if r.Wrote? then c.out[..r.n] else "",
                    if r.Wrote? && r.n == |c.out| then 1 else 0)
  {
    if r.Wrote? {
      WroteEntered(c, r.n);
    } else {
      NothingEntered(c, c);
      hide Entered;
    }
  }

  lemma WroteEntered(c: Conn, n: nat)
    requires n <= |c.out|
    ensures Entered(c, HandleWrite(c, Wrote(n)), "", c.out[..n], if n == |c.out| then 1 else 0)
  {
    WriteLogged(c, Wrote(n));
    hide Notices, HandleWrite, TakenBytes, SubmittedBytes;
    WriteLogEntered(c, HandleWrite(c, Wrote(n)), c.out[..n], n == |c.out|);
  }

  lemma WriteLogEntered(before: Conn, after: Conn, bytes: string, whole: bool)
    requires var log := before.log + [Taken(bytes)];
             if whole then after.log == log + [Notified] || after.log == log + [Notified] + [Fin] else after.log == log
    ensures Entered(before, after, "", bytes, if whole then 1 else 0)
  {
    hide Notices, TakenBytes, SubmittedBytes;
    var first := before.log + [Taken(bytes)];
    OneMore(before.log, Taken(bytes));
    OneMore(first, Notified);
    OneMore(first + [Notified], Fin);
    assert SubmittedBytes(before.log) + "" == SubmittedBytes(before.log);
  }

  lemma OneMore(log: seq<Event>, ev: Event)
    ensures var later := log + [ev];
            && TakenBytes(later) == (if ev.Taken? then TakenBytes(log) + ev.bytes else TakenBytes(log))
            && SubmittedBytes(later) == (if ev.Submitted? then SubmittedBytes(log) + ev.bytes else SubmittedBytes(log))
            && Notices(later) == Notices(log) + if ev == Notified then 1 else 0
  {
    BytesAppend(log, ev);
  }

  /** What a step makes of a connection. */
  function Worked(w: World, s: Step, id: ConnId): Conn
    requires Enabled(w, s) && id in w.conns
  {
    var c := ConnOf(w, id);
    match s
    case UserSend(x, data, r) => if x == id then Send(c, data, r) else c
    case UserShutdown(x) => if x == id then Shutdown(c) else c
    case Writable(r) => if w.current.value.id == id then HandleWrite(c, r) else c
    case ReadEof => if w.current.value.id == id then HandleClose(c) else c
    case HangUp => if w.current.value.id == id then HandleClose(c) else c
    case CallFunctor => if w.calling[w.done] == Destroy(id) then DestroyConnection(c) else c
    case _ => c
  }

  /** Which connections a step leaves, and as what: itself, or one just accepted. */
  ghost predicate ConnStep(w: World, s: Step, id: ConnId)
    requires Enabled(w, s)
  {
    id in Next(w, s).conns ==>
      if id in w.conns then ConnOf(Next(w, s), id) == Worked(w, s, id)
      else s.Accept? && id == w.nextId && ConnOf(Next(w, s), id) == OPENED
  }

  lemma StepConns(w: World, s: Step, id: ConnId)
    requires Sound(w) && Enabled(w, s)
    ensures ConnStep(w, s, id) && w.nextId <= Next(w, s).nextId
  {
    if id in w.conns { OldId(w, id); }
    if w.current.Some? { CurrentFacts(w); }
    hide Sound;
    if Commits(s) { CommitConns(w, s, id); } else { OtherConns(w, s, id); }
  }

  lemma CommitConns(w: World, s: Step, id: ConnId)
    requires Enabled(w, s) && Commits(s)
    ensures ConnStep(w, s, id) && Next(w, s).nextId == w.nextId
  {
    hide Commit, Send, HandleWrite, Shutdown, Flagged;
    match s {
      case UserSend(x, data, r) => CommitFrame(w, x, Send(ConnOf(w, x), data, r));
      case Writable(r) => CommitFrame(w, w.current.value.id, HandleWrite(ConnOf(w, w.current.value.id), r));
      case UserShutdown(x) => CommitFrame(w, x, Shutdown(ConnOf(w, x)));
    }
  }

  lemma OtherConns(w: World, s: Step, id: ConnId)
    requires Enabled(w, s) && !Commits(s)
    requires w.current.Some? ==> w.current.value.id in w.conns
    requires id in w.conns ==> id < w.nextId
    ensures ConnStep(w, s, id) && w.nextId <= Next(w, s).nextId
  {
    hide Close, Reap, HandleClose, Flagged;
    match s {
      case ReadEof => CloseFrame(w);
      case HangUp => CloseFrame(w);
      case CallFunctor => CalledConns(w, id);
      case ClearFunctors => ReapFrame(w.(phase := Polling, calling := [], done := 0));
      case UserDrop(x) => ReapFrame(w.(held := w.held - {x}));
      case _ =>
    }
  }

  lemma CalledConns(w: World, id: ConnId)
    requires Enabled(w, CallFunctor)
    ensures ConnStep(w, CallFunctor, id) && Next(w, CallFunctor).nextId == w.nextId
    ensures Next(w, CallFunctor).conns.Keys == w.conns.Keys && Next(w, CallFunctor).current == w.current
  {
    hide Queued, DestroyConnection;
    var f := w.calling[w.done];
    if f.Destroy? { assert f.id in Refs(f); }
  }

  /** Every step enters in each connection's history the payload accepted, the bytes taken and the
      write_cb_ due, and nothing else. */
  lemma StepEntered(w: World, s: Step, id: ConnId)
    requires Sound(w) && Enabled(w, s) && id in w.conns && id in Next(w, s).conns
    ensures Entered(ConnOf(w, id), ConnOf(Next(w, s), id), Payload(w, s, id), Written(w, s, id),
                    if Due(w, s) == Some(WriteComplete(id)) then 1 else 0)
  {
    ConnFacts(w, id);
    StepConns(w, s, id);
    hide Sound, Inv, Entered, Worked, Next, Enabled;
    WorkedEntered(w, s, id);
  }

  lemma WorkedEntered(w: World, s: Step, id: ConnId)
    requires Enabled(w, s) && id in w.conns && Inv(ConnOf(w, id))
    ensures Entered(ConnOf(w, id), Worked(w, s, id), Payload(w, s, id), Written(w, s, id),
                    if Due(w, s) == Some(WriteComplete(id)) then 1 else 0)
  {
    hide Inv, Entered, Worked, Payload, Written, Due, Enabled;
    if Commits(s) { CommitEntered(w, s, id); } else { OtherEntered(w, s, id); }
  }

  lemma CommitEntered(w: World, s: Step, id: ConnId)
    requires Enabled(w, s) && id in w.conns && Inv(ConnOf(w, id)) && Commits(s)
    ensures Entered(ConnOf(w, id), Worked(w, s, id), Payload(w, s, id), Written(w, s, id),
                    if Due(w, s) == Some(WriteComplete(id)) then 1 else 0)
  {
    var c := ConnOf(w, id);
    NothingEntered(c, c);
    hide Inv, Entered, Send, HandleWrite, Shutdown, TakenWhole, Accepted;
    match s {
      case UserSend(x, data, r) => if x == id { SendEntered(c, data, r); }
      case Writable(r) => if w.current.value.id == id { WriteEntered(c, r); }
      case UserShutdown(x) => ShutdownEntered(c);
    }
  }

  lemma OtherEntered(w: World, s: Step, id: ConnId)
    requires Enabled(w, s) && id in w.conns && !Commits(s)
    ensures Entered(ConnOf(w, id), Worked(w, s, id), Payload(w, s, id), Written(w, s, id),
                    if Due(w, s) == Some(WriteComplete(id)) then 1 else 0)
  {
    var c := ConnOf(w, id);
    HandleCloseGrows(c);
    DestroyGrows(c);
    hide HandleClose, DestroyConnection, Entered;
    NothingEntered(c, Worked(w, s, id));
  }

  lemma ShutdownEntered(c: Conn)
    ensures Entered(c, Shutdown(c), "", "", 0)
  {
    NothingEntered(c, Shutdown(c));
  }

  /** A connection that appears was just accepted. */
  lemma Newcomer(w: World, s: Step, id: ConnId)
    requires Sound(w) && Enabled(w, s) && id !in w.conns && id in Next(w, s).conns
    ensures s.Accept? && id == w.nextId && ConnOf(Next(w, s), id) == OPENED
  {
    hide Sound, Enabled, Next;
    StepConns(w, s, id);
  }

  // ---------------------------------------------------------------- the books are kept

  /** Every write_cb_ noted by a connection has been queued in the loop, once. */
  ghost predicate Noticed(w: World)
    requires w.done <= |w.calling|
  {
    && (forall id | id in w.conns :: Times(w, WriteComplete(id)) == Notices(ConnOf(w, id).log))
    && (forall id | id >= w.nextId :: Times(w, WriteComplete(id)) == 0)
  }

  /** DestroyConnection has been queued once for every connection that has gone through close_cb_. */
  ghost predicate Doomings(w: World)
    requires w.done <= |w.calling|
  {
    forall id :: Doom(w, id)
  }

  lemma NoticedStep(w: World, s: Step)
    requires Sound(w) && Enabled(w, s) && w.done <= |w.calling| && Noticed(w)
    ensures Next(w, s).done <= |Next(w, s).calling| && Noticed(Next(w, s))
  {
    var r := Next(w, s);
    StepTimes(w, s, WriteComplete(0));
    hide Sound, Times, Notices, Due, Next, Enabled, Payload, Written;
    forall id | id in r.conns ensures Times(r, WriteComplete(id)) == Notices(ConnOf(r, id).log) {
      StepTimes(w, s, WriteComplete(id));
      if id in w.conns {
        StepEntered(w, s, id);
      } else {
        Newcomer(w, s, id);
        NotDue(w, s, id);
        NoNotices();
      }
    }
    forall id | id >= r.nextId ensures Times(r, WriteComplete(id)) == 0 {
      StepTimes(w, s, WriteComplete(id));
      NotDue(w, s, id);
    }
  }

  lemma NoNotices()
    ensures Notices(OPENED.log) == 0
  {
  }

  /** Nothing is ever due for a connection that does not exist. */
  lemma NotDue(w: World, s: Step, id: ConnId)
    requires Sound(w) && Enabled(w, s)
    ensures w.nextId <= Next(w, s).nextId
    ensures id !in w.conns || id >= w.nextId ==> Due(w, s) != Some(WriteComplete(id))
    ensures id >= w.nextId ==> Due(w, s) != Some(Destroy(id))
  {
    StepConns(w, s, id);
    if id in w.conns { OldId(w, id); }
    if w.current.Some? { CurrentFacts(w); OldId(w, w.current.value.id); }
    hide Sound, Next, ConnStep, TakenWhole;
  }

  /** Who is open, or between the two callbacks of a close. */
  predicate Unclosed(w: World, id: ConnId)
  {
    Open(w, id) || Closing(w, id)
  }

  /** A close begins with conn_cb_ and ends with close_cb_, where the functor is queued. */
  lemma UnclosedStep(w: World, s: Step, id: ConnId)
    requires Sound(w) && Enabled(w, s) && id < w.nextId
    ensures Unclosed(Next(w, s), id) <==> Unclosed(w, id) && Due(w, s) != Some(Destroy(id))
    ensures Due(w, s) == Some(Destroy(id)) ==> Unclosed(w, id)
  {
    if w.current.Some? { CurrentFacts(w); }
    if s == CloseReturns { ClosingIsClosed(w); }
    if Commits(s) {
      UnclosedWork(w, s, id);
    } else if s == ClearFunctors || s.UserDrop? || s == CallFunctor {
      UnclosedLoop(w, s, id);
    } else {
      hide Sound;
      UnclosedOther(w, s, id);
    }
    hide Next, Enabled, Sound, Open, Closing;
  }

  lemma UnclosedLoop(w: World, s: Step, id: ConnId)
    requires Sound(w) && Enabled(w, s) && (s == ClearFunctors || s.UserDrop? || s == CallFunctor)
    ensures Unclosed(Next(w, s), id) <==> Unclosed(w, id)
  {
    hide Sound, Reap;
    match s
    case ClearFunctors => UnclosedReap(w, w.(phase := Polling, calling := [], done := 0), id);
    case UserDrop(x) => UnclosedReap(w, w.(held := w.held - {x}), id);
    case CallFunctor => UnclosedCall(w, id);
  }

  lemma UnclosedWork(w: World, s: Step, id: ConnId)
    requires Sound(w) && Enabled(w, s) && Commits(s)
    ensures Unclosed(Next(w, s), id) <==> Unclosed(w, id)
    ensures !(Due(w, s).Some? && Due(w, s).value.Destroy?)
  {
    hide Inv, Commit, Send, HandleWrite, Shutdown, Flagged;
    match s
    case Writable(r) =>
      var x := w.current.value.id;
      HandleWriteState(ConnOf(w, x), r);
      UnclosedCommit(w, id, x, HandleWrite(ConnOf(w, x), r));
    case UserSend(x, data, r) =>
      ConnFacts(w, x);
      hide Sound;
      SendShape(ConnOf(w, x), data, r);
      UnclosedCommit(w, id, x, Send(ConnOf(w, x), data, r));
    case UserShutdown(x) =>
      ShutdownState(ConnOf(w, x));
      UnclosedCommit(w, id, x, Shutdown(ConnOf(w, x)));
  }

  lemma UnclosedOther(w: World, s: Step, id: ConnId)
    requires Enabled(w, s) && !Commits(s) && s != ClearFunctors && s != CallFunctor && !s.UserDrop? && id < w.nextId
    requires w.current.Some? ==> w.current.value.id in w.conns
    requires s == CloseReturns ==> !Open(w, w.current.value.id)
    ensures Unclosed(Next(w, s), id) <==> Unclosed(w, id) && Due(w, s) != Some(Destroy(id))
    ensures Due(w, s) == Some(Destroy(id)) ==> Unclosed(w, id)
  {
    hide Close, Flagged;
    match s
    case ReadEof => CloseFrame(w);
    case HangUp => CloseFrame(w);
    case _ =>
  }

  lemma ShutdownState(c: Conn)
    ensures Shutdown(c).state == if c.state == Established then HalfShutdown else c.state
  {
  }

  lemma ClosingIsClosed(w: World)
    requires Sound(w) && w.current.Some? && w.current.value.closing
    ensures !Open(w, w.current.value.id)
  {
    hide Inv;
    assert Closing(w, w.current.value.id);
  }

  lemma UnclosedCommit(w: World, id: ConnId, x: ConnId, c: Conn)
    requires x in w.conns && (c.state == Disconnected <==> ConnOf(w, x).state == Disconnected)
    ensures Unclosed(Commit(w, x, c), id) <==> Unclosed(w, id)
    ensures Commit(w, x, c).current == w.current
  {
  }

  lemma UnclosedCall(w: World, id: ConnId)
    requires Sound(w) && Enabled(w, CallFunctor)
    ensures Unclosed(Next(w, CallFunctor), id) <==> Unclosed(w, id)
  {
    hide Sound, Inv, Queued;
    var f := w.calling[w.done];
    if f.Destroy? {
      assert f.id in Refs(f);
      FunctorFacts(w);
    }
  }

  /** Open connections are referenced by the server, so dropping a functor or a user's pointer does not
      destroy them. */
  lemma UnclosedReap(w: World, r: World, id: ConnId)
    requires Sound(w) && r.conns == w.conns && r.idConn == w.idConn && r.newborn == w.newborn && r.current == w.current
    ensures Unclosed(Reap(r), id) <==> Unclosed(w, id)
  {
    hide Inv;
    assert Open(w, id) ==> Referenced(r, id);
  }

  /** What Doomings says of one connection. */
  predicate Doom(w: World, id: ConnId)
    requires w.done <= |w.calling|
  {
    Times(w, Destroy(id)) == if id >= w.nextId || Open(w, id) || Closing(w, id) then 0 else 1
  }

  lemma DoomStep(w: World, s: Step, id: ConnId)
    requires Sound(w) && Enabled(w, s) && w.done <= |w.calling| && Doom(w, id)
    ensures Next(w, s).done <= |Next(w, s).calling| && Doom(Next(w, s), id)
  {
    StepTimes(w, s, Destroy(id));
    NotDue(w, s, id);
    if id < w.nextId {
      UnclosedStep(w, s, id);
    } else if id < Next(w, s).nextId {
      AcceptedIsOpen(w, s, id);
    }
    hide Sound, Times, Due, Open, Closing, Next, Enabled;
  }

  lemma DoomingsStep(w: World, s: Step)
    requires Sound(w) && Enabled(w, s) && w.done <= |w.calling| && Doomings(w)
    ensures Next(w, s).done <= |Next(w, s).calling| && Doomings(Next(w, s))
  {
    hide Sound, Times, Open, Closing, Next, Enabled, Doom;
    DoomStep(w, s, 0);
    forall id ensures Doom(Next(w, s), id) { DoomStep(w, s, id); }
  }

  lemma AcceptedIsOpen(w: World, s: Step, id: ConnId)
    requires Enabled(w, s) && w.nextId <= id < Next(w, s).nextId
    ensures Open(Next(w, s), id)
  {
    hide Queued, Referenced, Send, HandleWrite, Shutdown, HandleClose, DestroyConnection;
  }

  lemma {:induction false} RunBooks(w: World, steps: seq<Step>, end: World)
    requires Sound(w) && w.done <= |w.calling| && Noticed(w) && Doomings(w) && Run(w, steps, end)
    ensures Sound(end) && end.done <= |end.calling| && Noticed(end) && Doomings(end)
    decreases |steps|
  {
    hide Sound, Next, Enabled, Noticed, Doomings;
    if steps != [] {
      StepSound(w, steps[0]);
      NoticedStep(w, steps[0]);
      DoomingsStep(w, steps[0]);
      RunBooks(Next(w, steps[0]), steps[1..], end);
    }
  }

  lemma NothingYet()
    ensures Noticed(START) && Doomings(START)
  {
    forall f: Functor ensures Times(START, f) == 0 {
      assert |START.calling[START.done..]| == 0;
    }
  }

  lemma StartBooks(steps: seq<Step>, w: World)
    requires Run(START, steps, w)
    ensures Sound(w) && w.done <= |w.calling| && Noticed(w) && Doomings(w)
  {
    StartSound();
    NothingYet();
    hide Sound, Run, Noticed, Doomings;
    RunBooks(START, steps, w);
  }

  // ---------------------------------------------------------------- over whole runs

  /** Each write_cb_ in a connection's history has been called, is in the round or is waiting in the
      loop's queue, once; and the loop calls no other. */
  lemma WriteCallbacksReachTheLoop(steps: seq<Step>, w: World, id: ConnId)
    requires Run(START, steps, w) && id in w.conns
    ensures w.done <= |w.calling|
    ensures Notices(ConnOf(w, id).log) ==
            multiset(w.called)[WriteComplete(id)] + multiset(w.calling[w.done..])[WriteComplete(id)] +
            multiset(w.pending)[WriteComplete(id)]
  {
    hide Run, Sound, Doomings;
    StartBooks(steps, w);
  }

  /** DestroyConnection runs once for every connection that is destroyed, and is queued for none that
      is open. */
  lemma DestroyedExactlyOnce(steps: seq<Step>, w: World, id: ConnId)
    requires Run(START, steps, w) && id < w.nextId
    ensures w.done <= |w.calling|
    ensures id !in w.conns ==> multiset(w.called)[Destroy(id)] == 1
    ensures Open(w, id) ==> Destroy(id) !in w.called && Destroy(id) !in w.pending && Destroy(id) !in w.calling[w.done..]
  {
    hide Run, Noticed;
    StartBooks(steps, w);
    assert Doom(w, id);
    hide Sound;
    if id !in w.conns { QueuedAreAlive(w, id); }
  }

  lemma QueuedAreAlive(w: World, id: ConnId)
    requires Sound(w) && id !in w.conns
    ensures w.done <= |w.calling| && !Closing(w, id)
    ensures Destroy(id) !in w.pending && Destroy(id) !in w.calling[w.done..]
  {
    hide Inv;
    assert id in Refs(Destroy(id));
    assert Destroy(id) in w.calling[w.done..] ==> Destroy(id) in w.calling;
  }

  /** The payloads accepted for a connection during a run, and the bytes the kernel says it took. */
  function Payloads(w: World, steps: seq<Step>, id: ConnId): string
    decreases |steps|
  {
    if steps == [] || !Enabled(w, steps[0]) then ""
    else Payload(w, steps[0], id) + Payloads(Next(w, steps[0]), steps[1..], id)
  }

  function Wire(w: World, steps: seq<Step>, id: ConnId): string
    decreases |steps|
  {
    if steps == [] || !Enabled(w, steps[0]) then ""
    else Written(w, steps[0], id) + Wire(Next(w, steps[0]), steps[1..], id)
  }

  function Submissions(w: World, id: ConnId): string
  {
    if id in w.conns then SubmittedBytes(ConnOf(w, id).log) else ""
  }

  function Takings(w: World, id: ConnId): string
  {
    if id in w.conns then TakenBytes(ConnOf(w, id).log) else ""
  }

  lemma StepBytes(w: World, s: Step, id: ConnId)
    requires Sound(w) && Enabled(w, s)
    ensures id in Next(w, s).conns ==>
              && Submissions(Next(w, s), id) == Submissions(w, id) + Payload(w, s, id)
              && Takings(Next(w, s), id) == Takings(w, id) + Written(w, s, id)
    ensures id !in w.conns ==> Payload(w, s, id) == "" && Written(w, s, id) == ""
  {
    if w.current.Some? { CurrentFacts(w); }
    hide Sound, Notices, Commit, Close, Reap, Send, HandleWrite, TakenBytes, SubmittedBytes;
    if id in Next(w, s).conns {
      if id in w.conns { StepEntered(w, s, id); } else { Newcomer(w, s, id); }
    }
  }

  lemma {:induction false} GoneForGood(w: World, steps: seq<Step>, end: World, id: ConnId)
    requires Sound(w) && Run(w, steps, end) && id < w.nextId && id !in w.conns
    ensures id !in end.conns
    decreases |steps|
  {
    hide Sound, Next, Enabled;
    if steps != [] {
      var s := steps[0];
      StepSound(w, s);
      if id in Next(w, s).conns { Newcomer(w, s, id); }
      NotDue(w, s, id);
      GoneForGood(Next(w, s), steps[1..], end, id);
    }
  }

  lemma {:induction false} RunBytes(w: World, steps: seq<Step>, end: World, id: ConnId)
    requires Sound(w) && Run(w, steps, end) && id in end.conns
    ensures Submissions(end, id) == Submissions(w, id) + Payloads(w, steps, id)
    ensures Takings(end, id) == Takings(w, id) + Wire(w, steps, id)
    decreases |steps|
  {
    hide Sound, Next, Enabled, Submissions, Takings, Payload, Written;
    if steps != [] {
      var s, r := steps[0], Next(w, steps[0]);
      StepSound(w, s);
      StepBytes(w, s, id);
      RunBytes(r, steps[1..], end, id);
      if id !in r.conns {
        NeverThere(w, s, steps[1..], end, id);
      }
    }
  }

  lemma NeverThere(w: World, s: Step, steps: seq<Step>, end: World, id: ConnId)
    requires Sound(w) && Enabled(w, s) && Run(Next(w, s), steps, end) && id in end.conns && id !in Next(w, s).conns
    ensures Submissions(w, id) == Submissions(Next(w, s), id) == "" && Takings(w, id) == Takings(Next(w, s), id) == ""
    ensures id !in w.conns
  {
    StepSound(w, s);
    NotDue(w, s, id);
    if id in w.conns { OldId(w, id); }
    hide Sound, Next, Enabled;
    if id < Next(w, s).nextId { GoneForGood(Next(w, s), steps, end, id); }
  }

  /** In every run, for every connection: what the kernel said it took, followed by what is buffered, is
      what user code has sent and was accepted, in order. */
  lemma StreamIsWhatWasSent(steps: seq<Step>, w: World, id: ConnId)
    requires Run(START, steps, w) && id in w.conns
    ensures Wire(START, steps, id) + ConnOf(w, id).out == Payloads(START, steps, id)
  {
    StartSound();
    hide Run;
    RunBytes(START, steps, w, id);
    StreamsHold(steps, w, id);
    hide Sound, Run;
    assert "" + Wire(START, steps, id) == Wire(START, steps, id);
    assert "" + Payloads(START, steps, id) == Payloads(START, steps, id);
  }

  // ---------------------------------------------------------------- closing

  /** End of file and hang-up close: conn_cb_ now and close_cb_ after it, unless that has happened, and
      the connection leaves the poller. */
  lemma CloseCloses(w: World, s: Step)
    requires Sound(w) && Enabled(w, s) && (s == ReadEof || s == HangUp)
    ensures var id, r := w.current.value.id, Next(w, s);
            && id in w.conns && id in r.conns && !Open(r, id)
            && (Open(w, id) ==>
                  && !ConnOf(r, id).registered && Enabled(r, CloseReturns)
                  && Destroy(id) in Next(r, CloseReturns).pending && id !in Next(r, CloseReturns).idConn)
  {
    CurrentFacts(w);
    CloseFrame(w);
    var r := Close(w);
    assert Next(w, s) == r;
    HandleCloseState(ConnOf(w, w.current.value.id));
    hide Sound, Inv, Close, HandleClose, Next;
    if Open(w, w.current.value.id) { ClosedReturns(r); }
  }

  lemma HandleCloseState(c: Conn)
    ensures HandleClose(c).state == Disconnected && (c.state != Disconnected ==> !HandleClose(c).registered)
  {
  }

  lemma ClosedReturns(w: World)
    requires w.current.Some? && w.current.value.closing
    ensures Enabled(w, CloseReturns)
    ensures var r := Next(w, CloseReturns); Destroy(w.current.value.id) in r.pending && w.current.value.id !in r.idConn
  {
  }

  /** After Shutdown the connection accepts nothing more, in any continuation, and keeps what it has
      accepted. */
  lemma AfterShutdown(w: World, id: ConnId, steps: seq<Step>)
    requires Sound(w) && Enabled(w, UserShutdown(id))
    ensures var r := Next(w, UserShutdown(id));
            && id in r.conns && ConnOf(r, id).out == ConnOf(w, id).out
            && Payloads(r, steps, id) == ""
  {
    var r := Next(w, UserShutdown(id));
    StepSound(w, UserShutdown(id));
    CommitFrame(w, id, Shutdown(ConnOf(w, id)));
    ShutdownState(ConnOf(w, id));
    ConnFacts(w, id);
    assert Armed(ConnOf(w, id));
    hide Sound, Inv, Commit;
    ShutdownIsFinal(r, id, steps);
  }

  lemma {:induction false} ShutdownIsFinal(w: World, id: ConnId, steps: seq<Step>)
    requires Sound(w) && id in w.conns && ConnOf(w, id).state != Established && ConnOf(w, id).state != Connecting
    ensures Payloads(w, steps, id) == ""
    decreases |steps|
  {
    if steps != [] && Enabled(w, steps[0]) {
      var r := Next(w, steps[0]);
      StepSound(w, steps[0]);
      OldId(w, id);
      NotDue(w, steps[0], id);
      if id in r.conns {
        NeverReopens(w, steps[0], id);
        hide Sound, Next, Enabled;
        ShutdownIsFinal(r, id, steps[1..]);
      } else {
        hide Sound, Next, Enabled;
        NothingAfterDeath(r, id, steps[1..]);
      }
    }
  }

  lemma NeverReopens(w: World, s: Step, id: ConnId)
    requires Sound(w) && Enabled(w, s) && id in w.conns && id in Next(w, s).conns
    requires ConnOf(w, id).state == HalfShutdown || ConnOf(w, id).state == Disconnected
    ensures ConnOf(Next(w, s), id).state == HalfShutdown || ConnOf(Next(w, s), id).state == Disconnected
  {
    StepConns(w, s, id);
    hide Sound, Next;
  }

  lemma {:induction false} NothingAfterDeath(w: World, id: ConnId, steps: seq<Step>)
    requires Sound(w) && id !in w.conns && id < w.nextId
    ensures Payloads(w, steps, id) == ""
    decreases |steps|
  {
    if steps != [] && Enabled(w, steps[0]) {
      var s := steps[0];
      StepSound(w, s);
      StepBytes(w, s, id);
      if id in Next(w, s).conns { Newcomer(w, s, id); }
      NotDue(w, s, id);
      hide Sound, Next, Enabled;
      NothingAfterDeath(Next(w, s), id, steps[1..]);
    }
  }

  // ---------------------------------------------------------------- dispatch

  predicate TestsStage(s: Step)
  {
    s == SkipStage || s == ReadData || s == ReadEof || s == ReadError || s.Writable? || s == HandleError || s == HangUp
  }

  /** The stages tested in a run. */
  function Tests(w: World, steps: seq<Step>): seq<nat>
    decreases |steps|
  {
    if steps == [] || !Enabled(w, steps[0]) then []
    else (if TestsStage(steps[0]) && w.current.Some? then [w.current.value.stage] else []) +
         Tests(Next(w, steps[0]), steps[1..])
  }

  function Upto(from: nat, to: nat): seq<nat>
    decreases if from < to then to - from else 0
  {
    if from >= to then [] else [from] + Upto(from + 1, to)
  }

  /** One step while a channel is being handled. */
  lemma HandlingStep(w: World, s: Step)
    requires w.current.Some? && w.phase == Dispatching && w.newborn.None? && Enabled(w, s) && s != HandleDone
    ensures var r := Next(w, s);
            && r.current.Some? && r.phase == Dispatching && r.newborn.None? && r.active == w.active
            && r.current.value.id == w.current.value.id && r.current.value.revents == w.current.value.revents
            && r.current.value.stage == w.current.value.stage + (if TestsStage(s) then 1 else 0)
  {
    hide Commit, Reap, Flagged;
    match s {
      case UserSend(x, data, r) => CommitFrame(w, x, Send(ConnOf(w, x), data, r));
      case Writable(r) => CommitFrame(w, w.current.value.id, HandleWrite(ConnOf(w, w.current.value.id), r));
      case UserShutdown(x) => CommitFrame(w, x, Shutdown(ConnOf(w, x)));
      case UserDrop(x) => ReapFrame(w.(held := w.held - {x}));
      case _ =>
    }
  }

  lemma {:induction false} HandlingRun(w: World, steps: seq<Step>, end: World)
    requires w.current.Some? && w.phase == Dispatching && w.newborn.None? && Run(w, steps, end)
    requires forall i | 0 <= i < |steps| :: steps[i] != HandleDone
    ensures end.current.Some? && w.current.value.stage <= end.current.value.stage
    ensures end.current.value.id == w.current.value.id && end.current.value.revents == w.current.value.revents
    ensures end.active == w.active && end.phase == Dispatching && end.newborn.None?
    ensures Tests(w, steps) == Upto(w.current.value.stage, end.current.value.stage)
    decreases |steps|
  {
    if steps != [] {
      HandlingStep(w, steps[0]);
      hide Next, Enabled;
      HandlingRun(Next(w, steps[0]), steps[1..], end);
    }
  }

  /** Handling a channel tests read, write, error and close, each once and in this order, whatever
      user code does in between; a flagged one runs its callback. */
  lemma HandlesInOrder(w: World, steps: seq<Step>, end: World)
    requires Enabled(w, Handle) && Run(Next(w, Handle), steps, end) && Enabled(end, HandleDone)
    requires forall i | 0 <= i < |steps| :: steps[i] != HandleDone
    ensures Tests(Next(w, Handle), steps) == [0, 1, 2, 3]
    ensures end.current.value.id == w.active[0].0 && end.active == w.active[1..]
  {
    HandlingRun(Next(w, Handle), steps, end);
    assert Upto(0, 4) == [0, 1, 2, 3];
  }

  /** What Channel::Handle was called on. */
  function Handled(w: World, steps: seq<Step>): seq<(ConnId, Revents)>
    decreases |steps|
  {
    if steps == [] || !Enabled(w, steps[0]) then []
    else (if steps[0] == Handle then [w.active[0]] else []) + Handled(Next(w, steps[0]), steps[1..])
  }

  lemma DispatchStep(w: World, s: Step)
    requires w.phase == Dispatching && Enabled(w, s) && s != DispatchDone
    ensures var r := Next(w, s);
            r.phase == Dispatching && w.active == (if s == Handle then [w.active[0]] else []) + r.active
  {
    hide Commit, Reap, Flagged;
    match s {
      case UserSend(x, data, r) => CommitFrame(w, x, Send(ConnOf(w, x), data, r));
      case Writable(r) => CommitFrame(w, w.current.value.id, HandleWrite(ConnOf(w, w.current.value.id), r));
      case UserShutdown(x) => CommitFrame(w, x, Shutdown(ConnOf(w, x)));
      case UserDrop(x) => ReapFrame(w.(held := w.held - {x}));
      case _ =>
    }
  }

  lemma {:induction false} DispatchRun(w: World, steps: seq<Step>, end: World)
    requires w.phase == Dispatching && Run(w, steps, end)
    requires forall i | 0 <= i < |steps| :: steps[i] != DispatchDone
    ensures end.phase == Dispatching && Handled(w, steps) + end.active == w.active
    decreases |steps|
  {
    if steps == [] {
      assert [] + end.active == end.active;
    } else {
      var r := Next(w, steps[0]);
      var first := if steps[0] == Handle then [w.active[0]] else [];
      DispatchStep(w, steps[0]);
      hide Next, Enabled;
      DispatchRun(r, steps[1..], end);
      Regroup(first, Handled(r, steps[1..]), end.active);
    }
  }

  lemma Regroup<T>(a: seq<T>, b: seq<T>, c: seq<T>)
    ensures a + b + c == a + (b + c)
  {
  }

  /** When the dispatch loop ends, every reported channel has been handled once, in the order reported. */
  lemma EveryEventIsHandled(w: World, active: seq<(ConnId, Revents)>, steps: seq<Step>, end: World)
    requires Enabled(w, PollReturns(active)) && Run(Next(w, PollReturns(active)), steps, end)
    requires forall i | 0 <= i < |steps| :: steps[i] != DispatchDone
    requires Enabled(end, DispatchDone)
    ensures Handled(Next(w, PollReturns(active)), steps) == active
  {
    DispatchRun(Next(w, PollReturns(active)), steps, end);
  }

  // ---------------------------------------------------------------- pointers of user code

  lemma HeldStep(w: World, s: Step, id: ConnId)
    requires Sound(w) && Enabled(w, s) && id in w.held && s != UserDrop(id)
    ensures id in Next(w, s).held && id in Next(w, s).conns
  {
    StepSound(w, s);
    HeldAlive(Next(w, s));
    hide Sound, Commit, Close, Flagged;
    match s {
      case UserSend(x, data, r) => CommitFrame(w, x, Send(ConnOf(w, x), data, r));
      case Writable(r) => CommitFrame(w, w.current.value.id, HandleWrite(ConnOf(w, w.current.value.id), r));
      case UserShutdown(x) => CommitFrame(w, x, Shutdown(ConnOf(w, x)));
      case ReadEof => CloseFrame(w);
      case HangUp => CloseFrame(w);
      case CallFunctor => CalledFrame(w);
      case _ =>
    }
  }

  lemma HeldAlive(w: World)
    requires Sound(w)
    ensures w.held <= w.conns.Keys
  {
  }

  lemma CalledFrame(w: World)
    requires Enabled(w, CallFunctor)
    ensures Next(w, CallFunctor).held == w.held
  {
    hide Queued, DestroyConnection;
    var f := w.calling[w.done];
    if f.Destroy? { assert f.id in Refs(f); }
  }

  lemma {:induction false} HeldRun(w: World, steps: seq<Step>, end: World, id: ConnId)
    requires Sound(w) && Run(w, steps, end) && id in w.held
    requires forall i | 0 <= i < |steps| :: steps[i] != UserDrop(id)
    ensures id in end.held && id in end.conns
    decreases |steps|
  {
    HeldAlive(w);
    if steps != [] {
      HeldStep(w, steps[0], id);
      StepSound(w, steps[0]);
      hide Sound, Next, Enabled;
      HeldRun(Next(w, steps[0]), steps[1..], end, id);
    }
  }

  /** A connection that user code has taken a pointer to is not destroyed before it lets go. */
  lemma HeldIsNotDestroyed(w: World, id: ConnId, steps: seq<Step>, end: World)
    requires Sound(w) && Enabled(w, UserHold(id)) && Run(Next(w, UserHold(id)), steps, end)
    requires forall i | 0 <= i < |steps| :: steps[i] != UserDrop(id)
    ensures id in end.conns
  {
    StepSound(w, UserHold(id));
    hide Sound;
    HeldRun(Next(w, UserHold(id)), steps, end, id);
  }

  /** And once it lets go, it is destroyed unless the server or a functor still has it. */
  lemma DroppedIsLetGo(w: World, id: ConnId)
    requires Sound(w) && Enabled(w, UserDrop(id))
    ensures var r := Next(w, UserDrop(id));
            && id !in r.held
            && (id in r.conns ==> HeldByTheLoop(r, id))
  {
    StepSound(w, UserDrop(id));
    DropShape(w, id);
    var let := w.(held := w.held - {id});
    ReapFrame(let);
    hide Sound, Reap, HeldByTheLoop, Next, Enabled;
    if id in Reap(let).conns { StillReferenced(Reap(let), id); }
  }

  lemma DropShape(w: World, id: ConnId)
    requires Enabled(w, UserDrop(id))
    ensures Next(w, UserDrop(id)) == Reap(w.(held := w.held - {id}))
  {
    hide Reap;
  }

  /** The server's map, a connection callback or a queued functor refers to it. */
  predicate HeldByTheLoop(w: World, id: ConnId)
  {
    || id in w.idConn || w.newborn == Some(id)
    || (exists f | f in w.pending :: id in Refs(f)) || (exists f | f in w.calling :: id in Refs(f))
  }

  lemma StillReferenced(w: World, id: ConnId)
    requires Sound(w) && id in w.conns && id !in w.held
    ensures HeldByTheLoop(w, id)
  {
    hide Inv, Phases, Pointers, DistinctFds, Owners, ServerRuns.Queues, Batch;
  }

  // ---------------------------------------------------------------- the loop gets on

  /** The steps of the loop itself, as opposed to those of user code and accept. */
  predicate OfTheLoop(s: Step)
  {
    || TestsStage(s) || s == AcceptDone || s == Handle || s == CloseReturns || s == HandleDone
    || s == DispatchDone || s == SwapFunctors || s == CallFunctor || s == ClearFunctors
  }

  /** What is left of an iteration: its phase, the channels or functors to come, the current channel. */
  function PhasesLeft(w: World): nat
  {
    match w.phase
    case Dispatching => 3
    case Timers => 2
    case Calling => 1
    case Polling => 0
  }

  function ItemsLeft(w: World): int
  {
    match w.phase
    case Dispatching => |w.active|
    case Calling => |w.calling| - w.done
    case _ => 0
  }

  function StagesLeft(w: World): int
  {
    (if w.newborn.Some? then 1 else 0) +
    match w.current
    case None => 0
    case Some(h) => 2 * (5 - h.stage) + if h.closing then 1 else 0
  }

  predicate FourStages(w: World)
  {
    w.current.Some? ==> w.current.value.stage <= 4
  }

  lemma FourStagesStep(w: World, s: Step)
    requires Sound(w) && Enabled(w, s) && FourStages(w)
    ensures FourStages(Next(w, s))
  {
    if w.current.Some? { CurrentFacts(w); }
    PhasesOf(w);
    hide Sound;
    if w.current.Some? && s != HandleDone {
      HandlingStep(w, s);
      if TestsStage(s) { AtMostThree(w, s); }
      hide Next, Enabled;
    } else {
      NewlyHandled(w, s);
    }
  }

  lemma AtMostThree(w: World, s: Step)
    requires Enabled(w, s) && TestsStage(s)
    ensures w.current.Some? && w.current.value.stage <= 3
  {
  }

  lemma NewlyHandled(w: World, s: Step)
    requires Enabled(w, s) && (w.current.None? || s == HandleDone)
    ensures Next(w, s).current.Some? ==> Next(w, s).current.value.stage == 0
  {
    hide Commit, Reap, Flagged;
    match s {
      case UserSend(x, data, r) => CommitFrame(w, x, Send(ConnOf(w, x), data, r));
      case UserShutdown(x) => CommitFrame(w, x, Shutdown(ConnOf(w, x)));
      case UserDrop(x) => ReapFrame(w.(held := w.held - {x}));
      case CallFunctor => CalledItems(w);
      case ClearFunctors => ReapFrame(w.(phase := Polling, calling := [], done := 0));
      case _ =>
    }
  }

  lemma {:induction false} FourStagesRun(w: World, steps: seq<Step>, end: World)
    requires Sound(w) && FourStages(w) && Run(w, steps, end)
    ensures Sound(end) && FourStages(end)
    decreases |steps|
  {
    hide Sound, Next, Enabled, FourStages;
    if steps != [] {
      StepSound(w, steps[0]);
      FourStagesStep(w, steps[0]);
      FourStagesRun(Next(w, steps[0]), steps[1..], end);
    }
  }

  /** Whatever has happened, the loop has a step to make until it is back at poll ... */
  lemma LoopGetsOn(steps: seq<Step>, w: World) returns (s: Step)
    requires Run(START, steps, w) && w.phase != Polling
    ensures OfTheLoop(s) && Enabled(w, s)
  {
    StartSound();
    hide Run;
    FourStagesRun(START, steps, w);
    PhasesOf(w);
    if w.current.Some? { CurrentFacts(w); }
    match w.phase {
      case Timers => s := SwapFunctors;
      case Calling =>
        if w.done < |w.calling| { RefsAlive(w); }
        s := if w.done < |w.calling| then CallFunctor else ClearFunctors;
      case Dispatching =>
        hide Sound;
        s := DispatchGetsOn(w);
    }
  }

  lemma DispatchGetsOn(w: World) returns (s: Step)
    requires w.phase == Dispatching && (w.newborn.Some? ==> w.current.None?)
    requires w.current.Some? ==> w.current.value.stage <= 4 && w.current.value.id in w.conns
    ensures OfTheLoop(s) && Enabled(w, s)
  {
    hide Flagged;
    if w.newborn.Some? {
      s := AcceptDone;
    } else if w.current.None? {
      s := if w.active == [] then DispatchDone else Handle;
    } else if w.current.value.closing {
      s := CloseReturns;
    } else {
      s := StageStep(w);
    }
  }

  lemma RefsAlive(w: World)
    requires Sound(w) && w.phase == Calling && w.done < |w.calling|
    ensures Refs(w.calling[w.done]) <= w.conns.Keys
  {
    hide Inv;
    assert w.calling[w.done] in w.calling;
  }

  lemma StageStep(w: World) returns (s: Step)
    requires w.current.Some? && w.current.value.stage <= 4 && AtStage(w, w.current.value.stage)
    ensures OfTheLoop(s) && Enabled(w, s)
  {
    var k := w.current.value.stage;
    if k == 4 {
      s := HandleDone;
    } else if !Flagged(w.current.value.revents, k) {
      s := SkipStage;
    } else {
      s := match k case 0 => ReadData case 1 => Writable(Again) case 2 => HandleError case _ => HangUp;
    }
  }

  /** ... and each brings it nearer: between two polls it makes finitely many. */
  lemma LoopComesBack(w: World, s: Step)
    requires Sound(w) && Enabled(w, s) && OfTheLoop(s)
    ensures var r := Next(w, s);
            || PhasesLeft(r) < PhasesLeft(w)
            || (PhasesLeft(r) == PhasesLeft(w) && 0 <= ItemsLeft(r) < ItemsLeft(w))
            || (PhasesLeft(r) == PhasesLeft(w) && ItemsLeft(r) == ItemsLeft(w) && StagesLeft(r) < StagesLeft(w))
  {
    PhasesOf(w);
    if w.current.Some? { CurrentFacts(w); }
    hide Sound, Next, Enabled;
    if w.current.Some? { CurrentComesOn(w, s); } else { RestComesOn(w, s); }
  }

  lemma RestComesOn(w: World, s: Step)
    requires Phases(w) && Enabled(w, s) && OfTheLoop(s) && w.current.None?
    ensures var r := Next(w, s);
            || PhasesLeft(r) < PhasesLeft(w)
            || (PhasesLeft(r) == PhasesLeft(w) && 0 <= ItemsLeft(r) < ItemsLeft(w))
            || (PhasesLeft(r) == PhasesLeft(w) && ItemsLeft(r) == ItemsLeft(w) && StagesLeft(r) < StagesLeft(w))
  {
    hide Reap, Flagged, Commit, Close;
    match s
    case CallFunctor => CalledItems(w);
    case ClearFunctors => ReapFrame(w.(phase := Polling, calling := [], done := 0));
    case _ =>
  }

  lemma CurrentComesOn(w: World, s: Step)
    requires Enabled(w, s) && OfTheLoop(s)
    requires w.current.Some? && w.phase == Dispatching && w.current.value.id in w.conns && w.newborn.None?
    ensures var r := Next(w, s);
            r.phase == Dispatching && r.active == w.active && r.newborn.None? && StagesLeft(r) < StagesLeft(w)
  {
    if s != HandleDone { HandlingStep(w, s); }
    hide Commit, Close, Reap, Flagged;
    match s {
      case Writable(r) => CommitFrame(w, w.current.value.id, HandleWrite(ConnOf(w, w.current.value.id), r));
      case ReadEof => CloseFrame(w); CloseStage(w);
      case HangUp => CloseFrame(w); CloseStage(w);
      case _ =>
    }
  }

  lemma CloseStage(w: World)
    requires w.current.Some? && w.current.value.id in w.conns
    ensures Close(w).current.Some? && Close(w).current.value.stage == w.current.value.stage + 1
  {
  }

  lemma CalledItems(w: World)
    requires Enabled(w, CallFunctor)
    ensures var r := Next(w, CallFunctor);
            r.phase == w.phase && r.calling == w.calling && r.done == w.done + 1 && r.current == w.current
  {
    hide Queued, DestroyConnection;
    var f := w.calling[w.done];
    if f.Destroy? { assert f.id in Refs(f); }
  }
}
