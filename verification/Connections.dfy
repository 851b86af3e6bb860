/** The output path and life cycle of src/tcp_connection.cc as functions of one connection. `log` is
    the history of the connection: payloads accepted, bytes the kernel took, SHUT_WR, write_cb_
    queued. The kernel is a sink that takes any prefix, nothing (EAGAIN), or fails. */
module Connections {

  datatype State = Connecting | Established | HalfShutdown | Disconnected

  /** write(2): Wrote(n) for n bytes taken, Again for EAGAIN or EWOULDBLOCK, else HardError. */
  datatype WriteResult = Wrote(n: nat) | Again | HardError

  datatype Event = Submitted(bytes: string) | Taken(bytes: string) | Fin | Notified

  /** `reading` and `writing` are the channel's interest, `registered` is index_in_poller_ >= 0,
      `out` is the output buffer. */
  datatype Conn = Conn(
    state: State, reading: bool, writing: bool, registered: bool, out: string, log: seq<Event>)

  const OPENED := Conn(Established, true, false, true, "", [])

  /** The kernel takes no more than it is given. */
  predicate Possible(r: WriteResult, size: nat)
  {
    r.Wrote? ==> r.n <= size
  }

  function Note(c: Conn, ev: Event): Conn
  {
    c.(log := c.log + [ev])
  }

  /** EnableWrite, DisableWrite and DisableAll call Update, which registers an unregistered channel. */
  function EnableWrite(c: Conn): Conn
  {
    c.(writing := true, registered := true)
  }

  function DisableWrite(c: Conn): Conn
  {
    c.(writing := false, registered := true)
  }

  function DisableAll(c: Conn): Conn
  {
    c.(reading := false, writing := false, registered := true)
  }

  /** Lines 240-245. */
  function ShutdownUnsafe(c: Conn): Conn
  {
    if c.writing then c else Note(c, Fin)
  }

  /** Lines 233-238. */
  function Shutdown(c: Conn): Conn
  {
    if c.state == Established then ShutdownUnsafe(c.(state := HalfShutdown)) else c
  }

  /** Lines 97-112. */
  function WroteSome(c: Conn, n: nat): Conn
    requires n <= |c.out|
  {
    var popped := Note(c.(out := c.out[n..]), Taken(c.out[..n]));
    if popped.out != "" then popped
    else
      var drained := Note(DisableWrite(popped), Notified);
      if drained.state == HalfShutdown then ShutdownUnsafe(drained) else drained
  }

  /** Lines 83-114. */
  function HandleWrite(c: Conn, r: WriteResult): Conn
    requires Possible(r, |c.out|)
  {
    if r.Wrote? then WroteSome(c, r.n) else c
  }

  /** Lines 185-224; the high-watermark callback that may follow is in tail position, so what it does
      is a later step. */
  function SendUnsafe(c: Conn, data: string, r: WriteResult): Conn
    requires Possible(r, |data|)
  {
    if c.writing then Note(c.(out := c.out + data), Submitted(data))
    else if c.out != "" then EnableWrite(Note(c.(out := c.out + data), Submitted(data)))
    else if r.HardError? then c
    else
      var n := if r.Wrote? then r.n else 0;
      var written := Note(Note(c, Submitted(data)), Taken(data[..n]));
      if n < |data| then EnableWrite(written.(out := data[n..])) else Note(written, Notified)
  }

  /** Lines 226-230, reached unless line 197 or line 208 has returned: is the high-watermark callback
      called? */
  predicate HighWater(c: Conn, data: string, r: WriteResult, mark: nat)
    requires Possible(r, |data|)
  {
    !c.writing && !(c.out == "" && r.HardError?) && |SendUnsafe(c, data, r).out| >= mark
  }

  /** Lines 171-181. */
  function Send(c: Conn, data: string, r: WriteResult): Conn
    requires Possible(r, |data|)
  {
    if c.state == Established then SendUnsafe(c, data, r) else c
  }

  /** Lines 125-137, up to the callbacks. */
  function HandleClose(c: Conn): Conn
  {
    if c.state == Disconnected then c
    else DisableAll(c).(registered := false, state := Disconnected)
  }

  /** Lines 116-123. */
  function DestroyConnection(c: Conn): Conn
  {
    (if c.state == Established then DisableAll(c.(state := Disconnected)) else c).(registered := false)
  }

  /** write_cb_ was queued on the way from `before` to `after`. */
  predicate Queued(before: Conn, after: Conn)
  {
    |before.log| <= |after.log| && Notified in after.log[|before.log|..]
  }

  /** RemoveChannel asserts that a registered channel has no events left (epoller.cc:47). */
  predicate Removable(c: Conn)
  {
    c.registered ==> !c.reading && !c.writing
  }

  // ---------------------------------------------------------------- the claims, over histories

  function TakenBytes(log: seq<Event>): string
  {
    if log == [] then ""
    else
      TakenBytes(log[..|log| - 1]) + match log[|log| - 1] { case Taken(b) => b case _ => "" }
  }

  function SubmittedBytes(log: seq<Event>): string
  {
    if log == [] then ""
    else
      SubmittedBytes(log[..|log| - 1]) + match log[|log| - 1] { case Submitted(b) => b case _ => "" }
  }

  lemma BytesAppend(log: seq<Event>, ev: Event)
    ensures TakenBytes(log + [ev]) == if ev.Taken? then TakenBytes(log) + ev.bytes else TakenBytes(log)
    ensures SubmittedBytes(log + [ev]) ==
            if ev.Submitted? then SubmittedBytes(log) + ev.bytes else SubmittedBytes(log)
  {
    assert (log + [ev])[..|log|] == log;
  }

  /** What the kernel took, followed by what is buffered, is every accepted payload in order. */
  predicate Conserved(c: Conn)
  {
    TakenBytes(c.log) + c.out == SubmittedBytes(c.log)
  }

  predicate FinSent(c: Conn)
  {
    c.log != [] && c.log[|c.log| - 1] == Fin
  }

  /** SHUT_WR, if it was issued, is the last thing that ever happened: it was issued once, nothing was
      accepted or written after it, and everything accepted had been written before it. */
  ghost predicate FinIsLast(c: Conn)
  {
    && (forall i | 0 <= i < |c.log| && c.log[i] == Fin :: i == |c.log| - 1)
    && (FinSent(c) ==> c.out == "" && !c.writing && (c.state == HalfShutdown || c.state == Disconnected))
    && (c.state == HalfShutdown && !c.writing ==> FinSent(c))
  }

  /** A payload was accepted after the last write_cb_ was queued. */
  predicate Owed(log: seq<Event>)
  {
    exists i | 0 <= i < |log| :: log[i].Submitted? && forall j | i < j < |log| :: log[j] != Notified
  }

  /** Between two queued write_cb_ a payload was accepted, and before the first one too. */
  ghost predicate NeverIdle(log: seq<Event>)
  {
    forall j | 0 <= j < |log| && log[j] == Notified :: Owed(log[..j])
  }

  /** A write_cb_ is still owed exactly when bytes are still buffered. */
  ghost predicate Accounted(c: Conn)
  {
    NeverIdle(c.log) && (Owed(c.log) <==> c.out != "")
  }

  /** Until the connection is closed POLLOUT is armed exactly when bytes are buffered; after that no
      event is asked for. */
  predicate Armed(c: Conn)
  {
    match c.state
    case Connecting => false
    case Disconnected => !c.reading && !c.writing
    case _ => c.reading && c.registered && (c.writing <==> c.out != "")
  }

  ghost predicate Inv(c: Conn)
  {
    Conserved(c) && FinIsLast(c) && Accounted(c) && Armed(c)
  }

  lemma OpenedInv()
    ensures Inv(OPENED)
  {
  }

  lemma OwedAppend(log: seq<Event>, ev: Event)
    ensures Owed(log + [ev]) <==> ev.Submitted? || (ev != Notified && Owed(log))
    ensures NeverIdle(log) && (ev == Notified ==> Owed(log)) ==> NeverIdle(log + [ev])
  {
    var l := log + [ev];
    if Owed(log) && ev != Notified {
      var i :| 0 <= i < |log| && log[i].Submitted? && forall j | i < j < |log| :: log[j] != Notified;
      assert l[i].Submitted?;
    }
    if ev.Submitted? { assert l[|log|].Submitted?; }
    if Owed(l) && !ev.Submitted? {
      var i :| 0 <= i < |l| && l[i].Submitted? && forall j | i < j < |l| :: l[j] != Notified;
      assert log[i] == l[i] && l[|log|] == ev;
      assert forall j | i < j < |log| :: log[j] == l[j];
    }
    assert forall j | 0 <= j < |log| :: l[..j] == log[..j];
    assert l[..|log|] == log;
  }

  // ---------------------------------------------------------------- every operation keeps them

  lemma ShutdownKeeps(c: Conn)
    requires Inv(c)
    ensures Inv(Shutdown(c))
  {
    hide Owed, NeverIdle, TakenBytes, SubmittedBytes;
    if c.state == Established && !c.writing {
      StillNoFin(c);
      BytesAppend(c.log, Fin);
      OwedAppend(c.log, Fin);
    }
  }

  /** The branch at line 199 (bytes buffered, POLLOUT not armed) is dead. */
  lemma BufferedMeansArmed(c: Conn)
    requires Inv(c) && c.state == Established
    ensures !(!c.writing && c.out != "")
  {
  }

  predicate NoFin(log: seq<Event>)
  {
    forall i | 0 <= i < |log| :: log[i] != Fin
  }

  lemma StillNoFin(c: Conn)
    requires FinIsLast(c) && (c.state == Established || c.out != "")
    ensures NoFin(c.log)
  {
  }

  /** The books after a payload is accepted, after `n` of its bytes are taken, and after write_cb_ is
      queued. */
  lemma SubmitBooks(log: seq<Event>, data: string)
    ensures var l := log + [Submitted(data)];
            && TakenBytes(l) == TakenBytes(log) && SubmittedBytes(l) == SubmittedBytes(log) + data
            && Owed(l) && (NeverIdle(log) ==> NeverIdle(l)) && (NoFin(log) ==> NoFin(l))
  {
    BytesAppend(log, Submitted(data));
    OwedAppend(log, Submitted(data));
  }

  lemma TakeBooks(log: seq<Event>, bytes: string)
    ensures var l := log + [Taken(bytes)];
            && TakenBytes(l) == TakenBytes(log) + bytes && SubmittedBytes(l) == SubmittedBytes(log)
            && (Owed(l) <==> Owed(log)) && (NeverIdle(log) ==> NeverIdle(l)) && (NoFin(log) ==> NoFin(l))
  {
    BytesAppend(log, Taken(bytes));
    OwedAppend(log, Taken(bytes));
  }

  lemma NotifyBooks(log: seq<Event>)
    ensures var l := log + [Notified];
            && TakenBytes(l) == TakenBytes(log) && SubmittedBytes(l) == SubmittedBytes(log)
            && !Owed(l) && (NeverIdle(log) && Owed(log) ==> NeverIdle(l)) && (NoFin(log) ==> NoFin(l))
  {
    BytesAppend(log, Notified);
    OwedAppend(log, Notified);
  }

  lemma SplitBytes(before: string, data: string, n: nat)
    requires n <= |data|
    ensures before + data == before + data[..n] + data[n..]
  {
    assert data == data[..n] + data[n..];
  }

  lemma SendKeeps(c: Conn, data: string, r: WriteResult)
    requires Inv(c) && Possible(r, |data|)
    ensures Inv(Send(c, data, r))
  {
    if c.state == Established {
      if c.writing {
        SendBufferedKeeps(c, data, r);
      } else if !r.HardError? {
        SendDirectKeeps(c, data, r);
      }
    }
  }

  lemma SendBufferedKeeps(c: Conn, data: string, r: WriteResult)
    requires Inv(c) && c.state == Established && c.writing && Possible(r, |data|)
    ensures Inv(SendUnsafe(c, data, r))
  {
    hide Owed, NeverIdle, TakenBytes, SubmittedBytes;
    StillNoFin(c);
    SubmitBooks(c.log, data);
    assert TakenBytes(c.log) + (c.out + data) == TakenBytes(c.log) + c.out + data;
  }

  lemma SendDirectKeeps(c: Conn, data: string, r: WriteResult)
    requires Inv(c) && c.state == Established && !c.writing && Possible(r, |data|) && !r.HardError?
    ensures Inv(SendUnsafe(c, data, r))
  {
    hide Owed, NeverIdle, TakenBytes, SubmittedBytes;
    var n := if r.Wrote? then r.n else 0;
    var first := c.log + [Submitted(data)];
    var second := first + [Taken(data[..n])];
    StillNoFin(c);
    SubmitBooks(c.log, data);
    TakeBooks(first, data[..n]);
    NotifyBooks(second);
    SplitBytes(TakenBytes(c.log), data, n);
    assert TakenBytes(c.log) + "" == TakenBytes(c.log);
    assert TakenBytes(second) + "" == TakenBytes(second);
  }

  /** HandleWrite runs on a channel whose POLLOUT was armed when poll returned, hence with bytes to
      write: also when HandleClose has run in between. */
  lemma HandleWriteKeeps(c: Conn, r: WriteResult)
    requires Inv(c) && c.out != "" && Possible(r, |c.out|)
    ensures Inv(HandleWrite(c, r))
  {
    if r.Wrote? { WroteSomeKeeps(c, r.n); }
  }

  lemma WroteSomeKeeps(c: Conn, n: nat)
    requires Inv(c) && c.out != "" && n <= |c.out|
    ensures Inv(WroteSome(c, n))
  {
    hide Owed, NeverIdle, TakenBytes, SubmittedBytes;
    var first := c.log + [Taken(c.out[..n])];
    StillNoFin(c);
    TakeBooks(c.log, c.out[..n]);
    SplitBytes(TakenBytes(c.log), c.out, n);
    if n == |c.out| {
      DrainedKeeps(c, first);
    }
  }

  lemma DrainedKeeps(c: Conn, first: seq<Event>)
    requires Armed(c) && NoFin(first) && NeverIdle(first) && Owed(first)
    requires TakenBytes(first) == SubmittedBytes(first)
    ensures var d := Note(DisableWrite(c.(out := "", log := first)), Notified);
            Inv(if d.state == HalfShutdown then ShutdownUnsafe(d) else d)
  {
    hide Owed, NeverIdle, TakenBytes, SubmittedBytes;
    var second := first + [Notified];
    NotifyBooks(first);
    BytesAppend(second, Fin);
    OwedAppend(second, Fin);
    assert TakenBytes(second) + "" == TakenBytes(second);
  }

  lemma HandleCloseKeeps(c: Conn)
    requires Inv(c)
    ensures Inv(HandleClose(c)) && HandleClose(c).state == Disconnected
    ensures c.state != Disconnected ==> !HandleClose(c).registered
  {
    hide Owed, NeverIdle;
  }

  lemma DestroyKeeps(c: Conn)
    requires Inv(c) && c.state == Disconnected
    ensures Inv(DestroyConnection(c)) && DestroyConnection(c) == c.(registered := false) && Removable(c)
  {
    hide Owed, NeverIdle;
  }

  // ---------------------------------------------------------------- exact effect on the history

  lemma QueuedExt(before: Conn, after: Conn, ext: seq<Event>)
    requires after.log == before.log + ext
    ensures Queued(before, after) <==> Notified in ext
  {
    assert after.log[|before.log|..] == ext;
  }

  /** SendUnsafe queues write_cb_ exactly when the kernel takes a whole payload at once. */
  lemma SendQueues(c: Conn, data: string, r: WriteResult)
    requires Possible(r, |data|)
    ensures Queued(c, SendUnsafe(c, data, r)) <==>
            !c.writing && c.out == "" && !r.HardError? && (if r.Wrote? then r.n else 0) == |data|
    ensures !Queued(c, c)
  {
    hide Queued;
    QueuedExt(c, c, []);
    var d, n := SendUnsafe(c, data, r), if r.Wrote? then r.n else 0;
    if c.writing || c.out != "" {
      QueuedExt(c, d, [Submitted(data)]);
    } else if !r.HardError? {
      var ext := [Submitted(data), Taken(data[..n])];
      assert c.log + [Submitted(data)] + [Taken(data[..n])] == c.log + ext;
      assert c.log + ext + [Notified] == c.log + (ext + [Notified]);
      QueuedExt(c, d, if n == |data| then ext + [Notified] else ext);
    }
  }

  /** What an accepted Send on an idle connection leaves. */
  lemma SendIdle(c: Conn, data: string, r: WriteResult)
    requires c.state == Established && !c.writing && c.out == "" && Possible(r, |data|) && !r.HardError?
    ensures var d, n := Send(c, data, r), if r.Wrote? then r.n else 0;
            && d.state == Established && d.out == data[n..]
            && SubmittedBytes(d.log) == SubmittedBytes(c.log) + data
            && (Queued(c, d) <==> n == |data|)
  {
    hide TakenBytes, SubmittedBytes, Owed, NeverIdle, NoFin, Queued;
    var d, n := Send(c, data, r), if r.Wrote? then r.n else 0;
    var first := c.log + [Submitted(data)];
    var second := first + [Taken(data[..n])];
    SubmitBooks(c.log, data);
    TakeBooks(first, data[..n]);
    NotifyBooks(second);
    var ext := [Submitted(data), Taken(data[..n])];
    assert second == c.log + ext && second + [Notified] == c.log + (ext + [Notified]);
    QueuedExt(c, d, if n == |data| then ext + [Notified] else ext);
  }

  /** A Send behind buffered bytes waits its turn, whatever the kernel would have answered. */
  lemma SendBusy(c: Conn, data: string, r: WriteResult)
    requires Inv(c) && c.state == Established && c.out != "" && Possible(r, |data|)
    ensures Send(c, data, r) == Note(c.(out := c.out + data), Submitted(data))
  {
    BufferedMeansArmed(c);
  }

  /** The watermark is compared with what one Send leaves of its own payload on an idle connection.
      What further Sends pile up behind it is never compared, however much it is. */
  lemma HighWaterExactly(c: Conn, data: string, r: WriteResult, mark: nat)
    requires Inv(c) && c.state == Established && Possible(r, |data|)
    ensures HighWater(c, data, r, mark) <==>
            c.out == "" && !r.HardError? && |data| - (if r.Wrote? then r.n else 0) >= mark
    ensures c.out != "" ==> |Send(c, data, r).out| == |c.out| + |data|
  {
    hide Owed, NeverIdle, TakenBytes, SubmittedBytes;
  }

  /** Shutdown closes the sending direction to the user at once. SHUT_WR follows immediately when
      nothing is buffered, and otherwise with the write that empties the buffer. */
  lemma ShutdownSendsFin(c: Conn, data: string, r: WriteResult)
    requires Inv(c) && c.state == Established && Possible(r, |data|)
    ensures var s := Shutdown(c);
            && s.state == HalfShutdown && s.out == c.out
            && Send(s, data, r) == s
            && (FinSent(s) <==> c.out == "")
            && (c.out != "" ==> FinSent(HandleWrite(s, Wrote(|c.out|))))
  {
    hide Owed, NeverIdle, TakenBytes, SubmittedBytes;
    StillNoFin(c);
  }

  /** What HandleWrite leaves on an established connection. */
  lemma WriteEffect(c: Conn, r: WriteResult)
    requires c.state == Established && Possible(r, |c.out|)
    ensures var d, n := HandleWrite(c, r), if r.Wrote? then r.n else 0;
            && d.state == Established && d.out == c.out[n..]
            && SubmittedBytes(d.log) == SubmittedBytes(c.log)
            && (Queued(c, d) <==> r.Wrote? && n == |c.out|)
  {
    hide TakenBytes, SubmittedBytes, Owed, NeverIdle, NoFin, Queued;
    var d := HandleWrite(c, r);
    if r.Wrote? {
      var first := c.log + [Taken(c.out[..r.n])];
      TakeBooks(c.log, c.out[..r.n]);
      NotifyBooks(first);
      var ext := [Taken(c.out[..r.n])];
      assert first + [Notified] == c.log + (ext + [Notified]);
      QueuedExt(c, d, if r.n == |c.out| then ext + [Notified] else ext);
    } else {
      QueuedExt(c, d, []);
    }
  }

  /** How often write_cb_ has been queued, by the history. */
  function Notices(log: seq<Event>): nat
  {
    multiset(log)[Notified]
  }

  lemma OneNotice(before: seq<Event>, ext: seq<Event>)
    requires Notified !in ext
    ensures Notices(before + ext) == Notices(before)
    ensures Notices(before + ext + [Notified]) == Notices(before) + 1
  {
    assert multiset(ext)[Notified] == 0;
  }

  /** What SendUnsafe adds to the history. */
  function SendLog(c: Conn, data: string, r: WriteResult): seq<Event>
    requires Possible(r, |data|)
  {
    var n := if r.Wrote? then r.n else 0;
    if c.writing || c.out != "" then c.log + [Submitted(data)]
    else if r.HardError? then c.log
    else if n < |data| then c.log + [Submitted(data)] + [Taken(data[..n])]
    else c.log + [Submitted(data)] + [Taken(data[..n])] + [Notified]
  }

  lemma SendLogged(c: Conn, data: string, r: WriteResult)
    requires Possible(r, |data|)
    ensures Send(c, data, r).log == if c.state == Established then SendLog(c, data, r) else c.log
  {
  }

  lemma SendLogNotices(c: Conn, data: string, r: WriteResult)
    requires Possible(r, |data|)
    ensures var all := (r.Wrote? && r.n == |data|) || (r.Again? && data == "");
            Notices(SendLog(c, data, r)) ==
            Notices(c.log) + if !c.writing && c.out == "" && all then 1 else 0
  {
    hide Notices;
    var n := if r.Wrote? then r.n else 0;
    OneNotice(c.log, [Submitted(data)]);
    OneNotice(c.log + [Submitted(data)], [Taken(data[..n])]);
  }

  /** A Send and a write event queue write_cb_ at most once: a Send that the kernel takes whole, and a
      write that empties the buffer. */
  lemma SendNotifies(c: Conn, data: string, r: WriteResult)
    requires Possible(r, |data|)
    ensures var d := Send(c, data, r); var all := (r.Wrote? && r.n == |data|) || (r.Again? && data == "");
            && (Queued(c, d) <==> c.state == Established && !c.writing && c.out == "" && all)
            && Notices(d.log) == Notices(c.log) + if Queued(c, d) then 1 else 0
  {
    SendQueues(c, data, r);
    SendLogged(c, data, r);
    SendLogNotices(c, data, r);
    hide Queued, Notices, SendLog, SendUnsafe;
  }

  /** What HandleWrite adds to the history. */
  function WriteLog(c: Conn, r: WriteResult): seq<Event>
    requires Possible(r, |c.out|)
  {
    if !r.Wrote? then c.log
    else
      var taken := c.log + [Taken(c.out[..r.n])];
      if r.n < |c.out| then taken
      else if c.state == HalfShutdown then taken + [Notified] + [Fin]
      else taken + [Notified]
  }

  lemma WriteLogged(c: Conn, r: WriteResult)
    requires Possible(r, |c.out|)
    ensures HandleWrite(c, r).log == WriteLog(c, r)
  {
  }

  lemma WriteNotifies(c: Conn, r: WriteResult)
    requires Possible(r, |c.out|)
    ensures var d := HandleWrite(c, r);
            && (Queued(c, d) <==> r.Wrote? && r.n == |c.out|)
            && Notices(d.log) == Notices(c.log) + if Queued(c, d) then 1 else 0
  {
    hide Queued, Notices;
    WriteLogged(c, r);
    hide HandleWrite;
    var d := HandleWrite(c, r);
    if r.Wrote? {
      var ext := [Taken(c.out[..r.n])];
      OneNotice(c.log, ext);
      if r.n < |c.out| {
        QueuedExt(c, d, ext);
      } else if c.state != HalfShutdown {
        assert d.log == c.log + (ext + [Notified]);
        QueuedExt(c, d, ext + [Notified]);
      } else {
        assert d.log == c.log + (ext + [Notified, Fin]);
        OneNotice(c.log + ext + [Notified], [Fin]);
        QueuedExt(c, d, ext + [Notified, Fin]);
      }
    } else {
      QueuedExt(c, d, []);
    }
  }

  lemma ShutdownNotifies(c: Conn)
    ensures !Queued(c, Shutdown(c)) && Notices(Shutdown(c).log) == Notices(c.log)
  {
    OneNotice(c.log, [Fin]);
    QueuedExt(c, Shutdown(c), if Shutdown(c).log == c.log then [] else [Fin]);
  }

  /** On an established connection DestroyConnection closes; afterwards nothing is registered or asked
      for, and nothing has been written. */
  lemma DestroyEnds(c: Conn)
    requires c.state == Established
    ensures var d := DestroyConnection(c);
            && d.state == Disconnected && !d.registered && !d.reading && !d.writing
            && d.out == c.out && d.log == c.log
  {
  }

  // ---------------------------------------------------------------- histories only grow

  lemma SendGrows(c: Conn, data: string, r: WriteResult)
    requires Possible(r, |data|)
    ensures c.log <= Send(c, data, r).log
  {
  }

  lemma HandleWriteGrows(c: Conn, r: WriteResult)
    requires Possible(r, |c.out|)
    ensures c.log <= HandleWrite(c, r).log
  {
  }

  lemma ShutdownGrows(c: Conn)
    ensures c.log <= Shutdown(c).log
  {
  }

  lemma HandleCloseGrows(c: Conn)
    ensures HandleClose(c).log == c.log
  {
  }

  lemma DestroyGrows(c: Conn)
    ensures DestroyConnection(c).log == c.log
  {
  }
}
