/** The hand-off of src/event_loop.cc as interleaved atomic steps: one loop thread, any number of
    other threads. A mutexed section, a flag write and an eventfd access are one step each, so a
    thread can be stopped between its push and its eventfd write. */
module LoopRuns {

  type Functor = nat
  type Tid = nat

  /** Where the loop thread is: before Loop(), at the test of `done_`, about to poll, walking the
      active channels, in DoExpired, in DoPeddingFunctors after the swap, or out of Loop(). */
  datatype Phase = NotStarted | Guard | Poll | Dispatch | Timers | Calling | Exited

  /** `at` functors of `calling` have been called; calling_pedding_functors_ is `phase == Calling`.
      `writers` are the threads between a push (or setting done_) and their eventfd write,
      `ownWriter` is the loop thread there. `woken`: poll reported the eventfd. `pushed` and
      `executed` are histories. */
  datatype Loop = Loop(
    phase: Phase, pending: seq<Functor>, calling: seq<Functor>, at: nat, done: bool,
    eventfd: nat, woken: bool, writers: set<Tid>, ownWriter: bool,
    pushed: seq<Functor>, executed: seq<Functor>)

  const NEW := Loop(NotStarted, [], [], 0, false, 0, false, {}, false, [], [])

  /** eventfd(2): a counter that a non-blocking write leaves unchanged when it would overflow. */
  const EVENTFD_MAX: nat := 0xffff_ffff_ffff_fffe

  datatype Step =
    | PushOther(t: Tid, f: Functor)   // QueueInLoop lines 74-78 on another thread
    | QuitOther(t: Tid)               // Quit line 134 on another thread
    | WriteOther(t: Tid)              // its WakeUp
    | PushOwn(f: Functor)             // QueueInLoop on the loop thread
    | QuitOwn
    | WriteOwn
    | Start
    | TestDone
    | PollReturns(woken: bool)
    | HandleWakeUp                    // HandleWakeUpRead
    | DispatchDone
    | Swap                            // lines 88-94
    | Call                            // func(); its body is the own steps that follow
    | EndRound                        // lines 99-100

  /** User code of the loop thread runs: in a channel or timer callback, in a functor, or before Loop(). */
  predicate OwnCode(s: Loop)
  {
    (s.phase == NotStarted || s.phase == Dispatch || s.phase == Timers || s.phase == Calling) && !s.ownWriter
  }

  predicate Enabled(s: Loop, step: Step)
  {
    match step
    case PushOther(t, f) => t !in s.writers
    case QuitOther(t) => t !in s.writers
    case WriteOther(t) => t in s.writers
    case PushOwn(f) => OwnCode(s)
    case QuitOwn => OwnCode(s)
    case WriteOwn => s.ownWriter
    case Start => s.phase == NotStarted && !s.ownWriter
    case TestDone => s.phase == Guard
    case PollReturns(woken) => s.phase == Poll && (woken ==> s.eventfd > 0)
    case HandleWakeUp => s.phase == Dispatch && s.woken && !s.ownWriter
    case DispatchDone => s.phase == Dispatch && !s.woken && !s.ownWriter
    case Swap => s.phase == Timers && !s.ownWriter
    case Call => s.phase == Calling && s.at < |s.calling| && !s.ownWriter
    case EndRound => s.phase == Calling && s.at == |s.calling| && !s.ownWriter
  }

  function Signal(s: Loop): Loop
  {
    if s.eventfd < EVENTFD_MAX then s.(eventfd := s.eventfd + 1) else s
  }

  function Push(s: Loop, f: Functor): Loop
  {
    s.(pending := s.pending + [f], pushed := s.pushed + [f])
  }

  function Next(s: Loop, step: Step): Loop
    requires Enabled(s, step)
  {
    match step
    case PushOther(t, f) => Push(s, f).(writers := s.writers + {t})
    case QuitOther(t) => s.(done := true, writers := s.writers + {t})
    case WriteOther(t) => Signal(s).(writers := s.writers - {t})
    case PushOwn(f) => Push(s, f).(ownWriter := s.phase == Calling)
    case QuitOwn => s.(done := true)
    case WriteOwn => Signal(s).(ownWriter := false)
    case Start => s.(phase := Guard)
    case TestDone => s.(phase := if s.done then Exited else Poll)
    case PollReturns(woken) => s.(phase := Dispatch, woken := woken)
    case HandleWakeUp => s.(eventfd := 0, woken := false)
    case DispatchDone => s.(phase := Timers)
    case Swap => s.(phase := Calling, calling := s.pending, pending := [], at := 0)
    case Call => s.(executed := s.executed + [s.calling[s.at]], at := s.at + 1)
    case EndRound => s.(phase := Guard, calling := [], at := 0)
  }

  // ---------------------------------------------------------------- no lost wake-up

  /** poll will return at once, or somebody is about to make it. */
  predicate Signalled(s: Loop)
  {
    s.eventfd > 0 || s.writers != {} || s.ownWriter
  }

  /** The loop does not go to sleep on work: blocked in poll with a functor queued or done_ set, the
      eventfd is readable or a thread stands before its eventfd write. */
  predicate NoLostWakeUp(s: Loop)
  {
    s.phase == Poll && (s.pending != [] || s.done) ==> Signalled(s)
  }

  /** What makes it inductive: from the swap to the next poll every queued functor is signalled, or
      done_ ends the loop first; what is queued during dispatch and timers meets the swap of the same
      iteration. */
  predicate Heard(s: Loop)
  {
    && NoLostWakeUp(s)
    && (s.phase == Calling ==> s.pending != [] ==> Signalled(s))
    && (s.phase == Guard ==> s.pending != [] ==> Signalled(s) || s.done)
    && (s.ownWriter ==> s.phase == Calling)
  }

  /** Executed, then the rest of the round, then the queue: all pushes in order, each once. */
  predicate InOrder(s: Loop)
  {
    && s.at <= |s.calling|
    && (s.phase != Calling ==> s.calling == [])
    && s.executed + s.calling[s.at..] + s.pending == s.pushed
  }

  predicate Inv(s: Loop)
  {
    Heard(s) && InOrder(s)
  }

  /** Loop() is entered with nothing queued, or with the eventfd write done or still to come, or
      only to return at once. */
  predicate Covered(s: Loop)
  {
    s.pending == [] || Signalled(s) || s.done
  }

  lemma HeardStep(s: Loop, step: Step)
    requires Heard(s) && Enabled(s, step) && (step == Start ==> Covered(s))
    ensures Heard(Next(s, step))
  {
    match step
    case PushOther(t, _) => assert t in Next(s, step).writers;
    case QuitOther(t) => assert t in Next(s, step).writers;
    case _ =>
  }

  lemma InOrderStep(s: Loop, step: Step)
    requires InOrder(s) && Enabled(s, step)
    ensures InOrder(Next(s, step))
  {
    var r := Next(s, step);
    match step
    case PushOther(_, f) =>
      assert r.executed + r.calling[r.at..] + r.pending == s.executed + s.calling[s.at..] + s.pending + [f];
    case PushOwn(f) =>
      assert r.executed + r.calling[r.at..] + r.pending == s.executed + s.calling[s.at..] + s.pending + [f];
    case Swap =>
      assert r.executed + r.calling[r.at..] + r.pending == s.executed + [] + s.pending;
    case Call =>
      assert s.calling[s.at..] == [s.calling[s.at]] + r.calling[r.at..];
      assert r.executed + r.calling[r.at..] == s.executed + s.calling[s.at..];
    case EndRound =>
      assert s.calling[s.at..] == [] && r.calling[r.at..] == [];
    case _ =>
  }

  ghost predicate Run(s: Loop, steps: seq<Step>, end: Loop)
    decreases |steps|
  {
    if steps == [] then s == end else Enabled(s, steps[0]) && Run(Next(s, steps[0]), steps[1..], end)
  }

  lemma RunOne(s: Loop, step: Step)
    requires Enabled(s, step)
    ensures Run(s, [step], Next(s, step))
  {
    hide Enabled, Next;
    assert [step][1..] == [];
    assert Run(Next(s, step), [], Next(s, step));
  }

  lemma RunThree(s: Loop, x: Step, a: Loop, y: Step, b: Loop, z: Step, end: Loop)
    requires Enabled(s, x) && a == Next(s, x) && Enabled(a, y) && b == Next(a, y)
    requires Enabled(b, z) && end == Next(b, z)
    ensures Run(s, [x, y, z], end)
  {
    RunOne(b, z);
    hide Enabled, Next;
    assert [x, y, z][1..] == [y, z] && [y, z][1..] == [z];
    assert Run(a, [y, z], end);
  }

  /** Loop() is entered in a covered state, if at all. */
  ghost predicate StartsCovered(s: Loop, steps: seq<Step>)
    decreases |steps|
  {
    steps != [] && Enabled(s, steps[0]) ==>
      (steps[0] == Start ==> Covered(s)) && StartsCovered(Next(s, steps[0]), steps[1..])
  }

  lemma {:induction false} RunKeepsHeard(s: Loop, steps: seq<Step>, end: Loop)
    requires Heard(s) && Run(s, steps, end) && StartsCovered(s, steps)
    ensures Heard(end)
    decreases |steps|
  {
    hide Next, Enabled, Heard, Covered;
    if steps != [] {
      HeardStep(s, steps[0]);
      RunKeepsHeard(Next(s, steps[0]), steps[1..], end);
    }
  }

  lemma {:induction false} StartsOnce(s: Loop, steps: seq<Step>)
    requires s.phase != NotStarted
    ensures StartsCovered(s, steps)
    decreases |steps|
  {
    if steps != [] && Enabled(s, steps[0]) {
      StartsOnce(Next(s, steps[0]), steps[1..]);
    }
  }

  lemma {:induction false} RunKeepsOrder(s: Loop, steps: seq<Step>, end: Loop)
    requires InOrder(s) && Run(s, steps, end)
    ensures InOrder(end)
    decreases |steps|
  {
    if steps != [] {
      InOrderStep(s, steps[0]);
      RunKeepsOrder(Next(s, steps[0]), steps[1..], end);
    }
  }

  /** In every interleaving, with any number of threads and whoever pushed before Loop(). */
  lemma NeverSleepsOnWork(steps: seq<Step>, s: Loop)
    requires Run(NEW, steps, s) && StartsCovered(NEW, steps)
    ensures s.phase == Poll && s.eventfd == 0 && s.writers == {} ==> s.pending == [] && !s.done
  {
    RunKeepsHeard(NEW, steps, s);
  }

  /** No continuation loses a wake-up. */
  ghost predicate SafeFrom(s: Loop)
  {
    forall steps, end | Run(s, steps, end) :: NoLostWakeUp(end)
  }

  /** `Covered` is the exact condition: entered in any other state, Loop() can go to sleep on a queued
      functor. */
  lemma SafeExactlyWhenCovered(s: Loop)
    requires Heard(s) && Enabled(s, Start)
    ensures SafeFrom(Next(s, Start)) <==> Covered(s)
  {
    var started := Next(s, Start);
    if Covered(s) {
      HeardStep(s, Start);
      forall steps, end | Run(started, steps, end) ensures NoLostWakeUp(end) {
        StartsOnce(started, steps);
        RunKeepsHeard(started, steps, end);
      }
    } else {
      RunOne(started, TestDone);
    }
  }

  /** In every run, whoever pushed what: FIFO, nothing lost, nothing twice. */
  lemma FifoExactlyOnce(steps: seq<Step>, s: Loop)
    requires Run(NEW, steps, s)
    ensures s.at <= |s.calling| && s.executed + s.calling[s.at..] + s.pending == s.pushed
  {
    RunKeepsOrder(NEW, steps, s);
  }

  /** A round calls exactly the functors present at the swap, however many are queued meanwhile. */
  lemma {:induction false} RoundIsTheSwap(s: Loop, steps: seq<Step>, end: Loop)
    requires Enabled(s, Swap) && Run(Next(s, Swap), steps, end)
    requires forall i | 0 <= i < |steps| :: steps[i] != EndRound
    ensures end.phase == Calling && end.calling == s.pending && end.at <= |s.pending|
    ensures end.executed == s.executed + s.pending[..end.at]
    ensures Enabled(end, EndRound) ==> Next(end, EndRound).executed == s.executed + s.pending
  {
    assert s.executed + s.pending[..0] == s.executed;
    WithinRound(s.executed, s.pending, Next(s, Swap), steps, end);
    assert s.pending[..|s.pending|] == s.pending;
  }

  lemma {:induction false} WithinRound(
    before: seq<Functor>, batch: seq<Functor>, s: Loop, steps: seq<Step>, end: Loop)
    requires s.phase == Calling && s.calling == batch && s.at <= |batch|
    requires s.executed == before + batch[..s.at]
    requires Run(s, steps, end) && forall i | 0 <= i < |steps| :: steps[i] != EndRound
    ensures end.phase == Calling && end.calling == batch && end.at <= |batch|
    ensures end.executed == before + batch[..end.at]
    decreases |steps|
  {
    if steps != [] {
      var r := Next(s, steps[0]);
      if steps[0] == Call {
        assert batch[..s.at + 1] == batch[..s.at] + [batch[s.at]];
      }
      WithinRound(before, batch, r, steps[1..], end);
    }
  }

  /** The wake-up is lost exactly when it was an own push before Loop() that nothing else covers: then
      the first poll blocks on a queued functor. */
  lemma EarlyPush(s: Loop, f: Functor)
    requires Inv(s) && Enabled(s, PushOwn(f)) && s.phase == NotStarted
    ensures var p := Next(s, PushOwn(f));
            && Enabled(p, Start) && Enabled(Next(p, Start), TestDone)
            && (NoLostWakeUp(Next(Next(p, Start), TestDone)) <==> s.done || Signalled(s))
  {
  }

  /** For instance on a new loop. */
  lemma EarlyPushAlone(f: Functor) returns (asleep: Loop)
    ensures Run(NEW, [PushOwn(f), Start, TestDone], asleep)
    ensures asleep.phase == Poll && asleep.pending == [f] && asleep.eventfd == 0 && asleep.writers == {}
  {
    var a := Next(NEW, PushOwn(f));
    var b := Next(a, Start);
    asleep := Next(b, TestDone);
    hide Run;
    RunThree(NEW, PushOwn(f), a, Start, b, TestDone, asleep);
  }

  // ---------------------------------------------------------------- Quit

  predicate Quits(step: Step)
  {
    step.QuitOwn? || step.QuitOther?
  }

  lemma {:induction false} QuitIsRemembered(s: Loop, steps: seq<Step>, end: Loop)
    requires Run(s, steps, end)
    ensures end.done <==> s.done || exists i | 0 <= i < |steps| :: Quits(steps[i])
    decreases |steps|
  {
    if steps != [] {
      var rest := steps[1..];
      QuitIsRemembered(Next(s, steps[0]), rest, end);
      assert forall i | 0 <= i < |rest| :: rest[i] == steps[i + 1];
      if i :| 0 <= i < |steps| && Quits(steps[i]) {
        assert i > 0 ==> Quits(rest[i - 1]);
      }
    }
  }

  /** At the test of done_ the loop ends exactly when somebody has called Quit, on any thread and at
      any time before. */
  lemma ExitsExactlyAfterQuit(steps: seq<Step>, s: Loop)
    requires Run(NEW, steps, s) && Enabled(s, TestDone)
    ensures Next(s, TestDone).phase == Exited <==> exists i | 0 <= i < |steps| :: Quits(steps[i])
    ensures Next(s, TestDone).phase != Exited ==> Next(s, TestDone).phase == Poll
  {
    QuitIsRemembered(NEW, steps, s);
  }

  lemma {:induction false} ExitedMeansDone(s: Loop, steps: seq<Step>, end: Loop)
    requires Run(s, steps, end) && (s.phase == Exited ==> s.done)
    ensures end.phase == Exited ==> end.done
    decreases |steps|
  {
    if steps != [] {
      ExitedMeansDone(Next(s, steps[0]), steps[1..], end);
    }
  }

  /** The loop never ends by itself. */
  lemma OnlyQuitEndsTheLoop(steps: seq<Step>, s: Loop)
    requires Run(NEW, steps, s) && s.phase == Exited
    ensures exists i | 0 <= i < |steps| :: Quits(steps[i])
  {
    ExitedMeansDone(NEW, steps, s);
    QuitIsRemembered(NEW, steps, s);
  }

  function Polls(steps: seq<Step>): nat
  {
    if steps == [] then 0 else (if steps[0].PollReturns? then 1 else 0) + Polls(steps[1..])
  }

  /** After a Quit poll returns at most once more, and only if the loop was already at it. */
  lemma {:induction false} QuitEndsTheLoop(s: Loop, steps: seq<Step>, end: Loop)
    requires s.done && Run(s, steps, end)
    ensures Polls(steps) <= if s.phase == Poll then 1 else 0
    decreases |steps|
  {
    if steps != [] {
      QuitEndsTheLoop(Next(s, steps[0]), steps[1..], end);
    }
  }

  // ---------------------------------------------------------------- the loop thread left alone

  lemma SwapShape(s: Loop)
    requires s.phase == Timers && !s.ownWriter
    ensures Enabled(s, Swap)
    ensures Next(s, Swap) == s.(phase := Calling, calling := s.pending, pending := [], at := 0)
  {
  }

  lemma CallShape(s: Loop)
    requires s.phase == Calling && s.at < |s.calling| && !s.ownWriter
    ensures Enabled(s, Call)
    ensures Next(s, Call) == s.(executed := s.executed + [s.calling[s.at]], at := s.at + 1)
  {
  }

  lemma EndRoundShape(s: Loop)
    requires s.phase == Calling && s.at == |s.calling| && !s.ownWriter
    ensures Enabled(s, EndRound)
    ensures Next(s, EndRound) == s.(phase := Guard, calling := [], at := 0)
  {
  }

  /** QueueInLoop on the loop thread: the push and, when lines 81-83 say so, the eventfd write. */
  function QueueOwn(s: Loop, f: Functor): Loop
    requires OwnCode(s)
  {
    var p := Next(s, PushOwn(f));
    if p.ownWriter then Next(p, WriteOwn) else p
  }

  function QueueAll(s: Loop, fs: seq<Functor>): (r: Loop)
    requires OwnCode(s)
    ensures OwnCode(r) && r.phase == s.phase && r.calling == s.calling && r.at == s.at && r.executed == s.executed
    ensures r.pending == s.pending + fs
    ensures (fs != [] && s.phase == Calling) || s.eventfd > 0 ==> r.eventfd > 0
    decreases |fs|
  {
    if fs == [] then s else QueueAll(QueueOwn(s, fs[0]), fs[1..])
  }

  /** One iteration of lines 95-97; `body` is what each functor queues when it is called. */
  function CallOne(s: Loop, body: Functor -> seq<Functor>): (r: Loop)
    requires s.phase == Calling && !s.ownWriter && s.at < |s.calling|
    ensures r.phase == Calling && !r.ownWriter && r.calling == s.calling && r.at == s.at + 1
    ensures r.executed == s.executed + [s.calling[s.at]]
    ensures r.pending == s.pending + body(s.calling[s.at])
    ensures body(s.calling[s.at]) != [] || s.eventfd > 0 ==> r.eventfd > 0
  {
    QueueAll(Next(s, Call), body(s.calling[s.at]))
  }

  /** Lines 95-97. */
  function CallAll(s: Loop, body: Functor -> seq<Functor>): (r: Loop)
    requires s.phase == Calling && !s.ownWriter && s.at <= |s.calling|
    ensures r.phase == Calling && !r.ownWriter && r.at == |r.calling| && r.calling == s.calling
    decreases |s.calling| - s.at
  {
    if s.at == |s.calling| then s else CallAll(CallOne(s, body), body)
  }

  function DoPeddingFunctors(s: Loop, body: Functor -> seq<Functor>): Loop
    requires s.phase == Timers && !s.ownWriter
  {
    Next(CallAll(Next(s, Swap), body), EndRound)
  }

  function Bodies(fs: seq<Functor>, body: Functor -> seq<Functor>): seq<Functor>
  {
    if fs == [] then [] else body(fs[0]) + Bodies(fs[1..], body)
  }

  lemma {:induction false} CallAllRuns(s: Loop, body: Functor -> seq<Functor>)
    requires s.phase == Calling && !s.ownWriter && s.at <= |s.calling|
    ensures var r := CallAll(s, body);
            && r.executed == s.executed + s.calling[s.at..]
            && r.pending == s.pending + Bodies(s.calling[s.at..], body)
            && ((s.pending != [] ==> s.eventfd > 0) ==> r.pending != [] ==> r.eventfd > 0)
    decreases |s.calling| - s.at
  {
    hide CallOne, Next, Enabled;
    var rest := s.calling[s.at..];
    if s.at < |s.calling| {
      var tail := s.calling[s.at + 1..];
      assert rest[0] == s.calling[s.at] && rest[1..] == tail;
      CallAllRuns(CallOne(s, body), body);
      Regroup(s.executed, [rest[0]], tail);
      Regroup(s.pending, body(rest[0]), Bodies(tail, body));
      assert [rest[0]] + tail == rest;
    }
  }

  lemma Regroup(a: seq<Functor>, b: seq<Functor>, c: seq<Functor>)
    ensures a + b + c == a + (b + c)
  {
  }

  /** One round: everything that was queued is called, what its functors queue is left for the next
      round in order, and poll will not sleep on it. */
  lemma RoundRuns(s: Loop, body: Functor -> seq<Functor>)
    requires s.phase == Timers && !s.ownWriter
    ensures var r := DoPeddingFunctors(s, body);
            && r.executed == s.executed + s.pending
            && r.pending == Bodies(s.pending, body)
            && r.calling == [] && r.phase == Guard
            && (r.pending != [] ==> r.eventfd > 0)
  {
    hide Next, CallOne, CallAll;
    SwapShape(s);
    CallAllRuns(Next(s, Swap), body);
    EndRoundShape(CallAll(Next(s, Swap), body));
  }

  /** A loop woken in poll calls, within that iteration and whatever its functors do, everything
      queued so far. */
  lemma WokenLoopRunsEverything(s: Loop, body: Functor -> seq<Functor>) returns (timers: Loop)
    requires Inv(s) && s.phase == Poll && s.eventfd > 0
    ensures Run(s, [PollReturns(true), HandleWakeUp, DispatchDone], timers)
    ensures timers.phase == Timers && !timers.ownWriter && timers.eventfd == 0
    ensures DoPeddingFunctors(timers, body).executed == s.executed + s.pending
  {
    timers := WokenReachesTimers(s);
    hide Run, Next, CallAll, Bodies;
    RoundRuns(timers, body);
  }

  lemma WokenReachesTimers(s: Loop) returns (timers: Loop)
    requires Inv(s) && s.phase == Poll && s.eventfd > 0
    ensures Run(s, [PollReturns(true), HandleWakeUp, DispatchDone], timers)
    ensures timers == s.(phase := Timers, woken := false, eventfd := 0) && !s.ownWriter
  {
    hide Run;
    var a := Next(s, PollReturns(true));
    var b := Next(a, HandleWakeUp);
    timers := Next(b, DispatchDone);
    RunThree(s, PollReturns(true), a, HandleWakeUp, b, DispatchDone, timers);
  }
}
