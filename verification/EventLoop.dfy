/** src/event_loop.cc: the loop thread's methods, each a composition of the atomic steps of LoopRuns.
    Loop() itself runs until Quit and is the step system there. */
module EventLoops {
  import opened LoopRuns

  class EventLoop {
    var pending: seq<Functor>
    var calling: seq<Functor>
    var callingPedding: bool
    var done: bool
    var eventfd: nat
    // where the step system is, and its histories
    ghost var phase: Phase
    ghost var at: nat
    ghost var woken: bool
    ghost var writers: set<Tid>
    ghost var pushed: seq<Functor>
    ghost var executed: seq<Functor>

    ghost function Value(): Loop
      reads this
    {
      Loop(phase, pending, calling, at, done, eventfd, woken, writers, false, pushed, executed)
    }

    ghost predicate Valid()
      reads this
    {
      callingPedding <==> phase == Calling
    }

    constructor ()
      ensures Valid() && Value() == NEW
    {
      pending, calling, callingPedding, done, eventfd := [], [], false, false, 0;
      phase, at, woken, writers, pushed, executed := NotStarted, 0, false, {}, [], [];
    }

    method WakeUp()
      modifies this`eventfd
      ensures eventfd == Signal(old(Value())).eventfd && eventfd > 0
    {
      if eventfd < EVENTFD_MAX {
        eventfd := eventfd + 1;
      }
    }

    method QueueInLoop(f: Functor)
      requires Valid() && OwnCode(Value())
      modifies this
      ensures Valid() && Value() == QueueOwn(old(Value()), f)
      ensures pending == old(pending) + [f] && (old(callingPedding) ==> eventfd > 0)
      ensures !old(callingPedding) ==> eventfd == old(eventfd)
    {
      pending := pending + [f];
      pushed := pushed + [f];
      if callingPedding {
        WakeUp();
      }
    }

    method Quit()
      requires Valid() && OwnCode(Value())
      modifies this`done
      ensures Valid() && done && Value() == Next(old(Value()), QuitOwn)
    {
      done := true;
    }

    method HandleWakeUpRead()
      requires Valid() && Enabled(Value(), HandleWakeUp)
      modifies this
      ensures Valid() && eventfd == 0 && Value() == Next(old(Value()), HandleWakeUp)
    {
      eventfd := 0;
      woken := false;
    }

    /** A functor, which queues `fs`. */
    method Invoke(fs: seq<Functor>)
      requires Valid() && OwnCode(Value())
      modifies this
      ensures Valid() && Value() == QueueAll(old(Value()), fs)
      decreases |fs|
    {
      if fs == [] { return; }
      QueueInLoop(fs[0]);
      Invoke(fs[1..]);
    }

    method CallFunctor(f: Functor, body: Functor -> seq<Functor>)
      requires Valid() && phase == Calling && at < |calling| && calling[at] == f
      modifies this
      ensures Valid() && Value() == CallOne(old(Value()), body)
    {
      hide Next, Enabled, QueueAll;
      CallShape(Value());
      executed := executed + [f];
      at := at + 1;
      Invoke(body(f));
    }

    method DoPeddingFunctors(body: Functor -> seq<Functor>)
      requires Valid() && phase == Timers
      modifies this
      ensures Valid() && Value() == LoopRuns.DoPeddingFunctors(old(Value()), body)
      ensures executed == old(executed) + old(pending) && pending == Bodies(old(pending), body)
    {
      hide CallOne, Next, Enabled;
      RoundRuns(Value(), body);
      SwapShape(Value());
      ghost var swapped := Next(Value(), Swap);
      callingPedding := true;
      phase := Calling;
      calling, pending := pending, [];
      at := 0;
      var i := 0;
      while i < |calling|
        invariant Valid() && phase == Calling && 0 <= i == at <= |calling|
        invariant CallAll(Value(), body) == CallAll(swapped, body)
      {
        CallFunctor(calling[i], body);
        i := i + 1;
      }
      EndRoundShape(Value());
      calling := [];
      callingPedding := false;
      phase := Guard;
      at := 0;
    }
  }
}
