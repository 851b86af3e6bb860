/** src/timer_queue.cc: the class TimerQueue, re-entered by the callbacks it runs. */
module TimerQueues {
  import opened Timers

  /** `at` is how far the loop of line 110 has come; `heap` is the C++ heap as far as it holds Timers. */
  class TimerQueue {
    var heap: map<Ptr, int>
    var timers: seq<Entry>
    var inUse: map<int, Ptr>
    var expired: seq<Entry>
    var nextTimerId: nat
    ghost var at: nat
    var log: seq<Event>

    ghost function Value(): Queue
      requires at <= |expired|
      reads this
    {
      Queue(heap, timers, inUse, expired[at..], nextTimerId, log)
    }

    ghost predicate Valid()
      reads this
    {
      at <= |expired| && Inv(Value())
    }

    constructor ()
      ensures Valid() && Value() == EMPTY
    {
      heap, timers, inUse, expired, nextTimerId := map[], [], map[], [], 0;
      at, log := 0, [];
      new;
      EmptyInv();
      assert expired[0..] == [];
    }

    method AddTimer(when: int, hint: Ptr) returns (id: int)
      requires Valid()
      modifies this`heap, this`timers, this`inUse, this`nextTimerId, this`log
      ensures Valid() && Value() == Timers.AddTimer(old(Value()), when, hint)
      ensures id == nextTimerId
    {
      hide Inv, Insert, Keeps;
      AddKeeps(Value(), when, hint);
      nextTimerId := nextTimerId + 1;
      id := nextTimerId;
      var timer := FreshPtr(heap.Keys, hint);
      heap := heap[timer := id];
      AddTimerInLoop(when, timer, id);
    }

    method AddTimerInLoop(when: int, timer: Ptr, id: int)
      modifies this`timers, this`inUse, this`log
      ensures timers == Insert(old(timers), Entry(when, timer)) && inUse == old(inUse)[id := timer]
      ensures log == old(log) + [Added(id, when)]
    {
      timers := Insert(timers, Entry(when, timer));
      inUse := inUse[id := timer];
      log := log + [Added(id, when)];
    }

    method Cancel(id: int)
      requires Valid()
      modifies this`heap, this`log
      ensures Valid() && Value() == CancelTimer(old(Value()), id)
    {
      hide Inv, Indexed, CancelTimer;
      CancelShape(Value(), id);
      if id !in inUse { return; }
      var timer := inUse[id];
      if heap[timer] <= 0 { return; }
      Negate(timer, id);
    }

    method Negate(timer: Ptr, id: int)
      requires timer in heap
      modifies this`heap, this`log
      ensures heap == old(heap)[timer := -old(heap)[timer]] && log == old(log) + [Cancelled(id)]
    {
      heap := heap[timer := -heap[timer]];
      log := log + [Cancelled(id)];
    }

    /** A user callback, re-entering the queue. */
    method Callback(actions: seq<Action>)
      requires Valid()
      modifies this`heap, this`timers, this`inUse, this`nextTimerId, this`log
      ensures Valid() && Value() == Actions(old(Value()), actions)
      decreases |actions|
    {
      if actions == [] { return; }
      ActKeeps(Value(), actions[0]);
      match actions[0] {
        case Add(when, hint) => var _ := AddTimer(when, hint);
        case Cancel(id) => Cancel(id);
      }
      Callback(actions[1..]);
    }

    method SleepTime(now: int) returns (t: int)
      requires at <= |expired|
      ensures t == Timers.SleepTime(Value(), now)
    {
      if |timers| == 0 { return -1; }
      t := timers[0].when - now;
      if t <= 0 { t := 0; }
    }

    /** The body of the loop of line 110, on the entry at `at`. */
    method CallOne(e: Entry, now: int, script: Script)
      requires Valid() && at < |expired| && e == expired[at]
      modifies this
      ensures Valid() && Value() == Turn(old(Value()), now, script)
      ensures expired == old(expired) && at == old(at) + 1
    {
      hide Inv, Turn, Middle, Timers.Settle;
      var delay := Call(e, now, script);
      Settle(e, delay);
    }

    /** Timer::Call, lines 27-30. */
    method Call(e: Entry, now: int, script: Script) returns (delay: int)
      requires Valid() && at < |expired| && e == expired[at]
      modifies this`heap, this`timers, this`inUse, this`nextTimerId, this`log
      ensures Valid() && Value() == Middle(old(Value()), now, script)
      ensures e.timer in old(heap) && delay == if old(heap)[e.timer] <= 0 then 0 else script.delay
    {
      hide Inv, Actions;
      ghost var q := Value();
      HeadAlone(q);
      BeginKeeps(q, now);
      delay := 0;
      if heap[e.timer] <= 0 {
        log := log + [Skipped(-heap[e.timer], e.when)];
      } else {
        log := log + [Started(heap[e.timer], e.when, now)];
        Callback(script.actions);
        delay := script.delay;
      }
    }

    /** Lines 112-117. */
    method Settle(e: Entry, delay: int)
      requires Valid() && at < |expired| && e == expired[at] && e.timer in heap
      modifies this`heap, this`timers, this`inUse, this`log, this`at
      ensures Valid() && Value() == Timers.Settle(old(Value()), delay)
      ensures at == old(at) + 1
    {
      hide Inv, Insert;
      FreeKeeps(Value());
      RearmKeeps(Value(), delay);
      assert expired[at + 1..] == expired[at..][1..];
      if delay <= 0 {
        var id := Abs(heap[e.timer]);
        inUse := inUse - {id};
        heap := heap - {e.timer};
        log := log + [Freed(id)];
      } else {
        log := log + [Rearmed(Abs(heap[e.timer]), delay)];
        timers := Insert(timers, Entry(e.when + delay, e.timer));
      }
      at := at + 1;
    }

    method DoExpired(now: int, env: nat -> Script)
      requires Valid() && expired == []
      modifies this
      ensures Valid() && expired == []
      ensures Value() == Timers.DoExpired(old(Value()), now, env)
    {
      hide Inv, Turn;
      ghost var q := Value();
      GatherKeeps(q, now);
      expired := [];
      at := 0;
      CollectExpired(now);
      assert expired[0..] == expired;
      assert Value() == Gather(q, now);
      var i := 0;
      while i < |expired|
        invariant 0 <= i == at <= |expired|
        invariant Valid() && Pass(Value(), now, env) == Pass(Gather(q, now), now, env)
      {
        CallOne(expired[i], now, env(|log|));
        i := i + 1;
      }
      expired := [];
      at := 0;
    }

    method CollectExpired(now: int)
      requires expired == []
      modifies this`expired, this`timers
      ensures var n := DueCount(old(timers), now);
              expired == old(timers[..n]) && timers == old(timers[n..])
    {
      ghost var all, n := timers, 0;
      while timers != [] && timers[0].when <= now
        invariant 0 <= n <= |all| && expired == all[..n] && timers == all[n..]
        invariant DueCount(all, now) == n + DueCount(timers, now)
        decreases |timers|
      {
        expired := expired + [timers[0]];
        timers := timers[1..];
        n := n + 1;
      }
    }

    /** Lines 80-84. Between passes nothing but `timers_` owns a timer, so this frees everything. */
    method Destroy()
      requires Valid() && expired == []
      modifies this`heap
      ensures heap == map[]
    {
      AllInTimers(Value());
      hide Inv, Addresses;
      var i := 0;
      while i < |timers|
        invariant 0 <= i <= |timers|
        invariant multiset(heap.Keys) == Addresses(timers[i..])
      {
        assert timers[i..][1..] == timers[i + 1..];
        RestAfterDelete(heap, timers[i..]);
        heap := heap - {timers[i].timer};
        i := i + 1;
      }
      NobodyOwned(heap);
    }

    lemma AllInTimers(q: Queue)
      requires Inv(q) && q.expired == []
      ensures multiset(q.heap.Keys) == Addresses(q.timers) && q.timers[0..] == q.timers
    {
    }

    lemma RestAfterDelete(heap: map<Ptr, int>, s: seq<Entry>)
      requires s != [] && multiset(heap.Keys) == Addresses(s)
      ensures multiset((heap - {s[0].timer}).Keys) == Addresses(s[1..])
    {
      var p := s[0].timer;
      MultisetAdd(heap.Keys - {p}, p);
      assert p in multiset(heap.Keys);
      assert heap.Keys - {p} + {p} == heap.Keys;
      MultisetCancel(multiset(heap.Keys - {p}), Addresses(s[1..]), p);
      assert (heap - {p}).Keys == heap.Keys - {p};
    }

    lemma NobodyOwned(heap: map<Ptr, int>)
      requires multiset(heap.Keys) == Addresses([])
      ensures heap == map[]
    {
      assert forall p | p in heap.Keys :: p in multiset(heap.Keys);
    }
  }
}
