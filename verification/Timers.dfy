/** The scheduler of src/timer_queue.cc as a function of its state. Timers live in an explicit heap,
    so that `delete` and the reuse of a freed address by a later `new` are visible; `log` is the
    history of one queue. */
module Timers {

  /** The address of a Timer. */
  type Ptr = nat

  /** Element of `timers_` and `expired_`. */
  datatype Entry = Entry(when: int, timer: Ptr)

  datatype Event =
    | Added(id: int, when: int)
    | Cancelled(id: int)
    | Started(id: int, when: int, now: int)   // the callback is entered
    | Rearmed(id: int, delay: int)            // the callback returned a positive delay
    | Skipped(id: int, when: int)             // Call found the timer cancelled
    | Freed(id: int)

  /** What a callback does to the queue before it returns `delay`. `hint` is where the allocator
      starts to look for a free address. */
  datatype Action = Add(when: int, hint: Ptr) | Cancel(id: int)
  datatype Script = Script(actions: seq<Action>, delay: int)

  /** `heap` holds each live timer's timer_id_, negative once cancelled. `expired` is the part of
      `expired_` that the pass has not finished, the timer being called first. */
  datatype Queue = Queue(
    heap: map<Ptr, int>, timers: seq<Entry>, inUse: map<int, Ptr>,
    expired: seq<Entry>, nextId: nat, log: seq<Event>)

  const EMPTY := Queue(map[], [], map[], [], 0, [])

  function Abs(x: int): nat
  {
    if x < 0 then -x else x
  }

  // ---------------------------------------------------------------- std::set<pair<mstime_t, Timer*>>

  predicate Before(a: Entry, b: Entry)
  {
    a.when < b.when || (a.when == b.when && a.timer < b.timer)
  }

  predicate Sorted(s: seq<Entry>)
  {
    forall i, j | 0 <= i < j < |s| :: Before(s[i], s[j])
  }

  function Insert(s: seq<Entry>, e: Entry): seq<Entry>
  {
    if s == [] || Before(e, s[0]) then [e] + s
    else if e == s[0] then s
    else [s[0]] + Insert(s[1..], e)
  }

  /** The addresses in a list of entries, with multiplicity. */
  function Addresses(s: seq<Entry>): multiset<Ptr>
  {
    if s == [] then multiset{} else multiset{s[0].timer} + Addresses(s[1..])
  }

  lemma {:induction false} AddressesHas(s: seq<Entry>, e: Entry)
    requires e in s
    ensures e.timer in Addresses(s)
  {
    if e != s[0] {
      AddressesHas(s[1..], e);
    }
  }

  lemma {:induction false} AddressesConcat(s: seq<Entry>, t: seq<Entry>)
    ensures Addresses(s + t) == Addresses(s) + Addresses(t)
  {
    if s == [] {
      assert s + t == t;
    } else {
      assert (s + t)[1..] == s[1..] + t;
      AddressesConcat(s[1..], t);
    }
  }

  lemma {:induction false} InsertHas(s: seq<Entry>, e: Entry, x: Entry)
    ensures x in Insert(s, e) <==> x == e || x in s
  {
    if s != [] && !Before(e, s[0]) && e != s[0] {
      InsertHas(s[1..], e, x);
      assert s == [s[0]] + s[1..];
    }
  }

  lemma {:induction false} InsertTimers(s: seq<Entry>, e: Entry)
    requires e.timer !in Addresses(s)
    ensures Addresses(Insert(s, e)) == Addresses(s) + multiset{e.timer}
  {
    if s == [] || Before(e, s[0]) {
      assert ([e] + s)[1..] == s;
    } else {
      InsertTimers(s[1..], e);
      assert ([s[0]] + Insert(s[1..], e))[1..] == Insert(s[1..], e);
    }
  }

  lemma {:induction false} InsertSorted(s: seq<Entry>, e: Entry)
    requires Sorted(s)
    ensures Sorted(Insert(s, e))
  {
    if s != [] && !Before(e, s[0]) && e != s[0] {
      InsertSorted(s[1..], e);
      var t := Insert(s[1..], e);
      forall j | 0 <= j < |t| ensures Before(s[0], t[j]) {
        InsertHas(s[1..], e, t[j]);
      }
    }
  }

  // ---------------------------------------------------------------- history

  /** First deadline plus every delay returned since. */
  function Deadline(log: seq<Event>, id: int): int
  {
    if log == [] then 0
    else
      var before, last := log[..|log| - 1], log[|log| - 1];
      match last
      case Added(i, when) => if i == id then when else Deadline(before, id)
      case Rearmed(i, delay) => if i == id then Deadline(before, id) + delay else Deadline(before, id)
      case _ => Deadline(before, id)
  }

  lemma DeadlineAppend(log: seq<Event>, ev: Event, id: int)
    ensures Deadline(log + [ev], id) ==
            if ev.id == id && ev.Added? then ev.when
            else if ev.id == id && ev.Rearmed? then Deadline(log, id) + ev.delay
            else Deadline(log, id)
  {
    assert (log + [ev])[..|log|] == log;
  }

  /** What may come after `a` about the same timer: nothing once it is freed, no second Added, no
      call and no second Cancelled after Cancelled. */
  predicate MayFollow(a: Event, b: Event)
  {
    a.id == b.id ==> !a.Freed? && !b.Added? && !(a.Cancelled? && (b.Started? || b.Cancelled?))
  }

  ghost predicate Orderly(log: seq<Event>)
  {
    && (forall i, j | 0 <= i < j < |log| :: MayFollow(log[i], log[j]))
    && (forall j | 0 <= j < |log| :: log[j].Skipped? ==> Cancelled(log[j].id) in log[..j])
    && (forall j | 0 <= j < |log| && (log[j].Started? || log[j].Skipped?) ::
          log[j].when == Deadline(log[..j], log[j].id))
  }

  lemma OrderlyAppend(log: seq<Event>, ev: Event)
    requires Orderly(log)
    requires forall i | 0 <= i < |log| :: MayFollow(log[i], ev)
    requires ev.Skipped? ==> Cancelled(ev.id) in log
    requires ev.Started? || ev.Skipped? ==> ev.when == Deadline(log, ev.id)
    ensures Orderly(log + [ev])
  {
    var l := log + [ev];
    assert forall j | 0 <= j <= |log| :: l[..j] == log[..j];
    assert log[..|log|] == log;
  }

  // ---------------------------------------------------------------- the invariant

  /** `in_use_` and the heap name each other through |timer_id_|. */
  ghost predicate Indexed(q: Queue)
  {
    && (forall id | id in q.inUse :: 0 < id <= q.nextId && q.inUse[id] in q.heap && Abs(q.heap[q.inUse[id]]) == id)
    && (forall p | p in q.heap :: Abs(q.heap[p]) in q.inUse && q.inUse[Abs(q.heap[p])] == p)
  }

  /** Every live timer is in `timers_` or in the unfinished part of `expired_`, exactly once. */
  ghost predicate Owned(q: Queue)
  {
    Addresses(q.timers) + Addresses(q.expired) == multiset(q.heap.Keys)
  }

  ghost predicate Recorded(q: Queue)
  {
    && Orderly(q.log)
    && (forall i | 0 <= i < |q.log| :: 0 < q.log[i].id <= q.nextId)
    && (forall id | 0 < id <= q.nextId :: id in q.inUse <==> Freed(id) !in q.log)
    && (forall p | p in q.heap :: q.heap[p] < 0 <==> Cancelled(Abs(q.heap[p])) in q.log)
  }

  ghost predicate OnTime(q: Queue)
  {
    forall e | e in q.timers || e in q.expired ::
      e.timer in q.heap && e.when == Deadline(q.log, Abs(q.heap[e.timer]))
  }

  ghost predicate Inv(q: Queue)
  {
    Sorted(q.timers) && Indexed(q) && Owned(q) && Recorded(q) && OnTime(q)
  }

  lemma EmptyInv()
    ensures Inv(EMPTY)
  {
  }

  // ---------------------------------------------------------------- operations

  /** malloc: some address that no live timer has. */
  function FreshPtr(used: set<Ptr>, hint: Ptr): (p: Ptr)
    ensures p !in used
    decreases set u | u in used && u >= hint
  {
    if hint !in used then hint
    else
      var above, rest := set u | u in used && u >= hint, set u | u in used && u >= hint + 1;
      assert above == rest + {hint} && hint !in rest;
      FreshPtr(used, hint + 1)
  }

  function Note(q: Queue, ev: Event): Queue
  {
    q.(log := q.log + [ev])
  }

  /** AddTimer on the loop's thread, lines 57-78. */
  function AddTimer(q: Queue, when: int, hint: Ptr): Queue
  {
    var id := q.nextId + 1;
    var p := FreshPtr(q.heap.Keys, hint);
    Note(q.(nextId := id, heap := q.heap[p := id], timers := Insert(q.timers, Entry(when, p)),
            inUse := q.inUse[id := p]), Added(id, when))
  }

  /** Lines 41-55. */
  function CancelTimer(q: Queue, id: int): Queue
    requires Indexed(q)
  {
    if id !in q.inUse then q
    else
      var p := q.inUse[id];
      if q.heap[p] <= 0 then q
      else Note(q.(heap := q.heap[p := -q.heap[p]]), Cancelled(id))
  }

  function Act(q: Queue, a: Action): Queue
    requires Indexed(q)
  {
    match a
    case Add(when, hint) => AddTimer(q, when, hint)
    case Cancel(id) => CancelTimer(q, id)
  }

  /** Whatever a callback does, it neither touches `expired_` nor breaks the invariant. */
  function Actions(q: Queue, actions: seq<Action>): (r: Queue)
    requires Inv(q)
    ensures Inv(r) && r.expired == q.expired
    ensures Keeps(q, r)
    decreases |actions|
  {
    KeepsSelf(q);
    if actions == [] then q
    else
      ActKeeps(q, actions[0]);
      var r := Actions(Act(q, actions[0]), actions[1..]);
      KeepsTrans(q, Act(q, actions[0]), r);
      r
  }

  /** `r` continues `q`: nothing is unlogged, live timers stay live, no id is issued twice, and the
      new events are not turns. */
  ghost predicate Keeps(q: Queue, r: Queue)
  {
    && q.log <= r.log && q.nextId <= r.nextId
    && (forall p | p in q.heap :: p in r.heap && Abs(r.heap[p]) == Abs(q.heap[p]))
    && (forall i | |q.log| <= i < |r.log| :: r.log[i].Added? || r.log[i].Cancelled?)
  }

  lemma KeepsSelf(q: Queue)
    ensures Keeps(q, q)
  {
  }

  lemma KeepsTrans(q: Queue, m: Queue, r: Queue)
    requires Keeps(q, m) && Keeps(m, r)
    ensures Keeps(q, r)
  {
  }

  lemma MultisetAdd(s: set<Ptr>, p: Ptr)
    requires p !in s
    ensures multiset(s + {p}) == multiset(s) + multiset{p}
  {
  }

  lemma MultisetCancel(a: multiset<Ptr>, b: multiset<Ptr>, p: Ptr)
    requires a + multiset{p} == b + multiset{p}
    ensures a == b
  {
    forall x ensures a[x] == b[x] {
      assert (a + multiset{p})[x] == (b + multiset{p})[x];
    }
  }

  lemma ActKeeps(q: Queue, a: Action)
    requires Inv(q)
    ensures Inv(Act(q, a)) && Act(q, a).expired == q.expired && Keeps(q, Act(q, a))
  {
    match a
    case Add(when, hint) => AddKeeps(q, when, hint);
    case Cancel(id) => CancelKeeps(q, id);
  }

  lemma AddKeeps(q: Queue, when: int, hint: Ptr)
    requires Inv(q)
    ensures Inv(AddTimer(q, when, hint)) && Keeps(q, AddTimer(q, when, hint))
  {
    hide Orderly, Deadline, MayFollow, Insert, Addresses, Recorded, OnTime, Owned;
    InsertSorted(q.timers, Entry(when, FreshPtr(q.heap.Keys, hint)));
    AddKeepsOwned(q, when, hint);
    AddKeepsRecorded(q, when, hint);
    AddKeepsOnTime(q, when, hint);
  }

  lemma AddKeepsOwned(q: Queue, when: int, hint: Ptr)
    requires Owned(q)
    ensures Owned(AddTimer(q, when, hint))
  {
    var p := FreshPtr(q.heap.Keys, hint);
    assert p !in multiset(q.heap.Keys);
    InsertTimers(q.timers, Entry(when, p));
    MultisetAdd(q.heap.Keys, p);
    assert AddTimer(q, when, hint).heap.Keys == q.heap.Keys + {p};
  }

  lemma AddKeepsRecorded(q: Queue, when: int, hint: Ptr)
    requires Recorded(q) && Indexed(q)
    ensures Recorded(AddTimer(q, when, hint))
  {
    OrderlyAppend(q.log, Added(q.nextId + 1, when));
  }

  lemma AddKeepsOnTime(q: Queue, when: int, hint: Ptr)
    requires OnTime(q) && Recorded(q) && Indexed(q)
    ensures OnTime(AddTimer(q, when, hint))
  {
    var r := AddTimer(q, when, hint);
    var id, p := q.nextId + 1, FreshPtr(q.heap.Keys, hint);
    forall e | e in r.timers || e in r.expired
      ensures e.timer in r.heap && e.when == Deadline(r.log, Abs(r.heap[e.timer]))
    {
      InsertHas(q.timers, Entry(when, p), e);
      DeadlineAppend(q.log, Added(id, when), Abs(r.heap[e.timer]));
    }
  }

  lemma CancelKeeps(q: Queue, id: int)
    requires Inv(q)
    ensures Inv(CancelTimer(q, id)) && Keeps(q, CancelTimer(q, id))
  {
    hide Recorded, OnTime, Sorted, Addresses;
    var r := CancelTimer(q, id);
    if r != q {
      assert r.heap.Keys == q.heap.Keys;
      CancelKeepsRecorded(q, id);
      CancelKeepsOnTime(q, id);
    }
  }

  lemma CancelShape(q: Queue, id: int)
    requires Inv(q)
    ensures Indexed(q) && (id in q.inUse ==> q.inUse[id] in q.heap)
    ensures CancelTimer(q, id) ==
            if id !in q.inUse || q.heap[q.inUse[id]] <= 0 then q
            else q.(heap := q.heap[q.inUse[id] := -q.heap[q.inUse[id]]], log := q.log + [Cancelled(id)])
    ensures Inv(CancelTimer(q, id))
  {
    CancelKeeps(q, id);
  }

  lemma CancelKeepsRecorded(q: Queue, id: int)
    requires Recorded(q) && Indexed(q) && CancelTimer(q, id) != q
    ensures Recorded(CancelTimer(q, id))
  {
    OrderlyAppend(q.log, Cancelled(id));
  }

  lemma CancelKeepsOnTime(q: Queue, id: int)
    requires OnTime(q) && Indexed(q) && CancelTimer(q, id) != q
    ensures OnTime(CancelTimer(q, id))
  {
    var r := CancelTimer(q, id);
    forall e | e in r.timers || e in r.expired
      ensures e.timer in r.heap && e.when == Deadline(r.log, Abs(r.heap[e.timer]))
    {
      DeadlineAppend(q.log, Cancelled(id), Abs(q.heap[e.timer]));
    }
  }

  /** A second Cancel of the same id changes nothing. */
  lemma CancelTwice(q: Queue, id: int)
    requires Inv(q)
    ensures Indexed(CancelTimer(q, id)) && CancelTimer(CancelTimer(q, id), id) == CancelTimer(q, id)
  {
    CancelKeeps(q, id);
  }

  // ---------------------------------------------------------------- one turn of the pass

  /** The head of the batch: still live, and nowhere else. */
  lemma HeadAlone(q: Queue)
    requires Inv(q) && q.expired != []
    ensures q.expired[0].timer in q.heap
    ensures q.expired[0].timer !in Addresses(q.timers) && q.expired[0].timer !in Addresses(q.expired[1..])
  {
    var p := q.expired[0].timer;
    assert q.expired[0] in q.expired;
    assert multiset(q.heap.Keys)[p] == 1;
    assert Addresses(q.expired) == multiset{p} + Addresses(q.expired[1..]);
  }

  /** Entering Timer::Call, lines 27-30. */
  function Begin(q: Queue, now: int): Queue
    requires q.expired != [] && q.expired[0].timer in q.heap
  {
    var e := q.expired[0];
    var id := q.heap[e.timer];
    Note(q, if id <= 0 then Skipped(-id, e.when) else Started(id, e.when, now))
  }

  lemma BeginKeeps(q: Queue, now: int)
    requires Inv(q) && q.expired != [] && q.expired[0].timer in q.heap
    ensures Inv(Begin(q, now))
  {
    hide Recorded, OnTime, Sorted, Addresses;
    BeginKeepsRecorded(q, now);
    BeginKeepsOnTime(q, now);
  }

  lemma BeginKeepsRecorded(q: Queue, now: int)
    requires Inv(q) && q.expired != [] && q.expired[0].timer in q.heap
    ensures Recorded(Begin(q, now))
  {
    hide Deadline, Addresses;
    assert q.expired[0] in q.expired;
    OrderlyAppend(q.log, Begin(q, now).log[|q.log|]);
  }

  lemma BeginKeepsOnTime(q: Queue, now: int)
    requires OnTime(q) && q.expired != [] && q.expired[0].timer in q.heap
    ensures OnTime(Begin(q, now))
  {
    hide Deadline;
    var r := Begin(q, now);
    forall e | e in r.timers || e in r.expired
      ensures e.timer in r.heap && e.when == Deadline(r.log, Abs(r.heap[e.timer]))
    {
      DeadlineAppend(q.log, r.log[|q.log|], Abs(q.heap[e.timer]));
    }
  }

  /** Lines 112-115. */
  function Free(q: Queue): Queue
    requires q.expired != [] && q.expired[0].timer in q.heap
  {
    var p := q.expired[0].timer;
    var id := Abs(q.heap[p]);
    Note(q.(inUse := q.inUse - {id}, heap := q.heap - {p}, expired := q.expired[1..]), Freed(id))
  }

  /** Line 117. */
  function Rearm(q: Queue, delay: int): Queue
    requires q.expired != [] && q.expired[0].timer in q.heap
  {
    var e := q.expired[0];
    Note(q.(timers := Insert(q.timers, Entry(e.when + delay, e.timer)), expired := q.expired[1..]),
         Rearmed(Abs(q.heap[e.timer]), delay))
  }

  lemma FreeKeeps(q: Queue)
    requires Inv(q) && q.expired != [] && q.expired[0].timer in q.heap
    ensures Inv(Free(q))
  {
    hide Recorded, OnTime, Owned;
    FreeKeepsRecorded(q);
    FreeKeepsOnTime(q);
    FreeKeepsOwned(q);
  }

  lemma FreeKeepsOwned(q: Queue)
    requires Inv(q) && q.expired != [] && q.expired[0].timer in q.heap
    ensures Owned(Free(q))
  {
    hide Recorded, OnTime;
    var p := q.expired[0].timer;
    MultisetAdd(q.heap.Keys - {p}, p);
    assert q.heap.Keys - {p} + {p} == q.heap.Keys;
    assert Addresses(q.expired) == multiset{p} + Addresses(q.expired[1..]);
    MultisetCancel(Addresses(q.timers) + Addresses(q.expired[1..]), multiset(q.heap.Keys - {p}), p);
    assert Free(q).heap.Keys == q.heap.Keys - {p};
  }

  lemma FreeKeepsRecorded(q: Queue)
    requires Recorded(q) && Indexed(q) && q.expired != [] && q.expired[0].timer in q.heap
    ensures Recorded(Free(q))
  {
    OrderlyAppend(q.log, Freed(Abs(q.heap[q.expired[0].timer])));
  }

  /** The other entries are about other timers. */
  lemma NotTheHead(q: Queue, e: Entry)
    requires Inv(q) && q.expired != [] && q.expired[0].timer in q.heap
    requires e in q.timers || e in q.expired[1..]
    ensures e.timer in q.heap && e.timer != q.expired[0].timer
    ensures Abs(q.heap[e.timer]) != Abs(q.heap[q.expired[0].timer])
    ensures e.when == Deadline(q.log, Abs(q.heap[e.timer]))
  {
    hide Recorded, Owned, Deadline;
    HeadAlone(q);
    if e in q.timers { AddressesHas(q.timers, e); } else { AddressesHas(q.expired[1..], e); }
  }

  lemma FreeKeepsOnTime(q: Queue)
    requires Inv(q) && q.expired != [] && q.expired[0].timer in q.heap
    ensures OnTime(Free(q))
  {
    hide Inv, Deadline;
    var r := Free(q);
    forall e | e in r.timers || e in r.expired
      ensures e.timer in r.heap && e.when == Deadline(r.log, Abs(r.heap[e.timer]))
    {
      NotTheHead(q, e);
      DeadlineAppend(q.log, Freed(Abs(q.heap[q.expired[0].timer])), Abs(q.heap[e.timer]));
    }
  }

  lemma RearmKeeps(q: Queue, delay: int)
    requires Inv(q) && q.expired != [] && q.expired[0].timer in q.heap
    ensures Inv(Rearm(q, delay))
  {
    hide Recorded, Owned, OnTime, Insert;
    InsertSorted(q.timers, Entry(q.expired[0].when + delay, q.expired[0].timer));
    RearmKeepsOwned(q, delay);
    RearmKeepsRecorded(q, delay);
    RearmKeepsOnTime(q, delay);
  }

  lemma RearmKeepsOwned(q: Queue, delay: int)
    requires Inv(q) && q.expired != [] && q.expired[0].timer in q.heap
    ensures Owned(Rearm(q, delay))
  {
    hide Recorded, OnTime, Insert;
    var e := q.expired[0];
    HeadAlone(q);
    InsertTimers(q.timers, Entry(e.when + delay, e.timer));
    assert Addresses(q.expired) == multiset{e.timer} + Addresses(q.expired[1..]);
  }

  lemma RearmKeepsRecorded(q: Queue, delay: int)
    requires Recorded(q) && Indexed(q) && q.expired != [] && q.expired[0].timer in q.heap
    ensures Recorded(Rearm(q, delay))
  {
    OrderlyAppend(q.log, Rearmed(Abs(q.heap[q.expired[0].timer]), delay));
  }

  lemma RearmKeepsOnTime(q: Queue, delay: int)
    requires Inv(q) && q.expired != [] && q.expired[0].timer in q.heap
    ensures OnTime(Rearm(q, delay))
  {
    hide Deadline, Insert, Recorded, Owned;
    var r := Rearm(q, delay);
    var h := q.expired[0];
    var again := Entry(h.when + delay, h.timer);
    var id := Abs(q.heap[h.timer]);
    assert h in q.expired && h.when == Deadline(q.log, id);
    hide Inv;
    forall e | e in r.timers || e in r.expired
      ensures e.timer in r.heap && e.when == Deadline(r.log, Abs(r.heap[e.timer]))
    {
      InsertHas(q.timers, again, e);
      if e != again { NotTheHead(q, e); }
      DeadlineAppend(q.log, Rearmed(id, delay), Abs(q.heap[e.timer]));
    }
  }

  /** One iteration of lines 110-118. */
  function Turn(q: Queue, now: int, s: Script): (r: Queue)
    requires Inv(q) && q.expired != []
    ensures Inv(r) && r.expired == q.expired[1..]
  {
    HeadAlone(q);
    BeginKeeps(q, now);
    var b := Begin(q, now);
    if q.heap[q.expired[0].timer] <= 0 then
      FreeKeeps(b);
      Free(b)
    else
      var r := Actions(b, s.actions);
      assert r.expired[0].timer in r.heap;
      FreeKeeps(r);
      RearmKeeps(r, s.delay);
      if s.delay <= 0 then Free(r) else Rearm(r, s.delay)
  }

  /** Lines 110-120. A callback's script may depend on everything before it: it is drawn from the
      oracle `env` at the current length of the history. */
  function Pass(q: Queue, now: int, env: nat -> Script): (r: Queue)
    requires Inv(q)
    ensures Inv(r) && r.expired == []
    decreases |q.expired|
  {
    if q.expired == [] then q else Pass(Turn(q, now, env(|q.log|)), now, env)
  }

  function DueCount(s: seq<Entry>, now: int): (n: nat)
    ensures n <= |s|
    ensures forall i | 0 <= i < n :: s[i].when <= now
    ensures n < |s| ==> s[n].when > now
  {
    if s == [] || s[0].when > now then 0 else 1 + DueCount(s[1..], now)
  }

  /** Lines 100-108. */
  function Gather(q: Queue, now: int): Queue
  {
    var n := DueCount(q.timers, now);
    q.(expired := q.timers[..n], timers := q.timers[n..])
  }

  lemma GatherKeeps(q: Queue, now: int)
    requires Inv(q) && q.expired == []
    ensures Inv(Gather(q, now))
  {
    hide Orderly, Deadline, Addresses, DueCount;
    GatherKeepsOwned(q, now);
    GatherKeepsOnTime(q, now);
  }

  lemma GatherKeepsOwned(q: Queue, now: int)
    requires Owned(q) && q.expired == []
    ensures Owned(Gather(q, now))
  {
    var n := DueCount(q.timers, now);
    assert q.timers == q.timers[..n] + q.timers[n..];
    AddressesConcat(q.timers[..n], q.timers[n..]);
  }

  lemma GatherKeepsOnTime(q: Queue, now: int)
    requires OnTime(q) && q.expired == []
    ensures OnTime(Gather(q, now))
  {
    hide Deadline;
    var r := Gather(q, now);
    forall e | e in r.timers || e in r.expired ensures e in q.timers {
    }
  }

  function DoExpired(q: Queue, now: int, env: nat -> Script): (r: Queue)
    requires Inv(q) && q.expired == []
    ensures Inv(r) && r.expired == []
  {
    GatherKeeps(q, now);
    Pass(Gather(q, now), now, env)
  }

  // ---------------------------------------------------------------- what a pass does

  /** The turns taken in a stretch of history: whose, and with which deadline. */
  function TurnsOf(log: seq<Event>): seq<(int, int)>
  {
    if log == [] then [] else TurnIn(log[0]) + TurnsOf(log[1..])
  }

  function TurnIn(ev: Event): seq<(int, int)>
  {
    if ev.Started? || ev.Skipped? then [(ev.id, ev.when)] else []
  }

  lemma {:induction false} TurnsOfConcat(a: seq<Event>, b: seq<Event>)
    ensures TurnsOf(a + b) == TurnsOf(a) + TurnsOf(b)
  {
    if a == [] {
      assert a + b == b;
    } else {
      hide TurnIn;
      assert (a + b)[1..] == a[1..] + b;
      TurnsOfConcat(a[1..], b);
      assert TurnIn(a[0]) + (TurnsOf(a[1..]) + TurnsOf(b)) == TurnIn(a[0]) + TurnsOf(a[1..]) + TurnsOf(b);
    }
  }

  lemma {:induction false} NoTurns(log: seq<Event>)
    requires forall i | 0 <= i < |log| :: !log[i].Started? && !log[i].Skipped?
    ensures TurnsOf(log) == []
  {
    if log != [] { NoTurns(log[1..]); }
  }

  /** The turns a batch stands for. */
  function Batch(heap: map<Ptr, int>, s: seq<Entry>): seq<(int, int)>
    requires forall e | e in s :: e.timer in heap
  {
    seq(|s|, i requires 0 <= i < |s| => (Abs(heap[s[i].timer]), s[i].when))
  }

  /** From `log` to `later`, exactly these turns were taken, at time `now`. */
  ghost predicate Took(log: seq<Event>, later: seq<Event>, now: int, turns: seq<(int, int)>)
  {
    && log <= later
    && TurnsOf(later[|log|..]) == turns
    && (forall i | |log| <= i < |later| && later[i].Started? :: later[i].now == now)
  }

  lemma TookTrans(a: seq<Event>, b: seq<Event>, c: seq<Event>, now: int, s: seq<(int, int)>, t: seq<(int, int)>)
    requires Took(a, b, now, s) && Took(b, c, now, t)
    ensures Took(a, c, now, s + t)
  {
    assert c[|a|..] == b[|a|..] + c[|b|..];
    TurnsOfConcat(b[|a|..], c[|b|..]);
    forall i | |a| <= i < |c| && c[i].Started? ensures c[i].now == now {
      if i < |b| { assert b[i] == c[i]; }
    }
  }

  lemma TurnStretch(turn: Event, inside: seq<Event>, last: Event)
    requires turn.Started? || turn.Skipped?
    requires forall i | 0 <= i < |inside| :: !inside[i].Started? && !inside[i].Skipped?
    requires !last.Started? && !last.Skipped?
    ensures TurnsOf([turn] + inside + [last]) == [(turn.id, turn.when)]
  {
    var rest := inside + [last];
    NoTurns(rest);
    assert [turn] + inside + [last] == [turn] + rest;
    assert ([turn] + rest)[1..] == rest;
    assert TurnIn(turn) + [] == TurnIn(turn);
  }

  /** Lines 112-117, after Timer::Call has returned `delay`. */
  function Settle(q: Queue, delay: int): Queue
    requires q.expired != [] && q.expired[0].timer in q.heap
  {
    if delay <= 0 then Free(q) else Rearm(q, delay)
  }

  /** The queue in the middle of a turn: the callback, if any, has returned. */
  function Middle(q: Queue, now: int, s: Script): (m: Queue)
    requires Inv(q) && q.expired != []
    ensures Inv(m) && m.expired == q.expired
    ensures q.expired[0].timer in q.heap && q.expired[0].timer in m.heap
    ensures Keeps(Begin(q, now), m)
    ensures Turn(q, now, s) == Settle(m, if q.heap[q.expired[0].timer] <= 0 then 0 else s.delay)
  {
    HeadAlone(q);
    BeginKeeps(q, now);
    KeepsSelf(Begin(q, now));
    if q.heap[q.expired[0].timer] <= 0 then Begin(q, now) else Actions(Begin(q, now), s.actions)
  }

  /** A turn logs itself and nothing else that is a turn, at the time of the pass. */
  lemma TurnLogs(q: Queue, now: int, s: Script)
    requires Inv(q) && q.expired != []
    ensures q.expired[0].timer in q.heap
    ensures var r, e := Turn(q, now, s), q.expired[0];
            && Took(q.log, r.log, now, [(Abs(q.heap[e.timer]), e.when)])
            && (forall p | p in q.heap && p != e.timer :: p in r.heap && Abs(r.heap[p]) == Abs(q.heap[p]))
  {
    hide Inv, Turn, Insert;
    var m := Middle(q, now, s);
    hide Middle, Took, Keeps;
    SettleLogs(q, now, m, if q.heap[q.expired[0].timer] <= 0 then 0 else s.delay);
  }

  lemma SettleLogs(q: Queue, now: int, m: Queue, delay: int)
    requires q.expired != [] && m.expired == q.expired
    requires q.expired[0].timer in q.heap && q.expired[0].timer in m.heap && Keeps(Begin(q, now), m)
    ensures var r, e := Settle(m, delay), q.expired[0];
            && Took(q.log, r.log, now, [(Abs(q.heap[e.timer]), e.when)])
            && (forall p | p in q.heap && p != e.timer :: p in r.heap && Abs(r.heap[p]) == Abs(q.heap[p]))
  {
    hide Insert, Took;
    var b, r := Begin(q, now), Settle(m, delay);
    var inside := m.log[|b.log|..];
    assert m.log == b.log + inside;
    assert forall i | 0 <= i < |inside| :: inside[i] == m.log[|b.log| + i];
    TookOne(q.log, b.log[|q.log|], inside, r.log[|m.log|], now);
  }

  lemma TookOne(log: seq<Event>, turn: Event, inside: seq<Event>, last: Event, now: int)
    requires turn.Started? || turn.Skipped?
    requires turn.Started? ==> turn.now == now
    requires forall i | 0 <= i < |inside| :: inside[i].Added? || inside[i].Cancelled?
    requires !last.Started? && !last.Skipped?
    ensures Took(log, log + [turn] + inside + [last], now, [(turn.id, turn.when)])
  {
    var later := log + [turn] + inside + [last];
    TurnStretch(turn, inside, last);
    assert later[|log|..] == [turn] + inside + [last];
  }

  /** What a turn does to its timer. A live one whose callback returns a positive delay goes back to
      `timers_` that much later; otherwise the timer is freed. */
  lemma TurnEffect(q: Queue, now: int, s: Script)
    requires Inv(q) && q.expired != []
    ensures q.expired[0].timer in q.heap
    ensures var r, e := Turn(q, now, s), q.expired[0];
            var id := Abs(q.heap[e.timer]);
            && r.log != []
            && if q.heap[e.timer] > 0 && s.delay > 0 then
                 && Entry(e.when + s.delay, e.timer) in r.timers
                 && e.timer in r.heap && Abs(r.heap[e.timer]) == id
                 && r.log[|r.log| - 1] == Rearmed(id, s.delay)
               else
                 e.timer !in r.heap && id !in r.inUse && r.log[|r.log| - 1] == Freed(id)
  {
    hide Inv, Turn, Insert;
    var m := Middle(q, now, s);
    var e := q.expired[0];
    HeadAlone(q);
    ActPositive(q);
    hide Middle;
    InsertHas(m.timers, Entry(e.when + s.delay, e.timer), Entry(e.when + s.delay, e.timer));
  }

  lemma ActPositive(q: Queue)
    requires Inv(q)
    ensures forall p | p in q.heap :: q.heap[p] != 0
  {
    hide Recorded, OnTime, Owned;
  }

  /** A callback's actions leave the entries of `timers_` where they are and add one for each Add. */
  lemma {:induction false} ActionsKeepEntries(q: Queue, actions: seq<Action>)
    requires Inv(q)
    ensures forall e | e in q.timers :: e in Actions(q, actions).timers
    decreases |actions|
  {
    if actions != [] {
      ActKeeps(q, actions[0]);
      var m := Act(q, actions[0]);
      ActionsKeepEntries(m, actions[1..]);
      forall e | e in q.timers ensures e in m.timers {
        if actions[0].Add? { InsertHas(q.timers, Entry(actions[0].when, FreshPtr(q.heap.Keys, actions[0].hint)), e); }
      }
    }
  }

  lemma BatchTail(heap: map<Ptr, int>, heap': map<Ptr, int>, s: seq<Entry>)
    requires s != [] && forall e | e in s :: e.timer in heap
    requires s[0].timer !in Addresses(s[1..])
    requires forall p | p in heap && p != s[0].timer :: p in heap' && Abs(heap'[p]) == Abs(heap[p])
    ensures forall e | e in s[1..] :: e.timer in heap'
    ensures Batch(heap, s) == [(Abs(heap[s[0].timer]), s[0].when)] + Batch(heap', s[1..])
  {
    forall e | e in s[1..] ensures e in s && e.timer != s[0].timer { AddressesHas(s[1..], e); }
  }

  /** A pass takes the turns of its batch, each once and in order. */
  lemma {:induction false} PassTurns(q: Queue, now: int, env: nat -> Script)
    requires Inv(q)
    ensures forall e | e in q.expired :: e.timer in q.heap
    ensures Took(q.log, Pass(q, now, env).log, now, Batch(q.heap, q.expired))
    decreases |q.expired|
  {
    assert OnTime(q);
    hide Inv, Turn, Addresses, Batch, Took;
    if q.expired == [] {
      NoBatch(q.heap);
      TookNothing(q.log, now);
    } else {
      var m := Turn(q, now, env(|q.log|));
      TurnLogs(q, now, env(|q.log|));
      HeadAlone(q);
      BatchTail(q.heap, m.heap, q.expired);
      PassTurns(m, now, env);
      var head := [(Abs(q.heap[q.expired[0].timer]), q.expired[0].when)];
      TookTrans(q.log, m.log, Pass(m, now, env).log, now, head, Batch(m.heap, m.expired));
    }
  }

  lemma TookNothing(log: seq<Event>, now: int)
    ensures Took(log, log, now, [])
  {
  }

  lemma NoBatch(heap: map<Ptr, int>)
    ensures Batch(heap, []) == []
  {
  }

  /** The timers of `timers_` that are due. */
  function Due(q: Queue, now: int): seq<Entry>
  {
    q.timers[..DueCount(q.timers, now)]
  }

  lemma DueExactly(q: Queue, now: int)
    requires Sorted(q.timers)
    ensures forall e :: e in Due(q, now) <==> e in q.timers && e.when <= now
  {
    var n := DueCount(q.timers, now);
    forall i | 0 <= i < |q.timers| ensures q.timers[i].when <= now <==> i < n {
      assert n < i < |q.timers| ==> Before(q.timers[n], q.timers[i]);
    }
    forall e | e in q.timers && e.when <= now ensures e in Due(q, now) {
      var i :| 0 <= i < |q.timers| && q.timers[i] == e;
      assert Due(q, now)[i] == e;
    }
  }

  /** DoExpired takes a turn for exactly the timers due at its entry, each once, in deadline order.
      Timers added or put back during the pass are not among them. */
  lemma PassRunsTheDue(q: Queue, now: int, env: nat -> Script)
    requires Inv(q) && q.expired == []
    ensures forall e :: e in Due(q, now) <==> e in q.timers && e.when <= now
    ensures forall i, j | 0 <= i < j < |Due(q, now)| ::
              Due(q, now)[i].when <= Due(q, now)[j].when && Due(q, now)[i].timer != Due(q, now)[j].timer
    ensures forall e | e in Due(q, now) :: e.timer in q.heap
    ensures Took(q.log, DoExpired(q, now, env).log, now, Batch(q.heap, Due(q, now)))
  {
    hide Recorded, Took, Batch, Deadline, Pass, Addresses;
    GatherKeeps(q, now);
    PassTurns(Gather(q, now), now, env);
    DueExactly(q, now);
    forall i, j | 0 <= i < j < |Due(q, now)| ensures q.timers[i].timer != q.timers[j].timer {
      DistinctTimers(q, i, j);
    }
  }

  lemma DistinctTimers(q: Queue, i: nat, j: nat)
    requires Owned(q) && i < j < |q.timers|
    ensures q.timers[i].timer != q.timers[j].timer
  {
    var s := q.timers;
    var p := s[j].timer;
    assert s == s[..i + 1] + s[i + 1..] && s[..i + 1] == s[..i] + [s[i]];
    AddressesConcat(s[..i + 1], s[i + 1..]);
    AddressesConcat(s[..i], [s[i]]);
    assert s[i + 1..][j - i - 1] == s[j];
    AddressesHas(s[i + 1..], s[j]);
    assert Addresses([s[i]]) == multiset{s[i].timer} by { assert [s[i]][1..] == []; }
    assert multiset(q.heap.Keys)[p] <= 1;
  }

  /** A turn calls the callback if and only if the timer was not cancelled before that turn, and its
      deadline is then the first one plus every positive delay the callback has returned. */
  lemma TurnVerdict(q: Queue, j: nat)
    requires Inv(q) && j < |q.log| && (q.log[j].Started? || q.log[j].Skipped?)
    ensures q.log[j].Started? <==> Cancelled(q.log[j].id) !in q.log[..j]
    ensures q.log[j].when == Deadline(q.log[..j], q.log[j].id)
  {
    if Cancelled(q.log[j].id) in q.log[..j] {
      var i :| 0 <= i < j && q.log[..j][i] == Cancelled(q.log[j].id);
      assert MayFollow(q.log[i], q.log[j]);
    }
  }

  /** A timer is freed at most once, and it is gone from the heap exactly when it has been. */
  lemma FreedOnce(q: Queue, id: int)
    requires Inv(q) && 0 < id <= q.nextId
    ensures Freed(id) in q.log <==> forall p | p in q.heap :: Abs(q.heap[p]) != id
    ensures forall i, j | 0 <= i < j < |q.log| && q.log[i] == Freed(id) :: q.log[j].id != id
  {
    if Freed(id) !in q.log {
      assert id in q.inUse;
      assert Abs(q.heap[q.inUse[id]]) == id;
    }
    forall i, j | 0 <= i < j < |q.log| && q.log[i] == Freed(id) ensures q.log[j].id != id {
      assert MayFollow(q.log[i], q.log[j]);
    }
  }

  /** The id AddTimer issues appears nowhere in the history: no id is issued twice. */
  lemma IdsAreFresh(q: Queue, when: int, hint: Ptr)
    requires Inv(q)
    ensures AddTimer(q, when, hint).log == q.log + [Added(q.nextId + 1, when)]
    ensures forall i | 0 <= i < |q.log| :: q.log[i].id != q.nextId + 1
    ensures forall i, j | 0 <= i < j < |q.log| && q.log[i].Added? && q.log[j].Added? :: q.log[i].id != q.log[j].id
  {
    forall i, j | 0 <= i < j < |q.log| && q.log[i].Added? && q.log[j].Added? ensures q.log[i].id != q.log[j].id {
      assert MayFollow(q.log[i], q.log[j]);
    }
  }

  // ---------------------------------------------------------------- whole runs

  /** What the loop and the code outside the pass may do. */
  datatype Op = Do(action: Action) | Expire(now: int, env: nat -> Script)

  function Step(q: Queue, op: Op): (r: Queue)
    requires Inv(q) && q.expired == []
    ensures Inv(r) && r.expired == []
  {
    match op
    case Do(a) => ActKeeps(q, a); Act(q, a)
    case Expire(now, env) => DoExpired(q, now, env)
  }

  lemma StepGrows(q: Queue, op: Op)
    requires Inv(q) && q.expired == []
    ensures q.log <= Step(q, op).log
  {
    match op
    case Do(a) => ActKeeps(q, a);
    case Expire(now, env) => PassRunsTheDue(q, now, env);
  }

  /** Every run keeps the invariant and only adds to the history. */
  function Run(q: Queue, ops: seq<Op>): (r: Queue)
    requires Inv(q) && q.expired == []
    ensures Inv(r) && r.expired == [] && q.log <= r.log
    decreases |ops|
  {
    if ops == [] then q
    else
      StepGrows(q, ops[0]);
      Run(Step(q, ops[0]), ops[1..])
  }

  // ---------------------------------------------------------------- cancelling an id not yet issued

  const QUIET: Script := Script([], 0)

  function AddMany(q: Queue, when: int, n: nat): (r: Queue)
    requires Inv(q) && q.expired == []
    ensures Inv(r) && r.expired == [] && r.nextId == q.nextId + n
    ensures n > 0 ==> exists p | p in r.heap :: r.heap[p] == r.nextId && Entry(when, p) in r.timers
    decreases n
  {
    if n == 0 then q
    else
      var m := AddMany(q, when, n - 1);
      AddKeeps(m, when, 0);
      var p := FreshPtr(m.heap.Keys, 0);
      InsertHas(m.timers, Entry(when, p), Entry(when, p));
      var r := AddTimer(m, when, 0);
      assert p in r.heap && r.heap[p] == r.nextId && Entry(when, p) in r.timers;
      r
  }

  lemma QuietTurn(q: Queue, now: int, j: nat)
    requires Inv(q) && q.expired != []
    ensures |q.log| <= j < |Turn(q, now, QUIET).log| ==> !Turn(q, now, QUIET).log[j].Cancelled?
    ensures q.log <= Turn(q, now, QUIET).log
  {
    hide Inv;
    HeadAlone(q);
    BeginKeeps(q, now);
    assert Actions(Begin(q, now), []) == Begin(q, now);
  }

  lemma {:induction false} QuietPass(q: Queue, now: int, j: nat)
    requires Inv(q)
    ensures var r := Pass(q, now, _ => QUIET); |q.log| <= j < |r.log| ==> !r.log[j].Cancelled?
    ensures q.log <= Pass(q, now, _ => QUIET).log
    decreases |q.expired|
  {
    hide Inv, Turn;
    if q.expired != [] {
      QuietTurn(q, now, j);
      QuietPass(Turn(q, now, QUIET), now, j);
    }
  }

  lemma {:induction false} TurnInLog(log: seq<Event>, t: (int, int)) returns (j: nat)
    requires t in TurnsOf(log)
    ensures j < |log| && (log[j].Started? || log[j].Skipped?) && log[j].id == t.0
  {
    if (log[0].Started? || log[0].Skipped?) && (log[0].id, log[0].when) == t {
      j := 0;
    } else {
      j := TurnInLog(log[1..], t);
      j := j + 1;
    }
  }

  /** Cancelling an id that has not been issued is forgotten: it changes nothing, and the timer that
      later receives the id is called. With CancelIsPermanent of TimerRuns: Cancel(id) is permanent if and only
      if `id <= next_timer_id_`. */
  lemma UnissuedCancelIsForgotten(q: Queue, id: int, when: int) returns (j: nat)
    requires Inv(q) && q.expired == [] && id > q.nextId
    ensures CancelTimer(q, id) == q
    ensures var r := DoExpired(AddMany(q, when, id - q.nextId), when, _ => QUIET);
            j < |r.log| && r.log[j].Started? && r.log[j].id == id
  {
    var m := AddMany(q, when, id - q.nextId);
    var r := DoExpired(m, when, _ => QUIET);
    var p :| p in m.heap && m.heap[p] == id && Entry(when, p) in m.timers;
    j := DueIsTurned(m, when, _ => QUIET, Entry(when, p));
    GatherKeeps(m, when);
    forall i | |m.log| <= i < |r.log| ensures !r.log[i].Cancelled? {
      QuietPass(Gather(m, when), when, i);
    }
    assert Cancelled(id) !in r.log by { UncancelledSoFar(m, r, p); }
    TurnVerdict(r, j);
  }

  lemma UncancelledSoFar(m: Queue, r: Queue, p: Ptr)
    requires Inv(m) && p in m.heap && m.heap[p] > 0 && m.log <= r.log
    requires forall i | |m.log| <= i < |r.log| :: !r.log[i].Cancelled?
    ensures Cancelled(m.heap[p]) !in r.log
  {
    assert Cancelled(Abs(m.heap[p])) !in m.log;
    forall i | 0 <= i < |r.log| ensures r.log[i] != Cancelled(m.heap[p]) {
      if i < |m.log| { assert m.log[i] == r.log[i]; }
    }
  }

  lemma DueIsTurned(q: Queue, now: int, env: nat -> Script, e: Entry) returns (j: nat)
    requires Inv(q) && q.expired == [] && e in q.timers && e.when <= now && e.timer in q.heap
    ensures var r := DoExpired(q, now, env);
            && q.log <= r.log && |q.log| <= j < |r.log|
            && (r.log[j].Started? || r.log[j].Skipped?) && r.log[j].id == Abs(q.heap[e.timer])
  {
    hide Recorded, Pass;
    PassRunsTheDue(q, now, env);
    var r := DoExpired(q, now, env);
    var due := Due(q, now);
    var i :| 0 <= i < |due| && due[i] == e;
    assert Batch(q.heap, due)[i] == (Abs(q.heap[e.timer]), e.when);
    j := TurnInLog(r.log[|q.log|..], (Abs(q.heap[e.timer]), e.when));
    j := j + |q.log|;
  }

  // ---------------------------------------------------------------- SleepTime

  /** Lines 86-96: how long poll may block; -1 is for ever. */
  function SleepTime(q: Queue, now: int): int
  {
    if q.timers == [] then -1
    else if q.timers[0].when - now <= 0 then 0
    else q.timers[0].when - now
  }

  /** The loop neither oversleeps a timer nor wakes for none: a timer is due at `t` exactly when `t`
      is at or past the time slept to. */
  lemma SleepIsExact(q: Queue, now: int, t: int)
    requires Inv(q) && t >= now
    ensures SleepTime(q, now) >= -1 && (SleepTime(q, now) == -1 <==> q.timers == [])
    ensures Due(q, t) != [] <==> SleepTime(q, now) != -1 && t >= now + SleepTime(q, now)
  {
    hide Recorded, Owned, OnTime;
    if q.timers != [] { assert DueCount(q.timers, t) > 0 <==> q.timers[0].when <= t; }
  }
}
