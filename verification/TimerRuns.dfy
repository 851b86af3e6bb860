/** Runs of the scheduler in small steps: every moment of every run, also between two actions of one
    callback, and the claims that hold at all of them. */
module TimerRuns {
  import opened Timers

  // ---------------------------------------------------------------- every moment of every run

  /** Where the loop's thread is: outside DoExpired, between two turns of a pass, or in a callback. */
  datatype Place = Outside | BetweenTurns(now: int) | InCallback(now: int)

  datatype Moment = Moment(q: Queue, place: Place)

  datatype Move =
    | Acts(action: Action)    // user code, outside a pass or in a callback
    | PassStarts(now: int)
    | Calls                   // Timer::Call enters the callback
    | Skips                   // Timer::Call finds the timer cancelled, so it is freed
    | Returns(delay: int)
    | PassEnds

  const DAWN := Moment(EMPTY, Outside)

  ghost predicate Sound(m: Moment)
  {
    && Inv(m.q)
    && match m.place
       case Outside => m.q.expired == []
       case BetweenTurns(_) => true
       case InCallback(_) => m.q.expired != []
  }

  predicate CanMove(m: Moment, v: Move)
  {
    match v
    case Acts(_) => !m.place.BetweenTurns?
    case PassStarts(_) => m.place == Outside
    case Calls => m.place.BetweenTurns? && m.q.expired != [] && HeadLives(m.q)
    case Skips => m.place.BetweenTurns? && m.q.expired != [] && !HeadLives(m.q)
    case Returns(_) => m.place.InCallback?
    case PassEnds => m.place.BetweenTurns? && m.q.expired == []
  }

  /** The timer whose turn it is has not been cancelled. */
  predicate HeadLives(q: Queue)
    requires q.expired != []
  {
    q.expired[0].timer in q.heap && q.heap[q.expired[0].timer] > 0
  }

  function After(m: Moment, v: Move): (r: Moment)
    requires Sound(m) && CanMove(m, v)
    ensures Sound(r) && m.q.log <= r.q.log
  {
    hide Inv, Insert;
    match v
    case Acts(a) =>
      ActKeeps(m.q, a); ActIndexed(m.q);
      Moment(Act(m.q, a), m.place)
    case PassStarts(now) => GatherKeeps(m.q, now); Moment(Gather(m.q, now), BetweenTurns(now))
    case Calls =>
      HeadAlone(m.q);
      BeginKeeps(m.q, m.place.now);
      Moment(Begin(m.q, m.place.now), InCallback(m.place.now))
    case Skips =>
      HeadAlone(m.q);
      BeginKeeps(m.q, m.place.now);
      FreeKeeps(Begin(m.q, m.place.now));
      Moment(Free(Begin(m.q, m.place.now)), m.place)
    case Returns(delay) =>
      HeadAlone(m.q);
      FreeKeeps(m.q);
      RearmKeeps(m.q, delay);
      Moment(if delay <= 0 then Free(m.q) else Rearm(m.q, delay), BetweenTurns(m.place.now))
    case PassEnds => Moment(m.q, Outside)
  }

  lemma ActIndexed(q: Queue)
    requires Inv(q)
    ensures Indexed(q) && forall id | id in q.inUse :: q.inUse[id] in q.heap
  {
  }

  /** `moves` lead from `m` to `end`. The moments in between are the points of a run. */
  ghost predicate Reaches(m: Moment, moves: seq<Move>, end: Moment)
    decreases |moves|
  {
    Sound(m) &&
    if moves == [] then m == end else CanMove(m, moves[0]) && Reaches(After(m, moves[0]), moves[1..], end)
  }

  lemma {:induction false} ReachesSound(m: Moment, moves: seq<Move>, end: Moment)
    requires Reaches(m, moves, end)
    ensures Sound(m) && Sound(end) && m.q.log <= end.q.log
    decreases |moves|
  {
    hide Sound, CanMove;
    if moves != [] {
      ReachesSound(After(m, moves[0]), moves[1..], end);
    }
  }

  lemma {:induction false} ReachesTrans(a: Moment, moves: seq<Move>, b: Moment, more: seq<Move>, c: Moment)
    requires Reaches(a, moves, b) && Reaches(b, more, c)
    ensures Reaches(a, moves + more, c)
    decreases |moves|
  {
    hide Sound, CanMove, After;
    if moves == [] {
      assert [] + more == more;
    } else {
      assert (moves + more)[1..] == moves[1..] + more;
      ReachesTrans(After(a, moves[0]), moves[1..], b, more, c);
    }
  }

  lemma OneMove(m: Moment, v: Move)
    requires Sound(m) && CanMove(m, v)
    ensures Reaches(m, [v], After(m, v))
  {
    hide Sound, CanMove;
    assert [v][1..] == [];
    assert Reaches(After(m, v), [], After(m, v));
  }

  /** At every moment of every run, inside callbacks too: an address is owned by `timers_` or by the
      unfinished part of the batch, once, if and only if the timer is live; `in_use_` finds it under
      |timer_id_|. */
  lemma OwnedExactlyOnce(moves: seq<Move>, m: Moment, p: Ptr)
    requires Reaches(DAWN, moves, m)
    ensures (Addresses(m.q.timers) + Addresses(m.q.expired))[p] == if p in m.q.heap then 1 else 0
    ensures p in m.q.heap <==> exists id | id in m.q.inUse :: m.q.inUse[id] == p
    ensures forall id | id in m.q.inUse && m.q.inUse[id] == p :: id == Abs(m.q.heap[p])
  {
    ReachesSound(DAWN, moves, m);
    hide Recorded, OnTime, Reaches;
    assert multiset(m.q.heap.Keys)[p] == if p in m.q.heap then 1 else 0;
    if p in m.q.heap { assert m.q.inUse[Abs(m.q.heap[p])] == p; }
  }

  /** At any moment of a run, also inside a callback and for the timer being called, Cancel of an issued
      id is permanent: whatever follows, its callback is never entered again. */
  lemma CancelIsPermanent(moves: seq<Move>, m: Moment, id: int, more: seq<Move>, later: Moment)
    requires Reaches(DAWN, moves, m) && id <= m.q.nextId
    requires Reaches(m, [Acts(Cancel(id))] + more, later)
    ensures m.q.log <= later.q.log
    ensures forall j | |m.q.log| <= j < |later.q.log| && later.q.log[j].Started? :: later.q.log[j].id != id
  {
    hide Sound, CanMove, Recorded;
    ReachesSound(DAWN, moves, m);
    ReachesSound(m, [Acts(Cancel(id))] + more, later);
    assert ([Acts(Cancel(id))] + more)[1..] == more;
    var cancelled := After(m, Acts(Cancel(id)));
    ReachesSound(cancelled, more, later);
    SoundInv(m);
    SoundInv(later);
    hide Reaches, Inv, After;
    NoLaterStart(m.q, id, later.q);
  }

  lemma SoundInv(m: Moment)
    requires Sound(m)
    ensures Inv(m.q) && Indexed(m.q)
    ensures forall id | CanMove(m, Acts(Cancel(id))) :: After(m, Acts(Cancel(id))).q == CancelTimer(m.q, id)
  {
  }

  lemma NoLaterStart(q: Queue, id: int, later: Queue)
    requires Inv(q) && id <= q.nextId
    requires Inv(later) && q.log <= later.log && CancelTimer(q, id).log <= later.log
    ensures forall j | |q.log| <= j < |later.log| && later.log[j].Started? :: later.log[j].id != id
  {
    if 0 < id {
      CancelMark(q, id);
      var r := CancelTimer(q, id);
      var mark := if id in q.inUse then Cancelled(id) else Freed(id);
      var i :| 0 <= i < |r.log| && r.log[i] == mark;
      forall j | |q.log| <= j < |later.log| && later.log[j].Started? ensures later.log[j].id != id {
        assert later.log[i] == r.log[i];
        if j >= |r.log| { assert MayFollow(later.log[i], later.log[j]); }
      }
    }
  }

  /** After Cancel of an issued id the history says that the timer is cancelled or gone. */
  lemma CancelMark(q: Queue, id: int)
    requires Inv(q) && 0 < id <= q.nextId
    ensures var r := CancelTimer(q, id);
            && (if id in q.inUse then Cancelled(id) else Freed(id)) in r.log
            && |r.log| <= |q.log| + 1
            && (|r.log| == |q.log| + 1 ==> r.log[|q.log|] == Cancelled(id))
  {
    hide Orderly;
    if id in q.inUse && q.heap[q.inUse[id]] < 0 { assert Cancelled(Abs(q.heap[q.inUse[id]])) in q.log; }
  }

  // ---------------------------------------------------------------- deadlines

  /** A ledger kept from the moves alone: a timer's first deadline when it is added, plus every positive
      delay its callback returns; struck off when it is freed. */
  function Enter(m: Moment, v: Move, ledger: map<int, int>): map<int, int>
    requires Sound(m) && CanMove(m, v)
  {
    match v
    case Acts(Add(when, _)) => ledger[m.q.nextId + 1 := when]
    case Returns(delay) =>
      var id := HeadId(m.q);
      if delay > 0 && id in ledger then ledger[id := ledger[id] + delay] else ledger - {id}
    case Skips => ledger - {HeadId(m.q)}
    case _ => ledger
  }

  /** The timer whose turn it is. */
  function HeadId(q: Queue): int
    requires Inv(q) && q.expired != []
  {
    HeadAlone(q);
    Abs(q.heap[q.expired[0].timer])
  }

  ghost function Ledger(m: Moment, moves: seq<Move>, end: Moment, ledger: map<int, int>): map<int, int>
    requires Reaches(m, moves, end)
    decreases |moves|
  {
    if moves == [] then ledger
    else Ledger(After(m, moves[0]), moves[1..], end, Enter(m, moves[0], ledger))
  }

  /** The ledger is about the live timers, and the queue's own history agrees with it. */
  ghost predicate Agrees(q: Queue, ledger: map<int, int>)
  {
    && (forall id :: id in ledger <==> id in q.inUse)
    && (forall id | id in ledger :: ledger[id] == Deadline(q.log, id))
  }

  lemma EnterAgrees(m: Moment, v: Move, ledger: map<int, int>)
    requires Sound(m) && CanMove(m, v) && Agrees(m.q, ledger)
    ensures Agrees(After(m, v).q, Enter(m, v, ledger))
  {
    hide Inv, Insert, Deadline, Agrees;
    match v
    case Acts(a) => ActAgrees(m.q, a, ledger);
    case Calls => BeginAgrees(m.q, m.place.now, ledger);
    case Skips =>
      HeadAlone(m.q);
      BeginKeeps(m.q, m.place.now);
      BeginAgrees(m.q, m.place.now, ledger);
      FreeAgrees(Begin(m.q, m.place.now), ledger);
    case Returns(delay) =>
      HeadAlone(m.q);
      if delay <= 0 { FreeAgrees(m.q, ledger); } else { RearmAgrees(m.q, delay, ledger); }
    case PassStarts(now) => SameHistory(m.q, Gather(m.q, now), ledger);
    case PassEnds =>
  }

  lemma SameHistory(q: Queue, r: Queue, ledger: map<int, int>)
    requires Agrees(q, ledger) && r.log == q.log && r.inUse == q.inUse
    ensures Agrees(r, ledger)
  {
  }

  lemma ActAgrees(q: Queue, a: Action, ledger: map<int, int>)
    requires Inv(q) && Agrees(q, ledger)
    ensures Agrees(Act(q, a), if a.Add? then ledger[q.nextId + 1 := a.when] else ledger)
  {
    hide Recorded, OnTime, Owned, Deadline;
    match a
    case Add(when, _) => forall id { DeadlineAppend(q.log, Added(q.nextId + 1, when), id); }
    case Cancel(x) => forall id { DeadlineAppend(q.log, Cancelled(x), id); }
  }

  lemma BeginAgrees(q: Queue, now: int, ledger: map<int, int>)
    requires Inv(q) && q.expired != [] && q.expired[0].timer in q.heap && Agrees(q, ledger)
    ensures Agrees(Begin(q, now), ledger)
  {
    hide Inv, Deadline;
    forall id { DeadlineAppend(q.log, Begin(q, now).log[|q.log|], id); }
  }

  lemma FreeAgrees(q: Queue, ledger: map<int, int>)
    requires Inv(q) && q.expired != [] && q.expired[0].timer in q.heap && Agrees(q, ledger)
    ensures Agrees(Free(q), ledger - {HeadId(q)})
  {
    hide Inv, Deadline;
    forall id { DeadlineAppend(q.log, Freed(HeadId(q)), id); }
  }

  lemma RearmAgrees(q: Queue, delay: int, ledger: map<int, int>)
    requires Inv(q) && q.expired != [] && q.expired[0].timer in q.heap && Agrees(q, ledger)
    ensures HeadId(q) in ledger && Agrees(Rearm(q, delay), ledger[HeadId(q) := ledger[HeadId(q)] + delay])
  {
    HeadInUse(q);
    hide Inv, Deadline, Insert;
    forall id { DeadlineAppend(q.log, Rearmed(HeadId(q), delay), id); }
  }

  lemma HeadInUse(q: Queue)
    requires Inv(q) && q.expired != []
    ensures HeadId(q) in q.inUse
  {
    HeadAlone(q);
    hide Recorded, OnTime, Owned;
  }

  lemma {:induction false} LedgerAgrees(m: Moment, moves: seq<Move>, end: Moment, ledger: map<int, int>)
    requires Reaches(m, moves, end) && Agrees(m.q, ledger)
    ensures Agrees(end.q, Ledger(m, moves, end, ledger))
    decreases |moves|
  {
    hide Agrees, Sound, CanMove, After, Enter;
    if moves != [] {
      EnterAgrees(m, moves[0], ledger);
      LedgerAgrees(After(m, moves[0]), moves[1..], end, Enter(m, moves[0], ledger));
    }
  }

  /** At every moment of every run each timer stands in `timers_` or in the batch with the deadline that
      the moves give it: the first one plus the positive delays its callback has returned. */
  lemma DeadlinesAreKept(moves: seq<Move>, m: Moment, e: Entry)
    requires Reaches(DAWN, moves, m) && (e in m.q.timers || e in m.q.expired)
    ensures e.timer in m.q.heap
    ensures var id, ledger := Abs(m.q.heap[e.timer]), Ledger(DAWN, moves, m, map[]);
            id in ledger && ledger[id] == e.when
  {
    ReachesSound(DAWN, moves, m);
    LedgerAgrees(DAWN, moves, m, map[]);
    hide Reaches, Recorded, Owned, Deadline;
  }

  // ---------------------------------------------------------------- passes are made of such moments

  lemma {:induction false} ActionsConcat(q: Queue, a: seq<Action>, b: seq<Action>)
    requires Inv(q)
    ensures Actions(q, a + b) == Actions(Actions(q, a), b)
    decreases |a|
  {
    hide Inv, Act, Keeps;
    if a == [] {
      assert a + b == b;
    } else {
      assert (a + b)[1..] == a[1..] + b;
      ActIndexed(q);
      ActKeeps(q, a[0]);
      ActionsConcat(Act(q, a[0]), a[1..], b);
    }
  }

  lemma {:induction false} ActionsAreMoves(q: Queue, place: Place, actions: seq<Action>) returns (moves: seq<Move>)
    requires Sound(Moment(q, place)) && !place.BetweenTurns?
    ensures Reaches(Moment(q, place), moves, Moment(Actions(q, actions), place))
    decreases |actions|
  {
    if actions == [] {
      moves := [];
    } else {
      var m := Moment(q, place);
      OneMove(m, Acts(actions[0]));
      assert After(m, Acts(actions[0])).place == place;
      hide Reaches, Inv;
      moves := ActionsAreMoves(After(m, Acts(actions[0])).q, place, actions[1..]);
      ReachesTrans(m, [Acts(actions[0])], After(m, Acts(actions[0])), moves, Moment(Actions(q, actions), place));
      moves := [Acts(actions[0])] + moves;
    }
  }

  /** A callback may be stopped between any two of its actions: what has been reached there is a moment
      of the run, and the rest of the turn follows from it. */
  lemma InsideCallback(q: Queue, now: int, before: seq<Action>, after: seq<Action>, delay: int)
    returns (moves: seq<Move>, more: seq<Move>)
    requires Inv(q) && q.expired != [] && HeadLives(q)
    ensures Inv(Begin(q, now))
    ensures var inside := Moment(Actions(Begin(q, now), before), InCallback(now));
            && Reaches(Moment(q, BetweenTurns(now)), moves, inside)
            && Reaches(inside, more, Moment(Turn(q, now, Script(before + after, delay)), BetweenTurns(now)))
  {
    hide Reaches, Inv;
    var start := Moment(q, BetweenTurns(now));
    var end := Moment(Turn(q, now, Script(before + after, delay)), BetweenTurns(now));
    BeginKeeps(q, now);
    var b := Begin(q, now);
    var inside := Moment(Actions(b, before), InCallback(now));
    var last := Moment(Actions(b, before + after), InCallback(now));
    OneMove(start, Calls);
    var first := ActionsAreMoves(b, InCallback(now), before);
    ReachesTrans(start, [Calls], Moment(b, InCallback(now)), first, inside);
    moves := [Calls] + first;
    ActionsConcat(b, before, after);
    var second := ActionsAreMoves(inside.q, InCallback(now), after);
    OneMove(last, Returns(delay));
    ReachesTrans(inside, second, last, [Returns(delay)], end);
    more := second + [Returns(delay)];
  }

  lemma TurnIsMoves(q: Queue, now: int, s: Script) returns (moves: seq<Move>)
    requires Inv(q) && q.expired != []
    ensures Reaches(Moment(q, BetweenTurns(now)), moves, Moment(Turn(q, now, s), BetweenTurns(now)))
  {
    hide Reaches, Inv;
    var start, end := Moment(q, BetweenTurns(now)), Moment(Turn(q, now, s), BetweenTurns(now));
    if HeadLives(q) {
      var more;
      moves, more := InsideCallback(q, now, [], s.actions, s.delay);
      assert [] + s.actions == s.actions;
      ReachesTrans(start, moves, Moment(Actions(Begin(q, now), []), InCallback(now)), more, end);
      moves := moves + more;
    } else {
      HeadAlone(q);
      OneMove(start, Skips);
      moves := [Skips];
    }
  }

  lemma {:induction false} PassIsMoves(q: Queue, now: int, env: nat -> Script) returns (moves: seq<Move>)
    requires Inv(q)
    ensures Reaches(Moment(q, BetweenTurns(now)), moves, Moment(Pass(q, now, env), BetweenTurns(now)))
    decreases |q.expired|
  {
    if q.expired == [] {
      moves := [];
    } else {
      hide Reaches, Inv, Turn;
      var t := Turn(q, now, env(|q.log|));
      moves := TurnIsMoves(q, now, env(|q.log|));
      var more := PassIsMoves(t, now, env);
      ReachesTrans(Moment(q, BetweenTurns(now)), moves, Moment(t, BetweenTurns(now)), more,
                   Moment(Pass(q, now, env), BetweenTurns(now)));
      moves := moves + more;
    }
  }

  lemma StepIsMoves(q: Queue, op: Op) returns (moves: seq<Move>)
    requires Inv(q) && q.expired == []
    ensures Reaches(Moment(q, Outside), moves, Moment(Step(q, op), Outside))
  {
    hide Reaches, Inv, Pass;
    var start, end := Moment(q, Outside), Moment(Step(q, op), Outside);
    match op
    case Do(a) =>
      OneMove(start, Acts(a));
      moves := [Acts(a)];
    case Expire(now, env) =>
      GatherKeeps(q, now);
      OneMove(start, PassStarts(now));
      moves := PassIsMoves(Gather(q, now), now, env);
      var done := Moment(Pass(Gather(q, now), now, env), BetweenTurns(now));
      ReachesTrans(start, [PassStarts(now)], Moment(Gather(q, now), BetweenTurns(now)), moves, done);
      OneMove(done, PassEnds);
      ReachesTrans(start, [PassStarts(now)] + moves, done, [PassEnds], end);
      moves := [PassStarts(now)] + moves + [PassEnds];
  }

  /** Every run of operations passes through such moments only. */
  lemma {:induction false} RunIsMoves(q: Queue, ops: seq<Op>) returns (moves: seq<Move>)
    requires Inv(q) && q.expired == []
    ensures Reaches(Moment(q, Outside), moves, Moment(Run(q, ops), Outside))
    decreases |ops|
  {
    if ops == [] {
      moves := [];
    } else {
      hide Reaches, Inv, Step;
      var t := Step(q, ops[0]);
      moves := StepIsMoves(q, ops[0]);
      var more := RunIsMoves(t, ops[1..]);
      ReachesTrans(Moment(q, Outside), moves, Moment(t, Outside), more, Moment(Run(q, ops), Outside));
      moves := moves + more;
    }
  }
}
