/**
  Once no more calls arrive, the call centre comes to rest with every call recorded.  The clock
  may take any time, but it can always expire a waiting call or a conversation, so no wake-up of a
  sleeping thread is needed for this.
*/
module EngineDrain {
  import opened Calls
  import opened TimerQueue
  import opened Engine
  import opened EngineInvariant
  import opened EngineSteps
  import opened EngineTheorems

  // ---------------------------------------------------------------------------------------
  // Steps still to come, structure by structure

  function ArmedCount(timers: seq<Timer>): nat {
    if timers == [] then 0 else (if timers[0].Armed? then 1 else 0) + ArmedCount(timers[1..])
  }

  lemma {:induction false} ArmedUpdate(timers: seq<Timer>, i: nat, t: Timer)
    requires i < |timers|
    ensures ArmedCount(timers[i := t]) + (if timers[i].Armed? then 1 else 0)
         == ArmedCount(timers) + (if t.Armed? then 1 else 0)
  {
    if i == 0 {
      assert timers[i := t][1..] == timers[1..];
    } else {
      assert timers[i := t][1..] == timers[1..][i - 1 := t];
      ArmedUpdate(timers[1..], i - 1, t);
    }
  }

  function TalkingCount(opTimers: seq<OpTimer<nat>>): nat {
    if opTimers == [] then 0 else (if opTimers[0].Talking? then 1 else 0) + TalkingCount(opTimers[1..])
  }

  lemma {:induction false} TalkingUpdate(opTimers: seq<OpTimer<nat>>, i: nat, t: OpTimer<nat>)
    requires i < |opTimers|
    ensures TalkingCount(opTimers[i := t]) + (if opTimers[i].Talking? then 1 else 0)
         == TalkingCount(opTimers) + (if t.Talking? then 1 else 0)
  {
    if i == 0 {
      assert opTimers[i := t][1..] == opTimers[1..];
    } else {
      assert opTimers[i := t][1..] == opTimers[1..][i - 1 := t];
      TalkingUpdate(opTimers[1..], i - 1, t);
    }
  }

  /** A waiting call can expire and be handled, or be popped and go through a conversation. */
  function QueueRank(q: Queue<nat>): nat {
    8 * |q.calls| + 2 * ArmedCount(q.timers) + |q.ready|
  }

  function Pushing(sessions: map<nat, SessionPc>): set<nat> {
    set c | c in sessions && sessions[c].BeforePush?
  }

  function Refusing(sessions: map<nat, SessionPc>): set<nat> {
    set c | c in sessions && sessions[c].BeforeCdr?
  }

  function SessionsRank(sessions: map<nat, SessionPc>): nat {
    11 * |Pushing(sessions)| + |Refusing(sessions)|
  }

  /** An operator thread that finds the queue empty after all goes back to its first wait. */
  function RunRank(run: RunPc, empty: bool): nat {
    match run
    case WaitOperator => 5
    case WaitCall => 4
    case PopCall => if empty then 6 else 3
    case TakeOperator(_) => 10
    case ArmTimer(_, _) => 9
  }

  function TalkRank(opTimers: seq<OpTimer<nat>>, endReady: multiset<EndHandler<nat>>, completing: multiset<nat>): nat {
    3 * TalkingCount(opTimers) + 2 * |endReady| + |completing|
  }

  function Rank(s: State): nat {
    SessionsRank(s.sessions) + QueueRank(s.queue) + RunRank(s.run, s.queue.calls == [])
    + TalkRank(s.opTimers, s.endReady, s.completing) + if s.fault then 0 else 1
  }

  // ---------------------------------------------------------------------------------------
  // Every step but an arrival brings the rank down

  lemma PushRank(q: Queue<nat>, cgPn: string, call: nat)
    requires Valid(q) && Push(q, cgPn, call).Pushed? && Push(q, cgPn, call).status == OK
    ensures QueueRank(Push(q, cgPn, call).q) == QueueRank(q) + 10
    ensures Push(q, cgPn, call).q.calls != []
  {
    PushLinks(q, cgPn, call);
    var q', slot := Push(q, cgPn, call).q, q.free[0];
    assert q.timers[slot] == Idle;
    hide Push, Valid;
    ArmedUpdate(q.timers, slot, Armed(cgPn, q.nextIter));
  }

  lemma PopRank(q: Queue<nat>)
    requires Valid(q) && q.calls != []
    ensures Pop(q).Popped? && QueueRank(Pop(q).q) <= QueueRank(q) - 8
  {
    PopValid(q);
    var slot := q.pos[q.calls[0].cgPn];
    hide Valid;
    ArmedUpdate(q.timers, slot, Idle);
  }

  lemma ExpireRank(q: Queue<nat>, slot: nat)
    requires slot < |q.timers| && q.timers[slot].Armed?
    ensures QueueRank(Expire(q, slot)) == QueueRank(q) - 1 && Expire(q, slot).calls == q.calls
  {
    ArmedUpdate(q.timers, slot, Idle);
  }

  lemma HandlerRank(q: Queue<nat>, h: Handler)
    requires h in q.ready
    ensures RunHandler(q, h).Ignored? ==>
              QueueRank(RunHandler(q, h).q) == QueueRank(q) - 1 && RunHandler(q, h).q.calls == q.calls
    ensures RunHandler(q, h).TimedOut? ==> QueueRank(RunHandler(q, h).q) == QueueRank(q) - 9
  {
    assert |q.ready - multiset{h}| == |q.ready| - 1;
    hide ArmedCount, IndexOf;
  }

  lemma SessionLeaves(sessions: map<nat, SessionPc>, c: nat)
    requires c in sessions
    ensures SessionsRank(sessions - {c}) == SessionsRank(sessions) - if sessions[c].BeforePush? then 11 else 1
  {
    assert Pushing(sessions - {c}) == Pushing(sessions) - {c};
    assert Refusing(sessions - {c}) == Refusing(sessions) - {c};
  }

  lemma SessionRefused(sessions: map<nat, SessionPc>, c: nat, status: RespStatus)
    requires c in sessions && sessions[c].BeforePush?
    ensures SessionsRank(sessions[c := BeforeCdr(status)]) == SessionsRank(sessions) - 10
  {
    assert Pushing(sessions[c := BeforeCdr(status)]) == Pushing(sessions) - {c};
    assert Refusing(sessions[c := BeforeCdr(status)]) == Refusing(sessions) + {c};
  }

  lemma PushDrains(s: State, c: nat)
    requires Inv(s) && Enabled(s, PushCall(c))
    ensures Rank(Next(s, PushCall(c))) < Rank(s)
  {
    hide SessionsRank, QueueRank, TalkRank, Push, SessionsInv, WaitingInv, HeldInv, TalkInv, PoolInv, CompletingInv;
    hide IdsInv, CdrInv, AcceptedInv, PoppedInv, TimedOutInv, OrderInv, Valid;
    var r := Push(s.queue, s.sessions[c].cgPn, c);
    PushValid(s.queue, s.sessions[c].cgPn, c);
    SessionLeaves(s.sessions, c);
    SessionRefused(s.sessions, c, r.status);
    if r.status == OK {
      PushRank(s.queue, s.sessions[c].cgPn, c);
    } else {
      RefusalKeepsQueue(s.queue, s.sessions[c].cgPn, c);
    }
  }

  lemma RefusalKeepsQueue(q: Queue<nat>, cgPn: string, call: nat)
    requires Push(q, cgPn, call).Pushed? && Push(q, cgPn, call).status != OK
    ensures Push(q, cgPn, call).q == q
  {
  }

  lemma ResetDrains(s: State, h: Handler)
    requires Enabled(s, Reset(h))
    ensures Rank(Next(s, Reset(h))) < Rank(s)
  {
    hide SessionsRank, QueueRank, TalkRank, RunHandler;
    HandlerRank(s.queue, h);
  }

  lemma PopDrains(s: State)
    requires Valid(s.queue) && Enabled(s, PopStep)
    ensures Rank(Next(s, PopStep)) < Rank(s)
  {
    hide SessionsRank, QueueRank, TalkRank, Pop, Valid;
    PopValid(s.queue);
    if s.queue.calls != [] {
      PopRank(s.queue);
    }
  }

  lemma ArmDrains(s: State)
    requires Inv(s) && Enabled(s, ArmStep)
    ensures Rank(Next(s, ArmStep)) < Rank(s)
  {
    hide Inv, SessionsRank, QueueRank, TalkingCount, AfterArm, Busy;
    ArmedQuiet(s);
    ArmQuiet(s, s.run.call, s.run.op);
    TalkingUpdate(s.opTimers, s.run.op, Talking(s.run.call));
  }

  lemma TalkDrains(s: State, l: Label)
    requires Enabled(s, l) && (l.ExpireOperator? || l.EndCall? || l.EndCdr?)
    ensures Rank(Next(s, l)) < Rank(s)
  {
    hide SessionsRank, QueueRank, TalkingCount;
    match l
    case ExpireOperator(op) => TalkingUpdate(s.opTimers, op, Quiet);
    case EndCall(h) => assert |s.endReady - multiset{h}| == |s.endReady| - 1;
    case EndCdr(c) => assert |s.completing - multiset{c}| == |s.completing| - 1;
  }

  lemma WaitsDrain(s: State, l: Label)
    requires Enabled(s, l) && (l.OperatorSeen? || l.CallSeen? || (l.TakeStep? && s.freeOps != []))
    ensures Rank(Next(s, l)) < Rank(s)
  {
    hide SessionsRank, QueueRank, TalkRank;
  }

  lemma StepDrains(s: State, l: Label)
    requires Inv(s) && Enabled(s, l) && !l.Create?
    ensures Rank(Next(s, l)) < Rank(s)
  {
    match l
    case PushCall(c) => PushDrains(s, c);
    case RefusedCdr(c) => RefusalDrains(s, c);
    case ExpireSlot(slot) => ExpiryDrains(s, slot);
    case Reset(h) => ResetDrains(s, h);
    case PopStep => PopDrains(s);
    case TakeStep => TakeDrains(s);
    case ArmStep => ArmDrains(s);
    case OperatorSeen => WaitsDrain(s, l);
    case CallSeen => WaitsDrain(s, l);
    case ExpireOperator(_) => TalkDrains(s, l);
    case EndCall(_) => TalkDrains(s, l);
    case EndCdr(_) => TalkDrains(s, l);
  }

  lemma RefusalDrains(s: State, c: nat)
    requires Enabled(s, RefusedCdr(c))
    ensures Rank(Next(s, RefusedCdr(c))) < Rank(s)
  {
    hide SessionsRank, QueueRank, TalkRank;
    SessionLeaves(s.sessions, c);
  }

  lemma ExpiryDrains(s: State, slot: nat)
    requires Enabled(s, ExpireSlot(slot))
    ensures Rank(Next(s, ExpireSlot(slot))) < Rank(s)
  {
    hide SessionsRank, QueueRank, TalkRank, Expire;
    ExpireRank(s.queue, slot);
  }

  lemma TakeDrains(s: State)
    requires Inv(s) && Enabled(s, TakeStep)
    ensures Rank(Next(s, TakeStep)) < Rank(s)
  {
    hide SessionsRank, QueueRank, TalkRank, Valid, IdsInv, SessionsInv, WaitingInv, HeldInv, TalkInv, CompletingInv;
    hide CdrInv, AcceptedInv, PoppedInv, TimedOutInv, OrderInv;
    WaitsDrain(s, TakeStep);
  }

  // ---------------------------------------------------------------------------------------
  // Something can always be done until everything is

  /** Some step other than an arrival is possible. */
  ghost predicate CanGoOn(s: State) {
    exists l: Label :: Enabled(s, l) && !l.Create?
  }

  /** A waiting call can time out: its timer is pending or its handler queued. */
  lemma WaitingCanExpire(q: Queue<nat>)
    requires Valid(q) && q.calls != []
    ensures (exists slot: nat :: slot < |q.timers| && q.timers[slot].Armed?) || exists h :: h in q.ready
  {
    var n := q.calls[0];
    assert HasLiveTimeout(q, n);
    if q.timers[q.pos[n.cgPn]].Idle? {
      assert Handler(false, n.cgPn, n.iter) in q.ready;
    }
  }

  lemma SomethingToDo(s: State)
    requires Valid(s.queue) && !s.fault && !Quiescent(s)
    ensures CanGoOn(s)
  {
    hide Valid;
    if s.sessions != map[] {
      var c :| c in s.sessions;
      var l := if s.sessions[c].BeforePush? then PushCall(c) else RefusedCdr(c);
      assert Enabled(s, l);
    } else if s.queue.calls != [] {
      WaitingCanExpire(s.queue);
      if slot: nat :| slot < |s.queue.timers| && s.queue.timers[slot].Armed? {
        assert Enabled(s, ExpireSlot(slot));
      } else {
        var h :| h in s.queue.ready;
        assert Enabled(s, Reset(h));
      }
    } else if HeldIds(s) != {} {
      assert Enabled(s, if s.run.TakeOperator? then TakeStep else ArmStep);
    } else if s.completing != multiset{} {
      var c :| c in s.completing;
      assert Enabled(s, EndCdr(c));
    } else {
      TalkCanEnd(s);
    }
  }

  lemma TalkCanEnd(s: State)
    requires !s.fault && TalkingIds(s) != {}
    ensures CanGoOn(s)
  {
    var c :| c in TalkingIds(s);
    if c in ArmedIds(s.opTimers) {
      var op :| 0 <= op < |s.opTimers| && s.opTimers[op].Talking? && s.opTimers[op].call == c;
      assert Enabled(s, ExpireOperator(op));
    } else {
      var h :| h in s.endReady && h.call == c;
      assert Enabled(s, EndCall(h));
    }
  }

  // ---------------------------------------------------------------------------------------
  // After the last arrival

  predicate NoArrivals(labels: seq<Label>) {
    forall i | 0 <= i < |labels| :: !labels[i].Create?
  }

  /** However the threads are scheduled, only finitely many steps are left. */
  lemma {:induction false} DrainBound(s: State, labels: seq<Label>)
    requires Inv(s) && IsRun(s, labels) && NoArrivals(labels)
    ensures |labels| <= Rank(s)
    decreases |labels|
  {
    hide Inv, Rank, Enabled, Next;
    if labels == [] {
    } else {
      StepKeeps(s, labels[0]);
      StepDrains(s, labels[0]);
      DrainBound(Next(s, labels[0]), labels[1..]);
    }
  }

  /** Every call created so far has a record, and no call has two. */
  ghost predicate AllRecordedOnce(s: State) {
    && (forall c: nat :: Issued(s, c) <==> c in RecordedIds(s, {OK, TIMEOUT, OVERLOAD, ALREADY_IN_QUEUE}))
    && (forall i, j | 0 <= i < |s.cdr| && 0 <= j < |s.cdr| && s.cdr[i].call == s.cdr[j].call :: i == j)
  }

  /** From any state a run can reach, once calls stop arriving there are at most Rank steps left,
      and where they end every call ever created has exactly one record; or, if a number was
      accepted again too early, a late handler may have ended the run before. */
  lemma AfterTheLastArrival(capacity: nat, operators: nat, before: seq<Label>, after: seq<Label>)
    requires IsRun(Init(capacity, operators), before)
    requires IsRun(After(Init(capacity, operators), before), after) && NoArrivals(after)
    ensures |after| <= Rank(After(Init(capacity, operators), before))
    ensures var s := After(After(Init(capacity, operators), before), after);
            !s.fault && !CanGoOn(s) ==> AllRecordedOnce(s)
    ensures NeverReusesEarly(Init(capacity, operators), before) ==>
              var s1 := After(Init(capacity, operators), before);
              NeverReusesEarly(s1, after) ==> !After(s1, after).fault
  {
    hide Init, Inv, IsRun, After, Rank, AllRecordedOnce, NoArrivals, CanGoOn, Reachable, NeverReusesEarly, NoneStale;
    var s1 := After(Init(capacity, operators), before);
    InitInv(capacity, operators);
    RunKeeps(Init(capacity, operators), before);
    DrainBound(s1, after);
    RunAppend(Init(capacity, operators), before, after);
    ReachedBy(capacity, operators, before + after);
    RestIsRecorded(capacity, operators, After(s1, after));
    if NeverReusesEarly(Init(capacity, operators), before) && NeverReusesEarly(s1, after) {
      NoEarlyReuseNoFault(capacity, operators, before);
      CarefulRun(s1, after);
    }
  }

  lemma ReachedBy(capacity: nat, operators: nat, labels: seq<Label>)
    requires IsRun(Init(capacity, operators), labels)
    ensures Reachable(capacity, operators, After(Init(capacity, operators), labels))
  {
    hide Init, Enabled, Next;
  }

  lemma RestIsRecorded(capacity: nat, operators: nat, s: State)
    requires Reachable(capacity, operators, s)
    ensures !s.fault && !CanGoOn(s) ==> AllRecordedOnce(s)
  {
    hide CanGoOn, Quiescent, Reachable, Valid, IdsInv, SessionsInv, WaitingInv, HeldInv, TalkInv, PoolInv;
    hide CompletingInv, CdrInv, AcceptedInv, PoppedInv, TimedOutInv, OrderInv, RecordedIds;
    if !s.fault {
      ReachableInv(capacity, operators, s);
      if Quiescent(s) {
        QuiescentAllRecorded(capacity, operators, s);
      } else {
        SomethingToDo(s);
      }
    }
  }
}
