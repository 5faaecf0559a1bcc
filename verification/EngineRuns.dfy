/** What whole stretches of a run do: the race an operator loses, the reasons of refusals, and
    AddCall and OnEndCall as their steps. */
module EngineRuns {
  import opened Calls
  import opened TimerQueue
  import opened Engine
  import opened EngineInvariant
  import opened EngineSteps
  import opened EngineTheorems

  // ---------------------------------------------------------------------------------------
  // What may happen at any time

  /** Before a failure any number may call, any pending timer may expire and any queued handler may
      run, whatever the operator thread and the sessions do. */
  lemma OutsideWorldIsFree(s: State)
    requires !s.fault
    ensures forall cgPn :: Enabled(s, Create(cgPn))
    ensures forall slot: nat | slot < |s.queue.timers| && s.queue.timers[slot].Armed? :: Enabled(s, ExpireSlot(slot))
    ensures forall h | h in s.queue.ready :: Enabled(s, Reset(h))
    ensures forall op: nat | op < |s.opTimers| && s.opTimers[op].Talking? :: Enabled(s, ExpireOperator(op))
    ensures forall h | h in s.endReady :: Enabled(s, EndCall(h))
    ensures forall c | c in s.sessions && s.sessions[c].BeforePush? :: Enabled(s, PushCall(c))
    ensures s.run.WaitOperator? && s.freeOps != [] ==> Enabled(s, OperatorSeen)
    ensures s.run.WaitCall? && s.queue.calls != [] ==> Enabled(s, CallSeen)
  {
  }

  // ---------------------------------------------------------------------------------------
  // The lost race

  predicate OfOperatorThread(l: Label) {
    l.OperatorSeen? || l.CallSeen? || l.PopStep? || l.TakeStep? || l.ArmStep?
  }

  /** The operator thread takes none of these steps. */
  ghost predicate OthersOnly(labels: seq<Label>) {
    forall i | 0 <= i < |labels| :: !OfOperatorThread(labels[i])
  }

  /** What the other threads leave to the operator thread: its position, the calls it has popped,
      the operators it gave them, and the free operators, to which more are added at the back. */
  ghost predicate Undisturbed(s: State, s': State) {
    && s'.run == s.run && s.freeOps <= s'.freeOps && s'.operatorId == s.operatorId
    && s'.hist.popped == s.hist.popped && s.hist.accepted <= s'.hist.accepted
    && TalkingIds(s') <= TalkingIds(s)
  }

  lemma OtherStep(s: State, l: Label)
    requires Enabled(s, l) && !OfOperatorThread(l)
    ensures Undisturbed(s, Next(s, l))
  {
    hide Undisturbed, Next;
    match l
    case Create(cgPn) => SessionStep(s, l);
    case PushCall(c) => PushUndisturbing(s, c);
    case RefusedCdr(c) => SessionStep(s, l);
    case ExpireSlot(slot) => QueueStep(s, l);
    case Reset(h) => QueueStep(s, l);
    case ExpireOperator(op) => ExpiryUndisturbing(s, op);
    case EndCall(h) => EndUndisturbing(s, h);
    case EndCdr(c) => SessionStep(s, l);
  }

  lemma SessionStep(s: State, l: Label)
    requires Enabled(s, l) && (l.Create? || l.RefusedCdr? || l.EndCdr?)
    ensures Undisturbed(s, Next(s, l))
  {
    hide TalkingIds;
    TalkShrinks(s, Next(s, l));
  }

  lemma PushUndisturbing(s: State, c: nat)
    requires Enabled(s, PushCall(c))
    ensures Undisturbed(s, Next(s, PushCall(c)))
  {
    hide TalkingIds, Push;
    TalkShrinks(s, Next(s, PushCall(c)));
  }

  lemma QueueStep(s: State, l: Label)
    requires Enabled(s, l) && (l.ExpireSlot? || l.Reset?)
    ensures Undisturbed(s, Next(s, l))
  {
    hide TalkingIds, RunHandler, Expire;
    TalkShrinks(s, Next(s, l));
  }

  lemma ExpiryUndisturbing(s: State, op: nat)
    requires Enabled(s, ExpireOperator(op))
    ensures Undisturbed(s, Next(s, ExpireOperator(op)))
  {
    TalkExpiresTo(s, op);
    hide TalkingIds;
  }

  lemma EndUndisturbing(s: State, h: EndHandler<nat>)
    requires Enabled(s, EndCall(h))
    ensures Undisturbed(s, Next(s, EndCall(h)))
  {
    hide TalkingIds;
    TalkShrinks(s, Next(s, EndCall(h)));
  }

  lemma TalkShrinks(s: State, s': State)
    requires s'.opTimers == s.opTimers && s'.endReady <= s.endReady
    ensures TalkingIds(s') <= TalkingIds(s)
  {
    forall h | h in s'.endReady ensures h.call in QueuedIds(s.endReady) {
      assert h in s.endReady;
    }
  }

  lemma TalkExpiresTo(s: State, op: nat)
    requires Enabled(s, ExpireOperator(op))
    ensures TalkingIds(Next(s, ExpireOperator(op))) <= TalkingIds(s)
  {
    var s' := Next(s, ExpireOperator(op));
    forall h | h in s'.endReady ensures h.call in TalkingIds(s) {
      if h !in s.endReady {
        assert s.opTimers[op].call == h.call;
      }
    }
    forall o | 0 <= o < |s'.opTimers| && s'.opTimers[o].Talking? ensures s'.opTimers[o].call in TalkingIds(s) {
      assert s'.opTimers[o] == s.opTimers[o];
    }
  }

  lemma {:induction false} OtherSteps(s: State, labels: seq<Label>)
    requires IsRun(s, labels) && OthersOnly(labels)
    ensures Undisturbed(s, After(s, labels))
    decreases |labels|
  {
    hide Enabled, Next, TalkingIds;
    if labels == [] {
    } else {
      OtherStep(s, labels[0]);
      OtherSteps(Next(s, labels[0]), labels[1..]);
    }
  }

  /** The operator thread has seen a waiting call, and other threads empty the queue before it
      pops.  Then it goes back to waiting: it keeps its operators, in order, gives none away and
      starts no conversation; and every call it had seen waiting is recorded as timed out. */
  lemma LostRaceIsHarmless(capacity: nat, operators: nat, s: State, others: seq<Label>)
    requires Reachable(capacity, operators, s) && s.run.PopCall?
    requires IsRun(s, others) && OthersOnly(others)
    requires !After(s, others).fault && After(s, others).queue.calls == []
    ensures Enabled(After(s, others), PopStep)
    ensures var s' := Next(After(s, others), PopStep);
            && !s'.fault && s'.run == WaitOperator && s.freeOps <= s'.freeOps && s.freeOps != []
            && s'.operatorId == s.operatorId && s'.hist.popped == s.hist.popped
            && TalkingIds(s') <= TalkingIds(s)
            && WaitingIds(s) <= RecordedIds(s', {TIMEOUT})
  {
    hide Reachable, Inv, IsRun, After, TalkingIds, Next, RecordedIds;
    ReachableInv(capacity, operators, s);
    RunKeeps(s, others);
    OtherSteps(s, others);
    FreeAtPop(s);
    SeenCallsTimedOut(s, After(s, others));
    RaceLost(After(s, others));
  }

  lemma FreeAtPop(s: State)
    requires Inv(s) && s.run.PopCall?
    ensures s.freeOps != []
  {
    hide Valid, IdsInv, SessionsInv, WaitingInv, HeldInv, TalkInv, CompletingInv;
    hide CdrInv, AcceptedInv, PoppedInv, TimedOutInv, OrderInv;
  }

  lemma RaceLost(m: State)
    requires !m.fault && m.run.PopCall? && m.queue.calls == []
    ensures Enabled(m, PopStep) && Next(m, PopStep) == m.(run := WaitOperator)
    ensures TalkingIds(Next(m, PopStep)) == TalkingIds(m)
    ensures RecordedIds(Next(m, PopStep), {TIMEOUT}) == RecordedIds(m, {TIMEOUT})
  {
  }

  lemma SeenCallsTimedOut(s: State, m: State)
    requires Inv(s) && Inv(m) && Undisturbed(s, m) && m.queue.calls == []
    ensures WaitingIds(s) <= RecordedIds(m, {TIMEOUT})
  {
    hide Valid, IdsInv, SessionsInv, HeldInv, TalkInv, PoolInv, CompletingInv, OrderInv, TimedOutInv;
    forall i | 0 <= i < |s.queue.calls| ensures s.queue.calls[i].call in RecordedIds(m, {TIMEOUT}) {
      SeenCallTimedOut(s, m, i);
    }
  }

  lemma SeenCallTimedOut(s: State, m: State, i: nat)
    requires WaitingInv(s.queue.calls, s.hist.phase) && AcceptedInv(s.hist.accepted, s.hist.phase)
    requires PoppedInv(s.hist.popped, s.hist.phase)
    requires WaitingInv(m.queue.calls, m.hist.phase) && AcceptedInv(m.hist.accepted, m.hist.phase)
    requires PoppedInv(m.hist.popped, m.hist.phase) && CdrInv(m.cdr, m.hist.phase)
    requires s.hist.accepted <= m.hist.accepted && m.hist.popped == s.hist.popped && m.queue.calls == []
    requires i < |s.queue.calls|
    ensures s.queue.calls[i].call in RecordedIds(m, {TIMEOUT})
  {
    var c := s.queue.calls[i].call;
    assert OnList(s.hist.accepted, c) && !OnList(s.hist.popped, c);
    var k :| 0 <= k < |s.hist.accepted| && s.hist.accepted[k].call == c;
    assert m.hist.accepted[k].call == c;
    assert m.hist.phase[c] == Recorded(TIMEOUT);
    assert InLog(m.cdr, CdrRecord(c, TIMEOUT));
  }

  /** The race can be lost: A times out between the second wait of Run and pop. */
  lemma LostRaceExample(A: string)
    ensures var labels := [Create(A), PushCall(100), OperatorSeen, CallSeen, ExpireSlot(0),
                           Reset(Handler(false, A, 0)), PopStep];
            && IsRun(Init(1, 1), labels)
            && var s := After(Init(1, 1), labels);
            && !s.fault && s.run == WaitOperator && s.freeOps == [0] && s.queue.calls == []
            && s.cdr == [CdrRecord(100, TIMEOUT)]
  {
    hide Enabled, Next, IsRun, After, FirstWaits;
    var s0 := Init(1, 1);
    var a, b := [Create(A), PushCall(100)], [OperatorSeen, CallSeen, ExpireSlot(0)];
    var c := [Reset(Handler(false, A, 0)), PopStep];
    FirstCallWaits(A);
    FirstCallExpires(After(s0, a), A);
    RunAppend(s0, a, b);
    TimedOutBeforePop(After(s0, a + b), A);
    RunAppend(s0, a + b, c);
    assert a + b + c == [Create(A), PushCall(100), OperatorSeen, CallSeen, ExpireSlot(0),
                         Reset(Handler(false, A, 0)), PopStep];
  }

  lemma TimedOutBeforePop(s: State, A: string)
    requires ExpiredBeforePop(s, A)
    ensures var labels := [Reset(Handler(false, A, 0)), PopStep];
            && IsRun(s, labels)
            && var s' := After(s, labels);
            && !s'.fault && s'.run == WaitOperator && s'.freeOps == s.freeOps && s'.queue.calls == []
            && s'.cdr == s.cdr + [CdrRecord(100, TIMEOUT)]
  {
    var late := Handler(false, A, 0);
    assert late in s.queue.ready && IndexOf(s.queue.calls, 0) == 0;
    var s1 := Next(s, Reset(late));
    assert s1.queue.calls == [];
    RunOne(s1, PopStep, []);
    RunOne(s, Reset(late), [PopStep]);
    assert [Reset(late)] + [PopStep] == [Reset(late), PopStep];
  }

  // ---------------------------------------------------------------------------------------
  // Refusals

  /** What a push of c would find: its number waiting, or no room for a number that is not. */
  ghost predicate Finds(s: State, c: nat, status: RespStatus) {
    && c in s.sessions && s.sessions[c].BeforePush?
    && match status
       case ALREADY_IN_QUEUE => IsWaiting(s.queue, s.sessions[c].cgPn)
       case OVERLOAD => !IsWaiting(s.queue, s.sessions[c].cgPn) && |s.queue.calls| == s.queue.capacity
       case _ => false
  }

  /** In the run labels, c is pushed in a state where it finds that. */
  ghost predicate RefusedBy(s: State, labels: seq<Label>, c: nat, status: RespStatus)
    requires IsRun(s, labels)
    decreases |labels|
  {
    labels != []
    && ((labels[0] == PushCall(c) && Finds(s, c, status))
        || RefusedBy(Next(s, labels[0]), labels[1..], c, status))
  }

  /** c has been refused with this status, and its record is written or still to come. */
  ghost predicate IsRefused(s: State, c: nat, status: RespStatus) {
    InLog(s.cdr, CdrRecord(c, status)) || (c in s.sessions && s.sessions[c] == BeforeCdr(status))
  }

  lemma PushFinds(s: State, c: nat, status: RespStatus)
    requires Inv(s) && Enabled(s, PushCall(c)) && status in REFUSALS
    ensures Finds(s, c, status) <==> Push(s.queue, s.sessions[c].cgPn, c).Pushed?
                                     && Push(s.queue, s.sessions[c].cgPn, c).status == status
  {
    hide SessionsInv, WaitingInv, HeldInv, TalkInv, PoolInv, CompletingInv, IdsInv;
    hide CdrInv, AcceptedInv, PoppedInv, TimedOutInv, OrderInv, TimeoutsLive, HandlersKnown, Owned;
    PushValid(s.queue, s.sessions[c].cgPn, c);
    assert KeysAreWaiting(s.queue) && SlotsPartition(s.queue);
    assert IsWaiting(s.queue, s.sessions[c].cgPn) <==> s.sessions[c].cgPn in s.queue.pos;
  }

  lemma LogGrows(cdr: seq<CdrRecord<nat>>, r: CdrRecord<nat>, q: CdrRecord<nat>)
    ensures InLog(cdr + [r], q) <==> InLog(cdr, q) || q == r
  {
    if InLog(cdr, q) {
      var i :| 0 <= i < |cdr| && cdr[i] == q;
      assert (cdr + [r])[i] == q;
    }
    if q == r {
      assert (cdr + [r])[|cdr|] == q;
    }
  }

  /** One step refuses a call exactly when it is a push that finds the reason. */
  lemma StepRefuses(s: State, l: Label, c: nat, status: RespStatus)
    requires Inv(s) && Enabled(s, l) && status in REFUSALS
    ensures IsRefused(Next(s, l), c, status) <==> IsRefused(s, c, status) || (l == PushCall(c) && Finds(s, c, status))
  {
    hide IsRefused, Finds, Valid, HeldInv, TalkInv, PoolInv, CompletingInv;
    hide WaitingInv, CdrInv, AcceptedInv, PoppedInv, TimedOutInv, OrderInv;
    if l.PushCall? {
      PushRefuses(s, l.call, c, status);
    } else if l.RefusedCdr? {
      RecordRefuses(s, l.call, c, status);
    } else if l.Create? {
      CreateRefuses(s, l.cgPn, c, status);
    } else {
      OtherRefuses(s, l, c, status);
    }
  }

  lemma PushRefuses(s: State, d: nat, c: nat, status: RespStatus)
    requires Inv(s) && Enabled(s, PushCall(d)) && status in REFUSALS
    ensures IsRefused(Next(s, PushCall(d)), c, status) <==> IsRefused(s, c, status) || (d == c && Finds(s, c, status))
  {
    hide Inv, InLog, Finds, Push;
    PushFinds(s, d, status);
    PushNoFault(s, d);
  }

  lemma PushNoFault(s: State, d: nat)
    requires Inv(s) && Enabled(s, PushCall(d))
    ensures Push(s.queue, s.sessions[d].cgPn, d).Pushed?
  {
    PushValid(s.queue, s.sessions[d].cgPn, d);
  }

  lemma RecordRefuses(s: State, d: nat, c: nat, status: RespStatus)
    requires Enabled(s, RefusedCdr(d))
    ensures IsRefused(Next(s, RefusedCdr(d)), c, status) <==> IsRefused(s, c, status)
  {
    LogGrows(s.cdr, CdrRecord(d, s.sessions[d].status), CdrRecord(c, status));
    hide InLog;
  }

  lemma CreateRefuses(s: State, cgPn: string, c: nat, status: RespStatus)
    requires Enabled(s, Create(cgPn)) && IdsInv(s.nextCallId, s.hist.phase) && SessionsInv(s.sessions, s.hist.phase)
    ensures IsRefused(Next(s, Create(cgPn)), c, status) <==> IsRefused(s, c, status)
  {
    hide InLog;
    FreshSession(s);
  }

  /** Every other step leaves the sessions alone and logs neither refusal. */
  lemma OtherRefuses(s: State, l: Label, c: nat, status: RespStatus)
    requires Enabled(s, l) && !l.PushCall? && !l.RefusedCdr? && !l.Create? && status in REFUSALS
    ensures IsRefused(Next(s, l), c, status) <==> IsRefused(s, c, status)
  {
    if l.EndCdr? {
      LogGrows(s.cdr, CdrRecord(l.call, OK), CdrRecord(c, status));
      hide InLog;
    } else if l.Reset? {
      ResetRefuses(s, l.h, c, status);
    } else {
      hide Next;
      SessionsKept(s, l);
    }
  }

  lemma ResetRefuses(s: State, h: Handler, c: nat, status: RespStatus)
    requires Enabled(s, Reset(h)) && status in REFUSALS
    ensures IsRefused(Next(s, Reset(h)), c, status) <==> IsRefused(s, c, status)
  {
    hide InLog, RunHandler;
    var r := RunHandler(s.queue, h);
    if r.TimedOut? {
      LogGrows(s.cdr, CdrRecord(r.node.call, TIMEOUT), CdrRecord(c, status));
    }
  }

  lemma SessionsKept(s: State, l: Label)
    requires Enabled(s, l) && (OfOperatorThread(l) || l.ExpireSlot? || l.ExpireOperator? || l.EndCall?)
    ensures Next(s, l).cdr == s.cdr && Next(s, l).sessions == s.sessions
  {
    if l.PopStep? {
      PopKeepsSessions(s, Pop(s.queue));
      hide Pop, AfterPop;
    } else if l.ArmStep? {
      ArmKeepsSessions(s, s.run.call, s.run.op);
      hide AfterArm;
    } else {
      hide Pop, AfterPop, AfterArm, Expire;
    }
  }

  lemma PopKeepsSessions(s: State, r: PopResult<nat>)
    ensures AfterPop(s, r).cdr == s.cdr && AfterPop(s, r).sessions == s.sessions
  {
  }

  lemma ArmKeepsSessions(s: State, call: nat, op: nat)
    ensures AfterArm(s, call, op).cdr == s.cdr && AfterArm(s, call, op).sessions == s.sessions
  {
  }

  lemma FreshSession(s: State)
    requires IdsInv(s.nextCallId, s.hist.phase) && SessionsInv(s.sessions, s.hist.phase)
    ensures s.nextCallId !in s.sessions
  {
  }

  lemma {:induction false} RunRefuses(s: State, labels: seq<Label>, c: nat, status: RespStatus)
    requires Inv(s) && IsRun(s, labels) && status in REFUSALS
    ensures IsRefused(After(s, labels), c, status) <==> IsRefused(s, c, status) || RefusedBy(s, labels, c, status)
    decreases |labels|
  {
    hide Inv, Enabled, Next, IsRefused, Finds;
    if labels == [] {
    } else {
      StepKeeps(s, labels[0]);
      StepRefuses(s, labels[0], c, status);
      RunRefuses(Next(s, labels[0]), labels[1..], c, status);
    }
  }

  /** A record says OVERLOAD exactly when the push of its call found the queue full and the number
      not waiting, and ALREADY_IN_QUEUE exactly when it found the number waiting. */
  lemma RefusalsAreJustified(capacity: nat, operators: nat, labels: seq<Label>, i: nat)
    requires IsRun(Init(capacity, operators), labels)
    requires i < |After(Init(capacity, operators), labels).cdr|
    ensures var r := After(Init(capacity, operators), labels).cdr[i];
            forall status | status in REFUSALS ::
              r.status == status <==> RefusedBy(Init(capacity, operators), labels, r.call, status)
  {
    NothingRefusedYet(capacity, operators);
    hide Init, IsRun, After, RefusedBy, IsRefused, CdrInv, SessionsInv, Valid, IdsInv, WaitingInv, HeldInv, TalkInv;
    hide PoolInv, CompletingInv, AcceptedInv, PoppedInv, TimedOutInv, OrderInv;
    var s0 := Init(capacity, operators);
    var s := After(s0, labels);
    InitInv(capacity, operators);
    RunKeeps(s0, labels);
    var c := s.cdr[i].call;
    RunRefuses(s0, labels, c, OVERLOAD);
    RunRefuses(s0, labels, c, ALREADY_IN_QUEUE);
    RecordIsRefusal(s, i, OVERLOAD);
    RecordIsRefusal(s, i, ALREADY_IN_QUEUE);
  }

  lemma NothingRefusedYet(capacity: nat, operators: nat)
    ensures forall c, status :: !IsRefused(Init(capacity, operators), c, status)
  {
  }

  lemma RecordIsRefusal(s: State, i: nat, status: RespStatus)
    requires CdrInv(s.cdr, s.hist.phase) && SessionsInv(s.sessions, s.hist.phase) && i < |s.cdr|
    ensures s.cdr[i].status == status <==> IsRefused(s, s.cdr[i].call, status)
  {
  }

  // ---------------------------------------------------------------------------------------
  // AddCall and OnEndCall as steps

  /** AddCall, run without interruption, is its three steps: the effect that the method of the
      class promises, part by part. */
  lemma AddCallIsThreeSteps(capacity: nat, operators: nat, s: State)
    requires Reachable(capacity, operators, s) && !s.fault && s.run.PopCall?
    ensures s.queue.calls == [] ==>
              IsRun(s, [PopStep]) && After(s, [PopStep]) == s.(run := WaitOperator)
    ensures s.queue.calls != [] ==>
              && s.freeOps != [] && s.freeOps[0] < |s.opTimers| && Pop(s.queue).Popped?
              && IsRun(s, [PopStep, TakeStep, ArmStep])
              && var s', call, op := After(s, [PopStep, TakeStep, ArmStep]), s.queue.calls[0].call, s.freeOps[0];
              && !s'.fault && s'.run == WaitOperator
              && s'.queue == Pop(s.queue).q && OperatorOf(s', call) == op
              && s'.freeOps == s.freeOps[1..] && s'.opTimers == s.opTimers[op := Talking(call)]
              && s'.endReady == s.endReady && s'.cdr == s.cdr && s'.sessions == s.sessions
  {
    ReachableInv(capacity, operators, s);
    hide Reachable;
    if s.queue.calls == [] {
      RunOne(s, PopStep, []);
      assert [PopStep] + [] == [PopStep];
    } else {
      ThreeSteps(s);
    }
  }

  lemma ThreeSteps(s: State)
    requires Inv(s) && !s.fault && s.run.PopCall? && s.queue.calls != []
    ensures s.freeOps != [] && s.freeOps[0] < |s.opTimers| && Pop(s.queue).Popped?
    ensures IsRun(s, [PopStep, TakeStep, ArmStep])
    ensures var s', call, op := After(s, [PopStep, TakeStep, ArmStep]), s.queue.calls[0].call, s.freeOps[0];
            && !s'.fault && s'.run == WaitOperator
            && s'.queue == Pop(s.queue).q && OperatorOf(s', call) == op
            && s'.freeOps == s.freeOps[1..] && s'.opTimers == s.opTimers[op := Talking(call)]
            && s'.endReady == s.endReady && s'.cdr == s.cdr && s'.sessions == s.sessions
  {
    hide Inv, Pop, IsRun, After, Next, Enabled;
    FirstStep(s);
    var s1 := Next(s, PopStep);
    RestOfAddCall(s1);
    RunOne(s, PopStep, [TakeStep, ArmStep]);
    assert [PopStep] + [TakeStep, ArmStep] == [PopStep, TakeStep, ArmStep];
  }

  lemma FirstStep(s: State)
    requires Inv(s) && !s.fault && s.run.PopCall? && s.queue.calls != []
    ensures Enabled(s, PopStep) && Pop(s.queue).Popped?
    ensures var s1 := Next(s, PopStep);
            && Inv(s1) && !s1.fault && s1.run == TakeOperator(s.queue.calls[0].call) && s1.queue == Pop(s.queue).q
            && s1.freeOps == s.freeOps && s1.opTimers == s.opTimers && s1.endReady == s.endReady
            && s1.cdr == s.cdr && s1.sessions == s.sessions
  {
    hide Valid, IdsInv, SessionsInv, WaitingInv, HeldInv, TalkInv, PoolInv, CompletingInv, Pop;
    hide CdrInv, AcceptedInv, PoppedInv, TimedOutInv, OrderInv;
    PopsFirst(s);
    PopStepKeeps(s);
    hide Inv;
  }

  lemma RestOfAddCall(s: State)
    requires Inv(s) && !s.fault && s.run.TakeOperator?
    ensures s.freeOps != [] && s.freeOps[0] < |s.opTimers| && IsRun(s, [TakeStep, ArmStep])
    ensures var s', call, op := After(s, [TakeStep, ArmStep]), s.run.call, s.freeOps[0];
            && !s'.fault && s'.run == WaitOperator && s'.queue == s.queue && OperatorOf(s', call) == op
            && s'.freeOps == s.freeOps[1..] && s'.opTimers == s.opTimers[op := Talking(call)]
            && s'.endReady == s.endReady && s'.cdr == s.cdr && s'.sessions == s.sessions
  {
    hide Inv, AfterArm, Busy;
    TakesFirst(s);
    TakeKeeps(s);
    var s1 := Next(s, TakeStep);
    ArmedQuiet(s1);
    ArmQuiet(s1, s1.run.call, s1.run.op);
    RunOne(s1, ArmStep, []);
    RunOne(s, TakeStep, [ArmStep]);
    assert [TakeStep] + [ArmStep] == [TakeStep, ArmStep];
  }

  lemma TakesFirst(s: State)
    requires Inv(s) && s.run.TakeOperator?
    ensures s.freeOps != []
  {
    hide Valid, IdsInv, SessionsInv, WaitingInv, HeldInv, TalkInv, CompletingInv;
    hide CdrInv, AcceptedInv, PoppedInv, TimedOutInv, OrderInv;
  }

  lemma PopsFirst(s: State)
    requires Valid(s.queue) && s.queue.calls != []
    ensures Pop(s.queue).Popped? && Pop(s.queue).node == s.queue.calls[0]
  {
    PopValid(s.queue);
  }

  /** The same for OnEndCall, which is two steps when its wait was not aborted. */
  lemma OnEndCallIsTwoSteps(s: State, h: EndHandler<nat>)
    requires Enabled(s, EndCall(h)) && !h.aborted
    ensures IsRun(s, [EndCall(h), EndCdr(h.call)])
    ensures var s' := After(s, [EndCall(h), EndCdr(h.call)]);
            && s'.freeOps == s.freeOps + [OperatorOf(s, h.call)] && s'.cdr == s.cdr + [CdrRecord(h.call, OK)]
            && s'.endReady == s.endReady - multiset{h} && s'.completing == s.completing
            && s'.operatorId == s.operatorId && s'.opTimers == s.opTimers && s'.queue == s.queue
  {
    var s1 := Next(s, EndCall(h));
    RunOne(s1, EndCdr(h.call), []);
    RunOne(s, EndCall(h), [EndCdr(h.call)]);
    assert [EndCall(h)] + [EndCdr(h.call)] == [EndCall(h), EndCdr(h.call)];
  }
}
