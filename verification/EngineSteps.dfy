/** Every step keeps the invariant. */
module EngineSteps {
  import opened Calls
  import opened TimerQueue
  import opened Engine
  import opened EngineInvariant

  // ---------------------------------------------------------------------------------------
  // Lists, order

  lemma WaitingAdd(calls: seq<Node<nat>>, phase: Phases, n: Node<nat>)
    requires WaitingInv(calls, phase) && n.call in phase && phase[n.call] != Waiting
    ensures WaitingInv(calls + [n], phase[n.call := Waiting])
  {
    var calls', phase' := calls + [n], phase[n.call := Waiting];
    forall c | c in phase' && phase'[c] == Waiting ensures OnList(calls', c) {
      if c == n.call {
        assert calls'[|calls|].call == c;
      } else {
        assert OnList(calls, c);
        var i :| 0 <= i < |calls| && calls[i].call == c;
        assert calls'[i].call == c;
      }
    }
  }

  lemma WaitingRemove(calls: seq<Node<nat>>, phase: Phases, i: nat, p: Phase)
    requires WaitingInv(calls, phase) && i < |calls| && p != Waiting
    ensures WaitingInv(RemoveAt(calls, i), phase[calls[i].call := p])
  {
    var calls', phase' := RemoveAt(calls, i), phase[calls[i].call := p];
    forall j | 0 <= j < |calls'|
      ensures calls'[j] == calls[if j < i then j else j + 1]
    {
    }
    forall c | c in phase' && phase'[c] == Waiting ensures OnList(calls', c) {
      assert OnList(calls, c);
      var k :| 0 <= k < |calls| && calls[k].call == c;
      assert calls'[if k < i then k else k - 1].call == c;
    }
  }

  lemma AcceptedAdd(accepted: seq<Node<nat>>, phase: Phases, n: Node<nat>, p: Phase)
    requires AcceptedInv(accepted, phase) && n.call in phase && !WasAccepted(phase[n.call]) && WasAccepted(p)
    ensures AcceptedInv(accepted + [n], phase[n.call := p])
  {
    var accepted', phase' := accepted + [n], phase[n.call := p];
    forall c | c in phase' && WasAccepted(phase'[c]) ensures OnList(accepted', c) {
      if c == n.call {
        assert accepted'[|accepted|].call == c;
      } else {
        assert OnList(accepted, c);
        var i :| 0 <= i < |accepted| && accepted[i].call == c;
        assert accepted'[i].call == c;
      }
    }
  }

  lemma PoppedAdd(popped: seq<Node<nat>>, phase: Phases, n: Node<nat>, p: Phase)
    requires PoppedInv(popped, phase) && n.call in phase && WasPopped(p)
    ensures PoppedInv(popped + [n], phase[n.call := p])
  {
    var popped', phase' := popped + [n], phase[n.call := p];
    forall c | c in phase' && WasPopped(phase'[c]) ensures OnList(popped', c) {
      if c == n.call {
        assert popped'[|popped|].call == c;
      } else {
        assert OnList(popped, c);
        var i :| 0 <= i < |popped| && popped[i].call == c;
        assert popped'[i].call == c;
      }
    }
  }

  lemma WithoutAppend(s: seq<Node<nat>>, t: seq<Node<nat>>, out: set<nat>)
    ensures Without(s + t, out) == Without(s, out) + Without(t, out)
  {
    if s == [] {
      assert s + t == t;
    } else {
      assert (s + t)[1..] == s[1..] + t;
      WithoutAppend(s[1..], t, out);
    }
  }

  lemma WithoutTwice(s: seq<Node<nat>>, out: set<nat>, more: set<nat>)
    ensures Without(Without(s, out), more) == Without(s, out + more)
  {
    if s == [] {
    } else {
      WithoutTwice(s[1..], out, more);
      var head := if s[0].call in out then [] else [s[0]];
      WithoutAppend(head, Without(s[1..], out), more);
    }
  }

  lemma WithoutNone(s: seq<Node<nat>>, c: nat)
    requires forall i | 0 <= i < |s| :: s[i].call != c
    ensures Without(s, {c}) == s
  {
    if s == [] {
    } else {
      WithoutNone(s[1..], c);
    }
  }

  lemma WithoutOne(before: seq<Node<nat>>, n: Node<nat>, after: seq<Node<nat>>)
    requires forall j | 0 <= j < |before| :: before[j].call != n.call
    requires forall j | 0 <= j < |after| :: after[j].call != n.call
    ensures Without(before + ([n] + after), {n.call}) == before + after
  {
    WithoutAppend(before, [n] + after, {n.call});
    WithoutNone(before, n.call);
    WithoutHead(n, after);
  }

  lemma WithoutHead(n: Node<nat>, after: seq<Node<nat>>)
    requires forall j | 0 <= j < |after| :: after[j].call != n.call
    ensures Without([n] + after, {n.call}) == after
  {
    WithoutNone(after, n.call);
    assert ([n] + after)[1..] == after;
  }

  lemma OrderAccept(accepted: seq<Node<nat>>, popped: seq<Node<nat>>, timedOut: set<nat>,
                    calls: seq<Node<nat>>, n: Node<nat>)
    requires OrderInv(accepted, popped, timedOut, calls) && n.call !in timedOut
    ensures OrderInv(accepted + [n], popped, timedOut, calls + [n])
  {
    WithoutAppend(accepted, [n], timedOut);
    assert popped + (calls + [n]) == popped + calls + [n];
  }

  lemma OrderPop(accepted: seq<Node<nat>>, popped: seq<Node<nat>>, timedOut: set<nat>, calls: seq<Node<nat>>)
    requires OrderInv(accepted, popped, timedOut, calls) && calls != []
    ensures OrderInv(accepted, popped + [calls[0]], timedOut, calls[1..])
  {
    assert popped + [calls[0]] + calls[1..] == popped + calls;
  }

  lemma OrderTimeout(accepted: seq<Node<nat>>, popped: seq<Node<nat>>, timedOut: set<nat>,
                     calls: seq<Node<nat>>, i: nat)
    requires OrderInv(accepted, popped, timedOut, calls) && i < |calls|
    requires forall j | 0 <= j < |calls| && j != i :: calls[j].call != calls[i].call
    requires forall j | 0 <= j < |popped| :: popped[j].call != calls[i].call
    ensures OrderInv(accepted, popped, timedOut + {calls[i].call}, RemoveAt(calls, i))
  {
    var n := calls[i];
    WithoutTwice(accepted, timedOut, {n.call});
    assert popped + calls == (popped + calls[..i]) + ([n] + calls[i + 1..]);
    WithoutOne(popped + calls[..i], n, calls[i + 1..]);
    assert popped + calls[..i] + calls[i + 1..] == popped + RemoveAt(calls, i);
  }

  // ---------------------------------------------------------------------------------------
  // Operators and conversations

  lemma TalkStart(opTimers: seq<OpTimer<nat>>, endReady: multiset<EndHandler<nat>>, operatorId: map<nat, nat>,
                  phase: Phases, c: nat, op: nat)
    requires TalkInv(opTimers, endReady, operatorId, phase)
    requires op < |opTimers| && !Busy(phase, op) && c in phase && !phase[c].InTalk?
    ensures opTimers[op] == Quiet
    ensures TalkInv(opTimers[op := Talking(c)], endReady, operatorId[c := op], phase[c := InTalk(op)])
  {
    assert forall d | d in phase && phase[d].InTalk? :: phase[d].op != op by {
      forall d | d in phase && phase[d].InTalk? ensures phase[d].op != op {
        assert phase[d] == InTalk(phase[d].op);
      }
    }
    TalkStartOneCall(phase, c, op);
    TalkStartHandlers(opTimers, endReady, phase, c, op);
    TalkStartCalls(opTimers, endReady, operatorId, phase, c, op);
  }

  ghost predicate NobodyOn(phase: Phases, op: nat) {
    forall d | d in phase && phase[d].InTalk? :: phase[d].op != op
  }

  lemma TalkStartOneCall(phase: Phases, c: nat, op: nat)
    requires OneCallEach(phase) && NobodyOn(phase, op)
    ensures OneCallEach(phase[c := InTalk(op)])
  {
  }

  lemma TalkStartHandlers(opTimers: seq<OpTimer<nat>>, endReady: multiset<EndHandler<nat>>,
                          phase: Phases, c: nat, op: nat)
    requires TimersTalk(opTimers, endReady, phase) && HandlersTalk(opTimers, endReady, phase)
    requires op < |opTimers| && NobodyOn(phase, op) && c in phase && !phase[c].InTalk?
    ensures opTimers[op] == Quiet
    ensures TimersTalk(opTimers[op := Talking(c)], endReady, phase[c := InTalk(op)])
    ensures HandlersTalk(opTimers[op := Talking(c)], endReady, phase[c := InTalk(op)])
  {
  }

  lemma TalkStartCalls(opTimers: seq<OpTimer<nat>>, endReady: multiset<EndHandler<nat>>, operatorId: map<nat, nat>,
                       phase: Phases, c: nat, op: nat)
    requires CallsTalk(opTimers, endReady, operatorId, phase)
    requires op < |opTimers| && NobodyOn(phase, op) && c in phase && !phase[c].InTalk?
    ensures CallsTalk(opTimers[op := Talking(c)], endReady, operatorId[c := op], phase[c := InTalk(op)])
  {
  }

  lemma TalkExpire(opTimers: seq<OpTimer<nat>>, endReady: multiset<EndHandler<nat>>, operatorId: map<nat, nat>,
                   phase: Phases, op: nat)
    requires TalkInv(opTimers, endReady, operatorId, phase)
    requires op < |opTimers| && opTimers[op].Talking?
    ensures TalkInv(opTimers[op := Quiet], endReady + multiset{EndHandler(false, opTimers[op].call)}, operatorId, phase)
  {
    var c := opTimers[op].call;
    TalkExpireHandlers(opTimers, endReady, phase, op);
    forall d | d in phase && phase[d].InTalk? && d != c ensures phase[d].op != op {
    }
    TalkExpireCalls(opTimers, endReady, operatorId, phase, op);
  }

  lemma TalkExpireHandlers(opTimers: seq<OpTimer<nat>>, endReady: multiset<EndHandler<nat>>, phase: Phases, op: nat)
    requires TimersTalk(opTimers, endReady, phase) && HandlersTalk(opTimers, endReady, phase)
    requires op < |opTimers| && opTimers[op].Talking?
    ensures var endReady' := endReady + multiset{EndHandler(false, opTimers[op].call)};
            TimersTalk(opTimers[op := Quiet], endReady', phase) && HandlersTalk(opTimers[op := Quiet], endReady', phase)
  {
    var c := opTimers[op].call;
    var endReady' := endReady + multiset{EndHandler(false, c)};
    forall h | h in endReady' && h != EndHandler(false, c) ensures h in endReady && endReady'[h] == endReady[h] {
    }
  }

  lemma TalkExpireCalls(opTimers: seq<OpTimer<nat>>, endReady: multiset<EndHandler<nat>>, operatorId: map<nat, nat>,
                        phase: Phases, op: nat)
    requires CallsTalk(opTimers, endReady, operatorId, phase)
    requires op < |opTimers| && opTimers[op].Talking?
    requires forall d | d in phase && phase[d].InTalk? && d != opTimers[op].call :: phase[d].op != op
    ensures CallsTalk(opTimers[op := Quiet], endReady + multiset{EndHandler(false, opTimers[op].call)}, operatorId,
                      phase)
  {
  }

  lemma TalkEnd(opTimers: seq<OpTimer<nat>>, endReady: multiset<EndHandler<nat>>, operatorId: map<nat, nat>,
                phase: Phases, h: EndHandler<nat>, p: Phase)
    requires TalkInv(opTimers, endReady, operatorId, phase)
    requires h in endReady && !p.InTalk?
    ensures !h.aborted && h.call in operatorId && h.call in phase && phase[h.call] == InTalk(operatorId[h.call])
    ensures TalkInv(opTimers, endReady - multiset{h}, operatorId, phase[h.call := p])
  {
    MoveOneCallEach(phase, h.call, p);
    TalkEndHandlers(opTimers, endReady, phase, h, p);
    TalkEndCalls(opTimers, endReady, operatorId, phase, h, p);
  }

  lemma TalkEndHandlers(opTimers: seq<OpTimer<nat>>, endReady: multiset<EndHandler<nat>>, phase: Phases,
                        h: EndHandler<nat>, p: Phase)
    requires TimersTalk(opTimers, endReady, phase) && HandlersTalk(opTimers, endReady, phase) && h in endReady
    ensures var endReady' := endReady - multiset{h};
            && TimersTalk(opTimers, endReady', phase[h.call := p])
            && HandlersTalk(opTimers, endReady', phase[h.call := p])
  {
    var endReady' := endReady - multiset{h};
    forall g | g in endReady' ensures g in endReady && g.call != h.call && endReady'[g] == endReady[g] {
    }
  }

  lemma TalkEndCalls(opTimers: seq<OpTimer<nat>>, endReady: multiset<EndHandler<nat>>, operatorId: map<nat, nat>,
                     phase: Phases, h: EndHandler<nat>, p: Phase)
    requires CallsTalk(opTimers, endReady, operatorId, phase) && !p.InTalk?
    ensures CallsTalk(opTimers, endReady - multiset{h}, operatorId, phase[h.call := p])
  {
    var endReady' := endReady - multiset{h};
    forall g | g in endReady && g.call != h.call ensures g in endReady' {
    }
  }

  lemma PoolTake(freeOps: seq<nat>, count: nat, phase: Phases, c: nat)
    requires PoolInv(freeOps, TakeOperator(c), count, phase)
    ensures freeOps != [] && PoolInv(freeOps[1..], ArmTimer(c, freeOps[0]), count, phase)
  {
    var op0 := freeOps[0];
    assert freeOps == [op0] + freeOps[1..];
    forall op: nat | op < count ensures OperatorPlaced(freeOps[1..], ArmTimer(c, op0), phase, op) {
      assert OperatorPlaced(freeOps, TakeOperator(c), phase, op);
    }
    assert !Busy(phase, op0);
  }

  lemma PoolArm(freeOps: seq<nat>, count: nat, phase: Phases, c: nat, op: nat)
    requires PoolInv(freeOps, ArmTimer(c, op), count, phase) && c in phase && !phase[c].InTalk?
    ensures PoolInv(freeOps, WaitOperator, count, phase[c := InTalk(op)])
  {
    var phase' := phase[c := InTalk(op)];
    forall o: nat | o < count ensures OperatorPlaced(freeOps, WaitOperator, phase', o) {
      assert OperatorPlaced(freeOps, ArmTimer(c, op), phase, o);
      if o == op {
        assert phase'[c] == InTalk(o);
      } else if Busy(phase, o) {
        var d :| d in phase && phase[d] == InTalk(o);
        assert phase'[d] == InTalk(o);
      }
    }
  }

  lemma PoolEnd(freeOps: seq<nat>, run: RunPc, count: nat, phase: Phases, c: nat, p: Phase)
    requires PoolInv(freeOps, run, count, phase) && !p.InTalk?
    requires c in phase && phase[c].InTalk? && phase[c].op < count
    requires forall d | d in phase && phase[d].InTalk? && d != c :: phase[d].op != phase[c].op
    ensures PoolInv(freeOps + [phase[c].op], run, count, phase[c := p])
  {
    var op, phase' := phase[c].op, phase[c := p];
    assert Busy(phase, op);
    forall o: nat | o < count ensures OperatorPlaced(freeOps + [op], run, phase', o) {
      assert OperatorPlaced(freeOps, run, phase, o);
      if o == op {
        assert (freeOps + [op])[|freeOps|] == o;
      } else if o in freeOps {
        assert o in freeOps + [op];
      } else if Busy(phase, o) {
        var d :| d in phase && phase[d] == InTalk(o);
        assert phase'[d] == InTalk(o);
      }
    }
  }

  lemma PoolRun(freeOps: seq<nat>, run: RunPc, run': RunPc, count: nat, phase: Phases)
    requires PoolInv(freeOps, run, count, phase) && !run.ArmTimer? && !run'.ArmTimer?
    requires freeOps != [] || run'.WaitOperator?
    ensures PoolInv(freeOps, run', count, phase)
  {
    forall op: nat | op < count ensures OperatorPlaced(freeOps, run', phase, op) {
      assert OperatorPlaced(freeOps, run, phase, op);
    }
  }

  // ---------------------------------------------------------------------------------------
  // Steps

  lemma IdsNext(c: nat, phase: Phases)
    requires IdsInv(c, phase)
    ensures c !in phase && IdsInv(c + 1, phase[c := Created])
  {
  }

  lemma CreateKeeps(s: State, cgPn: string)
    requires Inv(s) && Enabled(s, Create(cgPn))
    ensures Inv(Next(s, Create(cgPn)))
  {
    hide IdsInv, SessionsInv, WaitingInv, HeldInv, TalkInv, PoolInv, CompletingInv, Valid;
    hide CdrInv, AcceptedInv, PoppedInv, TimedOutInv, OrderInv;
    var c, phase := s.nextCallId, s.hist.phase;
    IdsNext(c, phase);
    SessionsSet(s.sessions, phase, c, BeforePush(cgPn));
    MoveWaiting(s.queue.calls, phase, c, Created);
    MoveHeld(s.run, phase, c, Created);
    MoveTalk(s.opTimers, s.endReady, s.operatorId, phase, c, Created);
    MovePool(s.freeOps, s.run, |s.opTimers|, phase, c, Created);
    MoveCompleting(s.completing, phase, c, Created);
    MoveCdr(s.cdr, phase, c, Created);
    MoveAccepted(s.hist.accepted, phase, c, Created);
    MovePopped(s.hist.popped, phase, c, Created);
    MoveTimedOut(s.hist.timedOut, phase, c, Created);
  }

  lemma SessionsSet(sessions: map<nat, SessionPc>, phase: Phases, c: nat, pc: SessionPc)
    requires SessionsInv(sessions, phase)
    requires pc.BeforeCdr? ==> pc.status in {OVERLOAD, ALREADY_IN_QUEUE}
    ensures SessionsInv(sessions[c := pc], phase[c := SessionPhase(pc)])
  {
  }

  lemma SessionsLeave(sessions: map<nat, SessionPc>, phase: Phases, c: nat, p: Phase)
    requires SessionsInv(sessions, phase) && c in sessions && !OfSession(p)
    ensures c in phase && phase[c] == SessionPhase(sessions[c])
    ensures sessions[c].BeforeCdr? ==> sessions[c].status == OVERLOAD || sessions[c].status == ALREADY_IN_QUEUE
    ensures SessionsInv(sessions - {c}, phase[c := p])
  {
  }

  lemma PushKeeps(s: State, c: nat)
    requires Inv(s) && Enabled(s, PushCall(c))
    ensures Inv(Next(s, PushCall(c)))
    ensures !Next(s, PushCall(c)).fault
  {
    hide Valid, IdsInv, SessionsInv, WaitingInv, HeldInv, TalkInv, PoolInv, CompletingInv;
    hide CdrInv, AcceptedInv, PoppedInv, TimedOutInv, OrderInv;
    var cgPn, phase := s.sessions[c].cgPn, s.hist.phase;
    PushValid(s.queue, cgPn, c);
    PushCases(s.queue, cgPn, c);
    SessionsLeave(s.sessions, phase, c, Waiting);
    var r := Push(s.queue, cgPn, c);
    if r.status == OK {
      AcceptKeeps(s, c, r.q);
    } else {
      RefuseKeeps(s, c, r.status);
    }
  }

  lemma PushCases(q: Queue<nat>, cgPn: string, c: nat)
    requires Push(q, cgPn, c).Pushed?
    ensures var r := Push(q, cgPn, c);
            if r.status == OK then r.q.calls == q.calls + [Node(q.nextIter, cgPn, c)]
            else r.q == q && (r.status == OVERLOAD || r.status == ALREADY_IN_QUEUE)
  {
  }

  lemma AcceptKeeps(s: State, c: nat, q: Queue<nat>)
    requires Inv(s) && Valid(q) && c in s.sessions && s.sessions[c].BeforePush?
    requires c in s.hist.phase && s.hist.phase[c] == Created
    requires q.calls == s.queue.calls + [Node(s.queue.nextIter, s.sessions[c].cgPn, c)]
    ensures Inv(AfterPush(s, c, Pushed(q, OK)))
  {
    hide Valid, IdsInv, SessionsInv, WaitingInv, HeldInv, TalkInv, PoolInv, CompletingInv;
    hide CdrInv, AcceptedInv, PoppedInv, TimedOutInv, OrderInv;
    var n, phase := Node(s.queue.nextIter, s.sessions[c].cgPn, c), s.hist.phase;
    MoveAll(s, c, Waiting);
    SessionsLeave(s.sessions, phase, c, Waiting);
    WaitingAdd(s.queue.calls, phase, n);
    AcceptedAdd(s.hist.accepted, phase, n, Waiting);
    NotTimedOut(s.hist.timedOut, phase, c);
    OrderAccept(s.hist.accepted, s.hist.popped, s.hist.timedOut, s.queue.calls, n);
  }

  lemma NotTimedOut(timedOut: set<nat>, phase: Phases, c: nat)
    requires TimedOutInv(timedOut, phase) && c in phase && phase[c] != Recorded(TIMEOUT)
    ensures c !in timedOut
  {
  }

  lemma RefuseKeeps(s: State, c: nat, status: RespStatus)
    requires Inv(s) && c in s.sessions && s.sessions[c].BeforePush?
    requires c in s.hist.phase && s.hist.phase[c] == Created
    requires status == OVERLOAD || status == ALREADY_IN_QUEUE
    ensures Inv(AfterPush(s, c, Pushed(s.queue, status)))
  {
    hide Valid, IdsInv, SessionsInv, WaitingInv, HeldInv, TalkInv, PoolInv, CompletingInv;
    hide CdrInv, AcceptedInv, PoppedInv, TimedOutInv, OrderInv;
    MoveAll(s, c, Refused(status));
    SessionsSet(s.sessions, s.hist.phase, c, BeforeCdr(status));
  }

  lemma RefusedCdrKeeps(s: State, c: nat)
    requires Inv(s) && Enabled(s, RefusedCdr(c))
    ensures Inv(Next(s, RefusedCdr(c)))
  {
    hide Valid, IdsInv, SessionsInv, WaitingInv, HeldInv, TalkInv, PoolInv, CompletingInv;
    hide CdrInv, AcceptedInv, PoppedInv, TimedOutInv, OrderInv;
    var p, phase := Recorded(s.sessions[c].status), s.hist.phase;
    SessionsLeave(s.sessions, phase, c, p);
    MoveAll(s, c, p);
    RecordCdr(s.cdr, phase, c, p.status);
  }

  lemma ExpireSlotKeeps(s: State, slot: nat)
    requires Inv(s) && Enabled(s, ExpireSlot(slot))
    ensures Inv(Next(s, ExpireSlot(slot)))
  {
    hide Valid, IdsInv, SessionsInv, WaitingInv, HeldInv, TalkInv, PoolInv, CompletingInv;
    hide CdrInv, AcceptedInv, PoppedInv, TimedOutInv, OrderInv;
    ExpireValid(s.queue, slot);
  }

  lemma TimedOutAdd(timedOut: set<nat>, phase: Phases, c: nat)
    requires TimedOutInv(timedOut, phase)
    ensures TimedOutInv(timedOut + {c}, phase[c := Recorded(TIMEOUT)])
  {
  }

  lemma ResetKeeps(s: State, h: Handler)
    requires Inv(s) && Enabled(s, Reset(h))
    ensures Inv(Next(s, Reset(h)))
    ensures Next(s, Reset(h)).fault <==> IsStale(s.queue, h)
  {
    hide Valid, IdsInv, SessionsInv, WaitingInv, HeldInv, TalkInv, PoolInv, CompletingInv;
    hide CdrInv, AcceptedInv, PoppedInv, TimedOutInv, OrderInv;
    RunHandlerValid(s.queue, h);
    var r := RunHandler(s.queue, h);
    if r.TimedOut? {
      TimeoutKeeps(s, IndexOf(s.queue.calls, h.iter), r.q);
    }
  }

  lemma TimeoutKeeps(s: State, i: nat, q: Queue<nat>)
    requires Inv(s) && Valid(q) && i < |s.queue.calls| && q.calls == RemoveAt(s.queue.calls, i)
    ensures Inv(AfterReset(s, TimedOut(q, s.queue.calls[i])))
  {
    hide Valid, IdsInv, SessionsInv, WaitingInv, HeldInv, TalkInv, PoolInv, CompletingInv;
    hide CdrInv, AcceptedInv, PoppedInv, TimedOutInv, OrderInv;
    var c, phase, p := s.queue.calls[i].call, s.hist.phase, Recorded(TIMEOUT);
    WaitingMember(s.queue.calls, phase, i);
    WaitingNotPopped(s.queue.calls, s.hist.popped, phase, i);
    MoveAll(s, c, p);
    WaitingRemove(s.queue.calls, phase, i, p);
    RecordCdr(s.cdr, phase, c, TIMEOUT);
    TimedOutAdd(s.hist.timedOut, phase, c);
    OrderTimeout(s.hist.accepted, s.hist.popped, s.hist.timedOut, s.queue.calls, i);
  }

  lemma WaitingMember(calls: seq<Node<nat>>, phase: Phases, i: nat)
    requires WaitingInv(calls, phase) && i < |calls|
    ensures calls[i].call in phase && phase[calls[i].call] == Waiting
    ensures forall j | 0 <= j < |calls| && j != i :: calls[j].call != calls[i].call
  {
  }

  lemma WaitingNotPopped(calls: seq<Node<nat>>, popped: seq<Node<nat>>, phase: Phases, i: nat)
    requires WaitingInv(calls, phase) && PoppedInv(popped, phase) && i < |calls|
    ensures forall j | 0 <= j < |popped| :: popped[j].call != calls[i].call
  {
  }

  lemma PoolHasFree(freeOps: seq<nat>, run: RunPc, count: nat, phase: Phases)
    requires PoolInv(freeOps, run, count, phase)
    ensures run.WaitCall? || run.PopCall? || run.TakeOperator? ==> freeOps != []
    ensures run.ArmTimer? ==> run.op < count && !Busy(phase, run.op)
  {
  }

  lemma HeldSame(run: RunPc, run': RunPc, phase: Phases)
    requires HeldInv(run, phase)
    requires forall c :: Holds(run, c) <==> Holds(run', c)
    ensures HeldInv(run', phase)
  {
    if run'.TakeOperator? || run'.ArmTimer? {
      assert Holds(run, run'.call);
    }
  }

  lemma WaitsKeep(s: State, l: Label)
    requires Inv(s) && Enabled(s, l) && (l.OperatorSeen? || l.CallSeen?)
    ensures Inv(Next(s, l))
  {
    hide Valid, IdsInv, SessionsInv, WaitingInv, HeldInv, TalkInv, PoolInv, CompletingInv;
    hide CdrInv, AcceptedInv, PoppedInv, TimedOutInv, OrderInv;
    var run := if l.OperatorSeen? then WaitCall else PopCall;
    PoolHasFree(s.freeOps, s.run, |s.opTimers|, s.hist.phase);
    PoolRun(s.freeOps, s.run, run, |s.opTimers|, s.hist.phase);
    HeldSame(s.run, run, s.hist.phase);
  }

  lemma HeldEnter(run: RunPc, phase: Phases, c: nat)
    requires HeldInv(run, phase) && run.PopCall?
    ensures HeldInv(TakeOperator(c), phase[c := Held])
  {
  }

  lemma HeldLeave(run: RunPc, phase: Phases, p: Phase)
    requires HeldInv(run, phase) && run.ArmTimer? && p != Held
    ensures run.call in phase && phase[run.call] == Held
    ensures HeldInv(WaitOperator, phase[run.call := p])
  {
  }

  lemma PopStepKeeps(s: State)
    requires Inv(s) && Enabled(s, PopStep)
    ensures Inv(Next(s, PopStep))
    ensures !Next(s, PopStep).fault
  {
    hide Valid, IdsInv, SessionsInv, WaitingInv, HeldInv, TalkInv, PoolInv, CompletingInv;
    hide CdrInv, AcceptedInv, PoppedInv, TimedOutInv, OrderInv;
    PopValid(s.queue);
    var r := Pop(s.queue);
    if r.NothingToPop? {
      PoolRun(s.freeOps, s.run, WaitOperator, |s.opTimers|, s.hist.phase);
      HeldSame(s.run, WaitOperator, s.hist.phase);
    } else {
      PoppedKeeps(s, r.q);
    }
  }

  lemma PoppedKeeps(s: State, q: Queue<nat>)
    requires Inv(s) && s.run.PopCall? && Valid(q) && s.queue.calls != [] && q.calls == s.queue.calls[1..]
    ensures Inv(AfterPop(s, Popped(q, s.queue.calls[0])))
  {
    hide Valid, IdsInv, SessionsInv, WaitingInv, HeldInv, TalkInv, PoolInv, CompletingInv;
    hide CdrInv, AcceptedInv, PoppedInv, TimedOutInv, OrderInv;
    var n, phase := s.queue.calls[0], s.hist.phase;
    WaitingMember(s.queue.calls, phase, 0);
    PoolHasFree(s.freeOps, s.run, |s.opTimers|, phase);
    assert q.calls == RemoveAt(s.queue.calls, 0);
    MoveAll(s, n.call, Held);
    WaitingRemove(s.queue.calls, phase, 0, Held);
    HeldEnter(s.run, phase, n.call);
    PoolRun(s.freeOps, s.run, TakeOperator(n.call), |s.opTimers|, phase);
    MovePool(s.freeOps, TakeOperator(n.call), |s.opTimers|, phase, n.call, Held);
    PoppedAdd(s.hist.popped, phase, n, Held);
    OrderPop(s.hist.accepted, s.hist.popped, s.hist.timedOut, s.queue.calls);
  }

  lemma TakeKeeps(s: State)
    requires Inv(s) && Enabled(s, TakeStep)
    ensures Inv(Next(s, TakeStep))
    ensures !Next(s, TakeStep).fault
  {
    hide Valid, IdsInv, SessionsInv, WaitingInv, HeldInv, TalkInv, PoolInv, CompletingInv;
    hide CdrInv, AcceptedInv, PoppedInv, TimedOutInv, OrderInv;
    PoolTake(s.freeOps, |s.opTimers|, s.hist.phase, s.run.call);
    HeldSame(s.run, ArmTimer(s.run.call, s.freeOps[0]), s.hist.phase);
  }

  /** The timer AddCall arms is quiet. */
  lemma ArmedQuiet(s: State)
    requires Inv(s) && s.run.ArmTimer?
    ensures s.run.op < |s.opTimers| && s.opTimers[s.run.op] == Quiet && !Busy(s.hist.phase, s.run.op)
    ensures s.run.call in s.hist.phase && s.hist.phase[s.run.call] == Held
  {
    hide Valid, IdsInv, SessionsInv, WaitingInv, HeldInv, TalkInv, PoolInv, CompletingInv;
    hide CdrInv, AcceptedInv, PoppedInv, TimedOutInv, OrderInv;
    HeldLeave(s.run, s.hist.phase, Completing);
    PoolHasFree(s.freeOps, s.run, |s.opTimers|, s.hist.phase);
    TalkStart(s.opTimers, s.endReady, s.operatorId, s.hist.phase, s.run.call, s.run.op);
  }

  lemma ArmKeeps(s: State)
    requires Inv(s) && Enabled(s, ArmStep)
    ensures Inv(Next(s, ArmStep))
    ensures !Next(s, ArmStep).fault
    ensures Next(s, ArmStep).endReady == s.endReady
  {
    hide AfterArm, Inv, Busy;
    ArmedQuiet(s);
    ArmQuiet(s, s.run.call, s.run.op);
    TalkBegins(s);
  }

  lemma TalkBegins(s: State)
    requires Inv(s) && s.run.ArmTimer? && s.run.op < |s.opTimers| && !Busy(s.hist.phase, s.run.op)
    requires s.run.call in s.hist.phase && s.hist.phase[s.run.call] == Held
    ensures Inv(s.(operatorId := s.operatorId[s.run.call := s.run.op],
                   opTimers := s.opTimers[s.run.op := Talking(s.run.call)],
                   run := WaitOperator, hist := Enter(s, s.run.call, InTalk(s.run.op))))
  {
    hide Valid, IdsInv, SessionsInv, WaitingInv, HeldInv, TalkInv, PoolInv, Busy, CompletingInv;
    hide CdrInv, AcceptedInv, PoppedInv, TimedOutInv, OrderInv;
    var c, op, phase := s.run.call, s.run.op, s.hist.phase;
    HeldLeave(s.run, phase, InTalk(op));
    MoveAll(s, c, InTalk(op));
    TalkStart(s.opTimers, s.endReady, s.operatorId, phase, c, op);
    PoolArm(s.freeOps, |s.opTimers|, phase, c, op);
  }

  lemma ArmQuiet(s: State, c: nat, op: nat)
    requires op < |s.opTimers| && s.opTimers[op] == Quiet
    ensures AfterArm(s, c, op) == s.(operatorId := s.operatorId[c := op], opTimers := s.opTimers[op := Talking(c)],
                                  run := WaitOperator, hist := Enter(s, c, InTalk(op)))
  {
    assert s.endReady + multiset{} == s.endReady;
  }

  lemma ExpireOperatorKeeps(s: State, op: nat)
    requires Inv(s) && Enabled(s, ExpireOperator(op))
    ensures Inv(Next(s, ExpireOperator(op)))
  {
    hide Valid, IdsInv, SessionsInv, WaitingInv, HeldInv, TalkInv, PoolInv, CompletingInv;
    hide CdrInv, AcceptedInv, PoppedInv, TimedOutInv, OrderInv;
    TalkExpire(s.opTimers, s.endReady, s.operatorId, s.hist.phase, op);
  }

  lemma CompletingAdd(completing: multiset<nat>, phase: Phases, c: nat)
    requires CompletingInv(completing, phase) && c in phase && phase[c] != Completing
    ensures CompletingInv(completing + multiset{c}, phase[c := Completing])
  {
    forall d | d in completing + multiset{c} && d != c ensures d in completing {
    }
  }

  lemma CompletingRemove(completing: multiset<nat>, phase: Phases, c: nat, p: Phase)
    requires CompletingInv(completing, phase) && c in completing && p != Completing
    ensures c in phase && phase[c] == Completing
    ensures CompletingInv(completing - multiset{c}, phase[c := p])
  {
    forall d | d in completing - multiset{c} ensures d in completing && d != c {
    }
  }

  /** Every queued end-of-call handler is a success, so the error branch of OnEndCall is never taken. */
  lemma EndCallKeeps(s: State, h: EndHandler<nat>)
    requires Inv(s) && Enabled(s, EndCall(h))
    ensures Inv(Next(s, EndCall(h)))
    ensures !h.aborted
  {
    hide Valid, IdsInv, SessionsInv, WaitingInv, HeldInv, TalkInv, PoolInv, CompletingInv;
    hide CdrInv, AcceptedInv, PoppedInv, TimedOutInv, OrderInv;
    TalkEnd(s.opTimers, s.endReady, s.operatorId, s.hist.phase, h, Completing);
    EndedKeeps(s, h.call);
  }

  /** What a call leaving its conversation keeps, besides TalkInv. */
  lemma EndedKeeps(s: State, c: nat)
    requires Inv(s) && c in s.operatorId && c in s.hist.phase && s.hist.phase[c] == InTalk(s.operatorId[c])
    ensures var s' := s.(freeOps := s.freeOps + [s.operatorId[c]], completing := s.completing + multiset{c},
                         hist := Enter(s, c, Completing));
            && Valid(s'.queue) && IdsInv(s'.nextCallId, s'.hist.phase) && SessionsInv(s'.sessions, s'.hist.phase)
            && WaitingInv(s'.queue.calls, s'.hist.phase) && HeldInv(s'.run, s'.hist.phase)
            && PoolInv(s'.freeOps, s'.run, |s'.opTimers|, s'.hist.phase)
            && CompletingInv(s'.completing, s'.hist.phase) && CdrInv(s'.cdr, s'.hist.phase)
            && AcceptedInv(s'.hist.accepted, s'.hist.phase) && PoppedInv(s'.hist.popped, s'.hist.phase)
            && TimedOutInv(s'.hist.timedOut, s'.hist.phase)
  {
    hide Valid, IdsInv, SessionsInv, WaitingInv, HeldInv, TalkInv, PoolInv, CompletingInv;
    hide CdrInv, AcceptedInv, PoppedInv, TimedOutInv, OrderInv;
    OthersElsewhere(s.opTimers, s.endReady, s.operatorId, s.hist.phase, c);
    PoolEnd(s.freeOps, s.run, |s.opTimers|, s.hist.phase, c, Completing);
    MoveAll(s, c, Completing);
    CompletingAdd(s.completing, s.hist.phase, c);
  }

  lemma OthersElsewhere(opTimers: seq<OpTimer<nat>>, endReady: multiset<EndHandler<nat>>, operatorId: map<nat, nat>,
                        phase: Phases, c: nat)
    requires TalkInv(opTimers, endReady, operatorId, phase)
    requires c in phase && phase[c].InTalk?
    ensures phase[c].op < |opTimers|
    ensures forall d | d in phase && phase[d].InTalk? && d != c :: phase[d].op != phase[c].op
  {
  }

  lemma EndCdrKeeps(s: State, c: nat)
    requires Inv(s) && Enabled(s, EndCdr(c))
    ensures Inv(Next(s, EndCdr(c)))
  {
    hide Valid, IdsInv, SessionsInv, WaitingInv, HeldInv, TalkInv, PoolInv, CompletingInv;
    hide CdrInv, AcceptedInv, PoppedInv, TimedOutInv, OrderInv;
    CompletingRemove(s.completing, s.hist.phase, c, Recorded(OK));
    RecordedKeeps(s, c);
  }

  /** What the last record of a call keeps, besides CompletingInv. */
  lemma RecordedKeeps(s: State, c: nat)
    requires Inv(s) && c in s.hist.phase && s.hist.phase[c] == Completing
    ensures var s' := s.(cdr := s.cdr + [CdrRecord(c, OK)], hist := Enter(s, c, Recorded(OK)));
            && Valid(s'.queue) && IdsInv(s'.nextCallId, s'.hist.phase) && SessionsInv(s'.sessions, s'.hist.phase)
            && WaitingInv(s'.queue.calls, s'.hist.phase) && HeldInv(s'.run, s'.hist.phase)
            && TalkInv(s'.opTimers, s'.endReady, s'.operatorId, s'.hist.phase)
            && PoolInv(s'.freeOps, s'.run, |s'.opTimers|, s'.hist.phase)
            && CdrInv(s'.cdr, s'.hist.phase)
            && AcceptedInv(s'.hist.accepted, s'.hist.phase) && PoppedInv(s'.hist.popped, s'.hist.phase)
            && TimedOutInv(s'.hist.timedOut, s'.hist.phase)
  {
    hide Valid, IdsInv, SessionsInv, WaitingInv, HeldInv, TalkInv, PoolInv, CompletingInv;
    hide CdrInv, AcceptedInv, PoppedInv, TimedOutInv, OrderInv;
    MoveAll(s, c, Recorded(OK));
    RecordCdr(s.cdr, s.hist.phase, c, OK);
  }

  lemma StepKeeps(s: State, l: Label)
    requires Inv(s) && Enabled(s, l)
    ensures Inv(Next(s, l))
  {
    match l
    case Create(cgPn) => CreateKeeps(s, cgPn);
    case PushCall(c) => PushKeeps(s, c);
    case RefusedCdr(c) => RefusedCdrKeeps(s, c);
    case ExpireSlot(slot) => ExpireSlotKeeps(s, slot);
    case Reset(h) => ResetKeeps(s, h);
    case OperatorSeen => WaitsKeep(s, l);
    case CallSeen => WaitsKeep(s, l);
    case PopStep => PopStepKeeps(s);
    case TakeStep => TakeKeeps(s);
    case ArmStep => ArmKeeps(s);
    case ExpireOperator(op) => ExpireOperatorKeeps(s, op);
    case EndCall(h) => EndCallKeeps(s, h);
    case EndCdr(c) => EndCdrKeeps(s, c);
  }
}
