/**
  The invariant of the step system, one predicate per structure, and its preservation by
  every step.  Each predicate reads only the components it is about, so a step that leaves
  them alone keeps it at once; the Move... lemmas say which phase changes a predicate ignores.
*/
module EngineInvariant {
  import opened Calls
  import opened TimerQueue
  import opened Engine

  type Phases = map<nat, Phase>

  // ---------------------------------------------------------------------------------------
  // The predicates

  function SessionPhase(pc: SessionPc): Phase {
    match pc
    case BeforePush(_) => Created
    case BeforeCdr(status) => Refused(status)
  }

  predicate OfSession(p: Phase) { p.Created? || p.Refused? }

  ghost predicate SessionsInv(sessions: map<nat, SessionPc>, phase: Phases) {
    && (forall c | c in sessions ::
          && c in phase && phase[c] == SessionPhase(sessions[c])
          && (sessions[c].BeforeCdr? ==> sessions[c].status in {OVERLOAD, ALREADY_IN_QUEUE}))
    && (forall c | c in phase && OfSession(phase[c]) :: c in sessions)
  }

  ghost predicate OnList(calls: seq<Node<nat>>, c: nat) {
    exists i :: 0 <= i < |calls| && calls[i].call == c
  }

  ghost predicate WaitingInv(calls: seq<Node<nat>>, phase: Phases) {
    && (forall i | 0 <= i < |calls| :: calls[i].call in phase && phase[calls[i].call] == Waiting)
    && (forall i, j | 0 <= i < j < |calls| :: calls[i].call != calls[j].call)
    && (forall c | c in phase && phase[c] == Waiting :: OnList(calls, c))
  }

  predicate Holds(run: RunPc, c: nat) {
    (run.TakeOperator? || run.ArmTimer?) && run.call == c
  }

  ghost predicate HeldInv(run: RunPc, phase: Phases) {
    && (run.TakeOperator? || run.ArmTimer? ==> run.call in phase && phase[run.call] == Held)
    && (forall c | c in phase && phase[c] == Held :: Holds(run, c))
  }

  /** An armed operator timer belongs to the conversation of that operator. */
  ghost predicate TimersTalk(opTimers: seq<OpTimer<nat>>, endReady: multiset<EndHandler<nat>>, phase: Phases) {
    forall op | 0 <= op < |opTimers| && opTimers[op].Talking? ::
      var c := opTimers[op].call;
      c in phase && phase[c] == InTalk(op) && EndHandler(false, c) !in endReady
  }

  /** A queued end-of-call handler is successful, single, and its operator's timer is quiet. */
  ghost predicate HandlersTalk(opTimers: seq<OpTimer<nat>>, endReady: multiset<EndHandler<nat>>, phase: Phases) {
    forall h | h in endReady ::
      && !h.aborted && endReady[h] == 1 && h.call in phase && phase[h.call].InTalk?
      && phase[h.call].op < |opTimers| && opTimers[phase[h.call].op] == Quiet
  }

  /** A conversation has its operator, whose timer is armed for it or has its handler queued. */
  ghost predicate CallsTalk(opTimers: seq<OpTimer<nat>>, endReady: multiset<EndHandler<nat>>,
                            operatorId: map<nat, nat>, phase: Phases) {
    forall c | c in phase && phase[c].InTalk? ::
      && phase[c].op < |opTimers| && c in operatorId && operatorId[c] == phase[c].op
      && (opTimers[phase[c].op] == Talking(c) || EndHandler(false, c) in endReady)
  }

  ghost predicate OneCallEach(phase: Phases) {
    forall c, d | c in phase && d in phase && phase[c].InTalk? && phase[d].InTalk? && c != d ::
      phase[c].op != phase[d].op
  }

  ghost predicate TalkInv(opTimers: seq<OpTimer<nat>>, endReady: multiset<EndHandler<nat>>,
                          operatorId: map<nat, nat>, phase: Phases) {
    && TimersTalk(opTimers, endReady, phase)
    && HandlersTalk(opTimers, endReady, phase)
    && CallsTalk(opTimers, endReady, operatorId, phase)
    && OneCallEach(phase)
  }

  ghost predicate Busy(phase: Phases, op: nat) {
    exists c :: c in phase && phase[c] == InTalk(op)
  }

  ghost predicate OperatorPlaced(freeOps: seq<nat>, run: RunPc, phase: Phases, op: nat) {
    op in freeOps || (run.ArmTimer? && run.op == op) || Busy(phase, op)
  }

  /** Free operators, the one AddCall holds and the talking ones partition 0..count-1. */
  ghost predicate PoolInv(freeOps: seq<nat>, run: RunPc, count: nat, phase: Phases) {
    && (forall i | 0 <= i < |freeOps| :: freeOps[i] < count)
    && (forall i, j | 0 <= i < j < |freeOps| :: freeOps[i] != freeOps[j])
    && (forall c | c in phase && phase[c].InTalk? :: phase[c].op !in freeOps)
    && (run.ArmTimer? ==> run.op < count && run.op !in freeOps && !Busy(phase, run.op))
    && (forall op: nat | op < count :: OperatorPlaced(freeOps, run, phase, op))
    && (run.WaitCall? || run.PopCall? || run.TakeOperator? ==> freeOps != [])
  }

  ghost predicate CompletingInv(completing: multiset<nat>, phase: Phases) {
    && (forall c | c in completing :: completing[c] == 1 && c in phase && phase[c] == Completing)
    && (forall c | c in phase && phase[c] == Completing :: c in completing)
  }

  ghost predicate InLog(cdr: seq<CdrRecord<nat>>, r: CdrRecord<nat>) {
    exists i :: 0 <= i < |cdr| && cdr[i] == r
  }

  ghost predicate CdrInv(cdr: seq<CdrRecord<nat>>, phase: Phases) {
    && (forall i | 0 <= i < |cdr| :: cdr[i].call in phase && phase[cdr[i].call] == Recorded(cdr[i].status))
    && (forall i, j | 0 <= i < j < |cdr| :: cdr[i].call != cdr[j].call)
    && (forall c | c in phase && phase[c].Recorded? :: InLog(cdr, CdrRecord(c, phase[c].status)))
  }

  predicate WasAccepted(p: Phase) {
    p == Waiting || WasPopped(p) || p == Recorded(TIMEOUT)
  }

  predicate WasPopped(p: Phase) {
    p == Held || p.InTalk? || p == Completing || p == Recorded(OK)
  }

  ghost predicate AcceptedInv(accepted: seq<Node<nat>>, phase: Phases) {
    && (forall i | 0 <= i < |accepted| :: accepted[i].call in phase && WasAccepted(phase[accepted[i].call]))
    && (forall i, j | 0 <= i < j < |accepted| :: accepted[i].call != accepted[j].call)
    && (forall c | c in phase && WasAccepted(phase[c]) :: OnList(accepted, c))
  }

  ghost predicate PoppedInv(popped: seq<Node<nat>>, phase: Phases) {
    && (forall i | 0 <= i < |popped| :: popped[i].call in phase && WasPopped(phase[popped[i].call]))
    && (forall c | c in phase && WasPopped(phase[c]) :: OnList(popped, c))
  }

  ghost predicate TimedOutInv(timedOut: set<nat>, phase: Phases) {
    && (forall c | c in timedOut :: c in phase && phase[c] == Recorded(TIMEOUT))
    && (forall c | c in phase && phase[c] == Recorded(TIMEOUT) :: c in timedOut)
  }

  /** The nodes of s whose call is not in out, in order. */
  ghost function Without(s: seq<Node<nat>>, out: set<nat>): seq<Node<nat>> {
    if s == [] then []
    else (if s[0].call in out then [] else [s[0]]) + Without(s[1..], out)
  }

  ghost predicate OrderInv(accepted: seq<Node<nat>>, popped: seq<Node<nat>>, timedOut: set<nat>,
                           calls: seq<Node<nat>>) {
    popped + calls == Without(accepted, timedOut)
  }

  ghost predicate IdsInv(nextCallId: nat, phase: Phases) {
    && nextCallId >= FIRST_CALL_ID
    && forall c :: c in phase <==> FIRST_CALL_ID <= c < nextCallId
  }

  ghost predicate Inv(s: State) {
    && Valid(s.queue)
    && IdsInv(s.nextCallId, s.hist.phase)
    && SessionsInv(s.sessions, s.hist.phase)
    && WaitingInv(s.queue.calls, s.hist.phase)
    && HeldInv(s.run, s.hist.phase)
    && TalkInv(s.opTimers, s.endReady, s.operatorId, s.hist.phase)
    && PoolInv(s.freeOps, s.run, |s.opTimers|, s.hist.phase)
    && CompletingInv(s.completing, s.hist.phase)
    && CdrInv(s.cdr, s.hist.phase)
    && AcceptedInv(s.hist.accepted, s.hist.phase)
    && PoppedInv(s.hist.popped, s.hist.phase)
    && TimedOutInv(s.hist.timedOut, s.hist.phase)
    && OrderInv(s.hist.accepted, s.hist.popped, s.hist.timedOut, s.queue.calls)
  }

  // ---------------------------------------------------------------------------------------
  // Phase changes a predicate does not see

  lemma MoveSessions(sessions: map<nat, SessionPc>, phase: Phases, c: nat, p: Phase)
    requires SessionsInv(sessions, phase) && !OfSession(p)
    requires c in phase && !OfSession(phase[c])
    ensures SessionsInv(sessions, phase[c := p])
  {
  }

  lemma MoveWaiting(calls: seq<Node<nat>>, phase: Phases, c: nat, p: Phase)
    requires WaitingInv(calls, phase) && p != Waiting
    requires c in phase ==> phase[c] != Waiting
    ensures WaitingInv(calls, phase[c := p])
  {
  }

  lemma MoveHeld(run: RunPc, phase: Phases, c: nat, p: Phase)
    requires HeldInv(run, phase) && p != Held
    requires c in phase ==> phase[c] != Held
    ensures HeldInv(run, phase[c := p])
  {
  }

  lemma MoveOneCallEach(phase: Phases, c: nat, p: Phase)
    requires OneCallEach(phase) && !p.InTalk?
    ensures OneCallEach(phase[c := p])
  {
  }

  lemma MoveTalkers(opTimers: seq<OpTimer<nat>>, endReady: multiset<EndHandler<nat>>, operatorId: map<nat, nat>,
                    phase: Phases, c: nat, p: Phase)
    requires TimersTalk(opTimers, endReady, phase) && HandlersTalk(opTimers, endReady, phase)
    requires CallsTalk(opTimers, endReady, operatorId, phase) && !p.InTalk?
    requires c in phase ==> !phase[c].InTalk?
    ensures TimersTalk(opTimers, endReady, phase[c := p]) && HandlersTalk(opTimers, endReady, phase[c := p])
    ensures CallsTalk(opTimers, endReady, operatorId, phase[c := p])
  {
  }

  lemma MoveTalk(opTimers: seq<OpTimer<nat>>, endReady: multiset<EndHandler<nat>>, operatorId: map<nat, nat>,
                 phase: Phases, c: nat, p: Phase)
    requires TalkInv(opTimers, endReady, operatorId, phase) && !p.InTalk?
    requires c in phase ==> !phase[c].InTalk?
    ensures TalkInv(opTimers, endReady, operatorId, phase[c := p])
  {
    MoveOneCallEach(phase, c, p);
    MoveTalkers(opTimers, endReady, operatorId, phase, c, p);
  }

  lemma MovePool(freeOps: seq<nat>, run: RunPc, count: nat, phase: Phases, c: nat, p: Phase)
    requires PoolInv(freeOps, run, count, phase) && !p.InTalk?
    requires c in phase ==> !phase[c].InTalk?
    ensures PoolInv(freeOps, run, count, phase[c := p])
  {
    var phase' := phase[c := p];
    forall op: nat | op < count ensures OperatorPlaced(freeOps, run, phase', op) {
      assert OperatorPlaced(freeOps, run, phase, op);
      if Busy(phase, op) {
        var d :| d in phase && phase[d] == InTalk(op);
        assert d in phase' && phase'[d] == InTalk(op);
      }
    }
  }

  lemma MoveCompleting(completing: multiset<nat>, phase: Phases, c: nat, p: Phase)
    requires CompletingInv(completing, phase) && p != Completing
    requires c in phase ==> phase[c] != Completing
    ensures CompletingInv(completing, phase[c := p])
  {
  }

  lemma MoveCdr(cdr: seq<CdrRecord<nat>>, phase: Phases, c: nat, p: Phase)
    requires CdrInv(cdr, phase) && !p.Recorded?
    requires c in phase ==> !phase[c].Recorded?
    ensures CdrInv(cdr, phase[c := p])
  {
  }

  lemma MoveAccepted(accepted: seq<Node<nat>>, phase: Phases, c: nat, p: Phase)
    requires AcceptedInv(accepted, phase)
    requires WasAccepted(p) == (c in phase && WasAccepted(phase[c]))
    ensures AcceptedInv(accepted, phase[c := p])
  {
  }

  lemma MovePopped(popped: seq<Node<nat>>, phase: Phases, c: nat, p: Phase)
    requires PoppedInv(popped, phase)
    requires WasPopped(p) == (c in phase && WasPopped(phase[c]))
    ensures PoppedInv(popped, phase[c := p])
  {
  }

  lemma MoveTimedOut(timedOut: set<nat>, phase: Phases, c: nat, p: Phase)
    requires TimedOutInv(timedOut, phase) && p != Recorded(TIMEOUT)
    requires c in phase ==> phase[c] != Recorded(TIMEOUT)
    ensures TimedOutInv(timedOut, phase[c := p])
  {
  }

  /** Writing the CDR record of a call whose phase was anything but Recorded. */
  lemma RecordCdr(cdr: seq<CdrRecord<nat>>, phase: Phases, c: nat, status: RespStatus)
    requires CdrInv(cdr, phase) && c in phase && !phase[c].Recorded?
    ensures CdrInv(cdr + [CdrRecord(c, status)], phase[c := Recorded(status)])
  {
    var cdr', phase' := cdr + [CdrRecord(c, status)], phase[c := Recorded(status)];
    forall d | d in phase' && phase'[d].Recorded? ensures InLog(cdr', CdrRecord(d, phase'[d].status)) {
      if d == c {
        assert cdr'[|cdr|] == CdrRecord(c, status);
      } else {
        assert InLog(cdr, CdrRecord(d, phase[d].status));
        var i :| 0 <= i < |cdr| && cdr[i] == CdrRecord(d, phase[d].status);
        assert cdr'[i] == cdr[i];
      }
    }
  }

  /** One call changes phase: what every predicate that does not see the change keeps. */
  lemma MoveAll(s: State, c: nat, p: Phase)
    requires Inv(s) && c in s.hist.phase
    ensures var phase, phase' := s.hist.phase, s.hist.phase[c := p];
            && IdsInv(s.nextCallId, phase')
            && (!OfSession(phase[c]) && !OfSession(p) ==> SessionsInv(s.sessions, phase'))
            && (phase[c] != Waiting && p != Waiting ==> WaitingInv(s.queue.calls, phase'))
            && (phase[c] != Held && p != Held ==> HeldInv(s.run, phase'))
            && (!phase[c].InTalk? && !p.InTalk? ==>
                  && TalkInv(s.opTimers, s.endReady, s.operatorId, phase')
                  && PoolInv(s.freeOps, s.run, |s.opTimers|, phase'))
            && (phase[c] != Completing && p != Completing ==> CompletingInv(s.completing, phase'))
            && (!phase[c].Recorded? && !p.Recorded? ==> CdrInv(s.cdr, phase'))
            && (WasAccepted(phase[c]) == WasAccepted(p) ==> AcceptedInv(s.hist.accepted, phase'))
            && (WasPopped(phase[c]) == WasPopped(p) ==> PoppedInv(s.hist.popped, phase'))
            && (phase[c] != Recorded(TIMEOUT) && p != Recorded(TIMEOUT) ==> TimedOutInv(s.hist.timedOut, phase'))
  {
    var phase := s.hist.phase;
    if !OfSession(phase[c]) && !OfSession(p) { MoveSessions(s.sessions, phase, c, p); }
    if phase[c] != Waiting && p != Waiting { MoveWaiting(s.queue.calls, phase, c, p); }
    if phase[c] != Held && p != Held { MoveHeld(s.run, phase, c, p); }
    if !phase[c].InTalk? && !p.InTalk? {
      MoveTalk(s.opTimers, s.endReady, s.operatorId, phase, c, p);
      MovePool(s.freeOps, s.run, |s.opTimers|, phase, c, p);
    }
    if phase[c] != Completing && p != Completing { MoveCompleting(s.completing, phase, c, p); }
    if !phase[c].Recorded? && !p.Recorded? { MoveCdr(s.cdr, phase, c, p); }
    if WasAccepted(phase[c]) == WasAccepted(p) { MoveAccepted(s.hist.accepted, phase, c, p); }
    if WasPopped(phase[c]) == WasPopped(p) { MovePopped(s.hist.popped, phase, c, p); }
    if phase[c] != Recorded(TIMEOUT) && p != Recorded(TIMEOUT) { MoveTimedOut(s.hist.timedOut, phase, c, p); }
  }
}
