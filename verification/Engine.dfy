/**
  The call centre as a step system.  HTTP sessions create calls and push them, the clock
  expires timers, io_context threads run completion handlers, and one operator thread runs
  Operators::Run.  Every critical section is one step; the bodies between them are not atomic.
*/
module Engine {
  import opened Calls
  import opened TimerQueue

  const FIRST_CALL_ID := 100

  /** Where the operator thread is: in the two waits of Run, or inside AddCall. */
  datatype RunPc =
    | WaitOperator
    | WaitCall
    | PopCall
    | TakeOperator(call: nat)
    | ArmTimer(call: nat, op: nat)

  /** A session that has created its call and has not finished with it. */
  datatype SessionPc = BeforePush(cgPn: string) | BeforeCdr(status: RespStatus)

  /** Where a call is in its life; a history variable, never read by a step. */
  datatype Phase =
    | Created
    | Refused(status: RespStatus)
    | Waiting
    | Held
    | InTalk(op: nat)
    | Completing
    | Recorded(status: RespStatus)

  datatype History = History(
    accepted: seq<Node<nat>>,
    popped: seq<Node<nat>>,
    timedOut: set<nat>,
    phase: map<nat, Phase>)

  datatype State = State(
    queue: Queue<nat>,
    sessions: map<nat, SessionPc>,
    run: RunPc,
    freeOps: seq<nat>,
    opTimers: seq<OpTimer<nat>>,
    endReady: multiset<EndHandler<nat>>,
    operatorId: map<nat, nat>,
    completing: multiset<nat>,
    cdr: seq<CdrRecord<nat>>,
    nextCallId: nat,
    fault: bool,
    hist: History)

  function Init(capacity: nat, operators: nat): State {
    State(Empty(capacity), map[], WaitOperator, seq(operators, i => i), seq(operators, i => Quiet),
          multiset{}, map[], multiset{}, [], FIRST_CALL_ID, false, History([], [], {}, map[]))
  }

  datatype Label =
    | Create(cgPn: string)        // Session: a valid number arrives, the call object is made
    | PushCall(call: nat)         // Session: IncomingCallsQueue::push
    | RefusedCdr(call: nat)       // Session: SetCompleteData and WriteCDR after a refusal
    | ExpireSlot(slot: nat)       // clock: a waiting timer expires
    | Reset(h: Handler)           // io_context: OnCallReset
    | OperatorSeen                // operator thread: free_operators_.wait() returns
    | CallSeen                    // operator thread: incoming_calls_.wait() returns
    | PopStep                     // AddCall: incoming_calls_.pop()
    | TakeStep                    // AddCall: free_operators_.pop_front()
    | ArmStep                     // AddCall: SetOperatorResponseData, expires_after, async_wait
    | ExpireOperator(op: nat)     // clock: a conversation ends
    | EndCall(end: EndHandler<nat>)    // io_context: OnEndCall up to free_operators_.push_back
    | EndCdr(call: nat)           // io_context: the rest of OnEndCall

  ghost predicate Enabled(s: State, l: Label) {
    && !s.fault
    && match l
       case Create(_) => true
       case PushCall(c) => c in s.sessions && s.sessions[c].BeforePush?
       case RefusedCdr(c) => c in s.sessions && s.sessions[c].BeforeCdr?
       case ExpireSlot(slot) => slot < |s.queue.timers| && s.queue.timers[slot].Armed?
       case Reset(h) => h in s.queue.ready
       case OperatorSeen => s.run.WaitOperator? && s.freeOps != []
       case CallSeen => s.run.WaitCall? && s.queue.calls != []
       case PopStep => s.run.PopCall?
       case TakeStep => s.run.TakeOperator?
       case ArmStep => s.run.ArmTimer?
       case ExpireOperator(op) => op < |s.opTimers| && s.opTimers[op].Talking?
       case EndCall(h) => h in s.endReady
       case EndCdr(c) => c in s.completing
  }

  function Enter(s: State, call: nat, phase: Phase): History {
    s.hist.(phase := s.hist.phase[call := phase])
  }

  function OperatorOf(s: State, call: nat): nat {
    if call in s.operatorId then s.operatorId[call] else 0
  }

  ghost function Next(s: State, l: Label): State
    requires Enabled(s, l)
  {
    match l
    case Create(cgPn) =>
      s.(nextCallId := s.nextCallId + 1,
      sessions := s.sessions[s.nextCallId := BeforePush(cgPn)],
      hist := Enter(s, s.nextCallId, Created))
    case PushCall(c) => AfterPush(s, c, Push(s.queue, s.sessions[c].cgPn, c))
    case RefusedCdr(c) =>
      var status := s.sessions[c].status;
      s.(sessions := s.sessions - {c},
      cdr := s.cdr + [CdrRecord(c, status)],
      hist := Enter(s, c, Recorded(status)))
    case ExpireSlot(slot) => s.(queue := Expire(s.queue, slot))
    case Reset(h) => AfterReset(s, RunHandler(s.queue, h))
    case OperatorSeen => s.(run := WaitCall)
    case CallSeen => s.(run := PopCall)
    case PopStep => AfterPop(s, Pop(s.queue))
    case TakeStep =>
      if s.freeOps == [] then s.(fault := true)
      else s.(run := ArmTimer(s.run.call, s.freeOps[0]), freeOps := s.freeOps[1..])
    case ArmStep => AfterArm(s, s.run.call, s.run.op)
    case ExpireOperator(op) =>
      s.(opTimers := s.opTimers[op := Quiet],
      endReady := s.endReady + multiset{EndHandler(false, s.opTimers[op].call)})
    case EndCall(h) =>
      var s1 := s.(endReady := s.endReady - multiset{h});
      if h.aborted then s1
      else s1.(freeOps := s.freeOps + [OperatorOf(s, h.call)],
      completing := s.completing + multiset{h.call},
      hist := Enter(s, h.call, Completing))
    case EndCdr(c) =>
      s.(completing := s.completing - multiset{c},
      cdr := s.cdr + [CdrRecord(c, OK)],
      hist := Enter(s, c, Recorded(OK)))
  }

  ghost function AfterPush(s: State, c: nat, r: PushResult<nat>): State
    requires c in s.sessions && s.sessions[c].BeforePush?
  {
    match r
    case PushFault => s.(fault := true)
    case Pushed(q, status) =>
      if status == OK then
        s.(queue := q, sessions := s.sessions - {c},
        hist := Enter(s, c, Waiting).(accepted := s.hist.accepted + [Node(s.queue.nextIter, s.sessions[c].cgPn, c)]))
      else
        s.(queue := q, sessions := s.sessions[c := BeforeCdr(status)], hist := Enter(s, c, Refused(status)))
  }

  ghost function AfterReset(s: State, r: ResetResult<nat>): State {
    match r
    case ResetFault => s.(fault := true)
    case Ignored(q) => s.(queue := q)
    case TimedOut(q, n) =>
      s.(queue := q, cdr := s.cdr + [CdrRecord(n.call, TIMEOUT)],
      hist := Enter(s, n.call, Recorded(TIMEOUT)).(timedOut := s.hist.timedOut + {n.call}))
  }

  ghost function AfterPop(s: State, r: PopResult<nat>): State {
    match r
    case PopFault => s.(fault := true)
    case NothingToPop => s.(run := WaitOperator)
    case Popped(q, n) =>
      s.(queue := q, run := TakeOperator(n.call),
      hist := Enter(s, n.call, Held).(popped := s.hist.popped + [n]))
  }

  ghost function AfterArm(s: State, call: nat, op: nat): State {
    if op >= |s.opTimers| then s.(fault := true)
    else
      var aborted := if s.opTimers[op].Talking? then multiset{EndHandler(true, s.opTimers[op].call)} else multiset{};
      s.(operatorId := s.operatorId[call := op],
      endReady := s.endReady + aborted,
      opTimers := s.opTimers[op := Talking(call)],
      run := WaitOperator,
      hist := Enter(s, call, InTalk(op)))
  }

  /** labels is a run from s: every label is enabled where it is taken. */
  ghost predicate IsRun(s: State, labels: seq<Label>)
    decreases |labels|
  {
    labels == [] || (Enabled(s, labels[0]) && IsRun(Next(s, labels[0]), labels[1..]))
  }

  ghost function After(s: State, labels: seq<Label>): State
    requires IsRun(s, labels)
    decreases |labels|
  {
    if labels == [] then s else After(Next(s, labels[0]), labels[1..])
  }

  ghost predicate Reachable(capacity: nat, operators: nat, s: State) {
    exists labels :: IsRun(Init(capacity, operators), labels) && After(Init(capacity, operators), labels) == s
  }
}
