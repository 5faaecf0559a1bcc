/** What holds in every reachable state of the call centre, in terms of its own structures. */
module EngineTheorems {
  import opened Calls
  import opened TimerQueue
  import opened Engine
  import opened EngineInvariant
  import opened EngineSteps

  // ---------------------------------------------------------------------------------------
  // Runs

  lemma InitInv(capacity: nat, operators: nat)
    ensures Inv(Init(capacity, operators))
  {
    var s := Init(capacity, operators);
    EmptyValid<nat>(capacity);
    forall op: nat | op < operators ensures OperatorPlaced(s.freeOps, s.run, s.hist.phase, op) {
      assert s.freeOps[op] == op;
    }
    assert s.hist.popped + s.queue.calls == Without([], {});
  }

  lemma StepSizes(s: State, l: Label)
    requires Enabled(s, l)
    ensures |Next(s, l).opTimers| == |s.opTimers|
    ensures Next(s, l).queue.capacity == s.queue.capacity
  {
  }

  lemma {:induction false} RunKeeps(s: State, labels: seq<Label>)
    requires Inv(s) && IsRun(s, labels)
    ensures Inv(After(s, labels))
    ensures |After(s, labels).opTimers| == |s.opTimers|
    ensures After(s, labels).queue.capacity == s.queue.capacity
    decreases |labels|
  {
    if labels == [] {
    } else {
      StepKeeps(s, labels[0]);
      StepSizes(s, labels[0]);
      RunKeeps(Next(s, labels[0]), labels[1..]);
    }
  }

  lemma ReachableInv(capacity: nat, operators: nat, s: State)
    requires Reachable(capacity, operators, s)
    ensures Inv(s) && |s.opTimers| == operators && s.queue.capacity == capacity
  {
    var labels :| IsRun(Init(capacity, operators), labels) && After(Init(capacity, operators), labels) == s;
    InitInv(capacity, operators);
    RunKeeps(Init(capacity, operators), labels);
  }

  // ---------------------------------------------------------------------------------------
  // Conservation

  function WaitingIds(s: State): set<nat> {
    set i | 0 <= i < |s.queue.calls| :: s.queue.calls[i].call
  }

  function HeldIds(s: State): set<nat> {
    if s.run.TakeOperator? || s.run.ArmTimer? then {s.run.call} else {}
  }

  function ArmedIds(opTimers: seq<OpTimer<nat>>): set<nat> {
    set op | 0 <= op < |opTimers| && opTimers[op].Talking? :: opTimers[op].call
  }

  ghost function QueuedIds(endReady: multiset<EndHandler<nat>>): set<nat> {
    set h | h in endReady :: h.call
  }

  /** In conversation: the operator's timer is armed for the call, or its handler is queued. */
  ghost function TalkingIds(s: State): set<nat> {
    ArmedIds(s.opTimers) + QueuedIds(s.endReady)
  }

  ghost function CompletingIds(s: State): set<nat> {
    set c | c in s.completing
  }

  function RecordedIds(s: State, statuses: set<RespStatus>): set<nat> {
    set i | 0 <= i < |s.cdr| && s.cdr[i].status in statuses :: s.cdr[i].call
  }

  function AcceptedIds(s: State): set<nat> {
    set i | 0 <= i < |s.hist.accepted| :: s.hist.accepted[i].call
  }

  /** The call object c has been created. */
  predicate Issued(s: State, c: nat) {
    FIRST_CALL_ID <= c < s.nextCallId
  }

  datatype Bucket = InSession | OnWait | InHand | OnLine | AtEnd | EndedOk | EndedTimeout | EndedRefused

  function BucketOf(p: Phase): Bucket {
    match p
    case Created => InSession
    case Refused(_) => InSession
    case Waiting => OnWait
    case Held => InHand
    case InTalk(_) => OnLine
    case Completing => AtEnd
    case Recorded(OK) => EndedOk
    case Recorded(TIMEOUT) => EndedTimeout
    case Recorded(_) => EndedRefused
  }

  ghost function Members(phase: Phases, b: Bucket): set<nat> {
    set c | c in phase && BucketOf(phase[c]) == b
  }

  const REFUSALS: set<RespStatus> := {OVERLOAD, ALREADY_IN_QUEUE}

  // Each structure holds exactly the calls whose phase says so.

  lemma WaitingMembers(s: State)
    requires WaitingInv(s.queue.calls, s.hist.phase)
    ensures WaitingIds(s) == Members(s.hist.phase, OnWait)
  {
    forall c | c in Members(s.hist.phase, OnWait) ensures c in WaitingIds(s) {
      assert OnList(s.queue.calls, c);
    }
  }

  lemma HeldMembers(s: State)
    requires HeldInv(s.run, s.hist.phase)
    ensures HeldIds(s) == Members(s.hist.phase, InHand)
  {
    forall c | c in Members(s.hist.phase, InHand) ensures c in HeldIds(s) {
      assert Holds(s.run, c);
    }
  }

  lemma TalkingMembers(s: State)
    requires TalkInv(s.opTimers, s.endReady, s.operatorId, s.hist.phase)
    ensures TalkingIds(s) == Members(s.hist.phase, OnLine)
  {
    ArmedTalk(s.opTimers, s.endReady, s.hist.phase);
    QueuedTalk(s.opTimers, s.endReady, s.hist.phase);
    TalkArmedOrQueued(s.opTimers, s.endReady, s.operatorId, s.hist.phase);
  }

  lemma ArmedTalk(opTimers: seq<OpTimer<nat>>, endReady: multiset<EndHandler<nat>>, phase: Phases)
    requires TimersTalk(opTimers, endReady, phase)
    ensures ArmedIds(opTimers) <= Members(phase, OnLine)
  {
  }

  lemma QueuedTalk(opTimers: seq<OpTimer<nat>>, endReady: multiset<EndHandler<nat>>, phase: Phases)
    requires HandlersTalk(opTimers, endReady, phase)
    ensures QueuedIds(endReady) <= Members(phase, OnLine)
  {
  }

  lemma TalkArmedOrQueued(opTimers: seq<OpTimer<nat>>, endReady: multiset<EndHandler<nat>>, operatorId: map<nat, nat>,
                          phase: Phases)
    requires CallsTalk(opTimers, endReady, operatorId, phase)
    ensures Members(phase, OnLine) <= ArmedIds(opTimers) + QueuedIds(endReady)
  {
    forall c | c in Members(phase, OnLine) ensures c in ArmedIds(opTimers) + QueuedIds(endReady) {
      assert phase[c].InTalk?;
      if EndHandler(false, c) in endReady {
        assert EndHandler(false, c).call == c;
      }
    }
  }

  lemma SessionMembers(s: State)
    requires SessionsInv(s.sessions, s.hist.phase)
    ensures s.sessions.Keys == Members(s.hist.phase, InSession)
  {
    forall c | c in Members(s.hist.phase, InSession) ensures c in s.sessions {
      assert OfSession(s.hist.phase[c]);
    }
  }

  lemma RecordedMembers(s: State, statuses: set<RespStatus>, b: Bucket)
    requires CdrInv(s.cdr, s.hist.phase)
    requires forall st :: BucketOf(Recorded(st)) == b <==> st in statuses
    requires b.EndedOk? || b.EndedTimeout? || b.EndedRefused?
    ensures RecordedIds(s, statuses) == Members(s.hist.phase, b)
  {
    forall c | c in RecordedIds(s, statuses) ensures c in Members(s.hist.phase, b) {
      var i :| 0 <= i < |s.cdr| && s.cdr[i].status in statuses && s.cdr[i].call == c;
      assert s.hist.phase[c] == Recorded(s.cdr[i].status);
    }
    forall c | c in Members(s.hist.phase, b) ensures c in RecordedIds(s, statuses) {
      var p := s.hist.phase[c];
      assert p == Recorded(p.status);
      assert InLog(s.cdr, CdrRecord(c, p.status));
    }
  }

  lemma AcceptedMembers(s: State)
    requires AcceptedInv(s.hist.accepted, s.hist.phase)
    ensures forall c :: c in AcceptedIds(s) <==> c in s.hist.phase && WasAccepted(s.hist.phase[c])
  {
    forall c | c in s.hist.phase && WasAccepted(s.hist.phase[c]) ensures c in AcceptedIds(s) {
      assert OnList(s.hist.accepted, c);
    }
  }

  /** Accepted calls are waiting, held by the operator thread, in conversation (or its last lines),
      finished OK or timed out, and never two of these; every other call created so far is with
      its session or was refused, and again never both. */
  lemma Conservation(capacity: nat, operators: nat, s: State)
    requires Reachable(capacity, operators, s)
    ensures AcceptedIds(s) == WaitingIds(s) + HeldIds(s) + TalkingIds(s) + CompletingIds(s)
                              + RecordedIds(s, {OK}) + RecordedIds(s, {TIMEOUT})
    ensures WaitingIds(s) !! HeldIds(s) !! TalkingIds(s) !! CompletingIds(s)
            !! RecordedIds(s, {OK}) !! RecordedIds(s, {TIMEOUT})
    ensures forall c: nat :: Issued(s, c) <==> c in AcceptedIds(s) + s.sessions.Keys + RecordedIds(s, REFUSALS)
    ensures AcceptedIds(s) !! s.sessions.Keys !! RecordedIds(s, REFUSALS)
  {
    ReachableInv(capacity, operators, s);
    AcceptedMembers(s);
    AllMembers(s);
    forall c: nat ensures Issued(s, c) <==> c in s.hist.phase {
    }
    Partition(s.hist.phase, AcceptedIds(s));
  }

  lemma AllMembers(s: State)
    requires Inv(s)
    ensures WaitingIds(s) == Members(s.hist.phase, OnWait)
    ensures HeldIds(s) == Members(s.hist.phase, InHand)
    ensures TalkingIds(s) == Members(s.hist.phase, OnLine)
    ensures CompletingIds(s) == Members(s.hist.phase, AtEnd)
    ensures s.sessions.Keys == Members(s.hist.phase, InSession)
    ensures RecordedIds(s, {OK}) == Members(s.hist.phase, EndedOk)
    ensures RecordedIds(s, {TIMEOUT}) == Members(s.hist.phase, EndedTimeout)
    ensures RecordedIds(s, REFUSALS) == Members(s.hist.phase, EndedRefused)
  {
    hide SessionsInv, WaitingInv, HeldInv, TalkInv, CompletingInv, CdrInv, Members;
    hide WaitingIds, HeldIds, TalkingIds, CompletingIds, RecordedIds;
    WaitingMembers(s);
    HeldMembers(s);
    TalkingMembers(s);
    SessionMembers(s);
    CompletingMembers(s);
    RecordedMembers(s, {OK}, EndedOk);
    RecordedMembers(s, {TIMEOUT}, EndedTimeout);
    RecordedMembers(s, REFUSALS, EndedRefused);
  }

  lemma CompletingMembers(s: State)
    requires CompletingInv(s.completing, s.hist.phase)
    ensures CompletingIds(s) == Members(s.hist.phase, AtEnd)
  {
  }

  lemma Partition(phase: Phases, accepted: set<nat>)
    requires forall c :: c in accepted <==> c in phase && WasAccepted(phase[c])
    ensures accepted == Members(phase, OnWait) + Members(phase, InHand) + Members(phase, OnLine)
                        + Members(phase, AtEnd) + Members(phase, EndedOk) + Members(phase, EndedTimeout)
    ensures Members(phase, OnWait) !! Members(phase, InHand) !! Members(phase, OnLine)
            !! Members(phase, AtEnd) !! Members(phase, EndedOk) !! Members(phase, EndedTimeout)
    ensures forall c :: c in phase <==> c in accepted + Members(phase, InSession) + Members(phase, EndedRefused)
    ensures accepted !! Members(phase, InSession) !! Members(phase, EndedRefused)
  {
    forall c | c in phase
      ensures WasAccepted(phase[c]) <==> BucketOf(phase[c]) !in {InSession, EndedRefused}
    {
      match phase[c] {
        case Recorded(st) => assert st == OK || st == TIMEOUT || st in REFUSALS;
        case _ =>
      }
    }
  }

  // ---------------------------------------------------------------------------------------
  // One outcome for each call

  /** No call is recorded twice, and the status of a record is the fate of its call. */
  lemma SingleOutcome(capacity: nat, operators: nat, s: State)
    requires Reachable(capacity, operators, s)
    ensures forall i, j | 0 <= i < j < |s.cdr| :: s.cdr[i].call != s.cdr[j].call
    ensures forall i | 0 <= i < |s.cdr| ::
              var r := s.cdr[i];
              && Issued(s, r.call)
              && (r.status == OK <==> OnList(s.hist.popped, r.call))
              && (r.status == TIMEOUT <==> OnList(s.hist.accepted, r.call) && !OnList(s.hist.popped, r.call))
              && (r.status in REFUSALS <==> !OnList(s.hist.accepted, r.call))
  {
    ReachableInv(capacity, operators, s);
    forall i | 0 <= i < |s.cdr|
      ensures var r := s.cdr[i];
              && Issued(s, r.call)
              && (r.status == OK <==> OnList(s.hist.popped, r.call))
              && (r.status == TIMEOUT <==> OnList(s.hist.accepted, r.call) && !OnList(s.hist.popped, r.call))
              && (r.status in REFUSALS <==> !OnList(s.hist.accepted, r.call))
    {
      RecordMatches(s, i);
    }
  }

  lemma RecordMatches(s: State, i: nat)
    requires Inv(s) && i < |s.cdr|
    ensures var r := s.cdr[i];
            && Issued(s, r.call)
            && (r.status == OK <==> OnList(s.hist.popped, r.call))
            && (r.status == TIMEOUT <==> OnList(s.hist.accepted, r.call) && !OnList(s.hist.popped, r.call))
            && (r.status in REFUSALS <==> !OnList(s.hist.accepted, r.call))
  {
    var c := s.cdr[i].call;
    assert s.hist.phase[c] == Recorded(s.cdr[i].status);
    OnListByPhase(s.hist.accepted, s.hist.popped, s.hist.phase, c);
  }

  lemma OnListByPhase(accepted: seq<Node<nat>>, popped: seq<Node<nat>>, phase: Phases, c: nat)
    requires AcceptedInv(accepted, phase) && PoppedInv(popped, phase) && c in phase
    ensures OnList(accepted, c) <==> WasAccepted(phase[c])
    ensures OnList(popped, c) <==> WasPopped(phase[c])
  {
  }

  /** Nothing is in flight: no session at work, nobody waiting, held, talking or completing. */
  ghost predicate Quiescent(s: State) {
    s.sessions == map[] && s.queue.calls == [] && HeldIds(s) == {}
    && TalkingIds(s) == {} && s.completing == multiset{}
  }

  /** Once nothing is in flight, every call ever created has exactly one record. */
  lemma QuiescentAllRecorded(capacity: nat, operators: nat, s: State)
    requires Reachable(capacity, operators, s) && Quiescent(s)
    ensures forall c: nat :: Issued(s, c) <==> c in RecordedIds(s, {OK, TIMEOUT, OVERLOAD, ALREADY_IN_QUEUE})
    ensures forall i, j | 0 <= i < |s.cdr| && 0 <= j < |s.cdr| && s.cdr[i].call == s.cdr[j].call :: i == j
  {
    Conservation(capacity, operators, s);
    SingleOutcome(capacity, operators, s);
    assert WaitingIds(s) == {} && CompletingIds(s) == {} && s.sessions.Keys == {};
    assert RecordedIds(s, {OK}) + RecordedIds(s, {TIMEOUT}) + RecordedIds(s, REFUSALS)
        == RecordedIds(s, {OK, TIMEOUT, OVERLOAD, ALREADY_IN_QUEUE});
  }

  // ---------------------------------------------------------------------------------------
  // Order

  /** Popped calls followed by the waiting ones are the accepted calls without the timed-out
      ones, in the order of acceptance: no call overtakes another. */
  lemma FirstComeFirstServed(capacity: nat, operators: nat, s: State)
    requires Reachable(capacity, operators, s)
    ensures s.hist.popped + s.queue.calls == Without(s.hist.accepted, RecordedIds(s, {TIMEOUT}))
    ensures forall i, j | 0 <= i < j < |s.hist.accepted| :: s.hist.accepted[i].call != s.hist.accepted[j].call
  {
    ReachableInv(capacity, operators, s);
    TimedOutRecorded(s);
  }

  lemma TimedOutRecorded(s: State)
    requires CdrInv(s.cdr, s.hist.phase) && TimedOutInv(s.hist.timedOut, s.hist.phase)
    ensures s.hist.timedOut == RecordedIds(s, {TIMEOUT})
  {
    RecordedMembers(s, {TIMEOUT}, EndedTimeout);
    forall c | c in Members(s.hist.phase, EndedTimeout) ensures c in s.hist.timedOut {
      assert s.hist.phase[c] == Recorded(TIMEOUT);
    }
  }

  // ---------------------------------------------------------------------------------------
  // Slots and timeouts

  /** The slot partition and the timeout obligation, in every reachable state. */
  lemma SlotsAndTimeouts(capacity: nat, operators: nat, s: State)
    requires Reachable(capacity, operators, s)
    ensures |s.queue.timers| == capacity && |s.queue.calls| + |s.queue.free| == capacity
    ensures forall slot: nat | slot < capacity :: slot in s.queue.free <==> slot !in s.queue.pos.Values
    ensures forall i | 0 <= i < |s.queue.free| ::
              s.queue.free[i] < capacity && s.queue.timers[s.queue.free[i]] == Idle
    ensures forall cgPn :: cgPn in s.queue.pos <==> IsWaiting(s.queue, cgPn)
    ensures forall i | 0 <= i < |s.queue.calls| :: HasLiveTimeout(s.queue, s.queue.calls[i])
  {
    ReachableInv(capacity, operators, s);
    var q := s.queue;
    forall slot: nat | slot < capacity ensures slot in q.free <==> slot !in q.pos.Values {
      assert Owned(q, slot);
    }
  }

  /** Arming a slot for an accepted call never cancels a wait, of this call or another. */
  lemma AcceptNeverCancels(capacity: nat, operators: nat, s: State, c: nat)
    requires Reachable(capacity, operators, s) && Enabled(s, PushCall(c))
    ensures Next(s, PushCall(c)).queue.ready == s.queue.ready
    ensures forall slot | 0 <= slot < |s.queue.timers| && s.queue.timers[slot].Armed? ::
              slot < |Next(s, PushCall(c)).queue.timers|
              && Next(s, PushCall(c)).queue.timers[slot] == s.queue.timers[slot]
  {
    ReachableInv(capacity, operators, s);
    PushValid(s.queue, s.sessions[c].cgPn, c);
    PushCancelsNothing(s.queue, s.sessions[c].cgPn, c);
  }

  // ---------------------------------------------------------------------------------------
  // Operators

  /** Operators in conversation: their timer is armed or its handler is queued. */
  ghost function TalkingOperators(s: State): set<nat> {
    set c | c in TalkingIds(s) :: OperatorOf(s, c)
  }

  function FreeOperators(s: State): set<nat> {
    set i | 0 <= i < |s.freeOps| :: s.freeOps[i]
  }

  function HeldOperators(s: State): set<nat> {
    if s.run.ArmTimer? then {s.run.op} else {}
  }

  /** Free operators, the one AddCall has taken and those in conversation partition the
      operators; a conversation has its operator to itself; the queued end handlers are all
      successes; and AddCall finds a free operator whenever it looks for one. */
  lemma OperatorAllocation(capacity: nat, operators: nat, s: State)
    requires Reachable(capacity, operators, s)
    ensures forall op: nat :: op < operators <==> op in FreeOperators(s) + HeldOperators(s) + TalkingOperators(s)
    ensures FreeOperators(s) !! HeldOperators(s) !! TalkingOperators(s)
    ensures forall i, j | 0 <= i < j < |s.freeOps| :: s.freeOps[i] != s.freeOps[j]
    ensures forall c, d | c in TalkingIds(s) && d in TalkingIds(s) && c != d :: OperatorOf(s, c) != OperatorOf(s, d)
    ensures forall h | h in s.endReady :: !h.aborted
    ensures s.run.PopCall? || s.run.TakeOperator? ==> s.freeOps != []
  {
    ReachableInv(capacity, operators, s);
    OperatorsFromInv(s);
  }

  lemma OperatorsFromInv(s: State)
    requires TalkInv(s.opTimers, s.endReady, s.operatorId, s.hist.phase)
    requires PoolInv(s.freeOps, s.run, |s.opTimers|, s.hist.phase)
    ensures forall op: nat ::
              op < |s.opTimers| <==> op in FreeOperators(s) + HeldOperators(s) + TalkingOperators(s)
    ensures FreeOperators(s) !! HeldOperators(s) !! TalkingOperators(s)
    ensures forall i, j | 0 <= i < j < |s.freeOps| :: s.freeOps[i] != s.freeOps[j]
    ensures forall c, d | c in TalkingIds(s) && d in TalkingIds(s) && c != d :: OperatorOf(s, c) != OperatorOf(s, d)
    ensures forall h | h in s.endReady :: !h.aborted
    ensures s.run.PopCall? || s.run.TakeOperator? ==> s.freeOps != []
  {
    TalkingMembers(s);
    TalkersOperators(s);
    BusyInRange(s.opTimers, s.endReady, s.operatorId, s.hist.phase);
    OperatorsPartition(s.freeOps, s.run, |s.opTimers|, s.hist.phase, TalkingOperators(s));
  }

  lemma BusyInRange(opTimers: seq<OpTimer<nat>>, endReady: multiset<EndHandler<nat>>,
                    operatorId: map<nat, nat>, phase: Phases)
    requires CallsTalk(opTimers, endReady, operatorId, phase)
    ensures forall op: nat | Busy(phase, op) :: op < |opTimers|
  {
    forall op: nat | Busy(phase, op) ensures op < |opTimers| {
      var c :| c in phase && phase[c] == InTalk(op);
      assert phase[c].InTalk?;
    }
  }

  lemma TalkersOperators(s: State)
    requires TalkInv(s.opTimers, s.endReady, s.operatorId, s.hist.phase)
    requires TalkingIds(s) == Members(s.hist.phase, OnLine)
    ensures forall op :: op in TalkingOperators(s) <==> Busy(s.hist.phase, op)
    ensures forall c, d | c in TalkingIds(s) && d in TalkingIds(s) && c != d :: OperatorOf(s, c) != OperatorOf(s, d)
    ensures forall h | h in s.endReady :: !h.aborted
  {
    var phase := s.hist.phase;
    TalkersKnowOperators(s);
    hide TalkingIds;
    forall op | Busy(phase, op) ensures op in TalkingOperators(s) {
      var c :| c in phase && phase[c] == InTalk(op);
      assert c in TalkingIds(s) && OperatorOf(s, c) == op;
    }
    hide CallsTalk, TimersTalk;
  }

  lemma TalkersKnowOperators(s: State)
    requires CallsTalk(s.opTimers, s.endReady, s.operatorId, s.hist.phase)
    ensures forall c | c in Members(s.hist.phase, OnLine) ::
              c in s.hist.phase && s.hist.phase[c] == InTalk(OperatorOf(s, c))
    ensures forall c, op | c in s.hist.phase && s.hist.phase[c] == InTalk(op) ::
              c in Members(s.hist.phase, OnLine) && OperatorOf(s, c) == op
  {
    forall c | c in Members(s.hist.phase, OnLine) ensures s.hist.phase[c] == InTalk(OperatorOf(s, c)) {
      assert s.hist.phase[c].InTalk?;
    }
    forall c, op | c in s.hist.phase && s.hist.phase[c] == InTalk(op) ensures OperatorOf(s, c) == op {
      assert s.hist.phase[c].InTalk?;
    }
  }

  lemma OperatorsPartition(freeOps: seq<nat>, run: RunPc, count: nat, phase: Phases, talking: set<nat>)
    requires PoolInv(freeOps, run, count, phase)
    requires forall op :: op in talking <==> Busy(phase, op)
    ensures var free, held := (set i | 0 <= i < |freeOps| :: freeOps[i]), if run.ArmTimer? then {run.op} else {};
            && (forall op: nat | op < count :: op in free + held + talking)
            && (forall op | op in free + held :: op < count)
            && free !! held !! talking
    ensures forall i, j | 0 <= i < j < |freeOps| :: freeOps[i] != freeOps[j]
    ensures run.PopCall? || run.TakeOperator? ==> freeOps != []
  {
    forall op: nat | op < count ensures op in freeOps || (run.ArmTimer? && op == run.op) || op in talking {
      assert OperatorPlaced(freeOps, run, phase, op);
    }
    forall op | Busy(phase, op) ensures op !in freeOps && (run.ArmTimer? ==> op != run.op) {
      var c :| c in phase && phase[c] == InTalk(op);
      assert phase[c].InTalk?;
    }
  }

  /** AddCall arms only a quiet operator timer: no conversation is ever aborted. */
  lemma AddCallArmsQuietTimer(capacity: nat, operators: nat, s: State)
    requires Reachable(capacity, operators, s) && Enabled(s, ArmStep)
    ensures s.run.op < |s.opTimers| && s.opTimers[s.run.op] == Quiet
    ensures !Next(s, ArmStep).fault && Next(s, ArmStep).endReady == s.endReady
  {
    hide Reachable, Inv, Next, Busy;
    ReachableInv(capacity, operators, s);
    ArmedQuiet(s);
    ArmKeeps(s);
  }

  // ---------------------------------------------------------------------------------------
  // Late handlers

  /** A reachable state faults only by running a stale handler, and running one always faults:
      free_timers_.front(), map.at and pop_front never fail. */
  lemma OnlyStaleHandlersFault(capacity: nat, operators: nat, s: State, l: Label)
    requires Reachable(capacity, operators, s) && Enabled(s, l)
    ensures Next(s, l).fault <==> l.Reset? && IsStale(s.queue, l.h)
  {
    ReachableInv(capacity, operators, s);
    match l
    case PushCall(c) => PushKeeps(s, c);
    case Reset(h) => ResetKeeps(s, h);
    case PopStep => PopStepKeeps(s);
    case TakeStep => TakeKeeps(s);
    case ArmStep => ArmKeeps(s);
    case _ =>
  }

  predicate Accepts(s: State, l: Label) {
    l.PushCall? && l.call in s.sessions && s.sessions[l.call].BeforePush?
    && s.sessions[l.call].cgPn !in s.queue.pos && |s.queue.calls| < s.queue.capacity
  }

  /** The step accepts a number while an old successful handler for it is still queued. */
  ghost predicate ReusesEarly(s: State, l: Label) {
    Accepts(s, l) && !NoLateHandlerFor(s.queue, s.sessions[l.call].cgPn)
  }

  ghost predicate NeverReusesEarly(s: State, labels: seq<Label>)
    requires IsRun(s, labels)
    decreases |labels|
  {
    labels == [] || (!ReusesEarly(s, labels[0]) && NeverReusesEarly(Next(s, labels[0]), labels[1..]))
  }

  /** Accepting a number early is exactly what makes a handler stale. */
  lemma StepStale(s: State, l: Label)
    requires Inv(s) && NoneStale(s.queue) && Enabled(s, l)
    ensures !Next(s, l).fault
    ensures NoneStale(Next(s, l).queue) <==> !ReusesEarly(s, l)
  {
    hide IdsInv, SessionsInv, WaitingInv, HeldInv, TalkInv, PoolInv, CompletingInv;
    hide NoneStale, CdrInv, AcceptedInv, PoppedInv, TimedOutInv, OrderInv;
    match l
    case PushCall(c) => PushStale(s, c);
    case ExpireSlot(slot) => ExpireKeepsNoneStale(s.queue, slot);
    case Reset(h) => RunHandlerKeepsNoneStale(s.queue, h);
    case PopStep => PopStale(s);
    case TakeStep => TakeKeeps(s);
    case ArmStep => ArmKeeps(s);
    case _ => assert Next(s, l).queue == s.queue;
  }

  lemma PushStale(s: State, c: nat)
    requires Valid(s.queue) && NoneStale(s.queue) && Enabled(s, PushCall(c))
    ensures !Next(s, PushCall(c)).fault
    ensures NoneStale(Next(s, PushCall(c)).queue) <==> !ReusesEarly(s, PushCall(c))
  {
    PushValid(s.queue, s.sessions[c].cgPn, c);
    if Accepts(s, PushCall(c)) {
      AcceptIsSafeIff(s.queue, s.sessions[c].cgPn, c);
    }
  }

  lemma PopStale(s: State)
    requires Valid(s.queue) && NoneStale(s.queue) && Enabled(s, PopStep)
    ensures !Next(s, PopStep).fault && NoneStale(Next(s, PopStep).queue)
  {
    PopValid(s.queue);
    if s.queue.calls != [] {
      PopKeepsNoneStale(s.queue);
    }
  }

  lemma {:induction false} CarefulRun(s: State, labels: seq<Label>)
    requires Inv(s) && !s.fault && NoneStale(s.queue) && IsRun(s, labels)
    ensures NeverReusesEarly(s, labels) ==> !After(s, labels).fault && NoneStale(After(s, labels).queue)
    decreases |labels|
  {
    if labels == [] {
    } else if NeverReusesEarly(s, labels) {
      StepKeeps(s, labels[0]);
      StepStale(s, labels[0]);
      CarefulRun(Next(s, labels[0]), labels[1..]);
    }
  }

  /** A run that never accepts a number while an old successful handler for it is queued never
      faults, and every handler it leaves queued may be run. */
  lemma NoEarlyReuseNoFault(capacity: nat, operators: nat, labels: seq<Label>)
    requires IsRun(Init(capacity, operators), labels) && NeverReusesEarly(Init(capacity, operators), labels)
    ensures !After(Init(capacity, operators), labels).fault
    ensures NoneStale(After(Init(capacity, operators), labels).queue)
  {
    InitInv(capacity, operators);
    CarefulRun(Init(capacity, operators), labels);
  }

  /** The hypothesis is necessary at every single acceptance: from a state where no handler is
      stale, the next handler to run can fault after the step exactly when the step reused early. */
  lemma EarlyReuseFaultsIff(s: State, l: Label)
    requires Inv(s) && NoneStale(s.queue) && Enabled(s, l)
    ensures ReusesEarly(s, l)
            <==> exists h :: Enabled(Next(s, l), Reset(h)) && Next(Next(s, l), Reset(h)).fault
  {
    StepKeeps(s, l);
    StepStale(s, l);
    var s' := Next(s, l);
    forall h | Enabled(s', Reset(h)) ensures Next(s', Reset(h)).fault <==> IsStale(s'.queue, h) {
      ResetKeeps(s', h);
    }
    if ReusesEarly(s, l) {
      var h :| h in s'.queue.ready && IsStale(s'.queue, h);
      assert Enabled(s', Reset(h));
    }
  }

  /** Without the hypothesis, for any number A: A times out just as the operator takes it, calls
      again, and the handler of its first call, still queued, erases through a dead iterator. */
  lemma EarlyReuseExample(A: string)
    ensures var labels := [Create(A), PushCall(100), OperatorSeen, CallSeen, ExpireSlot(0), PopStep,
                           Create(A), PushCall(101), Reset(Handler(false, A, 0))];
            IsRun(Init(1, 1), labels) && After(Init(1, 1), labels).fault
  {
    var s0 := Init(1, 1);
    var a, b := [Create(A), PushCall(100)], [OperatorSeen, CallSeen, ExpireSlot(0)];
    var c := [PopStep, Create(A), PushCall(101), Reset(Handler(false, A, 0))];
    FirstCallWaits(A);
    FirstCallExpires(After(s0, a), A);
    RunAppend(s0, a, b);
    SecondCallFaults(After(s0, a + b), A);
    RunAppend(s0, a + b, c);
    assert a + b + c == [Create(A), PushCall(100), OperatorSeen, CallSeen, ExpireSlot(0), PopStep,
                         Create(A), PushCall(101), Reset(Handler(false, A, 0))];
  }

  /** The first call of A waits, its timer has expired, and the operator thread is about to pop it. */
  ghost predicate ExpiredBeforePop(s: State, A: string) {
    && s.queue == Queue(1, [Node(0, A, 100)], map[A := 0], [], [Idle], multiset{Handler(false, A, 0)}, 1)
    && s.sessions == map[] && s.run == PopCall && s.freeOps == [0] && s.nextCallId == 101 && s.cdr == [] && !s.fault
  }

  /** The first call of A waits with its timer armed, and the operator thread waits for an operator. */
  ghost predicate FirstWaits(s: State, A: string) {
    && s.queue == Queue(1, [Node(0, A, 100)], map[A := 0], [], [Armed(A, 0)], multiset{}, 1)
    && s.sessions == map[] && s.run == WaitOperator && s.freeOps == [0] && s.nextCallId == 101
    && s.cdr == [] && !s.fault
  }

  lemma FirstCallWaits(A: string)
    ensures IsRun(Init(1, 1), [Create(A), PushCall(100)])
    ensures FirstWaits(After(Init(1, 1), [Create(A), PushCall(100)]), A)
  {
    var s1 := Next(Init(1, 1), Create(A));
    var s2 := Next(s1, PushCall(100));
    assert s2.queue.timers == [Armed(A, 0)];
    RunOne(s1, PushCall(100), []);
    RunOne(Init(1, 1), Create(A), [PushCall(100)]);
    assert [Create(A)] + [PushCall(100)] == [Create(A), PushCall(100)];
  }

  lemma FirstCallExpires(s: State, A: string)
    requires FirstWaits(s, A)
    ensures IsRun(s, [OperatorSeen, CallSeen, ExpireSlot(0)])
    ensures ExpiredBeforePop(After(s, [OperatorSeen, CallSeen, ExpireSlot(0)]), A)
  {
    var s1 := Next(s, OperatorSeen);
    var s2 := Next(s1, CallSeen);
    RunOne(s2, ExpireSlot(0), []);
    RunOne(s1, CallSeen, [ExpireSlot(0)]);
    RunOne(s, OperatorSeen, [CallSeen] + [ExpireSlot(0)]);
    assert [OperatorSeen] + ([CallSeen] + [ExpireSlot(0)]) == [OperatorSeen, CallSeen, ExpireSlot(0)];
  }

  /** The first call was popped and A calls again; the handler of its first call is still queued. */
  ghost predicate CallsAgain(s: State, A: string) {
    && s.queue == Queue(1, [], map[], [0], [Idle], multiset{Handler(false, A, 0)}, 1)
    && s.sessions == map[101 := BeforePush(A)] && !s.fault
  }

  lemma PopThenCall(s: State, A: string)
    requires ExpiredBeforePop(s, A)
    ensures IsRun(s, [PopStep, Create(A)]) && CallsAgain(After(s, [PopStep, Create(A)]), A)
  {
    var s1 := Next(s, PopStep);
    assert s1.queue == Queue(1, [], map[], [0], [Idle], multiset{Handler(false, A, 0)}, 1);
    RunOne(s1, Create(A), []);
    RunOne(s, PopStep, [Create(A)]);
    assert [PopStep] + [Create(A)] == [PopStep, Create(A)];
  }

  lemma AcceptedThenFaults(s: State, A: string)
    requires CallsAgain(s, A)
    ensures IsRun(s, [PushCall(101), Reset(Handler(false, A, 0))])
    ensures After(s, [PushCall(101), Reset(Handler(false, A, 0))]).fault
  {
    var late := Handler(false, A, 0);
    var s1 := Next(s, PushCall(101));
    assert s1.queue.calls == [Node(1, A, 101)] && s1.queue.ready == multiset{late} && A in s1.queue.pos;
    assert IndexOf(s1.queue.calls, 0) == 1;
    RunOne(s1, Reset(late), []);
    RunOne(s, PushCall(101), [Reset(late)]);
    assert [PushCall(101)] + [Reset(late)] == [PushCall(101), Reset(late)];
  }

  lemma SecondCallFaults(s: State, A: string)
    requires ExpiredBeforePop(s, A)
    ensures var labels := [PopStep, Create(A), PushCall(101), Reset(Handler(false, A, 0))];
            IsRun(s, labels) && After(s, labels).fault
  {
    hide Enabled, Next, IsRun, After, CallsAgain, ExpiredBeforePop;
    var first, second := [PopStep, Create(A)], [PushCall(101), Reset(Handler(false, A, 0))];
    PopThenCall(s, A);
    AcceptedThenFaults(After(s, first), A);
    RunAppend(s, first, second);
    assert first + second == [PopStep, Create(A), PushCall(101), Reset(Handler(false, A, 0))];
  }

  lemma RunOne(s: State, l: Label, rest: seq<Label>)
    requires Enabled(s, l) && IsRun(Next(s, l), rest)
    ensures IsRun(s, [l] + rest) && After(s, [l] + rest) == After(Next(s, l), rest)
  {
    assert ([l] + rest)[1..] == rest;
  }

  lemma {:induction false} RunAppend(s: State, first: seq<Label>, second: seq<Label>)
    requires IsRun(s, first) && IsRun(After(s, first), second)
    ensures IsRun(s, first + second) && After(s, first + second) == After(After(s, first), second)
    decreases |first|
  {
    hide Enabled, Next;
    if first == [] {
      assert first + second == second;
    } else {
      RunAppend(Next(s, first[0]), first[1..], second);
      assert first + second == [first[0]] + (first[1..] + second);
      RunOne(s, first[0], first[1..] + second);
    }
  }

  /** Without early reuse, a handler whose call was already popped changes nothing, and one
      whose call still waits times out exactly that call. */
  lemma LateHandlerHarmless(capacity: nat, operators: nat, s: State, h: Handler)
    requires Reachable(capacity, operators, s) && NoneStale(s.queue) && Enabled(s, Reset(h)) && !h.aborted
    ensures (forall i | 0 <= i < |s.queue.calls| :: s.queue.calls[i].iter != h.iter)
            ==> Next(s, Reset(h)) == s.(queue := s.queue.(ready := s.queue.ready - multiset{h}))
    ensures forall i | 0 <= i < |s.queue.calls| && s.queue.calls[i].iter == h.iter ::
              var s' := Next(s, Reset(h));
              && s'.queue.calls == s.queue.calls[..i] + s.queue.calls[i + 1..]
              && s'.cdr == s.cdr + [CdrRecord(s.queue.calls[i].call, TIMEOUT)]
  {
    ReachableInv(capacity, operators, s);
    HandlerEffect(s.queue, h);
  }
}
