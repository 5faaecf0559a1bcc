/** Session::AddToQueue of src/Session.cpp: offering a new call to the queue and answering the
    client.  The HTTP response around the message is not modelled. */
module CallSession {
  import opened Calls
  import opened IncomingCalls
  import Q = TimerQueue

  datatype Message = CallId(id: nat) | QueueOverloaded | AlreadyWaiting

  /** A call that is not accepted is complete at once and goes to the CDR log; an accepted one is
      not logged before it ends.  A duplicate is reported as such even when the queue is full. */
  method AddToQueue(queue: IncomingCallsQueue, call: Call) returns (message: Message, cdr: seq<CdrRecord<Call>>)
    requires queue.Valid() && call.status == OK
    modifies queue, queue.timers, call
    ensures queue.Valid() && call.operatorId == old(call.operatorId)
    ensures Q.IsWaiting(old(queue.View()), call.cgPn) ==>
              message == AlreadyWaiting && call.status == ALREADY_IN_QUEUE
              && cdr == [CdrRecord(call, ALREADY_IN_QUEUE)] && queue.View() == old(queue.View())
    ensures !Q.IsWaiting(old(queue.View()), call.cgPn) && |old(queue.incomingCalls)| == queue.capacity ==>
              message == QueueOverloaded && call.status == OVERLOAD
              && cdr == [CdrRecord(call, OVERLOAD)] && queue.View() == old(queue.View())
    ensures !Q.IsWaiting(old(queue.View()), call.cgPn) && |old(queue.incomingCalls)| < queue.capacity ==>
              message == CallId(call.callId) && call.status == OK && cdr == []
              && |queue.incomingCalls| == |old(queue.incomingCalls)| + 1
              && queue.incomingCalls[..|old(queue.incomingCalls)|] == old(queue.incomingCalls)
              && queue.incomingCalls[|old(queue.incomingCalls)|].call == call
              && queue.incomingCalls[|old(queue.incomingCalls)|].cgPn == call.cgPn
              && Q.HasLiveTimeout(queue.View(), queue.incomingCalls[|old(queue.incomingCalls)|])
  {
    ghost var was := queue.View();
    WaitingIffKnown(was, call.cgPn);
    var status := queue.Push(call);
    ghost var now := queue.View();
    Accepted(was, call, now, status);
    match status {
      case OK => return CallId(call.callId), [];
      case OVERLOAD =>
        message := QueueOverloaded;
        call.SetCompleteData(OVERLOAD);
      case ALREADY_IN_QUEUE =>
        message := AlreadyWaiting;
        call.SetCompleteData(ALREADY_IN_QUEUE);
      case TIMEOUT => assert false;
    }
    assert queue.View() == now;
    cdr := [CdrRecord(call, call.status)];
  }

  lemma WaitingIffKnown(q: Q.Queue<Call>, cgPn: string)
    requires Q.Valid(q)
    ensures Q.IsWaiting(q, cgPn) <==> cgPn in q.pos
    ensures |q.calls| <= q.capacity
  {
  }

  /** What push does, in terms of who waits. */
  lemma Accepted(q: Q.Queue<Call>, call: Call, q': Q.Queue<Call>, status: RespStatus)
    requires Q.Valid(q) && Q.Valid(q') && Q.Push(q, call.cgPn, call) == Q.Pushed(q', status)
    ensures status == if call.cgPn in q.pos then ALREADY_IN_QUEUE else if |q.calls| == q.capacity then OVERLOAD else OK
    ensures status != OK ==> q' == q
    ensures status == OK ==> q'.calls == q.calls + [Q.Node(q.nextIter, call.cgPn, call)]
    ensures status == OK ==> Q.HasLiveTimeout(q', q'.calls[|q.calls|])
  {
    assert Q.SlotsPartition(q);
    if status == OK {
      assert q'.calls == q.calls + [Q.Node(q.nextIter, call.cgPn, call)];
      assert Q.TimeoutsLive(q');
    }
  }
}
