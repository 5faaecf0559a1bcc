/**
  The class of src/IncomingCallsQueue.h.  Each method updates the four structures in place
  and is proved against the operation of the same name in TimerQueue.
*/
module IncomingCalls {
  import opened Calls
  import Q = TimerQueue

  const MAX_CAPACITY := 100000

  datatype Result<+T> = Success(value: T) | LengthError | OutOfRange

  class IncomingCallsQueue {
    const capacity: nat
    var incomingCalls: seq<Q.Node<Call>>
    var mapCgPnToPos: map<string, nat>
    var freeTimers: seq<nat>
    const timers: array<Q.Timer>
    // The io_context's queue of completion handlers of these timers.
    var ready: multiset<Q.Handler>
    // Stands for the address a freshly allocated list node gets.
    var nextIter: nat

    ghost function View(): Q.Queue<Call>
      reads this, timers
    {
      Q.Queue(capacity, incomingCalls, mapCgPnToPos, freeTimers, timers[..], ready, nextIter)
    }

    ghost predicate Valid()
      reads this, timers
    {
      Q.Valid(View())
    }

    ghost function WaitingCalls(): set<Call>
      reads this
    {
      set i | 0 <= i < |incomingCalls| :: incomingCalls[i].call
    }

    constructor (capacity: nat)
      ensures Valid() && fresh(timers)
      ensures View() == Q.Empty(capacity)
    {
      this.capacity := capacity;
      var slots := new Q.Timer[capacity](i => Q.Idle);
      var indices: seq<nat> := [];
      for i := 0 to capacity
        invariant indices == seq(i, k => k)
      {
        indices := indices + [i];
      }
      timers, freeTimers := slots, indices;
      incomingCalls, mapCgPnToPos, ready, nextIter := [], map[], multiset{}, 0;
      new;
      assert timers[..] == seq(capacity, i => Q.Idle);
      Q.EmptyValid<Call>(capacity);
    }

    /** The size check of the constructor, which throws length_error. */
    static method Create(capacity: int) returns (r: Result<IncomingCallsQueue>)
      ensures r.Success? <==> 0 < capacity <= 100000
      ensures !r.Success? ==> r == LengthError
      ensures r.Success? ==> fresh(r.value) && fresh(r.value.timers) && r.value.Valid()
                             && r.value.View() == Q.Empty(capacity)
    {
      if capacity <= 0 || capacity > MAX_CAPACITY {
        return LengthError;
      }
      var queue := new IncomingCallsQueue(capacity);
      return Success(queue);
    }

    method Push(call: Call) returns (status: RespStatus)
      requires Valid()
      modifies this, timers
      ensures Valid()
      ensures Q.Push(old(View()), call.cgPn, call) == Q.Pushed(View(), status)
    {
      Q.PushValid(View(), call.cgPn, call);
      if call.cgPn in mapCgPnToPos {
        return ALREADY_IN_QUEUE;
      }
      if |incomingCalls| >= capacity {
        return OVERLOAD;
      }
      Enqueue(call);
      status := OK;
    }

    /** The part of push after both refusals. */
    method Enqueue(call: Call)
      requires call.cgPn !in mapCgPnToPos && |incomingCalls| < capacity
      requires Q.Push(View(), call.cgPn, call).Pushed?
      modifies this, timers
      ensures Q.Push(old(View()), call.cgPn, call) == Q.Pushed(View(), OK)
    {
      var timerIndex := freeTimers[0];
      freeTimers := freeTimers[1..];
      var iter := nextIter;
      incomingCalls, nextIter := incomingCalls + [Q.Node(iter, call.cgPn, call)], iter + 1;
      mapCgPnToPos := mapCgPnToPos[call.cgPn := timerIndex];
      CancelTimer(timerIndex);
      timers[timerIndex] := Q.Armed(call.cgPn, iter);
    }

    method Pop() returns (r: Result<Call>)
      requires Valid()
      modifies this, timers
      ensures Valid()
      ensures old(incomingCalls) == [] ==> r == OutOfRange && View() == old(View())
      ensures old(incomingCalls) != [] ==>
                var p := Q.Pop(old(View()));
                p.Popped? && View() == p.q && p.node == old(incomingCalls)[0] && r == Success(p.node.call)
    {
      Q.PopValid(View());
      if incomingCalls == [] {
        return OutOfRange;
      }
      assert Q.HasLiveTimeout(View(), incomingCalls[0]);
      var call := incomingCalls[0].call;
      var cgPn := incomingCalls[0].cgPn;
      incomingCalls := incomingCalls[1..];
      var timerIndex := mapCgPnToPos[cgPn];
      mapCgPnToPos := mapCgPnToPos - {cgPn};
      CancelTimer(timerIndex);
      freeTimers := freeTimers + [timerIndex];
      return Success(call);
    }

    method CancelTimer(slot: nat)
      requires slot < timers.Length
      modifies this`ready, timers
      ensures View() == Q.Cancel(old(View()), slot)
    {
      match timers[slot]
      case Idle =>
      case Armed(cgPn, iter) =>
        ready := ready + multiset{Q.Handler(true, cgPn, iter)};
        timers[slot] := Q.Idle;
    }

    /** The io_context runs queued handler h.  A stale handler would erase through a dead
        iterator, so the language forbids that call; every other queued handler may run. */
    method OnCallReset(h: Q.Handler) returns (cdr: seq<CdrRecord<Call>>)
      requires Valid() && h in ready && !Q.IsStale(View(), h)
      modifies this, WaitingCalls()
      ensures Valid()
      ensures match Q.RunHandler(old(View()), h)
              case ResetFault => false
              case Ignored(q) => View() == q && cdr == [] && forall c | c in WaitingCalls() :: unchanged(c)
              case TimedOut(q, node) =>
                && View() == q && cdr == [CdrRecord(node.call, TIMEOUT)] && node.call.status == TIMEOUT
                && node.call.operatorId == old(node.call.operatorId)
                && forall c | c in old(WaitingCalls()) && c != node.call :: unchanged(c)
    {
      Q.RunHandlerValid(View(), h);
      hide Q.Valid, Q.IsStale, Q.IndexOf;
      ready := ready - multiset{h};
      if h.aborted {
        return [];
      }
      if h.cgPn !in mapCgPnToPos {
        return [];
      }
      cdr := TimeOut(h);
    }

    /** The part of OnCallReset behind its guard. */
    method TimeOut(h: Q.Handler) returns (cdr: seq<CdrRecord<Call>>)
      requires h.cgPn in mapCgPnToPos && Q.IndexOf(incomingCalls, h.iter) < |incomingCalls|
      modifies this, WaitingCalls()
      ensures var i := Q.IndexOf(old(incomingCalls), h.iter);
              var call := old(incomingCalls)[i].call;
              && View() == old(View()).(calls := Q.RemoveAt(old(incomingCalls), i),
                                        pos := old(mapCgPnToPos) - {h.cgPn},
                                        free := old(freeTimers) + [old(mapCgPnToPos)[h.cgPn]])
              && cdr == [CdrRecord(call, TIMEOUT)]
              && call.status == TIMEOUT && call.operatorId == old(call.operatorId)
              && forall c | c in old(WaitingCalls()) && c != call :: unchanged(c)
    {
      hide Q.IndexOf, Q.RemoveAt;
      var timerIndex := mapCgPnToPos[h.cgPn];
      mapCgPnToPos := mapCgPnToPos - {h.cgPn};
      var i := Q.IndexOf(incomingCalls, h.iter);
      var call := incomingCalls[i].call;
      assert call in WaitingCalls();
      call.SetCompleteData(TIMEOUT);
      incomingCalls := Q.RemoveAt(incomingCalls, i);
      freeTimers := freeTimers + [timerIndex];
      return [CdrRecord(call, TIMEOUT)];
    }
  }
}
