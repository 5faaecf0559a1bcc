/** The FIFO of src/ThreadSafeQueue.h; one critical section per method. */
module ThreadSafeQueue {
  import opened Wrappers

  class TSQueue<T> {
    var deqQueue: seq<T>

    constructor ()
      ensures deqQueue == []
    {
      deqQueue := [];
    }

    method PushBack(item: T)
      modifies this
      ensures deqQueue == old(deqQueue) + [item]
    {
      deqQueue := deqQueue + [item];
    }

    /** None stands for the out_of_range exception. */
    method PopFront() returns (r: Option<T>)
      modifies this
      ensures old(deqQueue) == [] ==> r == None && deqQueue == []
      ensures old(deqQueue) != [] ==> r == Some(old(deqQueue)[0]) && deqQueue == old(deqQueue)[1..]
    {
      if deqQueue == [] {
        return None;
      }
      r := Some(deqQueue[0]);
      deqQueue := deqQueue[1..];
    }
  }
}

/** The class of src/Operators.h, each call seen as if no other thread ran in between.
    The interleavings of these bodies with other threads are the steps of module Engine. */
module OperatorPool {
  import opened Calls
  import opened ThreadSafeQueue
  import opened Wrappers
  import opened IncomingCalls
  import Q = TimerQueue

  class Operators {
    const incomingCalls: IncomingCallsQueue
    const freeOperators: TSQueue<nat>
    const operators: array<OpTimer<Call>>
    // The io_context's queue of completion handlers of the operators' timers.
    var endReady: multiset<EndHandler<Call>>

    ghost predicate Valid()
      reads this, incomingCalls, incomingCalls.timers, freeOperators
    {
      && incomingCalls.Valid()
      && incomingCalls.timers as object != operators
      && forall i | 0 <= i < |freeOperators.deqQueue| :: freeOperators.deqQueue[i] < operators.Length
    }

    constructor (countOp: nat, incCallsSize: nat)
      ensures Valid() && fresh(incomingCalls) && fresh(incomingCalls.timers) && fresh(freeOperators) && fresh(operators)
      ensures operators.Length == countOp && forall op | 0 <= op < countOp :: operators[op] == Quiet
      ensures freeOperators.deqQueue == seq(countOp, i => i)
      ensures incomingCalls.View() == Q.Empty(incCallsSize) && endReady == multiset{}
    {
      var queue := new IncomingCallsQueue(incCallsSize);
      var free := new TSQueue<nat>();
      var timers := new OpTimer<Call>[countOp](i => Quiet);
      for i := 0 to countOp
        invariant free.deqQueue == seq(i, k => k)
        invariant queue.View() == Q.Empty(incCallsSize) && queue.Valid()
        invariant forall op | 0 <= op < countOp :: timers[op] == Quiet
      {
        free.PushBack(i);
      }
      incomingCalls, freeOperators, operators, endReady := queue, free, timers, multiset{};
    }

    /** Building the waiting queue throws length_error for a bad size. */
    static method Create(countOp: nat, incCallsSize: int) returns (r: Result<Operators>)
      ensures r.Success? <==> 0 < incCallsSize <= 100000
      ensures !r.Success? ==> r == LengthError
      ensures r.Success? ==> fresh(r.value) && r.value.Valid() && r.value.operators.Length == countOp
                             && r.value.incomingCalls.View() == Q.Empty(incCallsSize)
    {
      if incCallsSize <= 0 || incCallsSize > MAX_CAPACITY {
        return LengthError;
      }
      var operators := new Operators(countOp, incCallsSize);
      return Success(operators);
    }

    /** Gives the oldest waiting call to the operator free the longest; an empty queue is left alone. */
    method AddCall() returns (added: Option<Call>)
      requires Valid() && freeOperators.deqQueue != []
      modifies this, incomingCalls, incomingCalls.timers, incomingCalls.WaitingCalls(), freeOperators, operators
      ensures Valid()
      ensures old(incomingCalls.incomingCalls) == [] ==>
                && added == None && incomingCalls.View() == old(incomingCalls.View())
                && freeOperators.deqQueue == old(freeOperators.deqQueue)
                && operators[..] == old(operators[..]) && endReady == old(endReady)
      ensures old(incomingCalls.incomingCalls) != [] ==>
                var call, op := old(incomingCalls.incomingCalls)[0].call, old(freeOperators.deqQueue)[0];
                && added == Some(call) && call.operatorId == op && call.status == old(call.status)
                && (forall c | c in old(incomingCalls.WaitingCalls()) && c != call :: unchanged(c))
                && Q.Pop(old(incomingCalls.View())).Popped?
                && incomingCalls.View() == Q.Pop(old(incomingCalls.View())).q
                && freeOperators.deqQueue == old(freeOperators.deqQueue)[1..]
                && operators[..] == old(operators[..])[op := Talking(call)]
                && endReady == (match old(operators[..])[op]
                                case Quiet => old(endReady)
                                case Talking(c) => old(endReady) + multiset{EndHandler(true, c)})
    {
      hide Q.Valid, Q.Pop;
      var popped := incomingCalls.Pop();
      if popped == OutOfRange {
        return None;
      }
      var call := popped.value;
      var opId := freeOperators.PopFront();
      call.SetOperatorResponseData(opId.value);
      match operators[opId.value] {
        case Quiet =>
        case Talking(c) => endReady := endReady + multiset{EndHandler(true, c)};
      }
      operators[opId.value] := Talking(call);
      return Some(call);
    }

    /** End of a conversation: the operator becomes the last of the free ones. */
    method OnEndCall(aborted: bool, call: Call) returns (cdr: seq<CdrRecord<Call>>)
      requires Valid() && call.operatorId < operators.Length
      modifies freeOperators, call
      ensures Valid()
      ensures aborted ==> cdr == [] && freeOperators.deqQueue == old(freeOperators.deqQueue) && unchanged(call)
      ensures !aborted ==>
                && cdr == [CdrRecord(call, OK)] && call.status == OK && call.operatorId == old(call.operatorId)
                && freeOperators.deqQueue == old(freeOperators.deqQueue) + [call.operatorId]
    {
      if aborted {
        return [];
      }
      freeOperators.PushBack(call.operatorId);
      call.SetCompleteData(OK);
      return [CdrRecord(call, OK)];
    }
  }
}
