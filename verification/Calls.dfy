/**
  The call record shared by the HTTP sessions, the waiting queue and the operators
  (src/Call.h, src/Call.cpp).  Time stamps and random durations are not modelled.
*/
module Calls {

  datatype RespStatus = OK | OVERLOAD | TIMEOUT | ALREADY_IN_QUEUE

  /** One line of the CDR log: which call ended, and how. */
  datatype CdrRecord<+C> = CdrRecord(call: C, status: RespStatus)

  /** The timer of an operator: pending while a conversation lasts. */
  datatype OpTimer<+C> = Quiet | Talking(call: C)

  /** A queued completion handler of such a timer. */
  datatype EndHandler<+C> = EndHandler(aborted: bool, call: C)

  class Call {
    const callId: nat
    const cgPn: string
    var status: RespStatus
    var operatorId: nat

    constructor (callId: nat, cgPn: string)
      ensures this.callId == callId && this.cgPn == cgPn
      ensures status == OK && operatorId == 0
    {
      this.callId, this.cgPn := callId, cgPn;
      status, operatorId := OK, 0;
    }

    method SetOperatorResponseData(opId: nat)
      modifies this
      ensures operatorId == opId && status == old(status)
    {
      operatorId := opId;
    }

    method SetCompleteData(st: RespStatus)
      modifies this
      ensures status == st && operatorId == old(operatorId)
    {
      status := st;
    }
  }
}
