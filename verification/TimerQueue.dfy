/**
  The waiting queue of src/IncomingCallsQueue.cpp as a value: the call list, the map from
  CgPn to timer slot, the queue of free slots, the timers, and the completion handlers of
  those timers that the io_context has queued but not yet run.

  Undefined behaviour and exceptions that no caller handles are explicit `...Fault`
  results, so that their absence is a theorem and not a precondition.
*/
module TimerQueue {
  import opened Calls

  datatype Timer = Idle | Armed(cgPn: string, iter: nat)

  /** A queued completion handler.  `aborted` is error code operation_aborted; otherwise success. */
  datatype Handler = Handler(aborted: bool, cgPn: string, iter: nat)

  /** A list node; `iter` is its identity, which a std::list iterator keeps until the node is erased. */
  datatype Node<+C> = Node(iter: nat, cgPn: string, call: C)

  datatype Queue<C> = Queue(
    capacity: nat,
    calls: seq<Node<C>>,
    pos: map<string, nat>,
    free: seq<nat>,
    timers: seq<Timer>,
    ready: multiset<Handler>,
    nextIter: nat)

  function Empty<C>(capacity: nat): Queue<C> {
    Queue(capacity, [], map[], seq(capacity, i => i), seq(capacity, i => Idle), multiset{}, 0)
  }

  // ---------------------------------------------------------------------------------------
  // Operations

  /** Cancelling a pending wait queues its handler with operation_aborted. */
  function Cancel<C>(q: Queue<C>, slot: nat): Queue<C>
    requires slot < |q.timers|
  {
    match q.timers[slot]
    case Idle => q
    case Armed(cgPn, iter) =>
      q.(timers := q.timers[slot := Idle], ready := q.ready + multiset{Handler(true, cgPn, iter)})
  }

  /** expires_after cancels whatever is pending on the slot, async_wait then starts the new wait. */
  function Arm<C>(q: Queue<C>, slot: nat, cgPn: string, iter: nat): Queue<C>
    requires slot < |q.timers|
  {
    var idle := Cancel(q, slot);
    idle.(timers := idle.timers[slot := Armed(cgPn, iter)])
  }

  datatype PushResult<C> = PushFault | Pushed(q: Queue<C>, status: RespStatus)

  function Push<C>(q: Queue<C>, cgPn: string, call: C): PushResult<C> {
    if cgPn in q.pos then Pushed(q, ALREADY_IN_QUEUE)
    else if |q.calls| >= q.capacity then Pushed(q, OVERLOAD)
    else if q.free == [] || q.free[0] >= |q.timers| then PushFault
    else
      var slot := q.free[0];
      var linked := q.(
                    free := q.free[1..],
                    calls := q.calls + [Node(q.nextIter, cgPn, call)],
                    pos := q.pos[cgPn := slot],
                    nextIter := q.nextIter + 1);
      Pushed(Arm(linked, slot, cgPn, q.nextIter), OK)
  }

  datatype PopResult<C> = PopFault | NothingToPop | Popped(q: Queue<C>, node: Node<C>)

  function Pop<C>(q: Queue<C>): PopResult<C> {
    if q.calls == [] then NothingToPop
    else
      var node := q.calls[0];
      if node.cgPn !in q.pos || q.pos[node.cgPn] >= |q.timers| then PopFault
      else
        var slot := q.pos[node.cgPn];
        var unlinked := q.(calls := q.calls[1..], pos := q.pos - {node.cgPn});
        var idle := Cancel(unlinked, slot);
        Popped(idle.(free := idle.free + [slot]), node)
  }

  /** The clock reaches the expiry of an armed slot: its handler is queued with success. */
  function Expire<C>(q: Queue<C>, slot: nat): Queue<C>
    requires slot < |q.timers| && q.timers[slot].Armed?
  {
    var t := q.timers[slot];
    q.(timers := q.timers[slot := Idle], ready := q.ready + multiset{Handler(false, t.cgPn, t.iter)})
  }

  /** Position of the node an iterator denotes; the length of the list if the node is gone. */
  function IndexOf<C>(calls: seq<Node<C>>, iter: nat): (i: nat)
    ensures i <= |calls|
    ensures i < |calls| ==> calls[i].iter == iter
    ensures forall j | 0 <= j < i :: calls[j].iter != iter
  {
    if calls == [] then 0
    else if calls[0].iter == iter then 0
    else 1 + IndexOf(calls[1..], iter)
  }

  function RemoveAt<T>(s: seq<T>, i: nat): seq<T>
    requires i < |s|
  {
    s[..i] + s[i + 1..]
  }

  datatype ResetResult<C> =
    | ResetFault
    | Ignored(q: Queue<C>)
    | TimedOut(q: Queue<C>, node: Node<C>)

  /** The io_context takes handler h off its queue and runs OnCallReset. */
  function RunHandler<C>(q: Queue<C>, h: Handler): ResetResult<C> {
    OnCallReset(q.(ready := q.ready - multiset{h}), h)
  }

  /** The guard is by phone number only; the iterator is used as it was captured. */
  function OnCallReset<C>(q: Queue<C>, h: Handler): ResetResult<C> {
    if h.aborted then Ignored(q)
    else if h.cgPn !in q.pos then Ignored(q)
    else
      var slot := q.pos[h.cgPn];
      var i := IndexOf(q.calls, h.iter);
      if i == |q.calls| then ResetFault
      else
        TimedOut(q.(calls := RemoveAt(q.calls, i), pos := q.pos - {h.cgPn}, free := q.free + [slot]),
                 q.calls[i])
  }

  // ---------------------------------------------------------------------------------------
  // Invariant

  ghost predicate Owned<C>(q: Queue<C>, slot: nat) {
    slot in q.free || exists cgPn :: cgPn in q.pos && q.pos[cgPn] == slot
  }

  /** Free slots and map values partition 0..capacity-1, and a free slot's timer is never armed. */
  ghost predicate SlotsPartition<C>(q: Queue<C>) {
    && |q.timers| == q.capacity
    && |q.calls| + |q.free| == q.capacity
    && (forall i | 0 <= i < |q.free| :: q.free[i] < q.capacity && q.timers[q.free[i]] == Idle)
    && (forall i, j | 0 <= i < j < |q.free| :: q.free[i] != q.free[j])
    && (forall cgPn | cgPn in q.pos :: q.pos[cgPn] < q.capacity && q.pos[cgPn] !in q.free)
    && (forall a, b | a in q.pos && b in q.pos && a != b :: q.pos[a] != q.pos[b])
    && (forall slot: nat | slot < q.capacity :: Owned(q, slot))
  }

  ghost predicate IsWaiting<C>(q: Queue<C>, cgPn: string) {
    exists i :: 0 <= i < |q.calls| && q.calls[i].cgPn == cgPn
  }

  /** The map's keys are the numbers of the waiting calls, each waiting once. */
  ghost predicate KeysAreWaiting<C>(q: Queue<C>) {
    && (forall i | 0 <= i < |q.calls| :: q.calls[i].iter < q.nextIter && q.calls[i].cgPn in q.pos)
    && (forall i, j | 0 <= i < j < |q.calls| ::
          q.calls[i].iter != q.calls[j].iter && q.calls[i].cgPn != q.calls[j].cgPn)
    && (forall cgPn | cgPn in q.pos :: IsWaiting(q, cgPn))
  }

  /** A waiting call has exactly one live timeout: its slot is armed for its node,
      or one successful handler for that node is queued. */
  ghost predicate HasLiveTimeout<C>(q: Queue<C>, n: Node<C>) {
    && n.cgPn in q.pos
    && q.pos[n.cgPn] < |q.timers|
    && var t := q.timers[q.pos[n.cgPn]];
       var queued := q.ready[Handler(false, n.cgPn, n.iter)];
       (t == Armed(n.cgPn, n.iter) && queued == 0) || (t == Idle && queued == 1)
  }

  ghost predicate TimeoutsLive<C>(q: Queue<C>) {
    forall i | 0 <= i < |q.calls| :: HasLiveTimeout(q, q.calls[i])
  }

  /** Queued handlers denote nodes that exist or existed, and a node never changes its number. */
  ghost predicate HandlersKnown<C>(q: Queue<C>) {
    forall h | h in q.ready ::
      && h.iter < q.nextIter
      && (!h.aborted ==> q.ready[h] == 1)
      && (forall i | 0 <= i < |q.calls| && q.calls[i].iter == h.iter :: q.calls[i].cgPn == h.cgPn)
  }

  ghost predicate Valid<C>(q: Queue<C>) {
    SlotsPartition(q) && KeysAreWaiting(q) && TimeoutsLive(q) && HandlersKnown(q)
  }

  lemma EmptyValid<C>(capacity: nat)
    ensures Valid(Empty<C>(capacity))
  {
    var q := Empty<C>(capacity);
    forall slot: nat | slot < capacity ensures Owned(q, slot) {
      assert q.free[slot] == slot;
    }
  }

  // ---------------------------------------------------------------------------------------
  // Preservation

  /** q' is q with one more waiting call, on the slot at the head of the free queue. */
  ghost predicate IsLinked<C>(q: Queue<C>, n: Node<C>, q': Queue<C>) {
    && q.free != [] && q.free[0] < |q.timers| && n.iter == q.nextIter
    && q'.capacity == q.capacity
    && q'.calls == q.calls + [n]
    && q'.pos == q.pos[n.cgPn := q.free[0]]
    && q'.free == q.free[1..]
    && q'.timers == q.timers[q.free[0] := Armed(n.cgPn, n.iter)]
    && q'.nextIter == q.nextIter + 1
    && q'.ready == q.ready
  }

  lemma LinkedSlots<C>(q: Queue<C>, n: Node<C>, q': Queue<C>)
    requires SlotsPartition(q) && n.cgPn !in q.pos && IsLinked(q, n, q')
    ensures SlotsPartition(q')
  {
    var slot := q.free[0];
    assert q.free == [slot] + q.free[1..];
    forall s: nat | s < q'.capacity ensures Owned(q', s) {
      assert Owned(q, s);
      if s == slot {
        assert q'.pos[n.cgPn] == s;
      } else if s !in q.free {
        var c :| c in q.pos && q.pos[c] == s;
        assert q'.pos[c] == s;
      }
    }
  }

  lemma LinkedKeys<C>(q: Queue<C>, n: Node<C>, q': Queue<C>)
    requires KeysAreWaiting(q) && n.cgPn !in q.pos && IsLinked(q, n, q')
    ensures KeysAreWaiting(q')
  {
    forall c | c in q'.pos ensures IsWaiting(q', c) {
      if c == n.cgPn {
        assert q'.calls[|q.calls|].cgPn == c;
      } else {
        assert IsWaiting(q, c);
        var i :| 0 <= i < |q.calls| && q.calls[i].cgPn == c;
        assert q'.calls[i].cgPn == c;
      }
    }
  }

  lemma LinkedTimeouts<C>(q: Queue<C>, n: Node<C>, q': Queue<C>)
    requires Valid(q) && n.cgPn !in q.pos && IsLinked(q, n, q')
    ensures TimeoutsLive(q')
  {
    hide KeysAreWaiting;
    forall i | 0 <= i < |q'.calls| ensures HasLiveTimeout(q', q'.calls[i]) {
      if i < |q.calls| {
        assert HasLiveTimeout(q, q.calls[i]);
      } else if Handler(false, n.cgPn, n.iter) in q.ready {
        assert false;
      }
    }
  }

  lemma LinkedHandlers<C>(q: Queue<C>, n: Node<C>, q': Queue<C>)
    requires HandlersKnown(q) && IsLinked(q, n, q')
    ensures HandlersKnown(q')
  {
  }

  lemma PushValid<C>(q: Queue<C>, cgPn: string, call: C)
    requires Valid(q)
    ensures Push(q, cgPn, call).Pushed?
    ensures Valid(Push(q, cgPn, call).q)
  {
    if cgPn !in q.pos && |q.calls| < q.capacity {
      var n := Node(q.nextIter, cgPn, call);
      PushLinks(q, cgPn, call);
      var q' := Push(q, cgPn, call).q;
      hide SlotsPartition, KeysAreWaiting, TimeoutsLive, HandlersKnown, IsLinked, Push;
      LinkedSlots(q, n, q');
      LinkedKeys(q, n, q');
      LinkedTimeouts(q, n, q');
      LinkedHandlers(q, n, q');
    }
  }

  lemma PushLinks<C>(q: Queue<C>, cgPn: string, call: C)
    requires SlotsPartition(q) && cgPn !in q.pos && |q.calls| < q.capacity
    ensures Push(q, cgPn, call).Pushed? && Push(q, cgPn, call).status == OK
    ensures IsLinked(q, Node(q.nextIter, cgPn, call), Push(q, cgPn, call).q)
  {
    hide Owned;
    assert q.timers[q.free[0]] == Idle;
  }

  /** The slot that push arms is idle, so no handler is aborted and every armed timer stays as it was. */
  lemma PushCancelsNothing<C>(q: Queue<C>, cgPn: string, call: C)
    requires SlotsPartition(q) && Push(q, cgPn, call).Pushed?
    ensures Push(q, cgPn, call).q.ready == q.ready
    ensures |Push(q, cgPn, call).q.timers| == |q.timers|
    ensures forall slot | 0 <= slot < |q.timers| && q.timers[slot].Armed? ::
              Push(q, cgPn, call).q.timers[slot] == q.timers[slot]
  {
  }

  /** q' is q without node i: off the list and the map, its slot idle and at the end of the free queue. */
  ghost predicate IsUnlinked<C>(q: Queue<C>, i: nat, q': Queue<C>)
    requires i < |q.calls| && q.calls[i].cgPn in q.pos && q.pos[q.calls[i].cgPn] < |q.timers|
  {
    var node, slot := q.calls[i], q.pos[q.calls[i].cgPn];
    && q'.capacity == q.capacity
    && q'.calls == RemoveAt(q.calls, i)
    && q'.pos == q.pos - {node.cgPn}
    && q'.free == q.free + [slot]
    && q'.timers == q.timers[slot := Idle]
    && q'.nextIter == q.nextIter
    && (forall h: Handler | !h.aborted && h.iter != node.iter :: q'.ready[h] == q.ready[h])
    && (forall h | h in q'.ready && !h.aborted :: q'.ready[h] <= q.ready[h])
    && (forall h | h in q'.ready :: h in q.ready || (h.iter == node.iter && h.cgPn == node.cgPn))
  }

  lemma UnlinkedSlots<C>(q: Queue<C>, i: nat, q': Queue<C>)
    requires Valid(q) && i < |q.calls| && IsUnlinked(q, i, q')
    ensures SlotsPartition(q')
  {
    hide TimeoutsLive, HandlersKnown;
    var slot := q.pos[q.calls[i].cgPn];
    forall s: nat | s < q'.capacity ensures Owned(q', s) {
      assert Owned(q, s);
      if s == slot {
        assert q'.free[|q.free|] == s;
      } else if s in q.free {
        assert s in q'.free;
      } else {
        var c :| c in q.pos && q.pos[c] == s;
        assert q'.pos[c] == s;
      }
    }
  }

  lemma UnlinkedKeys<C>(q: Queue<C>, i: nat, q': Queue<C>)
    requires KeysAreWaiting(q) && i < |q.calls|
    requires q'.calls == RemoveAt(q.calls, i) && q'.pos == q.pos - {q.calls[i].cgPn} && q'.nextIter == q.nextIter
    ensures KeysAreWaiting(q')
  {
    hide IsWaiting, RemoveAt;
    RemovedNodes(q.calls, i);
    forall c | c in q'.pos ensures IsWaiting(q', c) {
      StillWaiting(q, i, q', c);
    }
    assert forall j | 0 <= j < |q'.calls| :: q'.calls[j] == q.calls[if j < i then j else j + 1];
  }

  lemma StillWaiting<C>(q: Queue<C>, i: nat, q': Queue<C>, c: string)
    requires i < |q.calls| && q'.calls == RemoveAt(q.calls, i) && IsWaiting(q, c) && c != q.calls[i].cgPn
    ensures IsWaiting(q', c)
  {
    var k :| 0 <= k < |q.calls| && q.calls[k].cgPn == c;
    assert q'.calls[if k < i then k else k - 1].cgPn == c;
  }

  lemma RemovedNodes<C>(calls: seq<Node<C>>, i: nat)
    requires i < |calls|
    ensures |RemoveAt(calls, i)| == |calls| - 1
    ensures forall j | 0 <= j < |calls| - 1 :: RemoveAt(calls, i)[j] == calls[if j < i then j else j + 1]
  {
  }

  lemma UnlinkedTimeouts<C>(q: Queue<C>, i: nat, q': Queue<C>)
    requires Valid(q) && i < |q.calls| && IsUnlinked(q, i, q')
    ensures TimeoutsLive(q')
  {
    hide HandlersKnown, IsWaiting, Owned;
    forall j | 0 <= j < |q'.calls| ensures HasLiveTimeout(q', q'.calls[j]) {
      var k := if j < i then j else j + 1;
      assert HasLiveTimeout(q, q.calls[k]) && q'.calls[j] == q.calls[k];
    }
  }

  lemma UnlinkedHandlers<C>(q: Queue<C>, i: nat, q': Queue<C>)
    requires Valid(q) && i < |q.calls| && IsUnlinked(q, i, q')
    ensures HandlersKnown(q')
  {
    hide SlotsPartition, TimeoutsLive, IsWaiting;
    forall h | h in q'.ready
      ensures h.iter < q'.nextIter && (!h.aborted ==> q'.ready[h] == 1)
      ensures forall j | 0 <= j < |q'.calls| && q'.calls[j].iter == h.iter :: q'.calls[j].cgPn == h.cgPn
    {
      forall j | 0 <= j < |q'.calls| && q'.calls[j].iter == h.iter ensures q'.calls[j].cgPn == h.cgPn {
        assert q'.calls[j] == q.calls[if j < i then j else j + 1];
      }
    }
  }

  lemma UnlinkedValid<C>(q: Queue<C>, i: nat, q': Queue<C>)
    requires Valid(q) && i < |q.calls| && IsUnlinked(q, i, q')
    ensures Valid(q')
  {
    hide SlotsPartition, KeysAreWaiting, TimeoutsLive, HandlersKnown;
    UnlinkedSlots(q, i, q');
    UnlinkedKeys(q, i, q');
    UnlinkedTimeouts(q, i, q');
    UnlinkedHandlers(q, i, q');
  }

  lemma PopValid<C>(q: Queue<C>)
    requires Valid(q)
    ensures q.calls == [] <==> Pop(q).NothingToPop?
    ensures q.calls != [] ==> Pop(q).Popped? && Valid(Pop(q).q)
  {
    if q.calls != [] {
      assert HasLiveTimeout(q, q.calls[0]);
      var q' := Pop(q).q;
      assert q'.timers == q.timers[q.pos[q.calls[0].cgPn] := Idle];
      UnlinkedValid(q, 0, q');
    }
  }

  /** An armed slot is armed for the waiting call that owns it. */
  lemma ArmedOwner<C>(q: Queue<C>, slot: nat) returns (k: nat)
    requires Valid(q) && slot < |q.timers| && q.timers[slot].Armed?
    ensures k < |q.calls|
    ensures q.timers[slot] == Armed(q.calls[k].cgPn, q.calls[k].iter)
    ensures q.calls[k].cgPn in q.pos && q.pos[q.calls[k].cgPn] == slot
    ensures q.ready[Handler(false, q.calls[k].cgPn, q.calls[k].iter)] == 0
  {
    assert Owned(q, slot);
    var c :| c in q.pos && q.pos[c] == slot;
    assert IsWaiting(q, c);
    k :| 0 <= k < |q.calls| && q.calls[k].cgPn == c;
    assert HasLiveTimeout(q, q.calls[k]);
  }

  lemma ExpireValid<C>(q: Queue<C>, slot: nat)
    requires Valid(q) && slot < |q.timers| && q.timers[slot].Armed?
    ensures Valid(Expire(q, slot))
  {
    var q' := Expire(q, slot);
    var k := ArmedOwner(q, slot);
    assert SlotsPartition(q') by {
      forall s: nat | s < q'.capacity ensures Owned(q', s) {
        assert Owned(q, s);
      }
    }
    assert KeysAreWaiting(q') by {
      forall cg | cg in q'.pos ensures IsWaiting(q', cg) {
        assert IsWaiting(q, cg);
      }
    }
    assert TimeoutsLive(q') by {
      forall i | 0 <= i < |q'.calls| ensures HasLiveTimeout(q', q'.calls[i]) {
        assert HasLiveTimeout(q, q.calls[i]);
        assert i == k || q.calls[i].iter != q.calls[k].iter;
      }
    }
    ExpireHandlers(q, slot, k);
  }

  lemma ExpireHandlers<C>(q: Queue<C>, slot: nat, k: nat)
    requires KeysAreWaiting(q) && HandlersKnown(q)
    requires slot < |q.timers| && k < |q.calls|
    requires q.timers[slot] == Armed(q.calls[k].cgPn, q.calls[k].iter)
    requires q.ready[Handler(false, q.calls[k].cgPn, q.calls[k].iter)] == 0
    ensures HandlersKnown(Expire(q, slot))
  {
    var q' := Expire(q, slot);
    forall h | h in q'.ready
      ensures h.iter < q'.nextIter && (!h.aborted ==> q'.ready[h] == 1)
      ensures forall j | 0 <= j < |q'.calls| && q'.calls[j].iter == h.iter :: q'.calls[j].cgPn == h.cgPn
    {
      if h == Handler(false, q.calls[k].cgPn, q.calls[k].iter) {
        assert forall j | 0 <= j < |q.calls| && q.calls[j].iter == h.iter :: j == k;
      } else {
        assert h in q.ready;
      }
    }
  }

  // ---------------------------------------------------------------------------------------
  // Late handlers

  /** Handler h outlived its node, and the number it was armed for is waiting again. */
  ghost predicate IsStale<C>(q: Queue<C>, h: Handler) {
    && h in q.ready && !h.aborted && h.cgPn in q.pos
    && forall i | 0 <= i < |q.calls| :: q.calls[i].iter != h.iter
  }

  ghost predicate NoneStale<C>(q: Queue<C>) {
    forall h | h in q.ready :: !IsStale(q, h)
  }

  lemma IndexOfNode<C>(calls: seq<Node<C>>, i: nat)
    requires i < |calls|
    requires forall j | 0 <= j < i :: calls[j].iter != calls[i].iter
    ensures IndexOf(calls, calls[i].iter) == i
  {
  }

  /** Running any queued handler keeps the invariant; it is undefined behaviour exactly for a stale one. */
  lemma RunHandlerValid<C>(q: Queue<C>, h: Handler)
    requires Valid(q) && h in q.ready
    ensures RunHandler(q, h).ResetFault? <==> IsStale(q, h)
    ensures !RunHandler(q, h).ResetFault? ==> Valid(RunHandler(q, h).q)
  {
    var q1 := q.(ready := q.ready - multiset{h});
    var i := IndexOf(q1.calls, h.iter);
    if !h.aborted && h.cgPn in q.pos && i < |q.calls| {
      var q' := RunHandler(q, h).q;
      assert q.calls[i].cgPn == h.cgPn;
      assert HasLiveTimeout(q, q.calls[i]);
      assert q'.timers == q.timers[q.pos[h.cgPn] := Idle];
      UnlinkedValid(q, i, q');
    } else if !RunHandler(q, h).ResetFault? {
      ForgetHandlerValid(q, h);
    }
  }

  /** Dropping a handler that is aborted, or whose number no longer waits, leaves every timeout in place. */
  lemma ForgetHandlerValid<C>(q: Queue<C>, h: Handler)
    requires Valid(q) && h in q.ready
    requires h.aborted || h.cgPn !in q.pos
    ensures Valid(q.(ready := q.ready - multiset{h}))
  {
    var q' := q.(ready := q.ready - multiset{h});
    forall s: nat | s < q'.capacity ensures Owned(q', s) {
      assert Owned(q, s);
    }
    forall cg | cg in q'.pos ensures IsWaiting(q', cg) {
      assert IsWaiting(q, cg);
    }
    forall i | 0 <= i < |q'.calls| ensures HasLiveTimeout(q', q'.calls[i]) {
      assert HasLiveTimeout(q, q.calls[i]);
    }
  }

  ghost predicate NoLateHandlerFor<C>(q: Queue<C>, cgPn: string) {
    forall h | h in q.ready :: h.aborted || h.cgPn != cgPn
  }

  /** Accepting a number is safe exactly when no successful handler for it is still queued:
      afterwards a stale handler exists if and only if there was one. */
  lemma AcceptIsSafeIff<C>(q: Queue<C>, cgPn: string, call: C)
    requires Valid(q) && NoneStale(q)
    requires cgPn !in q.pos && |q.calls| < q.capacity
    ensures NoneStale(Push(q, cgPn, call).q) <==> NoLateHandlerFor(q, cgPn)
  {
    PushValid(q, cgPn, call);
    var q' := Push(q, cgPn, call).q;
    assert q'.calls == q.calls + [Node(q.nextIter, cgPn, call)];
    assert q'.ready == q.ready;
    if NoLateHandlerFor(q, cgPn) {
      forall h | h in q'.ready ensures !IsStale(q', h) {
        if !h.aborted && h.cgPn in q'.pos {
          assert !IsStale(q, h);
          var i :| 0 <= i < |q.calls| && q.calls[i].iter == h.iter;
          assert q'.calls[i].iter == h.iter;
        }
      }
    } else {
      var h :| h in q.ready && !h.aborted && h.cgPn == cgPn;
      forall i | 0 <= i < |q'.calls| ensures q'.calls[i].iter != h.iter {
      }
      assert IsStale(q', h);
    }
  }

  ghost predicate HasNode<C>(q: Queue<C>, iter: nat) {
    exists i :: 0 <= i < |q.calls| && q.calls[i].iter == iter
  }

  /** Losing numbers, and only the nodes of those numbers, makes no handler stale. */
  lemma ShrinkingKeepsNoneStale<C>(q: Queue<C>, q': Queue<C>)
    requires HandlersKnown(q) && NoneStale(q)
    requires forall h | h in q'.ready :: h in q.ready || h.aborted
    requires q'.pos.Keys <= q.pos.Keys
    requires forall i | 0 <= i < |q.calls| && q.calls[i].cgPn in q'.pos :: HasNode(q', q.calls[i].iter)
    ensures NoneStale(q')
  {
    forall h | h in q'.ready ensures !IsStale(q', h) {
      if !h.aborted && h.cgPn in q'.pos {
        assert !IsStale(q, h);
        var i :| 0 <= i < |q.calls| && q.calls[i].iter == h.iter;
        assert q.calls[i].cgPn == h.cgPn;
        assert HasNode(q', h.iter);
      }
    }
  }

  lemma PopKeepsNoneStale<C>(q: Queue<C>)
    requires Valid(q) && NoneStale(q) && q.calls != []
    ensures Pop(q).Popped? && NoneStale(Pop(q).q)
  {
    PopValid(q);
    var q' := Pop(q).q;
    forall i | 0 <= i < |q.calls| && q.calls[i].cgPn in q'.pos ensures HasNode(q', q.calls[i].iter) {
      assert q'.calls[i - 1] == q.calls[i];
    }
    ShrinkingKeepsNoneStale(q, q');
  }

  lemma ExpireKeepsNoneStale<C>(q: Queue<C>, slot: nat)
    requires Valid(q) && NoneStale(q) && slot < |q.timers| && q.timers[slot].Armed?
    ensures NoneStale(Expire(q, slot))
  {
    var q' := Expire(q, slot);
    var k := ArmedOwner(q, slot);
    forall h | h in q'.ready ensures !IsStale(q', h) {
      if h in q.ready {
        assert !IsStale(q, h);
      } else {
        assert q'.calls[k].iter == h.iter;
      }
    }
  }

  lemma RunHandlerKeepsNoneStale<C>(q: Queue<C>, h: Handler)
    requires Valid(q) && NoneStale(q) && h in q.ready
    ensures !RunHandler(q, h).ResetFault? && NoneStale(RunHandler(q, h).q)
  {
    hide SlotsPartition, KeysAreWaiting, TimeoutsLive;
    assert !IsStale(q, h);
    var i := IndexOf(q.calls, h.iter);
    var q' := RunHandler(q, h).q;
    if RunHandler(q, h).TimedOut? {
      assert q.calls[i].cgPn == h.cgPn;
      RemainingNodes(q, i, q');
    } else {
      forall k | 0 <= k < |q.calls| ensures HasNode(q', q.calls[k].iter) {
        assert q'.calls[k] == q.calls[k];
      }
    }
    ShrinkingKeepsNoneStale(q, q');
  }

  lemma RemainingNodes<C>(q: Queue<C>, i: nat, q': Queue<C>)
    requires i < |q.calls| && q'.calls == RemoveAt(q.calls, i) && q.calls[i].cgPn !in q'.pos
    ensures forall k | 0 <= k < |q.calls| && q.calls[k].cgPn in q'.pos :: HasNode(q', q.calls[k].iter)
  {
    forall k | 0 <= k < |q.calls| && q.calls[k].cgPn in q'.pos ensures HasNode(q', q.calls[k].iter) {
      assert q'.calls[if k < i then k else k - 1] == q.calls[k];
    }
  }

  /** What running a handler that is not stale does: if its node is still waiting, exactly that
      node times out; otherwise nothing but the handler itself disappears. */
  lemma HandlerEffect<C>(q: Queue<C>, h: Handler)
    requires Valid(q) && h in q.ready && !IsStale(q, h)
    ensures (h.aborted || forall i | 0 <= i < |q.calls| :: q.calls[i].iter != h.iter)
            ==> RunHandler(q, h) == Ignored(q.(ready := q.ready - multiset{h}))
    ensures forall i | 0 <= i < |q.calls| && q.calls[i].iter == h.iter && !h.aborted ::
              var r := RunHandler(q, h);
              && r.TimedOut? && r.node == q.calls[i] && r.node.cgPn == h.cgPn
              && r.q.calls == q.calls[..i] + q.calls[i + 1..]
              && r.q.pos == q.pos - {h.cgPn}
              && r.q.timers == q.timers
  {
    forall i | 0 <= i < |q.calls| && q.calls[i].iter == h.iter && !h.aborted
      ensures var r := RunHandler(q, h);
              && r.TimedOut? && r.node == q.calls[i] && r.node.cgPn == h.cgPn
              && r.q.calls == q.calls[..i] + q.calls[i + 1..]
              && r.q.pos == q.pos - {h.cgPn}
              && r.q.timers == q.timers
    {
      IndexOfNode(q.calls, i);
    }
  }
}
