/**
  The blocking queue as a step system: any number of threads, the mutex-protected sections as
  atomic steps, and both condition variables with their sleepers.  A sleeper may be notified,
  may wake spuriously, and in dequeue_for may time out; in each case it takes the mutex again
  and looks at the queue again.
*/
module BlockingQueue {
  import opened CircularQueue

  /** What a thread is about to do.  `woken` marks a thread coming back from its condition variable. */
  datatype Pc<T> =
    | Idle
    | EnqueueLock(item: T, woken: bool)
    | EnqueueSleep(item: T)                 // on pop_cv_
    | NowaitLock(item: T)
    | IfRoomLock(item: T)
    | NotifyPush                            // mutex released, push_cv_.notify_one() to come
    | CountDiscard                          // mutex released, ++discard_counter_ to come
    | DequeueLock(timed: bool, woken: bool)
    | DequeueSleep(timed: bool)             // on push_cv_
    | DequeueTimedOut
    | NotifyPop(item: T)                    // mutex released with item popped, pop_cv_.notify_one() to come

  datatype Op<T> = OpEnqueue(item: T) | OpNowait(item: T) | OpIfRoom(item: T) | OpDequeue(timed: bool)

  /** How an item left the queue. */
  datatype Removed<T> = Dequeued(thread: nat, item: T) | Overrun(item: T)

  datatype State<T> = State(
    capacity: nat,
    items: seq<T>,
    overrunCounter: nat,
    discardCounter: nat,
    pcs: seq<Pc<T>>,
    // History: everything written, everything removed in order, the number of rejected items.
    written: seq<T>,
    removed: seq<Removed<T>>,
    rejected: nat)

  function Init<T>(capacity: nat, threads: nat): State<T> {
    State(capacity, [], 0, 0, seq(threads, i => Idle), [], [], 0)
  }

  datatype Sleeper = Nobody | Thread(t: nat)

  datatype Label<T> =
    | Call(t: nat, op: Op<T>)
    | Lock(t: nat)                   // take the mutex, run the section, release
    | Notify(t: nat, who: Sleeper)   // notify_one, waking who
    | Count(t: nat)
    | Timeout(t: nat)
    | Spurious(t: nat)

  predicate AtLock<T>(pc: Pc<T>) {
    pc.EnqueueLock? || pc.NowaitLock? || pc.IfRoomLock? || pc.DequeueLock? || pc.DequeueTimedOut?
  }

  predicate Asleep<T>(pc: Pc<T>) {
    pc.EnqueueSleep? || pc.DequeueSleep?
  }

  /** Some thread sleeps on push_cv_. */
  ghost predicate ConsumerSleeps<T>(pcs: seq<Pc<T>>) {
    exists i :: 0 <= i < |pcs| && pcs[i].DequeueSleep?
  }

  /** Some thread sleeps on pop_cv_. */
  ghost predicate ProducerSleeps<T>(pcs: seq<Pc<T>>) {
    exists i :: 0 <= i < |pcs| && pcs[i].EnqueueSleep?
  }

  /** notify_one wakes one sleeper of its condition variable if there is any. */
  ghost predicate MayWake<T>(pcs: seq<Pc<T>>, t: nat, who: Sleeper)
    requires t < |pcs|
  {
    match (pcs[t], who)
    case (NotifyPush, Nobody) => !ConsumerSleeps(pcs)
    case (NotifyPush, Thread(w)) => w < |pcs| && pcs[w].DequeueSleep?
    case (NotifyPop(_), Nobody) => !ProducerSleeps(pcs)
    case (NotifyPop(_), Thread(w)) => w < |pcs| && pcs[w].EnqueueSleep?
    case _ => false
  }

  ghost predicate Enabled<T>(s: State<T>, l: Label<T>) {
    && l.t < |s.pcs|
    && match l
       case Call(t, _) => s.pcs[t].Idle?
       case Lock(t) => AtLock(s.pcs[t])
       case Notify(t, who) => MayWake(s.pcs, t, who)
       case Count(t) => s.pcs[t].CountDiscard?
       case Timeout(t) => s.pcs[t] == DequeueSleep(true)
       case Spurious(t) => Asleep(s.pcs[t])
  }

  function Started<T>(op: Op<T>): Pc<T> {
    match op
    case OpEnqueue(x) => EnqueueLock(x, false)
    case OpNowait(x) => NowaitLock(x)
    case OpIfRoom(x) => IfRoomLock(x)
    case OpDequeue(timed) => DequeueLock(timed, false)
  }

  function Woken<T>(pc: Pc<T>): Pc<T>
    requires Asleep(pc)
  {
    match pc
    case EnqueueSleep(x) => EnqueueLock(x, true)
    case DequeueSleep(timed) => DequeueLock(timed, true)
  }

  function Put<T>(s: State<T>, t: nat, pc: Pc<T>): State<T>
    requires t < |s.pcs|
  {
    s.(pcs := s.pcs[t := pc])
  }

  /** push_back under the mutex. */
  function Write<T>(s: State<T>, item: T): State<T> {
    var full := |s.items| >= s.capacity;
    s.(items := Appended(s.items, s.capacity, item),
    overrunCounter := s.overrunCounter + if full then 1 else 0,
    written := s.written + [item],
    removed := s.removed + if full then [Overrun((s.items + [item])[0])] else [])
  }

  /** front and pop_front under the mutex. */
  function Read<T>(s: State<T>, t: nat): State<T>
    requires s.items != []
  {
    s.(items := s.items[1..], removed := s.removed + [Dequeued(t, s.items[0])])
  }

  function Section<T>(s: State<T>, t: nat): State<T>
    requires t < |s.pcs| && AtLock(s.pcs[t])
  {
    match s.pcs[t]
    case EnqueueLock(x, _) =>
      if |s.items| >= s.capacity then Put(s, t, EnqueueSleep(x)) else Put(Write(s, x), t, NotifyPush)
    case NowaitLock(x) => Put(Write(s, x), t, NotifyPush)
    case IfRoomLock(x) =>
      if |s.items| >= s.capacity then Put(s, t, CountDiscard).(rejected := s.rejected + 1)
      else Put(Write(s, x), t, NotifyPush)
    case DequeueLock(timed, _) =>
      if s.items == [] then Put(s, t, DequeueSleep(timed)) else Put(Read(s, t), t, NotifyPop(s.items[0]))
    case DequeueTimedOut =>
      if s.items == [] then Put(s, t, Idle) else Put(Read(s, t), t, NotifyPop(s.items[0]))
  }

  ghost function Next<T>(s: State<T>, l: Label<T>): State<T>
    requires Enabled(s, l)
  {
    match l
    case Call(t, op) => Put(s, t, Started(op))
    case Lock(t) => Section(s, t)
    case Notify(t, Nobody) => Put(s, t, Idle)
    case Notify(t, Thread(w)) => Put(Put(s, w, Woken(s.pcs[w])), t, Idle)
    case Count(t) => Put(s, t, Idle).(discardCounter := s.discardCounter + 1)
    case Timeout(t) => Put(s, t, DequeueTimedOut)
    case Spurious(t) => Put(s, t, Woken(s.pcs[t]))
  }

  ghost predicate IsRun<T(!new)>(s: State<T>, labels: seq<Label<T>>)
    decreases |labels|
  {
    labels == [] || (Enabled(s, labels[0]) && IsRun(Next(s, labels[0]), labels[1..]))
  }

  ghost function After<T(!new)>(s: State<T>, labels: seq<Label<T>>): State<T>
    requires IsRun(s, labels)
    decreases |labels|
  {
    if labels == [] then s else After(Next(s, labels[0]), labels[1..])
  }

  // ---------------------------------------------------------------------------------------
  // Weights of threads

  function Sum<T>(pcs: seq<Pc<T>>, f: Pc<T> -> nat): nat {
    if pcs == [] then 0 else f(pcs[0]) + Sum(pcs[1..], f)
  }

  lemma {:induction false} SumUpdate<T>(pcs: seq<Pc<T>>, t: nat, pc: Pc<T>, f: Pc<T> -> nat)
    requires t < |pcs|
    ensures Sum(pcs[t := pc], f) + f(pcs[t]) == Sum(pcs, f) + f(pc)
  {
    if t > 0 {
      assert pcs[t := pc][1..] == pcs[1..][t - 1 := pc];
      SumUpdate(pcs[1..], t - 1, pc, f);
    } else {
      assert pcs[t := pc][1..] == pcs[1..];
    }
  }

  lemma {:induction false} SumPositive<T>(pcs: seq<Pc<T>>, f: Pc<T> -> nat) returns (t: nat)
    requires Sum(pcs, f) > 0
    ensures t < |pcs| && f(pcs[t]) > 0
  {
    if f(pcs[0]) > 0 {
      t := 0;
    } else {
      t := SumPositive(pcs[1..], f);
      t := t + 1;
    }
  }

  lemma {:induction false} SumAtLeast<T>(pcs: seq<Pc<T>>, t: nat, f: Pc<T> -> nat)
    requires t < |pcs|
    ensures Sum(pcs, f) >= f(pcs[t])
  {
    if t == 0 {
    } else {
      SumAtLeast(pcs[1..], t - 1, f);
    }
  }

  lemma {:induction false} SumIdle<T>(threads: nat, f: Pc<T> -> nat)
    requires f(Idle) == 0
    ensures Sum(seq(threads, i => Idle), f) == 0
  {
    if threads == 0 {
    } else {
      assert seq(threads, i => Pc<T>.Idle)[1..] == seq(threads - 1, i => Idle);
      SumIdle(threads - 1, f);
    }
  }

  /** On its way to a sleeping consumer, or a consumer on its way to the queue. */
  function Feeding<T>(pc: Pc<T>): nat {
    if pc.NotifyPush? || (pc.DequeueLock? && pc.woken) || pc.DequeueTimedOut? then 1 else 0
  }

  /** On its way to a sleeping producer, or a producer on its way to the queue. */
  function Draining<T>(pc: Pc<T>): nat {
    if pc.NotifyPop? || (pc.EnqueueLock? && pc.woken) then 1 else 0
  }

  function Discarding<T>(pc: Pc<T>): nat {
    if pc.CountDiscard? then 1 else 0
  }

  // ---------------------------------------------------------------------------------------
  // No lost wakeup

  /** If some consumer sleeps, every stored item has a notification or a woken consumer coming
      for it; if some producer sleeps, so has every free place. */
  ghost predicate NoLostWakeup<T>(s: State<T>) {
    && |s.items| <= s.capacity
    && (ConsumerSleeps(s.pcs) ==> |s.items| <= Sum(s.pcs, Feeding))
    && (ProducerSleeps(s.pcs) ==> s.capacity - |s.items| <= Sum(s.pcs, Draining))
  }

  /** Putting a thread elsewhere adds no sleeper unless it goes to sleep itself. */
  lemma PutSleepers<T>(s: State<T>, t: nat, pc: Pc<T>)
    requires t < |s.pcs|
    ensures ConsumerSleeps(Put(s, t, pc).pcs) ==> ConsumerSleeps(s.pcs) || pc.DequeueSleep?
    ensures ProducerSleeps(Put(s, t, pc).pcs) ==> ProducerSleeps(s.pcs) || pc.EnqueueSleep?
    ensures Sum(Put(s, t, pc).pcs, Feeding) + Feeding(s.pcs[t]) == Sum(s.pcs, Feeding) + Feeding(pc)
    ensures Sum(Put(s, t, pc).pcs, Draining) + Draining(s.pcs[t]) == Sum(s.pcs, Draining) + Draining(pc)
  {
    SumUpdate(s.pcs, t, pc, Feeding);
    SumUpdate(s.pcs, t, pc, Draining);
  }

  lemma SectionKeepsWakeups<T>(s: State<T>, t: nat)
    requires NoLostWakeup(s) && t < |s.pcs| && AtLock(s.pcs[t])
    ensures NoLostWakeup(Section(s, t))
  {
    hide ConsumerSleeps, ProducerSleeps, Sum;
    var s' := Section(s, t);
    PutSleepers(s, t, s'.pcs[t]);
  }

  lemma NotifyKeepsWakeups<T>(s: State<T>, t: nat, who: Sleeper)
    requires NoLostWakeup(s) && Enabled(s, Notify(t, who))
    ensures NoLostWakeup(Next(s, Notify(t, who)))
  {
    hide ConsumerSleeps, ProducerSleeps, Sum;
    match who
    case Nobody => PutSleepers(s, t, Idle);
    case Thread(w) =>
      var s1 := Put(s, w, Woken(s.pcs[w]));
      PutSleepers(s, w, Woken(s.pcs[w]));
      PutSleepers(s1, t, Idle);
  }

  lemma StepKeepsWakeups<T>(s: State<T>, l: Label<T>)
    requires NoLostWakeup(s) && Enabled(s, l)
    ensures NoLostWakeup(Next(s, l))
  {
    hide ConsumerSleeps, ProducerSleeps, Sum;
    match l
    case Call(t, op) => PutSleepers(s, t, Started(op));
    case Lock(t) => SectionKeepsWakeups(s, t);
    case Notify(t, who) => NotifyKeepsWakeups(s, t, who);
    case Count(t) => PutSleepers(s, t, Idle);
    case Timeout(t) => PutSleepers(s, t, DequeueTimedOut);
    case Spurious(t) => PutSleepers(s, t, Woken(s.pcs[t]));
  }

  // ---------------------------------------------------------------------------------------
  // FIFO and conservation

  function ItemsOf<T>(removed: seq<Removed<T>>): seq<T> {
    seq(|removed|, i requires 0 <= i < |removed| => removed[i].item)
  }

  function Overruns<T>(removed: seq<Removed<T>>): nat {
    if removed == [] then 0 else Overruns(removed[..|removed| - 1]) + if removed[|removed| - 1].Overrun? then 1 else 0
  }

  function Dequeues<T>(removed: seq<Removed<T>>): nat {
    if removed == [] then 0 else Dequeues(removed[..|removed| - 1]) + if removed[|removed| - 1].Dequeued? then 1 else 0
  }

  /** Everything written has been removed, in order, or is still stored, in order. */
  ghost predicate Fifo<T>(s: State<T>) {
    && |s.items| <= s.capacity
    && s.written == ItemsOf(s.removed) + s.items
    && s.overrunCounter == Overruns(s.removed)
    && s.rejected == s.discardCounter + Sum(s.pcs, Discarding)
  }

  lemma RemoveOne<T>(removed: seq<Removed<T>>, r: Removed<T>)
    ensures ItemsOf(removed + [r]) == ItemsOf(removed) + [r.item]
    ensures Overruns(removed + [r]) == Overruns(removed) + if r.Overrun? then 1 else 0
    ensures Dequeues(removed + [r]) == Dequeues(removed) + if r.Dequeued? then 1 else 0
  {
    assert (removed + [r])[..|removed|] == removed;
  }

  lemma WriteKeepsFifo<T>(s: State<T>, item: T)
    requires Fifo(s)
    ensures Fifo(Write(s, item))
  {
    var all := s.items + [item];
    if |s.items| >= s.capacity {
      RemoveOne(s.removed, Overrun(all[0]));
      assert ItemsOf(s.removed) + [all[0]] + all[1..] == ItemsOf(s.removed) + s.items + [item];
    } else {
      assert s.removed + [] == s.removed;
      assert ItemsOf(s.removed) + (s.items + [item]) == ItemsOf(s.removed) + s.items + [item];
    }
  }

  lemma ReadKeepsFifo<T>(s: State<T>, t: nat)
    requires Fifo(s) && s.items != []
    ensures Fifo(Read(s, t))
  {
    RemoveOne(s.removed, Dequeued(t, s.items[0]));
    assert ItemsOf(s.removed) + [s.items[0]] + s.items[1..] == ItemsOf(s.removed) + s.items;
  }

  lemma SectionKeepsFifo<T>(s: State<T>, t: nat)
    requires Fifo(s) && t < |s.pcs| && AtLock(s.pcs[t])
    ensures Fifo(Section(s, t))
  {
    SumUpdate(s.pcs, t, Section(s, t).pcs[t], Discarding);
    match s.pcs[t]
    case EnqueueLock(x, _) => WriteKeepsFifo(s, x);
    case NowaitLock(x) => WriteKeepsFifo(s, x);
    case IfRoomLock(x) => WriteKeepsFifo(s, x);
    case DequeueLock(_, _) => if s.items != [] { ReadKeepsFifo(s, t); }
    case DequeueTimedOut => if s.items != [] { ReadKeepsFifo(s, t); }
  }

  lemma PutKeepsFifo<T>(s: State<T>, t: nat, pc: Pc<T>)
    requires Fifo(s) && t < |s.pcs| && Discarding(pc) == Discarding(s.pcs[t])
    ensures Fifo(Put(s, t, pc))
  {
    SumUpdate(s.pcs, t, pc, Discarding);
  }

  lemma StepKeepsFifo<T>(s: State<T>, l: Label<T>)
    requires Fifo(s) && Enabled(s, l)
    ensures Fifo(Next(s, l))
  {
    match l
    case Call(t, op) => PutKeepsFifo(s, t, Started(op));
    case Lock(t) => SectionKeepsFifo(s, t);
    case Notify(t, Nobody) => PutKeepsFifo(s, t, Idle);
    case Notify(t, Thread(w)) =>
      PutKeepsFifo(s, w, Woken(s.pcs[w]));
      PutKeepsFifo(Put(s, w, Woken(s.pcs[w])), t, Idle);
    case Count(t) => SumUpdate(s.pcs, t, Idle, Discarding);
    case Timeout(t) => PutKeepsFifo(s, t, DequeueTimedOut);
    case Spurious(t) => PutKeepsFifo(s, t, Woken(s.pcs[t]));
  }

  // ---------------------------------------------------------------------------------------
  // Runs

  lemma InitHolds<T>(capacity: nat, threads: nat)
    ensures NoLostWakeup(Init<T>(capacity, threads)) && Fifo(Init<T>(capacity, threads))
  {
    SumIdle<T>(threads, Discarding);
  }

  lemma {:induction false} RunKeeps<T(!new)>(s: State<T>, labels: seq<Label<T>>)
    requires NoLostWakeup(s) && Fifo(s) && IsRun(s, labels)
    ensures NoLostWakeup(After(s, labels)) && Fifo(After(s, labels))
    ensures After(s, labels).capacity == s.capacity && |After(s, labels).pcs| == |s.pcs|
    decreases |labels|
  {
    if labels == [] {
    } else {
      StepKeepsWakeups(s, labels[0]);
      StepKeepsFifo(s, labels[0]);
      RunKeeps(Next(s, labels[0]), labels[1..]);
    }
  }

  /** Nobody is between two steps of an operation: every thread is idle or asleep. */
  ghost predicate Settled<T>(s: State<T>) {
    forall t | 0 <= t < |s.pcs| :: s.pcs[t].Idle? || Asleep(s.pcs[t])
  }

  /** In every interleaving: no wakeup is lost, so when the queue has settled a consumer sleeps
      only on an empty queue and a producer only on a full one. */
  lemma NoSleeperCouldProceed<T(!new)>(capacity: nat, threads: nat, labels: seq<Label<T>>)
    requires IsRun(Init(capacity, threads), labels)
    ensures var s := After(Init(capacity, threads), labels);
            && NoLostWakeup(s)
            && (Settled(s) && ConsumerSleeps(s.pcs) ==> s.items == [])
            && (Settled(s) && ProducerSleeps(s.pcs) ==> |s.items| == capacity)
            && (Settled(s) && capacity > 0 ==> !(ConsumerSleeps(s.pcs) && ProducerSleeps(s.pcs)))
  {
    InitHolds<T>(capacity, threads);
    RunKeeps(Init<T>(capacity, threads), labels);
    var s := After(Init(capacity, threads), labels);
    if Settled(s) {
      SettledSums(s);
    }
  }

  lemma SettledSums<T>(s: State<T>)
    requires Settled(s)
    ensures Sum(s.pcs, Feeding) == 0 && Sum(s.pcs, Draining) == 0
  {
    if Sum(s.pcs, Feeding) > 0 {
      var t := SumPositive(s.pcs, Feeding);
    }
    if Sum(s.pcs, Draining) > 0 {
      var t := SumPositive(s.pcs, Draining);
    }
  }

  /** In every interleaving the queue is a bounded FIFO: the removed items followed by the stored
      ones are the written ones, each counter counts what it is named for, and the two ways of
      leaving the queue account for everything. */
  lemma BoundedFifo<T(!new)>(capacity: nat, threads: nat, labels: seq<Label<T>>)
    requires IsRun(Init(capacity, threads), labels)
    ensures var s := After(Init(capacity, threads), labels);
            && |s.items| <= capacity
            && s.written == ItemsOf(s.removed) + s.items
            && |s.written| == Dequeues(s.removed) + |s.items| + s.overrunCounter
            && s.rejected == s.discardCounter + Sum(s.pcs, Discarding)
  {
    InitHolds<T>(capacity, threads);
    RunKeeps(Init<T>(capacity, threads), labels);
    RemovedCount(After(Init(capacity, threads), labels).removed);
  }

  lemma RemovedCount<T>(removed: seq<Removed<T>>)
    ensures |removed| == Dequeues(removed) + Overruns(removed)
  {
  }

  /** A writer drops an item only when the queue is full, and then the oldest one; a queue
      without room drops the new item itself. */
  lemma OverrunDropsOldest<T>(s: State<T>, t: nat)
    requires Fifo(s) && t < |s.pcs| && s.pcs[t].NowaitLock?
    ensures var s', item := Next(s, Lock(t)), s.pcs[t].item;
            if |s.items| < s.capacity then s'.removed == s.removed && s'.items == s.items + [item]
            else if s.capacity == 0 then s'.removed == s.removed + [Overrun(item)] && s'.items == []
            else s'.removed == s.removed + [Overrun(s.items[0])] && s'.items == s.items[1..] + [item]
  {
    if s.capacity > 0 && |s.items| >= s.capacity {
      assert (s.items + [s.pcs[t].item])[1..] == s.items[1..] + [s.pcs[t].item];
    }
  }

  // ---------------------------------------------------------------------------------------
  // What each operation does, from its call

  /** Calling the blocking enqueue: with room the item is appended, without room the caller sleeps. */
  lemma EnqueueEffect<T(!new)>(s: State<T>, t: nat, item: T)
    requires t < |s.pcs| && s.pcs[t].Idle? && |s.items| <= s.capacity
    ensures IsRun(s, [Call(t, OpEnqueue(item)), Lock(t)])
    ensures var s' := After(s, [Call(t, OpEnqueue(item)), Lock(t)]);
            && s'.removed == s.removed && s'.overrunCounter == s.overrunCounter && s'.rejected == s.rejected
            && if |s.items| < s.capacity
               then s'.items == s.items + [item] && s'.written == s.written + [item] && s'.pcs == s.pcs[t := NotifyPush]
               else s'.items == s.items && s'.written == s.written && s'.pcs == s.pcs[t := EnqueueSleep(item)]
  {
    TwoSteps(s, Call(t, OpEnqueue(item)), Lock(t));
  }

  /** Calling enqueue_nowait: the item is always written; a full queue loses its oldest item. */
  lemma NowaitEffect<T(!new)>(s: State<T>, t: nat, item: T)
    requires t < |s.pcs| && s.pcs[t].Idle? && |s.items| <= s.capacity
    ensures IsRun(s, [Call(t, OpNowait(item)), Lock(t)])
    ensures var s' := After(s, [Call(t, OpNowait(item)), Lock(t)]);
            && s'.written == s.written + [item] && s'.rejected == s.rejected && s'.pcs == s.pcs[t := NotifyPush]
            && if |s.items| < s.capacity
               then s'.items == s.items + [item] && s'.removed == s.removed
               else s'.items == (s.items + [item])[1..] && s'.removed == s.removed + [Overrun((s.items + [item])[0])]
  {
    TwoSteps(s, Call(t, OpNowait(item)), Lock(t));
  }

  /** Calling enqueue_if_have_room: a full queue stays as it is and the item is rejected. */
  lemma IfRoomEffect<T(!new)>(s: State<T>, t: nat, item: T)
    requires t < |s.pcs| && s.pcs[t].Idle? && |s.items| <= s.capacity
    ensures IsRun(s, [Call(t, OpIfRoom(item)), Lock(t)])
    ensures var s' := After(s, [Call(t, OpIfRoom(item)), Lock(t)]);
            && s'.removed == s.removed && s'.overrunCounter == s.overrunCounter
            && if |s.items| < s.capacity
               then s'.items == s.items + [item] && s'.written == s.written + [item] && s'.rejected == s.rejected
                    && s'.pcs == s.pcs[t := NotifyPush]
               else s'.items == s.items && s'.written == s.written && s'.rejected == s.rejected + 1
                    && s'.pcs == s.pcs[t := CountDiscard]
  {
    TwoSteps(s, Call(t, OpIfRoom(item)), Lock(t));
  }

  /** Calling dequeue or dequeue_for: the oldest item leaves, and an empty queue puts the caller to
      sleep, from which only the timed one can wake by itself and give up. */
  lemma DequeueEffect<T(!new)>(s: State<T>, t: nat, timed: bool)
    requires t < |s.pcs| && s.pcs[t].Idle?
    ensures IsRun(s, [Call(t, OpDequeue(timed)), Lock(t)])
    ensures var s' := After(s, [Call(t, OpDequeue(timed)), Lock(t)]);
            && s'.written == s.written
            && if s.items == []
               then s'.items == [] && s'.removed == s.removed && (Enabled(s', Timeout(t)) <==> timed)
               else s'.items == s.items[1..] && s'.removed == s.removed + [Dequeued(t, s.items[0])]
                    && s'.pcs == s.pcs[t := NotifyPop(s.items[0])]
  {
    TwoSteps(s, Call(t, OpDequeue(timed)), Lock(t));
  }

  lemma TimedDequeueGivesUp<T(!new)>(s: State<T>, t: nat)
    requires t < |s.pcs| && s.pcs[t].Idle? && s.items == []
    ensures IsRun(s, [Call(t, OpDequeue(true)), Lock(t)])
    ensures var s' := After(s, [Call(t, OpDequeue(true)), Lock(t)]);
            IsRun(s', [Timeout(t), Lock(t)]) && After(s', [Timeout(t), Lock(t)]) == s
  {
    TwoSteps(s, Call(t, OpDequeue(true)), Lock(t));
    var s' := After(s, [Call(t, OpDequeue(true)), Lock(t)]);
    TwoSteps(s', Timeout(t), Lock(t));
    assert After(s', [Timeout(t), Lock(t)]).pcs == s.pcs;
  }

  /** The scheduler is free: an idle thread may call anything, a thread at its lock may take it, a
      notification may wake any sleeper of its condition variable, and any sleeper may wake by itself. */
  lemma SchedulerIsFree<T>(s: State<T>, t: nat, w: nat)
    requires t < |s.pcs| && w < |s.pcs|
    ensures s.pcs[t].Idle? ==> forall op :: Enabled(s, Call(t, op))
    ensures s.pcs[t].EnqueueLock? || s.pcs[t].NowaitLock? || s.pcs[t].IfRoomLock? ==> Enabled(s, Lock(t))
    ensures s.pcs[t].DequeueLock? || s.pcs[t].DequeueTimedOut? ==> Enabled(s, Lock(t))
    ensures s.pcs[t].NotifyPush? && s.pcs[w].DequeueSleep? ==> Enabled(s, Notify(t, Thread(w)))
    ensures s.pcs[t].NotifyPop? && s.pcs[w].EnqueueSleep? ==> Enabled(s, Notify(t, Thread(w)))
    ensures s.pcs[w].EnqueueSleep? ==>
              Enabled(s, Spurious(w)) && Next(s, Spurious(w)).pcs[w] == EnqueueLock(s.pcs[w].item, true)
    ensures s.pcs[w].DequeueSleep? ==>
              Enabled(s, Spurious(w)) && Next(s, Spurious(w)).pcs[w] == DequeueLock(s.pcs[w].timed, true)
  {
  }

  lemma TwoSteps<T(!new)>(s: State<T>, k: Label<T>, l: Label<T>)
    requires Enabled(s, k) && Enabled(Next(s, k), l)
    ensures IsRun(s, [k, l]) && After(s, [k, l]) == Next(Next(s, k), l)
  {
    hide Enabled, Next;
    OneStep(Next(s, k), l);
    var labels := [k, l];
    assert labels[1..] == [l];
  }

  lemma OneStep<T(!new)>(s: State<T>, l: Label<T>)
    requires Enabled(s, l)
    ensures IsRun(s, [l]) && After(s, [l]) == Next(s, l)
  {
    hide Enabled, Next;
    var labels := [l];
    assert labels[1..] == [];
    assert IsRun(Next(s, l), []) && After(Next(s, l), []) == Next(s, l);
  }

  /** Nobody is at or past an overrunning write, and none has happened. */
  ghost predicate NothingOverrun<T>(s: State<T>) {
    && (forall t | 0 <= t < |s.pcs| :: !s.pcs[t].NowaitLock?)
    && s.overrunCounter == 0 && forall i | 0 <= i < |s.removed| :: s.removed[i].Dequeued?
  }

  /** Nobody is at or past a discarding write, and none has happened. */
  ghost predicate NothingRejected<T>(s: State<T>) {
    && (forall t | 0 <= t < |s.pcs| :: !s.pcs[t].IfRoomLock? && !s.pcs[t].CountDiscard?)
    && s.rejected == 0 && s.discardCounter == 0
  }

  lemma StepOverrunsNothing<T>(s: State<T>, l: Label<T>)
    requires NothingOverrun(s) && Enabled(s, l) && !(l.Call? && l.op.OpNowait?)
    ensures NothingOverrun(Next(s, l))
  {
  }

  lemma StepRejectsNothing<T>(s: State<T>, l: Label<T>)
    requires NothingRejected(s) && Enabled(s, l) && !(l.Call? && l.op.OpIfRoom?)
    ensures NothingRejected(Next(s, l))
  {
  }

  lemma {:induction false} RunOverrunsNothing<T(!new)>(s: State<T>, labels: seq<Label<T>>)
    requires NothingOverrun(s) && IsRun(s, labels)
    requires forall i | 0 <= i < |labels| :: !(labels[i].Call? && labels[i].op.OpNowait?)
    ensures NothingOverrun(After(s, labels))
    decreases |labels|
  {
    hide NothingOverrun, Enabled, Next;
    if labels == [] {
    } else {
      StepOverrunsNothing(s, labels[0]);
      RunOverrunsNothing(Next(s, labels[0]), labels[1..]);
    }
  }

  lemma {:induction false} RunRejectsNothing<T(!new)>(s: State<T>, labels: seq<Label<T>>)
    requires NothingRejected(s) && IsRun(s, labels)
    requires forall i | 0 <= i < |labels| :: !(labels[i].Call? && labels[i].op.OpIfRoom?)
    ensures NothingRejected(After(s, labels))
    decreases |labels|
  {
    hide NothingRejected, Enabled, Next;
    if labels == [] {
    } else {
      StepRejectsNothing(s, labels[0]);
      RunRejectsNothing(Next(s, labels[0]), labels[1..]);
    }
  }

  /** Only enqueue_nowait overruns: without it no item is ever lost from the queue. */
  lemma OnlyNowaitOverruns<T(!new)>(capacity: nat, threads: nat, labels: seq<Label<T>>)
    requires IsRun(Init(capacity, threads), labels)
    requires forall i | 0 <= i < |labels| :: !(labels[i].Call? && labels[i].op.OpNowait?)
    ensures var s := After(Init(capacity, threads), labels);
            s.overrunCounter == 0 && forall i | 0 <= i < |s.removed| :: s.removed[i].Dequeued?
  {
    RunOverrunsNothing(Init(capacity, threads), labels);
  }

  /** Only enqueue_if_have_room discards: without it no item is ever refused. */
  lemma OnlyIfRoomRejects<T(!new)>(capacity: nat, threads: nat, labels: seq<Label<T>>)
    requires IsRun(Init(capacity, threads), labels)
    requires forall i | 0 <= i < |labels| :: !(labels[i].Call? && labels[i].op.OpIfRoom?)
    ensures var s := After(Init(capacity, threads), labels); s.rejected == 0 && s.discardCounter == 0
  {
    RunRejectsNothing(Init(capacity, threads), labels);
  }
}

/** The critical sections of spdlog/details/mpmc_blocking_q.h over the ring buffer, each of them
    what Section says of a thread at its lock. */
module BlockingQueueClass {
  import opened BlockingQueue
  import opened CircularQueue
  import opened Wrappers

  class MpmcBlockingQueue<T(0)> {
    const q: CircularQ<T>
    var discardCounter: nat

    ghost predicate Valid()
      reads this, q
    {
      q.Valid() && q.maxItems > 0
    }

    ghost function Items(): seq<T>
      requires Valid()
      reads this, q, q.v
    {
      q.Contents()
    }

    ghost function Capacity(): nat
      requires Valid()
      reads this, q
    {
      q.maxItems - 1
    }

    /** The queue as the step system sees it, with one thread at pc and an empty history. */
    ghost function View(pc: Pc<T>): State<T>
      requires Valid()
      reads this, q, q.v
    {
      State(Capacity(), Items(), q.overrunCounter, discardCounter, [pc], [], [], 0)
    }

    /** s is the state after a critical section, as far as the queue stores it. */
    ghost predicate Shows(s: State<T>)
      requires Valid()
      reads this, q, q.v
    {
      && Capacity() == s.capacity && Items() == s.items && q.overrunCounter == s.overrunCounter
    }

    constructor (maxItems: nat)
      ensures Valid() && Items() == [] && Capacity() == maxItems && discardCounter == 0
      ensures fresh(q) && fresh(q.v) && q.overrunCounter == 0
    {
      q := new CircularQ<T>(maxItems);
      discardCounter := 0;
    }

    /** enqueue once the wait on pop_cv_ has seen room. */
    method Enqueue(item: T)
      requires Valid() && !q.IsFull()
      modifies q, q.v
      ensures Valid() && q.v == old(q.v)
      ensures Items() == old(Items()) + [item]
      ensures Capacity() == old(Capacity()) && q.overrunCounter == old(q.overrunCounter)
      ensures var s := Section(old(View(EnqueueLock(item, false))), 0); Shows(s) && s.pcs == [NotifyPush]
    {
      q.PushBack(item);
    }

    method EnqueueNowait(item: T)
      requires Valid()
      modifies q, q.v
      ensures Valid() && q.v == old(q.v)
      ensures Items() == Appended(old(Items()), Capacity(), item)
      ensures Capacity() == old(Capacity())
      ensures q.overrunCounter == old(q.overrunCounter) + if |old(Items())| == Capacity() then 1 else 0
      ensures var s := Section(old(View(NowaitLock(item))), 0); Shows(s) && s.pcs == [NotifyPush]
    {
      q.PushBack(item);
    }

    method EnqueueIfHaveRoom(item: T)
      requires Valid()
      modifies this, q, q.v
      ensures Valid() && q.v == old(q.v)
      ensures Capacity() == old(Capacity()) && q.overrunCounter == old(q.overrunCounter)
      ensures if |old(Items())| < Capacity()
              then Items() == old(Items()) + [item] && discardCounter == old(discardCounter)
              else Items() == old(Items()) && discardCounter == old(discardCounter) + 1
      ensures var s := Section(old(View(IfRoomLock(item))), 0);
              Shows(s) && s.pcs == [if discardCounter == old(discardCounter) then NotifyPush else CountDiscard]
    {
      var pushed := false;
      if !q.IsFull() {
        q.PushBack(item);
        pushed := true;
      }
      if !pushed {
        discardCounter := discardCounter + 1;
      }
    }

    /** dequeue_for after its wait, which may have timed out; dequeue never sees an empty queue here. */
    method DequeueFor() returns (popped: Option<T>)
      requires Valid()
      modifies q
      ensures Valid() && q.v == old(q.v) && Capacity() == old(Capacity())
      ensures q.overrunCounter == old(q.overrunCounter)
      ensures old(Items()) == [] ==> popped == None && Items() == []
      ensures old(Items()) != [] ==> popped == Some(old(Items())[0]) && Items() == old(Items())[1..]
      ensures var s := Section(old(View(DequeueTimedOut)), 0);
              Shows(s) && s.pcs == [if popped.None? then Idle else NotifyPop(popped.value)]
    {
      if q.IsEmpty() {
        return None;
      }
      var item := q.Front();
      q.PopFront();
      return Some(item);
    }
  }
}
