/**
  spdlog/details/thread_pool-inl.h over the blocking queue: n workers dequeue and process
  messages until they get a terminate message, the destructor posts n terminate messages with
  the blocking policy and joins the workers, and other threads post before that.

  Threads 0..n-1 are the workers, thread n runs the destructor, the rest are posters.
*/
module ThreadPool {
  import opened BlockingQueue
  import opened Wrappers

  const MAX_THREADS := 1000

  datatype Msg = Log(id: nat) | Flush(id: nat) | Terminate

  datatype Pool = Pool(
    q: State<Msg>,
    exited: seq<bool>,   // one flag per worker
    posted: nat,         // terminate messages the destructor has started to post
    closing: bool,       // the destructor is running
    joined: bool)        // and has joined every worker


  function InitPool(capacity: nat, n: nat, posters: nat): Pool {
    Pool(Init(capacity, n + 1 + posters), seq(n, i => false), 0, false, false)
  }

  /** The constructor throws for 0 threads and for too many. */
  function CreatePool(capacity: nat, n: nat, posters: nat): (r: Option<Pool>)
    ensures r.None? <==> n == 0 || n > 1000
    ensures r.Some? ==> r.value == InitPool(capacity, n, posters)
  {
    if n == 0 || n > MAX_THREADS then None else Some(InitPool(capacity, n, posters))
  }

  datatype OverflowPolicy = Block | OverrunOldest | DiscardNew

  datatype Action =
    | Work(t: nat)                     // worker_loop_ calls q_.dequeue
    | Post(t: nat, policy: OverflowPolicy, msg: Msg) // post_async_msg_
    | Close                            // the destructor starts; nobody posts any more
    | PostTerminate
    | Step(l: Label<Msg>)              // a step inside the queue
    | Join

  /** post_async_msg_ chooses the operation of the queue by the policy. */
  function PostOp(policy: OverflowPolicy, msg: Msg): Op<Msg> {
    match policy
    case Block => OpEnqueue(msg)
    case OverrunOldest => OpNowait(msg)
    case DiscardNew => OpIfRoom(msg)
  }

  ghost predicate Can(p: Pool, a: Action)
  {
    var n := |p.exited|;
    match a
    case Work(t) => t < n && t < |p.q.pcs| && !p.exited[t] && p.q.pcs[t].Idle?
    case Post(t, _, msg) => !p.closing && n < t < |p.q.pcs| && p.q.pcs[t].Idle? && msg != Terminate
    case Close => !p.closing && forall t | n < t < |p.q.pcs| :: p.q.pcs[t].Idle?
    case PostTerminate => p.closing && p.posted < n && n < |p.q.pcs| && p.q.pcs[n].Idle?
    case Step(l) => !l.Call? && Enabled(p.q, l)
    case Join =>
      p.closing && !p.joined && p.posted == n && n < |p.q.pcs| && p.q.pcs[n].Idle?
      && forall t | 0 <= t < n :: p.exited[t]
  }

  ghost function Do(p: Pool, a: Action): Pool
    requires Can(p, a)
  {
    match a
    case Work(t) => p.(q := Next(p.q, Call(t, OpDequeue(false))))
    case Post(t, policy, msg) => p.(q := Next(p.q, Call(t, PostOp(policy, msg))))
    case Close => p.(closing := true)
    case PostTerminate => p.(q := Next(p.q, Call(|p.exited|, OpEnqueue(Terminate))), posted := p.posted + 1)
    case Step(l) => AfterStep(p, l)
    case Join => p.(joined := true)
  }

  /** dequeue returns after its notification; a worker that got a terminate message leaves its loop. */
  ghost function AfterStep(p: Pool, l: Label<Msg>): Pool
    requires Enabled(p.q, l)
  {
    var p' := p.(q := Next(p.q, l));
    if l.Notify? && l.t < |p.exited| && p.q.pcs[l.t] == NotifyPop(Terminate)
    then p'.(exited := p.exited[l.t := true])
    else p'
  }

  // ---------------------------------------------------------------------------------------
  // Invariant

  predicate WorkerPc(pc: Pc<Msg>) {
    pc.Idle? || (pc.DequeueLock? && !pc.timed) || pc == DequeueSleep(false) || pc.NotifyPop?
  }

  predicate DestructorPc(pc: Pc<Msg>) {
    pc.Idle? || ((pc.EnqueueLock? || pc.EnqueueSleep?) && pc.item == Terminate) || pc.NotifyPush?
  }

  predicate PosterPc(pc: Pc<Msg>) {
    pc.Idle? || pc.NotifyPush? || pc.CountDiscard?
    || ((pc.EnqueueLock? || pc.EnqueueSleep? || pc.NowaitLock? || pc.IfRoomLock?) && pc.item != Terminate)
  }

  ghost predicate Roles(p: Pool) {
    var n := |p.exited|;
    && n < |p.q.pcs| && p.posted <= n
    && (forall t | 0 <= t < n :: WorkerPc(p.q.pcs[t]) && (p.exited[t] ==> p.q.pcs[t].Idle?))
    && DestructorPc(p.q.pcs[n])
    && (forall t | n < t < |p.q.pcs| :: PosterPc(p.q.pcs[t]) && (p.closing ==> p.q.pcs[t].Idle?))
    && (!p.closing ==> p.posted == 0 && p.q.pcs[n].Idle? && !p.joined)
    && (p.joined ==> forall t | 0 <= t < n :: p.exited[t])
  }

  /** Holds a terminate message: about to put it in the queue, or has just taken it out. */
  function Holding(pc: Pc<Msg>): nat {
    if pc == NotifyPop(Terminate) || ((pc.EnqueueLock? || pc.EnqueueSleep?) && pc.item == Terminate) then 1 else 0
  }

  function Exits(exited: seq<bool>): nat {
    if exited == [] then 0 else (if exited[0] then 1 else 0) + Exits(exited[1..])
  }

  /** Every terminate message started is stored, held by a thread, or has ended a worker. */
  ghost predicate TerminatesCounted(p: Pool) {
    multiset(p.q.items)[Terminate] + Sum(p.q.pcs, Holding) + Exits(p.exited) == p.posted
  }

  /** A worker has dequeued one terminate message if it is exiting or has exited, else none. */
  ghost predicate OneEach(p: Pool) {
    && |p.exited| <= |p.q.pcs|
    && forall t | 0 <= t < |p.exited| ::
         multiset(p.q.removed)[Dequeued(t, Terminate)]
         == if p.exited[t] || p.q.pcs[t] == NotifyPop(Terminate) then 1 else 0
  }

  ghost predicate TerminatesLast(written: seq<Msg>) {
    forall i, j | 0 <= i < j < |written| && written[i] == Terminate :: written[j] == Terminate
  }

  ghost predicate Shape(p: Pool) {
    && TerminatesLast(p.q.written)
    && (!p.closing ==> Terminate !in p.q.written)
    && Overrun(Terminate) !in p.q.removed
  }

  ghost predicate PoolInv(p: Pool) {
    NoLostWakeup(p.q) && Fifo(p.q) && Roles(p) && TerminatesCounted(p) && OneEach(p) && Shape(p)
  }

  // ---------------------------------------------------------------------------------------
  // Preservation

  lemma {:induction false} ExitOne(exited: seq<bool>, t: nat)
    requires t < |exited| && !exited[t]
    ensures Exits(exited[t := true]) == Exits(exited) + 1
  {
    if t == 0 {
      assert exited[t := true][1..] == exited[1..];
    } else {
      assert exited[t := true][1..] == exited[1..][t - 1 := true];
      ExitOne(exited[1..], t - 1);
    }
  }

  lemma ExitsBound(exited: seq<bool>)
    ensures Exits(exited) <= |exited|
    ensures Exits(exited) == |exited| <==> forall t | 0 <= t < |exited| :: exited[t]
  {
    if exited == [] {
    } else {
      ExitsBound(exited[1..]);
      if Exits(exited) == |exited| {
        forall t | 0 <= t < |exited| ensures exited[t] {
          assert t > 0 ==> exited[1..][t - 1];
        }
      } else {
        assert !exited[0] || exists t :: 0 <= t < |exited[1..]| && !exited[1..][t];
      }
    }
  }

  lemma InitPoolInv(capacity: nat, n: nat, posters: nat)
    ensures PoolInv(InitPool(capacity, n, posters))
  {
    var p := InitPool(capacity, n, posters);
    InitHolds<Msg>(capacity, n + 1 + posters);
    SumIdle<Msg>(n + 1 + posters, Holding);
    NoExits(n);
  }

  lemma {:induction false} NoExits(n: nat)
    ensures Exits(seq(n, i => false)) == 0
  {
    if n == 0 {
    } else {
      assert seq(n, i => false)[1..] == seq(n - 1, i => false);
      NoExits(n - 1);
    }
  }

  /** What one thread's move means for the roles. */
  lemma PutRoles(p: Pool, t: nat, pc: Pc<Msg>)
    requires Roles(p) && t < |p.q.pcs|
    requires t < |p.exited| ==> WorkerPc(pc) && (p.exited[t] ==> pc.Idle?)
    requires t == |p.exited| ==> DestructorPc(pc) && (!p.closing ==> pc.Idle?)
    requires t > |p.exited| ==> PosterPc(pc) && (p.closing ==> pc.Idle?)
    ensures Roles(p.(q := Put(p.q, t, pc)))
  {
  }

  lemma SectionRoles(p: Pool, t: nat)
    requires Roles(p) && t < |p.q.pcs| && AtLock(p.q.pcs[t])
    ensures Roles(p.(q := Section(p.q, t)))
  {
    PutRoles(p, t, Section(p.q, t).pcs[t]);
    assert Section(p.q, t).pcs == Put(p.q, t, Section(p.q, t).pcs[t]).pcs;
  }

  lemma MultisetAppend<T>(s: seq<T>, x: T)
    ensures multiset(s + [x]) == multiset(s) + multiset{x}
  {
  }

  lemma MultisetHead<T>(s: seq<T>)
    requires s != []
    ensures multiset(s) == multiset{s[0]} + multiset(s[1..])
  {
    assert s == [s[0]] + s[1..];
  }

  /** A thread's move that neither takes nor gives a terminate message. */
  lemma PutTerminates(p: Pool, t: nat, pc: Pc<Msg>)
    requires TerminatesCounted(p) && OneEach(p)
    requires t < |p.q.pcs| && Holding(pc) == Holding(p.q.pcs[t])
    requires pc == NotifyPop(Terminate) <==> p.q.pcs[t] == NotifyPop(Terminate)
    ensures TerminatesCounted(p.(q := Put(p.q, t, pc))) && OneEach(p.(q := Put(p.q, t, pc)))
  {
    SumUpdate(p.q.pcs, t, pc, Holding);
  }

  /** Items are among the written ones, and so is what is written next. */
  lemma StoredWasWritten(s: State<Msg>)
    requires Fifo(s)
    ensures forall i | 0 <= i < |s.items| :: s.items[i] in s.written
  {
    forall i | 0 <= i < |s.items| ensures s.items[i] in s.written {
      assert s.written[|ItemsOf(s.removed)| + i] == s.items[i];
    }
  }

  lemma WriteShape(p: Pool, x: Msg)
    requires Fifo(p.q) && Shape(p)
    requires x == Terminate ==> p.closing && |p.q.items| < p.q.capacity
    requires x != Terminate ==> !p.closing
    ensures Shape(p.(q := Write(p.q, x)))
  {
    StoredWasWritten(p.q);
    assert |p.q.items| >= p.q.capacity ==> Overrun((p.q.items + [x])[0]) != Overrun(Terminate);
  }

  lemma WriteTerminates(p: Pool, t: nat, x: Msg)
    requires TerminatesCounted(p) && OneEach(p) && Shape(p) && Fifo(p.q) && t < |p.q.pcs|
    requires x == Terminate <==> Holding(p.q.pcs[t]) == 1
    requires x == Terminate ==> |p.q.items| < p.q.capacity
    requires x != Terminate ==> !p.closing
    requires !p.q.pcs[t].NotifyPop?
    ensures TerminatesCounted(p.(q := Put(Write(p.q, x), t, NotifyPush)))
    ensures OneEach(p.(q := Put(Write(p.q, x), t, NotifyPush)))
  {
    SumUpdate(p.q.pcs, t, NotifyPush, Holding);
    WriteCounts(p.q, x);
  }

  /** Writing adds its own terminate message and drops none. */
  lemma WriteCounts(q: State<Msg>, x: Msg)
    requires Fifo(q)
    requires x == Terminate ==> |q.items| < q.capacity
    requires x != Terminate ==> Terminate !in q.written
    ensures multiset(Write(q, x).items)[Terminate] == multiset(q.items)[Terminate] + if x == Terminate then 1 else 0
    ensures forall t ::
              multiset(Write(q, x).removed)[Dequeued(t, Terminate)] == multiset(q.removed)[Dequeued(t, Terminate)]
  {
    MultisetAppend(q.items, x);
    if |q.items| >= q.capacity {
      StoredWasWritten(q);
      MultisetHead(q.items + [x]);
      MultisetAppend(q.removed, Overrun((q.items + [x])[0]));
    } else {
      assert q.removed + [] == q.removed;
    }
  }

  lemma ReadTerminates(p: Pool, t: nat)
    requires TerminatesCounted(p) && OneEach(p)
    requires t < |p.exited| && !p.exited[t] && p.q.items != []
    requires Holding(p.q.pcs[t]) == 0
    ensures TerminatesCounted(p.(q := Put(Read(p.q, t), t, NotifyPop(p.q.items[0]))))
    ensures OneEach(p.(q := Put(Read(p.q, t), t, NotifyPop(p.q.items[0]))))
  {
    var q := p.q;
    SumUpdate(q.pcs, t, NotifyPop(q.items[0]), Holding);
    MultisetHead(q.items);
    MultisetAppend(q.removed, Dequeued(t, q.items[0]));
  }

  lemma WriteSection(p: Pool, t: nat, x: Msg)
    requires TerminatesCounted(p) && OneEach(p) && Shape(p) && Fifo(p.q) && t < |p.q.pcs|
    requires x == Terminate <==> Holding(p.q.pcs[t]) == 1
    requires x == Terminate ==> p.closing && |p.q.items| < p.q.capacity
    requires x != Terminate ==> !p.closing
    requires !p.q.pcs[t].NotifyPop?
    ensures var p' := p.(q := Put(Write(p.q, x), t, NotifyPush));
            TerminatesCounted(p') && OneEach(p') && Shape(p')
  {
    assert Write(p.q, x).pcs == p.q.pcs;
    hide TerminatesCounted, OneEach, Shape, Fifo, Write;
    WriteTerminates(p, t, x);
    WriteShape(p, x);
    SameShape(p.(q := Write(p.q, x)), Put(Write(p.q, x), t, NotifyPush));
  }

  lemma ReadSection(p: Pool, t: nat)
    requires TerminatesCounted(p) && OneEach(p) && Shape(p) && p.q.items != []
    requires t < |p.exited| <= |p.q.pcs| && !p.exited[t] && Holding(p.q.pcs[t]) == 0
    ensures var p' := p.(q := Put(Read(p.q, t), t, NotifyPop(p.q.items[0])));
            TerminatesCounted(p') && OneEach(p') && Shape(p')
  {
    assert Read(p.q, t).pcs == p.q.pcs;
    hide TerminatesCounted, OneEach, Shape, Read;
    ReadTerminates(p, t);
    ReadShape(p, t);
    SameShape(p.(q := Read(p.q, t)), Put(Read(p.q, t), t, NotifyPop(p.q.items[0])));
  }

  lemma PutSection(p: Pool, t: nat, pc: Pc<Msg>, q: State<Msg>)
    requires TerminatesCounted(p) && OneEach(p) && Shape(p)
    requires t < |p.q.pcs| && Holding(pc) == Holding(p.q.pcs[t]) && !pc.NotifyPop? && !p.q.pcs[t].NotifyPop?
    requires q == Put(p.q, t, pc).(rejected := q.rejected)
    ensures TerminatesCounted(p.(q := q)) && OneEach(p.(q := q)) && Shape(p.(q := q))
  {
    PutTerminates(p, t, pc);
    hide TerminatesCounted, OneEach, Shape;
    SameTerminates(p.(q := Put(p.q, t, pc)), q);
    SameShape(p, q);
  }

  /** A section moves terminate messages between the queue and its thread. */
  lemma SectionTerminates(p: Pool, t: nat)
    requires Roles(p) && TerminatesCounted(p) && OneEach(p) && Shape(p) && Fifo(p.q)
    requires t < |p.q.pcs| && AtLock(p.q.pcs[t])
    ensures var p' := p.(q := Section(p.q, t)); TerminatesCounted(p') && OneEach(p') && Shape(p')
  {
    SectionRole(p, t);
    hide Roles, TerminatesCounted, OneEach, Shape, Fifo, Write, Read;
    var q, pc := p.q, p.q.pcs[t];
    if pc.EnqueueLock? || pc.NowaitLock? || pc.IfRoomLock? {
      if |q.items| < q.capacity || pc.NowaitLock? {
        WriteSection(p, t, pc.item);
      } else {
        PutSection(p, t, if pc.EnqueueLock? then EnqueueSleep(pc.item) else CountDiscard, Section(q, t));
      }
    } else if q.items == [] {
      PutSection(p, t, DequeueSleep(pc.timed), Section(q, t));
    } else {
      ReadSection(p, t);
    }
  }

  /** Who may be at which section: only the destructor writes once it runs, and only terminate messages. */
  lemma SectionRole(p: Pool, t: nat)
    requires Roles(p) && t < |p.q.pcs| && AtLock(p.q.pcs[t])
    ensures var pc := p.q.pcs[t];
            && (pc.EnqueueLock? ==> (pc.item == Terminate <==> p.closing))
            && (pc.NowaitLock? || pc.IfRoomLock? ==> pc.item != Terminate && !p.closing)
            && (pc.DequeueLock? ==> t < |p.exited| && !p.exited[t])
            && !pc.DequeueTimedOut?
    ensures |p.exited| <= |p.q.pcs|
  {
  }

  lemma SameShape(p: Pool, q: State<Msg>)
    requires Shape(p) && q.written == p.q.written && q.removed == p.q.removed
    ensures Shape(p.(q := q))
  {
  }

  lemma SameTerminates(p: Pool, q: State<Msg>)
    requires TerminatesCounted(p) && OneEach(p)
    requires q.items == p.q.items && q.pcs == p.q.pcs && q.removed == p.q.removed
    ensures TerminatesCounted(p.(q := q)) && OneEach(p.(q := q))
  {
  }

  lemma ReadShape(p: Pool, t: nat)
    requires Shape(p) && p.q.items != []
    ensures Shape(p.(q := Read(p.q, t)))
  {
  }

  /** A worker's notification after taking a terminate message is the end of that worker. */
  lemma ExitTerminates(p: Pool, t: nat)
    requires Roles(p) && TerminatesCounted(p) && OneEach(p)
    requires t < |p.exited| && p.q.pcs[t] == NotifyPop(Terminate)
    ensures var p' := p.(q := Put(p.q, t, Idle), exited := p.exited[t := true]);
            TerminatesCounted(p') && OneEach(p') && Roles(p')
  {
    SumUpdate(p.q.pcs, t, Idle, Holding);
    ExitOne(p.exited, t);
  }

  lemma PoppersAreWorkers(p: Pool, t: nat)
    requires Roles(p) && t < |p.q.pcs| && p.q.pcs[t].NotifyPop?
    ensures t < |p.exited|
  {
  }

  lemma NotifyTerminates(p: Pool, t: nat, who: Sleeper)
    requires Roles(p) && TerminatesCounted(p) && OneEach(p)
    requires Enabled(p.q, Notify(t, who))
    ensures TerminatesCounted(AfterStep(p, Notify(t, who)))
    ensures OneEach(AfterStep(p, Notify(t, who)))
    ensures Roles(AfterStep(p, Notify(t, who)))
  {
    hide TerminatesCounted, OneEach;
    RolesKept(p, Notify(t, who));
    var p1 := p;
    if who.Thread? {
      var w := who.t;
      PutTerminates(p, w, Woken(p.q.pcs[w]));
      PutRoles(p, w, Woken(p.q.pcs[w]));
      p1 := p.(q := Put(p.q, w, Woken(p.q.pcs[w])));
    }
    hide Roles;
    if p.q.pcs[t] == NotifyPop(Terminate) {
      PoppersAreWorkers(p, t);
      ExitTerminates(p1, t);
    } else {
      PutTerminates(p1, t, Idle);
    }
  }

  /** The roles when no worker exits. */
  lemma RolesKept(p: Pool, l: Label<Msg>)
    requires Roles(p) && Can(p, Step(l))
    ensures Roles(p.(q := Next(p.q, l)))
  {
    match l
    case Lock(t) => SectionRoles(p, t);
    case Notify(t, Nobody) => PutRoles(p, t, Idle);
    case Notify(t, Thread(w)) =>
      PutRoles(p, w, Woken(p.q.pcs[w]));
      PutRoles(p.(q := Put(p.q, w, Woken(p.q.pcs[w]))), t, Idle);
    case Count(t) => PutRoles(p, t, Idle);
    case Timeout(t) => assert false;
    case Spurious(t) => PutRoles(p, t, Woken(p.q.pcs[t]));
  }

  lemma NotifyShape(p: Pool, l: Label<Msg>)
    requires Shape(p) && Enabled(p.q, l) && !l.Lock?
    ensures Shape(AfterStep(p, l))
  {
  }

  lemma StepPool(p: Pool, l: Label<Msg>)
    requires PoolInv(p) && Can(p, Step(l))
    ensures PoolInv(AfterStep(p, l))
  {
    StepKeepsWakeups(p.q, l);
    StepKeepsFifo(p.q, l);
    hide NoLostWakeup, Fifo, TerminatesCounted, OneEach, Shape;
    if l.Lock? {
      RolesKept(p, l);
      SectionTerminates(p, l.t);
    } else {
      NotifyShape(p, l);
      StepOther(p, l);
    }
  }

  lemma StepOther(p: Pool, l: Label<Msg>)
    requires Roles(p) && TerminatesCounted(p) && OneEach(p) && Can(p, Step(l)) && !l.Lock?
    ensures TerminatesCounted(AfterStep(p, l)) && OneEach(AfterStep(p, l)) && Roles(AfterStep(p, l))
  {
    hide Roles, TerminatesCounted, OneEach;
    match l
    case Notify(t, who) => NotifyTerminates(p, t, who);
    case Count(t) =>
      RolesKept(p, l);
      PutTerminates(p, t, Idle);
      SameTerminates(p.(q := Put(p.q, t, Idle)), Next(p.q, l));
    case Timeout(t) =>
      RolesKept(p, l);
      PutTerminates(p, t, DequeueTimedOut);
    case Spurious(t) =>
      RolesKept(p, l);
      PutTerminates(p, t, Woken(p.q.pcs[t]));
  }

  lemma ActionKeeps(p: Pool, a: Action)
    requires PoolInv(p) && Can(p, a)
    ensures PoolInv(Do(p, a))
  {
    match a
    case Work(t) =>
      StepKeepsWakeups(p.q, Call(t, OpDequeue(false)));
      StepKeepsFifo(p.q, Call(t, OpDequeue(false)));
      PutTerminates(p, t, DequeueLock(false, false));
      PutRoles(p, t, DequeueLock(false, false));
      SameShape(p, Put(p.q, t, DequeueLock(false, false)));
    case Post(t, policy, msg) => PostKeeps(p, t, policy, msg);
    case Close => CloseKeeps(p);
    case PostTerminate => PostTerminateKeeps(p);
    case Step(l) => StepPool(p, l);
    case Join => CloseKeeps(p);
  }

  lemma PostKeeps(p: Pool, t: nat, policy: OverflowPolicy, msg: Msg)
    requires PoolInv(p) && Can(p, Post(t, policy, msg))
    ensures PoolInv(Do(p, Post(t, policy, msg)))
  {
    var op := PostOp(policy, msg);
    StepKeepsWakeups(p.q, Call(t, op));
    StepKeepsFifo(p.q, Call(t, op));
    hide NoLostWakeup, Fifo, TerminatesCounted, OneEach, Shape;
    PutTerminates(p, t, Started(op));
    PutRoles(p, t, Started(op));
    SameShape(p, Put(p.q, t, Started(op)));
  }

  lemma CloseKeeps(p: Pool)
    requires PoolInv(p)
    ensures Can(p, Close) ==> PoolInv(Do(p, Close))
    ensures Can(p, Join) ==> PoolInv(Do(p, Join))
  {
    hide NoLostWakeup, Fifo;
  }

  lemma PostTerminateKeeps(p: Pool)
    requires PoolInv(p) && Can(p, PostTerminate)
    ensures PoolInv(Do(p, PostTerminate))
  {
    var n, pc: Pc<Msg> := |p.exited|, EnqueueLock(Terminate, false);
    StepKeepsWakeups(p.q, Call(n, OpEnqueue(Terminate)));
    StepKeepsFifo(p.q, Call(n, OpEnqueue(Terminate)));
    SumUpdate(p.q.pcs, n, pc, Holding);
    PutRoles(p, n, pc);
    hide NoLostWakeup, Fifo;
    SameShape(p, Put(p.q, n, pc));
  }

  // ---------------------------------------------------------------------------------------
  // Runs

  ghost predicate IsPoolRun(p: Pool, actions: seq<Action>)
    decreases |actions|
  {
    actions == [] || (Can(p, actions[0]) && IsPoolRun(Do(p, actions[0]), actions[1..]))
  }

  ghost function AfterAll(p: Pool, actions: seq<Action>): Pool
    requires IsPoolRun(p, actions)
    decreases |actions|
  {
    if actions == [] then p else AfterAll(Do(p, actions[0]), actions[1..])
  }

  lemma ActionSizes(p: Pool, a: Action)
    requires Can(p, a)
    ensures |Do(p, a).exited| == |p.exited| && |Do(p, a).q.pcs| == |p.q.pcs|
    ensures Do(p, a).q.capacity == p.q.capacity
    ensures p.closing ==> Do(p, a).closing
  {
  }

  lemma {:induction false} PoolRunKeeps(p: Pool, actions: seq<Action>)
    requires PoolInv(p) && IsPoolRun(p, actions)
    ensures var p' := AfterAll(p, actions);
            PoolInv(p') && |p'.exited| == |p.exited| && p'.q.capacity == p.q.capacity && (p.closing ==> p'.closing)
    decreases |actions|
  {
    if actions == [] {
    } else {
      ActionKeeps(p, actions[0]);
      ActionSizes(p, actions[0]);
      PoolRunKeeps(Do(p, actions[0]), actions[1..]);
    }
  }

  // ---------------------------------------------------------------------------------------
  // Shutdown

  /** While terminate message k is being posted, at most k - 1 workers are gone: somebody is
      left to make room for it. */
  lemma SomeoneIsAlive(p: Pool)
    requires PoolInv(p) && |p.exited| > 0
    requires p.q.pcs[|p.exited|].EnqueueLock? || p.q.pcs[|p.exited|].EnqueueSleep?
    ensures Exits(p.exited) <= p.posted - 1
    ensures exists t :: 0 <= t < |p.exited| && !p.exited[t]
  {
    SumAtLeast(p.q.pcs, |p.exited|, Holding);
    ExitsBound(p.exited);
  }

  /** Once every worker has exited the queue is empty, every message written was dequeued or
      overrun by a newer one, and each worker got exactly one terminate message. */
  lemma AllExited(p: Pool)
    requires PoolInv(p) && |p.exited| > 0 && forall t | 0 <= t < |p.exited| :: p.exited[t]
    ensures p.posted == |p.exited| && p.q.items == [] && p.q.written == ItemsOf(p.q.removed)
    ensures forall t | 0 <= t < |p.exited| :: multiset(p.q.removed)[Dequeued(t, Terminate)] == 1
    ensures Overrun(Terminate) !in p.q.removed
  {
    ExitsBound(p.exited);
    assert multiset(p.q.items)[Terminate] == 0 && p.posted == |p.exited|;
    if p.q.items != [] {
      TerminateStored(p.q.written, p.q.removed, p.q.items);
      assert false;
    }
    assert ItemsOf(p.q.removed) + [] == ItemsOf(p.q.removed);
  }

  /** Behind a removed terminate message only terminate messages are stored. */
  lemma TerminateStored(written: seq<Msg>, removed: seq<Removed<Msg>>, items: seq<Msg>)
    requires written == ItemsOf(removed) + items && TerminatesLast(written) && items != []
    requires multiset(removed)[Dequeued(0, Terminate)] == 1
    ensures multiset(items)[Terminate] > 0
  {
    assert Dequeued(0, Terminate) in removed;
    var i :| 0 <= i < |removed| && removed[i] == Dequeued(0, Terminate);
    assert written[i] == Terminate;
    assert written[|removed|] == items[0];
    assert items[0] in multiset(items);
  }

  /** The shutdown never gets stuck: until the destructor has joined every worker, some step
      other than a spurious wakeup is possible. */
  lemma ShutdownNeverStuck(p: Pool)
    requires PoolInv(p) && p.closing && !p.joined && |p.exited| > 0 && p.q.capacity > 0
    ensures exists a :: Can(p, a) && !(a.Step? && a.l.Spurious?)
  {
    var n := |p.exited|;
    if t :| 0 <= t < |p.q.pcs| && AtLock(p.q.pcs[t]) {
      assert Can(p, Step(Lock(t)));
    } else if t :| 0 <= t < |p.q.pcs| && (p.q.pcs[t].NotifyPush? || p.q.pcs[t].NotifyPop?) {
      var who := SomeWaker(p.q.pcs, t);
      assert Can(p, Step(Notify(t, who)));
    } else if t :| 0 <= t < |p.q.pcs| && p.q.pcs[t].CountDiscard? {
      assert Can(p, Step(Count(t)));
    } else if t :| 0 <= t < n && !p.exited[t] && p.q.pcs[t].Idle? {
      assert Can(p, Work(t));
    } else if p.posted < n && p.q.pcs[n].Idle? {
      assert Can(p, PostTerminate);
    } else if p.posted == n && p.q.pcs[n].Idle? && forall t | 0 <= t < n :: p.exited[t] {
      assert Can(p, Join);
    } else {
      SettledShutdown(p);
      assert false;
    }
  }

  lemma SomeWaker(pcs: seq<Pc<Msg>>, t: nat) returns (who: Sleeper)
    requires t < |pcs| && (pcs[t].NotifyPush? || pcs[t].NotifyPop?)
    ensures MayWake(pcs, t, who)
  {
    who := Nobody;
    if pcs[t].NotifyPush? && ConsumerSleeps(pcs) {
      var w: nat :| w < |pcs| && pcs[w].DequeueSleep?;
      who := Thread(w);
    } else if pcs[t].NotifyPop? && ProducerSleeps(pcs) {
      var w: nat :| w < |pcs| && pcs[w].EnqueueSleep?;
      who := Thread(w);
    }
  }

  /** When the queue has settled and every worker left sleeps, the destructor does not sleep: the
      place it waits for would have been announced to it.  And if it has posted everything, no
      worker is left: the terminate message it waits for would have been announced to it. */
  lemma SettledShutdown(p: Pool)
    requires NoLostWakeup(p.q) && TerminatesCounted(p) && Roles(p)
    requires p.closing && |p.exited| > 0 && p.q.capacity > 0
    requires Settled(p.q)
    requires forall t | 0 <= t < |p.exited| :: p.exited[t] || p.q.pcs[t].DequeueSleep?
    ensures !p.q.pcs[|p.exited|].EnqueueSleep?
    ensures p.posted == |p.exited| ==> forall t | 0 <= t < |p.exited| :: p.exited[t]
  {
    SettledSums(p.q);
    ExitsBound(p.exited);
    if !ConsumerSleeps(p.q.pcs) {
      assert forall t | 0 <= t < |p.exited| :: p.exited[t];
      assert Sum(p.q.pcs, Holding) == 0;
      SumAtLeast(p.q.pcs, |p.exited|, Holding);
    } else {
      assert p.q.items == [] && !ProducerSleeps(p.q.pcs);
      NobodyHolds(p);
    }
  }

  lemma NobodyHolds(p: Pool)
    requires Roles(p) && Settled(p.q) && !ProducerSleeps(p.q.pcs)
    ensures Sum(p.q.pcs, Holding) == 0
  {
    if Sum(p.q.pcs, Holding) > 0 {
      var h := SumPositive(p.q.pcs, Holding);
      assert false;
    }
  }

  // ---------------------------------------------------------------------------------------
  // Termination of the shutdown

  /** What thread t may still do by itself; `alive` says that it is a worker still in its loop. */
  function Load(pc: Pc<Msg>, alive: bool): nat {
    match pc
    case Idle => if alive then 2 else 0
    case EnqueueLock(_, _) => 7
    case EnqueueSleep(_) => 6
    case NotifyPush => 2
    case DequeueLock(_, _) => 1
    case DequeueSleep(_) => 0
    case NotifyPop(_) => 4
    case _ => 0
  }

  function Loads(pcs: seq<Pc<Msg>>, exited: seq<bool>, k: nat): nat
    requires k <= |exited| <= |pcs|
  {
    if k == 0 then 0 else Loads(pcs, exited, k - 1) + Load(pcs[k - 1], !exited[k - 1])
  }

  /** Steps left in the shutdown, not counting what spurious wakeups add. */
  function Rank(p: Pool): nat
    requires p.posted <= |p.exited| < |p.q.pcs|
  {
    var n := |p.exited|;
    Loads(p.q.pcs, p.exited, n) + Load(p.q.pcs[n], false) + 4 * |p.q.items|
    + 8 * (n - p.posted) + if p.joined then 0 else 1
  }

  lemma {:induction false} LoadsUpdate(pcs: seq<Pc<Msg>>, exited: seq<bool>, k: nat, t: nat, pc: Pc<Msg>, exit: bool)
    requires t < k <= |exited| <= |pcs|
    ensures Loads(pcs[t := pc], exited[t := exit], k) + Load(pcs[t], !exited[t])
         == Loads(pcs, exited, k) + Load(pc, !exit)
  {
    if t == k - 1 {
      LoadsSame(pcs, exited, k - 1, pcs[t := pc], exited[t := exit]);
    } else {
      LoadsUpdate(pcs, exited, k - 1, t, pc, exit);
    }
  }

  lemma {:induction false} LoadsSame(pcs: seq<Pc<Msg>>, exited: seq<bool>, k: nat,
                                       pcs': seq<Pc<Msg>>, exited': seq<bool>)
    requires k <= |exited| <= |pcs| && k <= |exited'| <= |pcs'|
    requires forall i | 0 <= i < k :: pcs[i] == pcs'[i] && exited[i] == exited'[i]
    ensures Loads(pcs, exited, k) == Loads(pcs', exited', k)
  {
    if k == 0 {
    } else {
      LoadsSame(pcs, exited, k - 1, pcs', exited');
    }
  }

  function LoadOf(p: Pool, t: nat): nat
    requires t <= |p.exited| < |p.q.pcs|
  {
    Load(p.q.pcs[t], t < |p.exited| && !p.exited[t])
  }

  /** Moving one thread changes the rank by the change of its load. */
  lemma RankPut(p: Pool, t: nat, pc: Pc<Msg>, exit: bool, p': Pool)
    requires p.posted <= |p.exited| < |p.q.pcs| && t <= |p.exited|
    requires p'.q.pcs == p.q.pcs[t := pc] && p'.joined == p.joined && p'.posted <= |p'.exited|
    requires p'.exited == if t < |p.exited| then p.exited[t := exit] else p.exited
    ensures Rank(p') + LoadOf(p, t) + 4 * |p.q.items| + 8 * p'.posted
         == Rank(p) + Load(pc, t < |p.exited| && !exit) + 4 * |p'.q.items| + 8 * p.posted
  {
    var n := |p.exited|;
    if t < n {
      LoadsUpdate(p.q.pcs, p.exited, n, t, pc, exit);
    } else {
      LoadsSame(p.q.pcs, p.exited, n, p'.q.pcs, p.exited);
    }
  }

  lemma OnlyWorkersAndDestructor(p: Pool, t: nat)
    requires Roles(p) && p.closing && t < |p.q.pcs| && !p.q.pcs[t].Idle?
    ensures t <= |p.exited|
    ensures t < |p.exited| ==> WorkerPc(p.q.pcs[t]) && !p.exited[t]
    ensures t == |p.exited| ==> DestructorPc(p.q.pcs[t])
  {
  }

  lemma SectionRank(p: Pool, t: nat)
    requires Roles(p) && p.closing && t < |p.q.pcs| && AtLock(p.q.pcs[t])
    ensures Rank(p.(q := Section(p.q, t))) < Rank(p)
  {
    OnlyWorkersAndDestructor(p, t);
    var p' := p.(q := Section(p.q, t));
    RankPut(p, t, p'.q.pcs[t], false, p');
  }

  lemma NotifyRank(p: Pool, t: nat, who: Sleeper)
    requires Roles(p) && p.closing && Enabled(p.q, Notify(t, who))
    ensures Rank(AfterStep(p, Notify(t, who))) < Rank(p)
  {
    OnlyWorkersAndDestructor(p, t);
    var p1 := p;
    if who.Thread? {
      p1 := p.(q := Put(p.q, who.t, Woken(p.q.pcs[who.t])));
      WokenRank(p, who.t);
    }
    var p2 := AfterStep(p, Notify(t, who));
    RankPut(p1, t, Idle, t < |p.exited| && p2.exited[t], p2);
  }

  lemma WokenRank(p: Pool, w: nat)
    requires Roles(p) && p.closing && w < |p.q.pcs| && Asleep(p.q.pcs[w])
    ensures Rank(p.(q := Put(p.q, w, Woken(p.q.pcs[w])))) == Rank(p) + 1
  {
    OnlyWorkersAndDestructor(p, w);
    RankPut(p, w, Woken(p.q.pcs[w]), false, p.(q := Put(p.q, w, Woken(p.q.pcs[w]))));
  }

  predicate IsSpurious(a: Action) {
    a.Step? && a.l.Spurious?
  }

  lemma ActionRank(p: Pool, a: Action)
    requires Roles(p) && p.closing && Can(p, a)
    requires Roles(Do(p, a))
    ensures if IsSpurious(a) then Rank(Do(p, a)) == Rank(p) + 1 else Rank(Do(p, a)) < Rank(p)
  {
    match a
    case Work(t) => RankPut(p, t, DequeueLock(false, false), false, Do(p, a));
    case PostTerminate => RankPut(p, |p.exited|, EnqueueLock(Terminate, false), false, Do(p, a));
    case Step(Lock(t)) => SectionRank(p, t);
    case Step(Notify(t, who)) => NotifyRank(p, t, who);
    case Step(Count(t)) => OnlyWorkersAndDestructor(p, t);
    case Step(Timeout(t)) => OnlyWorkersAndDestructor(p, t);
    case Step(Spurious(t)) => WokenRank(p, t);
    case Join =>
  }

  function Spuriouses(actions: seq<Action>): nat {
    if actions == [] then 0 else (if IsSpurious(actions[0]) then 1 else 0) + Spuriouses(actions[1..])
  }

  lemma {:induction false} ShutdownBound(p: Pool, actions: seq<Action>)
    requires PoolInv(p) && p.closing && IsPoolRun(p, actions)
    ensures |actions| <= Rank(p) + 2 * Spuriouses(actions)
    decreases |actions|
  {
    if actions == [] {
    } else {
      ActionKeeps(p, actions[0]);
      ActionRank(p, actions[0]);
      ActionSizes(p, actions[0]);
      ShutdownBound(Do(p, actions[0]), actions[1..]);
    }
  }

  /** The destructor of a pool with room for a message always finishes.  From the moment it
      starts, a run without endless spurious wakeups is finite; where it cannot go on, every
      worker has taken exactly one terminate message and been joined, the queue is empty, and
      every message posted before was dequeued or overrun by a newer one. */
  lemma ShutdownCompletes(capacity: nat, n: nat, posters: nat, before: seq<Action>, after: seq<Action>)
    requires 0 < n <= 1000 && capacity > 0
    requires IsPoolRun(InitPool(capacity, n, posters), before)
    requires AfterAll(InitPool(capacity, n, posters), before).closing
    requires IsPoolRun(AfterAll(InitPool(capacity, n, posters), before), after)
    ensures var p := AfterAll(InitPool(capacity, n, posters), before);
            p.posted <= |p.exited| < |p.q.pcs| && |after| <= Rank(p) + 2 * Spuriouses(after)
    ensures var p := AfterAll(AfterAll(InitPool(capacity, n, posters), before), after);
            (forall a | Can(p, a) :: IsSpurious(a)) ==>
              && p.joined && |p.exited| == n && (forall t | 0 <= t < n :: p.exited[t])
              && p.q.items == [] && p.q.written == ItemsOf(p.q.removed)
              && Overrun(Terminate) !in p.q.removed
              && forall t | 0 <= t < n :: multiset(p.q.removed)[Dequeued(t, Terminate)] == 1
  {
    var p0 := InitPool(capacity, n, posters);
    InitPoolInv(capacity, n, posters);
    PoolRunKeeps(p0, before);
    var p1 := AfterAll(p0, before);
    ShutdownBound(p1, after);
    PoolRunKeeps(p1, after);
    var p := AfterAll(p1, after);
    if forall a | Can(p, a) :: IsSpurious(a) {
      if !p.joined {
        ShutdownNeverStuck(p);
        assert false;
      }
      AllExited(p);
    }
  }

  /** Workers may always take the next message, and the destructor may start once no other thread
      is inside a post. */
  lemma PoolIsFree(p: Pool, t: nat)
    requires Roles(p)
    ensures t < |p.exited| && !p.exited[t] && p.q.pcs[t].Idle? ==> Can(p, Work(t))
    ensures |p.exited| < t < |p.q.pcs| && p.q.pcs[t].Idle? && !p.closing ==>
              forall policy, msg | msg != Terminate :: Can(p, Post(t, policy, msg))
    ensures !p.closing && (forall u | |p.exited| < u < |p.q.pcs| :: p.q.pcs[u].Idle?) ==> Can(p, Close)
  {
  }

  /** A pool with one worker, from the start of its destructor to the end. */
  lemma ShutdownExample()
    ensures var actions := [Close, PostTerminate, Step(Lock(1)), Step(Notify(1, Nobody)),
                            Work(0), Step(Lock(0)), Step(Notify(0, Nobody)), Join];
            IsPoolRun(InitPool(1, 1, 0), actions) && AfterAll(InitPool(1, 1, 0), actions).joined
  {
    hide Can, Do, InitPool, IsPoolRun, AfterAll;
    var p0 := InitPool(1, 1, 0);
    var p4 := PostsItsTerminate(p0);
    var p7 := TakesItsTerminate(p4);
    JoinsAtLast(p7);
    var a, b := [Close, PostTerminate, Step(Lock(1)), Step(Notify(1, Nobody))],
      [Work(0), Step(Lock(0)), Step(Notify(0, Nobody))];
    JoinRuns(p0, a, b);
    JoinRuns(p0, a + b, [Join]);
    assert a + b + [Join] == [Close, PostTerminate, Step(Lock(1)), Step(Notify(1, Nobody)),
                              Work(0), Step(Lock(0)), Step(Notify(0, Nobody)), Join];
  }

  lemma JoinsAtLast(p: Pool)
    requires p.exited == [true] && p.posted == 1 && p.closing && !p.joined && p.q.pcs == [Idle, Idle]
    ensures IsPoolRun(p, [Join]) && AfterAll(p, [Join]).joined
  {
    OneAction(p, Join);
  }

  lemma PostsItsTerminate(p: Pool) returns (p4: Pool)
    requires p == InitPool(1, 1, 0)
    ensures var actions := [Close, PostTerminate, Step(Lock(1)), Step(Notify(1, Nobody))];
            IsPoolRun(p, actions) && AfterAll(p, actions) == p4
    ensures p4.exited == [false] && p4.posted == 1 && p4.closing && !p4.joined
    ensures p4.q.items == [Terminate] && p4.q.pcs == [Idle, Idle] && p4.q.capacity == 1
  {
    var p1 := Do(p, Close);
    assert p1.q.pcs == [Idle, Idle];
    var p2 := Do(p1, PostTerminate);
    assert p2.q.pcs == [Idle, EnqueueLock(Terminate, false)];
    var p3 := Do(p2, Step(Lock(1)));
    assert p3.q.pcs == [Idle, NotifyPush] && p3.q.items == [Terminate];
    p4 := Do(p3, Step(Notify(1, Nobody)));
    assert p4.q.pcs == [Idle, Idle];
    TwoActions(p, Close, PostTerminate);
    TwoActions(p2, Step(Lock(1)), Step(Notify(1, Nobody)));
    hide Can, Do, InitPool;
    JoinRuns(p, [Close, PostTerminate], [Step(Lock(1)), Step(Notify(1, Nobody))]);
    assert [Close, PostTerminate] + [Step(Lock(1)), Step(Notify(1, Nobody))]
        == [Close, PostTerminate, Step(Lock(1)), Step(Notify(1, Nobody))];
  }

  lemma TakesItsTerminate(p: Pool) returns (p7: Pool)
    requires p.exited == [false] && p.posted == 1 && p.closing && !p.joined
    requires p.q.items == [Terminate] && p.q.pcs == [Idle, Idle] && p.q.capacity == 1
    ensures var actions := [Work(0), Step(Lock(0)), Step(Notify(0, Nobody))];
            IsPoolRun(p, actions) && AfterAll(p, actions) == p7
    ensures p7.exited == [true] && p7.posted == 1 && p7.closing && !p7.joined && p7.q.pcs == [Idle, Idle]
  {
    var p5 := Do(p, Work(0));
    assert p5.q.pcs == [DequeueLock(false, false), Idle];
    var p6 := Do(p5, Step(Lock(0)));
    assert p6.q.pcs == [NotifyPop(Terminate), Idle];
    p7 := Do(p6, Step(Notify(0, Nobody)));
    assert p7.exited == [true] && p7.q.pcs == [Idle, Idle];
    TwoActions(p, Work(0), Step(Lock(0)));
    OneAction(p6, Step(Notify(0, Nobody)));
    hide Can, Do;
    JoinRuns(p, [Work(0), Step(Lock(0))], [Step(Notify(0, Nobody))]);
    assert [Work(0), Step(Lock(0))] + [Step(Notify(0, Nobody))] == [Work(0), Step(Lock(0)), Step(Notify(0, Nobody))];
  }

  lemma {:induction false} JoinRuns(p: Pool, first: seq<Action>, second: seq<Action>)
    requires IsPoolRun(p, first) && IsPoolRun(AfterAll(p, first), second)
    ensures IsPoolRun(p, first + second) && AfterAll(p, first + second) == AfterAll(AfterAll(p, first), second)
    decreases |first|
  {
    hide Can, Do;
    if first == [] {
      assert first + second == second;
    } else {
      JoinRuns(Do(p, first[0]), first[1..], second);
      assert (first + second)[1..] == first[1..] + second;
    }
  }

  // ---------------------------------------------------------------------------------------
  // The overflow policies

  /** What each policy does on a full queue, from the post to the end of its critical section. */
  lemma PolicyOnFullQueue(p: Pool, t: nat, policy: OverflowPolicy, msg: Msg)
    requires Can(p, Post(t, policy, msg)) && |p.q.items| == p.q.capacity
    ensures IsPoolRun(p, [Post(t, policy, msg), Step(Lock(t))])
    ensures var q := AfterAll(p, [Post(t, policy, msg), Step(Lock(t))]).q;
            match policy
            case Block =>
              q.items == p.q.items && q.removed == p.q.removed && q.rejected == p.q.rejected
              && q.pcs == p.q.pcs[t := EnqueueSleep(msg)]
            case OverrunOldest =>
              q.items == (p.q.items + [msg])[1..] && q.removed == p.q.removed + [Overrun((p.q.items + [msg])[0])]
              && q.rejected == p.q.rejected
            case DiscardNew =>
              q.items == p.q.items && q.removed == p.q.removed && q.rejected == p.q.rejected + 1
  {
    var a, b := Post(t, policy, msg), Step(Lock(t));
    assert Can(Do(p, a), b);
    TwoActions(p, a, b);
  }

  lemma TwoActions(p: Pool, a: Action, b: Action)
    requires Can(p, a) && Can(Do(p, a), b)
    ensures IsPoolRun(p, [a, b]) && AfterAll(p, [a, b]) == Do(Do(p, a), b)
  {
    hide Can, Do;
    OneAction(Do(p, a), b);
    var actions := [a, b];
    assert actions[1..] == [b];
  }

  lemma OneAction(p: Pool, a: Action)
    requires Can(p, a)
    ensures IsPoolRun(p, [a]) && AfterAll(p, [a]) == Do(p, a)
  {
    hide Can, Do;
    var actions := [a];
    assert actions[1..] == [];
    assert IsPoolRun(Do(p, a), []) && AfterAll(Do(p, a), []) == Do(p, a);
  }

  ghost predicate PostsOnly(actions: seq<Action>, policy: OverflowPolicy) {
    forall i | 0 <= i < |actions| && actions[i].Post? :: actions[i].policy == policy
  }

  lemma BlockingActionLosesNothing(p: Pool, a: Action)
    requires NothingOverrun(p.q) && NothingRejected(p.q) && Can(p, a) && (a.Post? ==> a.policy == Block)
    ensures NothingOverrun(Do(p, a).q) && NothingRejected(Do(p, a).q)
  {
    hide NothingOverrun, NothingRejected, Next;
    match a
    case Work(t) => LosesNothing(p.q, Call(t, OpDequeue(false)));
    case Post(t, policy, msg) => LosesNothing(p.q, Call(t, OpEnqueue(msg)));
    case PostTerminate => LosesNothing(p.q, Call(|p.exited|, OpEnqueue(Terminate)));
    case Step(l) => LosesNothing(p.q, l);
    case _ =>
  }

  lemma LosesNothing(q: State<Msg>, l: Label<Msg>)
    requires NothingOverrun(q) && NothingRejected(q) && Enabled(q, l)
    requires l.Call? ==> l.op.OpEnqueue? || l.op.OpDequeue?
    ensures NothingOverrun(Next(q, l)) && NothingRejected(Next(q, l))
  {
    StepOverrunsNothing(q, l);
    StepRejectsNothing(q, l);
  }

  lemma {:induction false} BlockingRunLosesNothing(p: Pool, actions: seq<Action>)
    requires NothingOverrun(p.q) && NothingRejected(p.q) && IsPoolRun(p, actions) && PostsOnly(actions, Block)
    ensures NothingOverrun(AfterAll(p, actions).q) && NothingRejected(AfterAll(p, actions).q)
    decreases |actions|
  {
    hide NothingOverrun, NothingRejected, Can, Do;
    if actions == [] {
    } else {
      BlockingActionLosesNothing(p, actions[0]);
      BlockingRunLosesNothing(Do(p, actions[0]), actions[1..]);
    }
  }

  /** A pool that only ever blocks loses no message: none is overrun or rejected, and once all
      workers have exited every message written has been dequeued by one of them, in order. */
  lemma BlockingLosesNothing(capacity: nat, n: nat, posters: nat, actions: seq<Action>)
    requires 0 < n <= 1000 && IsPoolRun(InitPool(capacity, n, posters), actions) && PostsOnly(actions, Block)
    ensures var p := AfterAll(InitPool(capacity, n, posters), actions);
            && p.q.overrunCounter == 0 && p.q.rejected == 0 && p.q.discardCounter == 0
            && (forall i | 0 <= i < |p.q.removed| :: p.q.removed[i].Dequeued?)
            && ((forall t | 0 <= t < n :: t < |p.exited| && p.exited[t]) ==> p.q.written == ItemsOf(p.q.removed))
  {
    var p0 := InitPool(capacity, n, posters);
    InitPoolInv(capacity, n, posters);
    PoolRunKeeps(p0, actions);
    BlockingRunLosesNothing(p0, actions);
    var p := AfterAll(p0, actions);
    if forall t | 0 <= t < n :: t < |p.exited| && p.exited[t] {
      AllExited(p);
    }
  }

  /** The destructor has not got past its first post. */
  ghost predicate FirstPostPending(p: Pool) {
    && p.q.capacity == 0 && 0 < |p.exited| < |p.q.pcs| && !p.joined && |p.q.items| == 0
    && var pc := p.q.pcs[|p.exited|];
       if p.posted == 0 then pc.Idle? else pc.EnqueueLock? || pc.EnqueueSleep?
  }

  lemma FirstPostStaysPending(p: Pool, a: Action)
    requires FirstPostPending(p) && Can(p, a)
    ensures FirstPostPending(Do(p, a))
  {
  }

  lemma {:induction false} FirstPostRun(p: Pool, actions: seq<Action>)
    requires FirstPostPending(p) && IsPoolRun(p, actions)
    ensures FirstPostPending(AfterAll(p, actions))
    decreases |actions|
  {
    if actions == [] {
    } else {
      FirstPostStaysPending(p, actions[0]);
      FirstPostRun(Do(p, actions[0]), actions[1..]);
    }
  }

  /** Room for a message is needed: with capacity 0 no run ever joins the workers. */
  lemma NoRoomNoShutdown(n: nat, posters: nat, actions: seq<Action>)
    requires n > 0 && IsPoolRun(InitPool(0, n, posters), actions)
    ensures !AfterAll(InitPool(0, n, posters), actions).joined
  {
    FirstPostRun(InitPool(0, n, posters), actions);
  }
}
