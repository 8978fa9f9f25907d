/** Every interleaving of tasks, interrupts and ticks on one queue that belongs to no queue set.
    Each critical section and each call made with the scheduler suspended is one step. */
module QueueRuns {
  import opened Numbers
  import opened QueueLocks
  import opened Sequences

  datatype Op = Receiving | Peeking | Sending

  /** What a task will do once the queue is unlocked and the scheduler resumed. */
  datatype Next = Wait | TryAgain | GiveUp

  /** Where a task is inside xQueueReceive, xQueuePeek or xQueueGenericSend. */
  datatype Pc =
    | Idle
    | Try(op: Op)                     // at the top of the loop
    | AboutToLock(op: Op)             // the attempt failed with block time left
    | Locked(op: Op)                  // scheduler suspended, queue locked
    | Committed(op: Op)               // found the queue empty (full), about to join the event list
    | Unlocking(op: Op, next: Next)   // before the first half of prvUnlockQueue
    | HalfUnlocked(op: Op, next: Next)
    | Resuming(op: Op, next: Next)    // before xTaskResumeAll
    | Blocked(op: Op)                 // waiting, or readied and not yet running
    | Expired(op: Op)                 // timed out, about to look once more

  /** The priority a task had when it last joined an event list, and how many had joined before. */
  datatype Rank = Rank(priority: nat, since: nat)

  datatype System = System(q: Queue, pc: map<Task, Pc>, owner: int, ranks: map<Task, Rank>, joins: nat)

  /** No task has suspended the scheduler. */
  const NOBODY := -1

  datatype Event =
    | Call(t: Task, op: Op)
    | Attempt(t: Task, overwrite: bool, mayBlock: bool)
    | LockEvent(t: Task)
    | Check(t: Task, timedOut: bool)
    | Join(t: Task, priority: nat)
    | UnlockTxEvent(t: Task)
    | UnlockRxEvent(t: Task)
    | Resume(t: Task)
    | Continue(t: Task)
    | LastLook(t: Task)
    | TimeOut(t: Task)
    | IsrSend(overwrite: bool)
    | IsrReceive
    | ResetEvent(t: Task)

  function Initial(length: nat, itemSize: nat): System {
    System(Queue(0, length, itemSize, Side(UNLOCKED, [], {}), Side(UNLOCKED, [], {})), map[], NOBODY, map[], 0)
  }

  function PcIn(pc: map<Task, Pc>, t: Task): Pc {
    if t in pc then pc[t] else Idle
  }

  function PcOf(s: System, t: Task): Pc {
    PcIn(s.pc, t)
  }

  function Put(pc: map<Task, Pc>, t: Task, v: Pc): (r: map<Task, Pc>)
    ensures forall u :: PcIn(r, u) == if u == t then v else PcIn(pc, u)
  {
    pc[t := v]
  }

  predicate Runs(s: System, t: Task) {
    s.owner == NOBODY || s.owner == t
  }

  predicate Listed(s: System, t: Task) {
    t in s.q.tx.waiting || t in s.q.rx.waiting
  }

  /** prvIsQueueFull and prvIsQueueEmpty: a queue that holds too much does not count as full. */
  predicate Fails(q: Queue, op: Op) {
    if op == Sending then q.messages == q.length else q.messages == 0
  }

  predicate Enabled(s: System, e: Event) {
    match e
    case Call(t, op) => Runs(s, t) && PcOf(s, t) == Idle
    case Attempt(t, overwrite, mayBlock) =>
      s.owner == NOBODY && PcOf(s, t).Try? && (overwrite ==> PcOf(s, t).op == Sending && s.q.length == 1)
    case LockEvent(t) => s.owner == NOBODY && PcOf(s, t).AboutToLock?
    case Check(t, timedOut) => s.owner == t && PcOf(s, t).Locked?
    case Join(t, _) => s.owner == t && PcOf(s, t).Committed?
    case UnlockTxEvent(t) => s.owner == t && PcOf(s, t).Unlocking?
    case UnlockRxEvent(t) => s.owner == t && PcOf(s, t).HalfUnlocked?
    case Resume(t) => s.owner == t && PcOf(s, t).Resuming?
    case Continue(t) => s.owner == NOBODY && PcOf(s, t).Blocked? && !Listed(s, t)
    case LastLook(t) => s.owner == NOBODY && PcOf(s, t).Expired?
    case TimeOut(t) => s.owner == NOBODY && PcOf(s, t).Blocked?
    case IsrSend(overwrite) => s.q.tx.lock < INT8_MAX && (overwrite ==> s.q.length == 1)
    case IsrReceive => s.q.rx.lock < INT8_MAX
    case ResetEvent(t) => s.owner == NOBODY && PcOf(s, t) == Idle
  }

  function RankIn(ranks: map<Task, Rank>, t: Task): Rank {
    if t in ranks then ranks[t] else Rank(0, 0)
  }

  /** vListInsert on an event list: behind everyone of at least that priority. */
  function PlaceIn(ranks: map<Task, Rank>, waiting: seq<Task>, priority: nat): (place: nat)
    ensures place <= |waiting|
  {
    if waiting == [] || RankIn(ranks, waiting[0]).priority < priority then 0
    else 1 + PlaceIn(ranks, waiting[1..], priority)
  }

  function Joined(s: System, side: Side, t: Task, priority: nat): Side {
    Enqueue(side, t, PlaceIn(s.ranks, side.waiting, priority))
  }

  function At(s: System, t: Task, pc: Pc): System {
    s.(pc := Put(s.pc, t, pc))
  }

  /** The task re-enters its critical section: it is no longer one that was woken and must look. */
  function Looked(q: Queue, t: Task): Queue {
    q.(tx := Retry(q.tx, t), rx := Retry(q.rx, t))
  }

  /** The first critical section of the three loops. */
  function ApplyAttempt(s: System, t: Task, overwrite: bool, mayBlock: bool): System
    requires PcOf(s, t).Try?
  {
    var op := PcOf(s, t).op;
    var q := Looked(s.q, t);
    if op == Sending && Room(q, overwrite) then At(s, t, Idle).(q := Send(q, overwrite))
    else if op == Receiving && q.messages > 0 then At(s, t, Idle).(q := Receive(q))
    else if op == Peeking && q.messages > 0 then At(s, t, Idle).(q := Peek(q))
    else At(s, t, if mayBlock then AboutToLock(op) else Idle).(q := q)
  }

  function AfterCheck(s: System, op: Op, timedOut: bool): Pc {
    if timedOut then Unlocking(op, GiveUp)
    else if Fails(s.q, op) then Committed(op)
    else Unlocking(op, TryAgain)
  }

  function AfterResume(op: Op, next: Next): Pc {
    match next
    case Wait => Blocked(op)
    case TryAgain => Try(op)
    case GiveUp => if op == Sending then Idle else Expired(op)
  }

  function Apply(s: System, e: Event): System
    requires Enabled(s, e)
  {
    match e
    case Call(t, op) => At(s, t, Try(op))
    case Attempt(t, overwrite, mayBlock) => ApplyAttempt(s, t, overwrite, mayBlock)
    case LockEvent(t) => At(s, t, Locked(PcOf(s, t).op)).(q := LockQueue(s.q), owner := t)
    case Check(t, timedOut) => At(s, t, AfterCheck(s, PcOf(s, t).op, timedOut))
    case Join(t, priority) =>
      var op := PcOf(s, t).op;
      At(s, t, Unlocking(op, Wait)).(
        q := if op == Sending then s.q.(rx := Joined(s, s.q.rx, t, priority))
             else s.q.(tx := Joined(s, s.q.tx, t, priority)),
        ranks := s.ranks[t := Rank(priority, s.joins)], joins := s.joins + 1)
    case UnlockTxEvent(t) =>
      At(s, t, HalfUnlocked(PcOf(s, t).op, PcOf(s, t).next)).(q := s.q.(tx := Unlock(s.q.tx)))
    case UnlockRxEvent(t) =>
      At(s, t, Resuming(PcOf(s, t).op, PcOf(s, t).next)).(q := s.q.(rx := Unlock(s.q.rx)))
    case Resume(t) => At(s, t, AfterResume(PcOf(s, t).op, PcOf(s, t).next)).(owner := NOBODY)
    case Continue(t) => At(s, t, Try(PcOf(s, t).op))
    case LastLook(t) => At(s, t, if Fails(s.q, PcOf(s, t).op) then Idle else Try(PcOf(s, t).op))
    case TimeOut(t) => s.(q := s.q.(tx := Expire(s.q.tx, t), rx := Expire(s.q.rx, t)))
    case IsrSend(overwrite) => if Room(s.q, overwrite) then s.(q := SendFromIsr(s.q, overwrite)) else s
    case IsrReceive => if s.q.messages > 0 then s.(q := ReceiveFromIsr(s.q)) else s
    case ResetEvent(t) => s.(q := Reset(s.q))
  }

  predicate CanRun(s: System, es: seq<Event>)
    decreases |es|
  {
    |es| == 0 || (Enabled(s, es[0]) && CanRun(Apply(s, es[0]), es[1..]))
  }

  function Run(s: System, es: seq<Event>): System
    requires CanRun(s, es)
    decreases |es|
  {
    if es == [] then s else Run(Apply(s, es[0]), es[1..])
  }

  // ---------- What every step keeps ----------

  predicate HoldsScheduler(pc: Pc) {
    pc.Locked? || pc.Committed? || pc.Unlocking? || pc.HalfUnlocked? || pc.Resuming?
  }

  /** On an event list, or committed to looking at the queue again before anything else. */
  predicate WillLook(pc: Pc) {
    || ((pc.Unlocking? || pc.HalfUnlocked? || pc.Resuming?) && pc.next == Wait)
    || pc.Blocked?
  }

  ghost predicate SideTasks(pc: map<Task, Pc>, side: Side, sends: bool) {
    && (forall t :: t in side.waiting ==> WillLook(PcIn(pc, t)) && (PcIn(pc, t).op == Sending) == sends)
    && (forall t :: t in side.woken ==>
          (WillLook(PcIn(pc, t)) || PcIn(pc, t).Try?) && (PcIn(pc, t).op == Sending) == sends)
  }

  predicate LocksMatch(s: System)
    requires s.owner >= 0
  {
    var pc := PcOf(s, s.owner);
    && HoldsScheduler(pc)
    && UNLOCKED <= s.q.tx.lock <= INT8_MAX && UNLOCKED <= s.q.rx.lock <= INT8_MAX
    && (s.q.tx.lock == UNLOCKED <==> pc.HalfUnlocked? || pc.Resuming?)
    && (s.q.rx.lock == UNLOCKED <==> pc.Resuming?)
    && (pc.Committed? ==> if pc.op == Sending then Free(s.q) <= s.q.rx.lock else s.q.messages <= s.q.tx.lock)
  }

  ghost predicate Sound(s: System) {
    && (s.q.itemSize > 0 ==> s.q.messages <= s.q.length)
    && SideOk(s.q.tx) && SideOk(s.q.rx)
    && SideTasks(s.pc, s.q.tx, false) && SideTasks(s.pc, s.q.rx, true)
    && (forall t :: HoldsScheduler(PcIn(s.pc, t)) ==> s.owner == t)
    && s.owner >= NOBODY
    && (if s.owner == NOBODY then s.q.tx.lock == s.q.rx.lock == UNLOCKED else LocksMatch(s))
  }

  predicate ReceiversSafe(s: System) {
    NoLostWake(s.q.tx, s.q.messages)
  }

  predicate SendersSafe(s: System) {
    NoLostWake(s.q.rx, Free(s.q))
  }

  /** Looking again gives up one claim on a unit and, at most, the unit itself. */
  lemma RetryKeeps(side: Side, t: Task, available: int)
    requires SideOk(side)
    ensures SideOk(Retry(side, t)) && OnlyWakes(side, Retry(side, t))
    ensures NoLostWake(side, available) ==> NoLostWake(Retry(side, t), available - 1)
    ensures t !in side.woken ==> Retry(side, t) == side
  {
    if t in side.woken {
      assert |side.woken - {t}| == |side.woken| - 1;
    } else {
      assert side.woken - {t} == side.woken;
    }
  }

  /** A step that only wakes tasks of one side, or moves a task on after it has looked, keeps the
      side's tasks where they should be. */
  lemma SideTasksKept(pc: map<Task, Pc>, before: Side, after: Side, sends: bool, t: Task, at: Pc)
    requires SideTasks(pc, before, sends) && OnlyWakes(before, after)
    requires t !in after.waiting && t !in after.woken
    ensures SideTasks(Put(pc, t, at), after, sends)
  {
  }

  lemma AttemptSideKeeps(s: System, side: Side, sends: bool, t: Task, at: Pc)
    requires Sound(s) && PcOf(s, t).Try?
    requires side == if sends then s.q.rx else s.q.tx
    ensures var looked := Retry(side, t);
            && SideOk(looked) && SideOk(NotifyFromTask(looked))
            && SideTasks(Put(s.pc, t, at), looked, sends)
            && SideTasks(Put(s.pc, t, at), NotifyFromTask(looked), sends)
  {
    RetryKeeps(side, t, 0);
    NotifyKeeps(Retry(side, t), 0);
    assert t !in side.waiting;
    SideTasksKept(s.pc, side, Retry(side, t), sends, t, at);
    SideTasksKept(s.pc, side, NotifyFromTask(Retry(side, t)), sends, t, at);
  }

  lemma AttemptIsSound(s: System, t: Task, overwrite: bool, mayBlock: bool)
    requires Sound(s) && Enabled(s, Attempt(t, overwrite, mayBlock))
    ensures Sound(Apply(s, Attempt(t, overwrite, mayBlock)))
  {
    var at := PcOf(Apply(s, Attempt(t, overwrite, mayBlock)), t);
    AttemptSideKeeps(s, s.q.tx, false, t, at);
    AttemptSideKeeps(s, s.q.rx, true, t, at);
    assert Put(s.pc, t, at) == s.pc[t := at];
  }

  lemma AttemptKeepsReceivers(s: System, t: Task, overwrite: bool, mayBlock: bool)
    requires Sound(s) && Enabled(s, Attempt(t, overwrite, mayBlock)) && ReceiversSafe(s)
    ensures ReceiversSafe(Apply(s, Attempt(t, overwrite, mayBlock)))
  {
    RetryKeeps(s.q.tx, t, s.q.messages);
    NotifyKeeps(Retry(s.q.tx, t), s.q.messages);
    NotifyKeeps(Retry(s.q.tx, t), s.q.messages - 1);
  }

  lemma AttemptKeepsSenders(s: System, t: Task, overwrite: bool, mayBlock: bool)
    requires Sound(s) && Enabled(s, Attempt(t, overwrite, mayBlock)) && SendersSafe(s)
    ensures SendersSafe(Apply(s, Attempt(t, overwrite, mayBlock)))
  {
    if PcOf(s, t).op == Sending {
      RetryKeeps(s.q.rx, t, Free(s.q));
    } else {
      RetryKeeps(s.q.rx, t, 0);
      NotifyKeeps(s.q.rx, Free(s.q));
    }
  }

  lemma IsrKeeps(s: System, e: Event)
    requires Sound(s) && Enabled(s, e) && (e.IsrSend? || e.IsrReceive?)
    ensures ReceiversSafe(s) ==> ReceiversSafe(Apply(s, e))
    ensures SendersSafe(s) ==> SendersSafe(Apply(s, e))
  {
    NotifyKeeps(s.q.tx, s.q.messages);
    NotifyKeeps(s.q.rx, Free(s.q));
  }

  lemma IsrIsSound(s: System, e: Event)
    requires Sound(s) && Enabled(s, e) && (e.IsrSend? || e.IsrReceive?)
    ensures Sound(Apply(s, e))
  {
    NotifyKeeps(s.q.tx, 0);
    NotifyKeeps(s.q.rx, 0);
    assert SideTasks(s.pc, NotifyFromIsr(s.q.tx), false);
    assert SideTasks(s.pc, NotifyFromIsr(s.q.rx), true);
    assert UNLOCKED < s.q.tx.lock < INT8_MAX ==> ToInt8(s.q.tx.lock + 1) == s.q.tx.lock + 1;
    assert UNLOCKED < s.q.rx.lock < INT8_MAX ==> ToInt8(s.q.rx.lock + 1) == s.q.rx.lock + 1;
  }

  /** Joining is safe because whatever arrived since the queue was seen empty is in the count. */
  lemma JoinKeeps(s: System, t: Task, priority: nat)
    requires Sound(s) && Enabled(s, Join(t, priority))
    ensures Sound(Apply(s, Join(t, priority)))
    ensures ReceiversSafe(s) ==> ReceiversSafe(Apply(s, Join(t, priority)))
    ensures SendersSafe(s) ==> SendersSafe(Apply(s, Join(t, priority)))
  {
    var side := if PcOf(s, t).op == Sending then s.q.rx else s.q.tx;
    EnqueueKeeps(side, t, PlaceIn(s.ranks, side.waiting, priority));
  }

  lemma UnlockTxKeeps(s: System, t: Task)
    requires Sound(s) && Enabled(s, UnlockTxEvent(t))
    ensures Sound(Apply(s, UnlockTxEvent(t)))
    ensures ReceiversSafe(s) ==> ReceiversSafe(Apply(s, UnlockTxEvent(t)))
    ensures SendersSafe(s) ==> SendersSafe(Apply(s, UnlockTxEvent(t)))
  {
    UnlockKeeps(s.q.tx, s.q.messages);
  }

  lemma UnlockRxKeeps(s: System, t: Task)
    requires Sound(s) && Enabled(s, UnlockRxEvent(t))
    ensures Sound(Apply(s, UnlockRxEvent(t)))
    ensures ReceiversSafe(s) ==> ReceiversSafe(Apply(s, UnlockRxEvent(t)))
    ensures SendersSafe(s) ==> SendersSafe(Apply(s, UnlockRxEvent(t)))
  {
    UnlockKeeps(s.q.rx, Free(s.q));
  }

  lemma TimeOutKeeps(s: System, t: Task)
    requires Sound(s) && Enabled(s, TimeOut(t))
    ensures Sound(Apply(s, TimeOut(t)))
    ensures ReceiversSafe(s) ==> ReceiversSafe(Apply(s, TimeOut(t)))
    ensures SendersSafe(s) ==> SendersSafe(Apply(s, TimeOut(t)))
  {
    ExpireKeeps(s.q.tx, t, s.q.messages);
    ExpireKeeps(s.q.rx, t, Free(s.q));
  }

  lemma ResetKeeps(s: System, t: Task)
    requires Sound(s) && Enabled(s, ResetEvent(t))
    ensures Sound(Apply(s, ResetEvent(t)))
    ensures ReceiversSafe(s) ==> ReceiversSafe(Apply(s, ResetEvent(t)))
  {
    NotifyKeeps(s.q.rx.(lock := UNLOCKED), 0);
  }

  /** The steps that touch nothing but a program counter and the scheduler. */
  lemma QuietStepKeeps(s: System, e: Event)
    requires Sound(s) && Enabled(s, e)
    requires e.Call? || e.Check? || e.Resume? || e.Continue? || e.LastLook?
    ensures Sound(Apply(s, e)) && Apply(s, e).q == s.q
  {
    match e
    case Call(_, _) =>
    case Check(_, _) =>
    case Resume(_) =>
    case Continue(_) =>
    case LastLook(_) =>
  }

  lemma LockStepKeeps(s: System, t: Task)
    requires Sound(s) && Enabled(s, LockEvent(t))
    ensures Sound(Apply(s, LockEvent(t)))
    ensures ReceiversSafe(s) ==> ReceiversSafe(Apply(s, LockEvent(t)))
    ensures SendersSafe(s) ==> SendersSafe(Apply(s, LockEvent(t)))
  {
  }

  lemma StepIsSound(s: System, e: Event)
    requires Sound(s) && Enabled(s, e)
    ensures Sound(Apply(s, e))
  {
    match e
    case Attempt(t, overwrite, mayBlock) => AttemptIsSound(s, t, overwrite, mayBlock);
    case IsrSend(_) => IsrIsSound(s, e);
    case IsrReceive => IsrIsSound(s, e);
    case Join(t, priority) => JoinKeeps(s, t, priority);
    case UnlockTxEvent(t) => UnlockTxKeeps(s, t);
    case UnlockRxEvent(t) => UnlockRxKeeps(s, t);
    case TimeOut(t) => TimeOutKeeps(s, t);
    case ResetEvent(t) => ResetKeeps(s, t);
    case LockEvent(t) => LockStepKeeps(s, t);
    case _ => QuietStepKeeps(s, e);
  }

  lemma StepKeepsReceivers(s: System, e: Event)
    requires Sound(s) && Enabled(s, e) && ReceiversSafe(s)
    ensures ReceiversSafe(Apply(s, e))
  {
    match e
    case Attempt(t, overwrite, mayBlock) => AttemptKeepsReceivers(s, t, overwrite, mayBlock);
    case IsrSend(_) => IsrKeeps(s, e);
    case IsrReceive => IsrKeeps(s, e);
    case Join(t, priority) => JoinKeeps(s, t, priority);
    case UnlockTxEvent(t) => UnlockTxKeeps(s, t);
    case UnlockRxEvent(t) => UnlockRxKeeps(s, t);
    case TimeOut(t) => TimeOutKeeps(s, t);
    case ResetEvent(t) => ResetKeeps(s, t);
    case LockEvent(t) => LockStepKeeps(s, t);
    case _ => QuietStepKeeps(s, e);
  }

  lemma StepKeepsSenders(s: System, e: Event)
    requires Sound(s) && Enabled(s, e) && SendersSafe(s) && !e.ResetEvent?
    ensures SendersSafe(Apply(s, e))
  {
    match e
    case Attempt(t, overwrite, mayBlock) => AttemptKeepsSenders(s, t, overwrite, mayBlock);
    case IsrSend(_) => IsrKeeps(s, e);
    case IsrReceive => IsrKeeps(s, e);
    case Join(t, priority) => JoinKeeps(s, t, priority);
    case UnlockTxEvent(t) => UnlockTxKeeps(s, t);
    case UnlockRxEvent(t) => UnlockRxKeeps(s, t);
    case TimeOut(t) => TimeOutKeeps(s, t);
    case LockEvent(t) => LockStepKeeps(s, t);
    case _ => QuietStepKeeps(s, e);
  }

  // ---------- Whole runs ----------

  /** Receivers never sleep through a post, whatever the interleaving, resets included. */
  lemma {:induction false} ReceiversNeverLoseAWake(s: System, es: seq<Event>)
    requires Sound(s) && ReceiversSafe(s) && CanRun(s, es)
    ensures Sound(Run(s, es)) && ReceiversSafe(Run(s, es))
    decreases |es|
  {
    if es != [] {
      StepIsSound(s, es[0]);
      StepKeepsReceivers(s, es[0]);
      ReceiversNeverLoseAWake(Apply(s, es[0]), es[1..]);
    }
  }

  /** Senders never sleep through a removal on runs without a reset. */
  lemma {:induction false} SendersNeverLoseAWake(s: System, es: seq<Event>)
    requires Sound(s) && SendersSafe(s) && CanRun(s, es)
    requires forall e :: e in es ==> !e.ResetEvent?
    ensures Sound(Run(s, es)) && SendersSafe(Run(s, es))
    decreases |es|
  {
    if es != [] {
      StepIsSound(s, es[0]);
      StepKeepsSenders(s, es[0]);
      SendersNeverLoseAWake(Apply(s, es[0]), es[1..]);
    }
  }

  /** Nobody is on the way to the queue: tasks are idle or asleep on an event list. */
  ghost predicate Quiescent(s: System) {
    && s.owner == NOBODY
    && forall t :: PcIn(s.pc, t) == Idle || (PcIn(s.pc, t).Blocked? && Listed(s, t))
  }

  /** What the protocol is for: once everything has settled, nobody is left waiting for an item that
      is there, and on runs without a reset nobody is left waiting for room that is there. */
  lemma SettledQueueHasNoStrandedTask(length: nat, itemSize: nat, es: seq<Event>)
    requires CanRun(Initial(length, itemSize), es) && Quiescent(Run(Initial(length, itemSize), es))
    ensures var q := Run(Initial(length, itemSize), es).q;
            && (q.messages > 0 ==> q.tx.waiting == [])
            && ((forall e :: e in es ==> !e.ResetEvent?) && q.messages < q.length ==> q.rx.waiting == [])
  {
    ReceiversNeverLoseAWake(Initial(length, itemSize), es);
    var s := Run(Initial(length, itemSize), es);
    forall t ensures t !in s.q.tx.woken && t !in s.q.rx.woken {
      assert PcIn(s.pc, t) == Idle || Listed(s, t);
    }
    assert s.q.tx.woken == {} && s.q.rx.woken == {};
    if forall e :: e in es ==> !e.ResetEvent? {
      SendersNeverLoseAWake(Initial(length, itemSize), es);
    }
  }

  /** Any other call a task makes on the queue, xQueueAddToSet for one, finds it unlocked: only a task inside
      one of the loops above holds a lock, and it has the scheduler suspended. */
  lemma CallersFindItUnlocked(length: nat, itemSize: nat, es: seq<Event>, t: Task)
    requires CanRun(Initial(length, itemSize), es)
    ensures var s := Run(Initial(length, itemSize), es);
            PcOf(s, t) == Idle && Runs(s, t) ==> s.q.tx.lock == s.q.rx.lock == UNLOCKED
  {
    ReceiversNeverLoseAWake(Initial(length, itemSize), es);
  }

  // ---------- Where the claims end ----------

  lemma OneStep(s: System, e: Event, es: seq<Event>)
    requires Enabled(s, e) && CanRun(Apply(s, e), es)
    ensures CanRun(s, [e] + es) && Run(s, [e] + es) == Run(Apply(s, e), es)
  {
    assert ([e] + es)[1..] == es;
  }

  lemma {:induction false} RunsJoin(s: System, a: seq<Event>, b: seq<Event>)
    requires CanRun(s, a) && CanRun(Run(s, a), b)
    ensures CanRun(s, a + b) && Run(s, a + b) == Run(Run(s, a), b)
    decreases |a|
  {
    if a == [] {
      assert a + b == b;
    } else {
      RunsJoin(Apply(s, a[0]), a[1..], b);
      assert a + b == [a[0]] + (a[1..] + b);
    }
  }

  /** A call that finds nothing to do, up to where it is to join the event list. */
  function Looking(t: Task, op: Op): seq<Event> {
    [Call(t, op), Attempt(t, false, true), LockEvent(t), Check(t, false)]
  }

  /** And then it joins, at the lowest priority. */
  function Joining(t: Task, op: Op): seq<Event> {
    Looking(t, op) + [Join(t, 0)]
  }

  lemma FindsNothing(s: System, t: Task, op: Op)
    requires s.owner == NOBODY && PcOf(s, t) == Idle && Fails(s.q, op)
    requires t !in s.q.tx.woken && t !in s.q.rx.woken
    ensures CanRun(s, Looking(t, op))
    ensures Run(s, Looking(t, op)) == s.(q := LockQueue(s.q), pc := s.pc[t := Committed(op)], owner := t)
  {
    assert Looked(s.q, t) == s.q;
    var s1 := Apply(s, Call(t, op));
    var s2 := Apply(s1, Attempt(t, false, true));
    var s3 := Apply(s2, LockEvent(t));
    assert Apply(s3, Check(t, false)).pc == s.pc[t := Committed(op)];
    OneStep(s3, Check(t, false), []);
    OneStep(s2, LockEvent(t), [Check(t, false)]);
    OneStep(s1, Attempt(t, false, true), [LockEvent(t), Check(t, false)]);
    OneStep(s, Call(t, op), [Attempt(t, false, true), LockEvent(t), Check(t, false)]);
  }

  lemma {:induction false} LowestGoLast(ranks: map<Task, Rank>, waiting: seq<Task>)
    ensures PlaceIn(ranks, waiting, 0) == |waiting|
  {
    if waiting != [] {
      LowestGoLast(ranks, waiting[1..]);
    }
  }

  /** A call that may wait and finds nothing to do ends up on the event list of a locked queue. */
  lemma JoinsTheList(s: System, t: Task, op: Op)
    requires s.owner == NOBODY && PcOf(s, t) == Idle && Fails(s.q, op)
    requires t !in s.q.tx.woken && t !in s.q.rx.woken
    ensures var q := LockQueue(s.q);
            && CanRun(s, Joining(t, op))
            && Run(s, Joining(t, op)) ==
               System(if op == Sending then q.(rx := q.rx.(waiting := q.rx.waiting + [t]))
                      else q.(tx := q.tx.(waiting := q.tx.waiting + [t])), s.pc[t := Unlocking(op, Wait)], t,
                      s.ranks[t := Rank(0, s.joins)], s.joins + 1)
  {
    FindsNothing(s, t, op);
    LowestGoLast(s.ranks, if op == Sending then s.q.rx.waiting else s.q.tx.waiting);
    var s4 := Run(s, Looking(t, op));
    assert s.pc[t := Committed(op)][t := Unlocking(op, Wait)] == s.pc[t := Unlocking(op, Wait)];
    OneStep(s4, Join(t, 0), []);
    RunsJoin(s, Looking(t, op), [Join(t, 0)]);
  }

  function Posts(n: nat): seq<Event> {
    if n == 0 then [] else [IsrSend(false)] + Posts(n - 1)
  }

  lemma {:induction false} PostsAreCounted(s: System, n: nat)
    requires 0 <= s.q.tx.lock <= INT8_MAX - n && s.q.messages + n <= s.q.length
    ensures CanRun(s, Posts(n))
    ensures Run(s, Posts(n)) == s.(q := s.q.(messages := s.q.messages + n, tx := s.q.tx.(lock := s.q.tx.lock + n)))
    decreases n
  {
    if n > 0 {
      PostsAreCounted(Apply(s, IsrSend(false)), n - 1);
      OneStep(s, IsrSend(false), Posts(n - 1));
    }
  }

  /** An empty queue, locked by a receiver that has just joined its list. */
  function OneJoined(): System {
    System(Queue(0, 128, 4, Side(LOCKED_UNMODIFIED, [0], {}), Side(LOCKED_UNMODIFIED, [], {})),
           map[0 := Unlocking(Receiving, Wait)], 0, map[0 := Rank(0, 0)], 1)
  }

  lemma OneJoins()
    ensures CanRun(Initial(128, 4), Joining(0, Receiving))
    ensures Run(Initial(128, 4), Joining(0, Receiving)) == OneJoined()
  {
    JoinsTheList(Initial(128, 4), 0, Receiving);
  }

  lemma TheCountWraps(q: Queue)
    requires q == Queue(INT8_MAX, 128, 4, Side(INT8_MAX, [0], {}), Side(LOCKED_UNMODIFIED, [], {}))
    ensures SendFromIsr(q, false).messages == 128 && Unlock(SendFromIsr(q, false).tx) == Side(UNLOCKED, [0], {})
  {
    assert SendFromIsr(q, false).tx.lock == -128;
  }

  /** A receiver joins the list of an empty queue, 128 posts arrive before it unlocks the queue, and it is left
      asleep with 128 items there to receive. */
  lemma OnePostTooMany(posts: nat, es: seq<Event>)
    requires posts == INT8_MAX && es == Joining(0, Receiving) + Posts(posts)
    ensures CanRun(Initial(128, 4), es)
    ensures var q := SendFromIsr(Run(Initial(128, 4), es).q, false);
            q.messages == 128 && Unlock(q.tx) == Side(UNLOCKED, [0], {})
  {
    OneJoins();
    PostsAreCounted(OneJoined(), posts);
    RunsJoin(Initial(128, 4), Joining(0, Receiving), Posts(posts));
    TheCountWraps(Run(Initial(128, 4), es).q);
  }

  /** A call that finds nothing to do and goes to sleep. */
  function Sleeping(t: Task, op: Op): seq<Event> {
    Joining(t, op) + [UnlockTxEvent(t), UnlockRxEvent(t), Resume(t)]
  }

  lemma FallsAsleep(s: System, t: Task)
    requires s.owner == NOBODY && PcOf(s, t) == Idle && Fails(s.q, Sending)
    requires t !in s.q.tx.woken && t !in s.q.rx.woken && s.q.tx.lock == s.q.rx.lock == UNLOCKED
    ensures CanRun(s, Sleeping(t, Sending))
    ensures Run(s, Sleeping(t, Sending)) ==
            System(s.q.(rx := s.q.rx.(waiting := s.q.rx.waiting + [t])), s.pc[t := Blocked(Sending)], NOBODY,
                   s.ranks[t := Rank(0, s.joins)], s.joins + 1)
  {
    var joining := Joining(t, Sending);
    JoinsTheList(s, t, Sending);
    LetsGo(Run(s, joining), t);
    RunsJoin(s, joining, [UnlockTxEvent(t), UnlockRxEvent(t), Resume(t)]);
    assert s.pc[t := Unlocking(Sending, Wait)][t := Blocked(Sending)] == s.pc[t := Blocked(Sending)];
  }

  lemma LetsGo(s: System, t: Task)
    requires s.owner == t && PcOf(s, t) == Unlocking(Sending, Wait)
    requires s.q.tx.lock == s.q.rx.lock == LOCKED_UNMODIFIED
    ensures var es := [UnlockTxEvent(t), UnlockRxEvent(t), Resume(t)];
            var q := s.q.(tx := s.q.tx.(lock := UNLOCKED), rx := s.q.rx.(lock := UNLOCKED));
            CanRun(s, es) && Run(s, es) == System(q, s.pc[t := Blocked(Sending)], NOBODY, s.ranks, s.joins)
  {
    var s1 := Apply(s, UnlockTxEvent(t));
    var s2 := Apply(s1, UnlockRxEvent(t));
    OneStep(s2, Resume(t), []);
    OneStep(s1, UnlockRxEvent(t), [Resume(t)]);
    OneStep(s, UnlockTxEvent(t), [UnlockRxEvent(t), Resume(t)]);
    assert Apply(s2, Resume(t)).pc == s.pc[t := Blocked(Sending)];
  }

  /** Fills a queue of length 2. */
  function Filling(): seq<Event> {
    [Call(0, Sending), Attempt(0, false, false), Call(0, Sending), Attempt(0, false, false)]
  }

  lemma Filled()
    ensures CanRun(Initial(2, 4), Filling())
    ensures Run(Initial(2, 4), Filling()) == Initial(2, 4).(q := Initial(2, 4).q.(messages := 2), pc := map[0 := Idle])
  {
    var s := Initial(2, 4);
    var s1 := Apply(s, Call(0, Sending));
    var s2 := Apply(s1, Attempt(0, false, false));
    var s3 := Apply(s2, Call(0, Sending));
    var s4 := Apply(s3, Attempt(0, false, false));
    OneStep(s3, Attempt(0, false, false), []);
    OneStep(s2, Call(0, Sending), [Attempt(0, false, false)]);
    OneStep(s1, Attempt(0, false, false), [Call(0, Sending), Attempt(0, false, false)]);
    OneStep(s, Call(0, Sending), [Attempt(0, false, false), Call(0, Sending), Attempt(0, false, false)]);
    assert s4.q.tx == s.q.tx && s4.q.rx == s.q.rx && s4.pc == map[0 := Idle];
  }

  /** A full queue of length 2 with two senders asleep. */
  function TwoSendersAsleep(): System {
    System(Queue(2, 2, 4, Side(UNLOCKED, [], {}), Side(UNLOCKED, [1, 2], {})),
           map[0 := Idle, 1 := Blocked(Sending), 2 := Blocked(Sending)], NOBODY,
           map[1 := Rank(0, 0), 2 := Rank(0, 1)], 2)
  }

  function OneSenderAsleep(): System {
    System(Queue(2, 2, 4, Side(UNLOCKED, [], {}), Side(UNLOCKED, [1], {})),
           map[0 := Idle, 1 := Blocked(Sending)], NOBODY, map[1 := Rank(0, 0)], 1)
  }

  lemma OneFallsAsleep()
    ensures var es := Filling() + Sleeping(1, Sending);
            CanRun(Initial(2, 4), es) && Run(Initial(2, 4), es) == OneSenderAsleep()
  {
    Filled();
    var s := Run(Initial(2, 4), Filling());
    FallsAsleep(s, 1);
    RunsJoin(Initial(2, 4), Filling(), Sleeping(1, Sending));
    assert Run(s, Sleeping(1, Sending)).q.rx.waiting == [1];
  }

  lemma TwoFallAsleep()
    ensures var es := Filling() + Sleeping(1, Sending) + Sleeping(2, Sending);
            CanRun(Initial(2, 4), es) && Run(Initial(2, 4), es) == TwoSendersAsleep()
  {
    OneFallsAsleep();
    FallsAsleep(OneSenderAsleep(), 2);
    RunsJoin(Initial(2, 4), Filling() + Sleeping(1, Sending), Sleeping(2, Sending));
    assert Run(OneSenderAsleep(), Sleeping(2, Sending)).q.rx.waiting == [1, 2];
  }

  function Resetting(): seq<Event> {
    [ResetEvent(0), Continue(1), Attempt(1, false, false)]
  }

  lemma OneIsWoken()
    ensures CanRun(TwoSendersAsleep(), Resetting())
    ensures var s := Run(TwoSendersAsleep(), Resetting());
            Quiescent(s) && s.q.messages == 1 && s.q.rx.waiting == [2]
  {
    var s3 := TwoSendersAsleep();
    var s4 := Apply(s3, ResetEvent(0));
    var s5 := Apply(s4, Continue(1));
    OneStep(s5, Attempt(1, false, false), []);
    OneStep(s4, Continue(1), [Attempt(1, false, false)]);
    OneStep(s3, ResetEvent(0), [Continue(1), Attempt(1, false, false)]);
  }

  /** Two senders sleep on a full queue, it is reset, the one that was woken sends its item, and the other is left
      asleep with room in the queue. */
  lemma ResetStrandsASender()
    ensures var es := Filling() + Sleeping(1, Sending) + Sleeping(2, Sending) + Resetting();
            CanRun(Initial(2, 4), es)
            && var s := Run(Initial(2, 4), es);
               Quiescent(s) && s.q.messages == 1 && s.q.rx.waiting == [2]
  {
    TwoFallAsleep();
    OneIsWoken();
    RunsJoin(Initial(2, 4), Filling() + Sleeping(1, Sending) + Sleeping(2, Sending), Resetting());
  }

  /** Overwriting a full queue of items of size 0 leaves two items in a queue of length 1. */
  lemma OverwritingNothingAddsAnItem()
    ensures var es := [Call(0, Sending), Attempt(0, false, false), Call(0, Sending), Attempt(0, true, false)];
            CanRun(Initial(1, 0), es) && Run(Initial(1, 0), es).q.messages == 2
  {
    var s := Initial(1, 0);
    var s1 := Apply(s, Call(0, Sending));
    var s2 := Apply(s1, Attempt(0, false, false));
    var s3 := Apply(s2, Call(0, Sending));
    OneStep(s3, Attempt(0, true, false), []);
    OneStep(s2, Call(0, Sending), [Attempt(0, true, false)]);
    OneStep(s1, Attempt(0, false, false), [Call(0, Sending), Attempt(0, true, false)]);
    OneStep(s, Call(0, Sending), [Attempt(0, false, false), Call(0, Sending), Attempt(0, true, false)]);
  }
}
