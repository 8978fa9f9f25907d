/** Mutexes with priority inheritance: the priority arithmetic of tasks.c as it changes a task
    control block, and every interleaving of takes, gives, waits and timeouts over any number of
    tasks and mutexes. */
module Mutexes {
  import opened Numbers
  import opened Sequences

  type Task = nat
  type MutexId = nat

  const NOBODY := -1
  const IDLE_PRIORITY := 0

  /** Where a task is inside xQueueSemaphoreTake on mutex m.  The flag is xInheritanceOccurred. */
  datatype Place =
    | Outside
    | Asleep                                        // blocked on something that is not a mutex
    | Trying(m: MutexId, inherited: bool)           // about to enter the critical section
    | Suspending(m: MutexId, inherited: bool)       // about to suspend the scheduler
    | Claiming(m: MutexId, inherited: bool)         // scheduler suspended, about to lend its priority
    | Joining(m: MutexId, inherited: bool)          // about to join the event list
    | Waiting(m: MutexId, inherited: bool)          // on the event list
    | TimedOut(m: MutexId, inherited: bool)         // about to look one last time
    | GivingUp(m: MutexId)                          // about to undo the inheritance it caused

  datatype Tcb = Tcb(priority: nat, base: nat, held: int, at: Place)

  datatype Mutex = Mutex(count: nat, holder: int, waiters: seq<Task>, recursive: bool, calls: int)

  datatype State = State(tasks: map<Task, Tcb>, mutexes: map<MutexId, Mutex>, owner: int)

  // ---------- The priority arithmetic ----------

  function Inherit(holder: Tcb, priority: nat): Tcb {
    if holder.priority < priority then holder.(priority := priority) else holder
  }

  /** What xTaskPriorityInherit reports: the waiter's priority is above the holder's own. */
  predicate Lends(holder: Tcb, priority: nat) {
    holder.priority < priority || holder.base < priority
  }

  function Disinherit(t: Tcb): Tcb {
    var fewer := t.(held := t.held - 1);
    if fewer.priority != fewer.base && fewer.held == 0 then fewer.(priority := fewer.base) else fewer
  }

  function DisinheritAfterTimeout(holder: Tcb, highestWaiting: nat): Tcb {
    var use := Max(holder.base, highestWaiting);
    if holder.priority != use && holder.held == 1 then holder.(priority := use) else holder
  }

  /** The fields of a task control block that these functions change in place. */
  class TaskControl {
    var priority: nat
    var base: nat
    var held: int

    function View(at: Place): Tcb
      reads this
    {
      Tcb(priority, base, held, at)
    }

    constructor (priority: nat)
      ensures forall at :: View(at) == Tcb(priority, priority, 0, at)
    {
      this.priority, base, held := priority, priority, 0;
    }

    /** xTaskPriorityInherit, called on the holder by a task of the given priority. */
    method PriorityInherit(current: nat) returns (occurred: bool)
      modifies this
      ensures forall at :: View(at) == Inherit(old(View(at)), current)
      ensures forall at :: occurred == Lends(old(View(at)), current)
      ensures priority == Max(old(priority), current) && unchanged(`base, `held)
      ensures occurred <==> current > old(priority) || current > base
    {
      if priority < current {
        priority := current;
        occurred := true;
      } else {
        occurred := base < current;
      }
    }

    /** xTaskPriorityDisinherit; the result asks for a context switch. */
    method PriorityDisinherit() returns (changed: bool)
      modifies this
      ensures forall at :: View(at) == Disinherit(old(View(at)))
      ensures priority == (if old(held) == 1 then base else old(priority))
      ensures held == old(held) - 1 && unchanged(`base) && changed == (priority != old(priority))
    {
      held := held - 1;
      changed := false;
      if priority != base {
        if held == 0 {
          priority := base;
          changed := true;
        }
      }
    }

    /** vTaskPriorityDisinheritAfterTimeout. */
    method PriorityDisinheritAfterTimeout(highestWaiting: nat)
      modifies this
      ensures forall at :: View(at) == DisinheritAfterTimeout(old(View(at)), highestWaiting)
      ensures priority == (if held == 1 then Max(base, highestWaiting) else old(priority)) && unchanged(`base, `held)
    {
      var use := if base < highestWaiting then highestWaiting else base;
      if priority != use {
        if held == 1 {
          priority := use;
        }
      }
    }
  }

  // ---------- Steps ----------

  datatype Event =
    | Begin(t: Task, m: MutexId)
    | Attempt(t: Task, mayBlock: bool)
    | Suspend(t: Task, expired: bool)
    | Lend(t: Task)
    | Join(t: Task)
    | Expire(t: Task)
    | LastLook(t: Task)
    | Undo(t: Task)
    | Give(t: Task, m: MutexId)
    | TakeAgain(t: Task, m: MutexId)
    | Sleep(t: Task)
    | WakeUp(t: Task)

  function T(s: State, t: int): Tcb {
    if t >= 0 && t in s.tasks then s.tasks[t] else Tcb(IDLE_PRIORITY, IDLE_PRIORITY, 0, Outside)
  }

  function M(s: State, m: MutexId): Mutex {
    if m in s.mutexes then s.mutexes[m] else Mutex(1, NOBODY, [], false, 0)
  }

  function SetT(s: State, t: int, v: Tcb): (r: State)
    requires t >= 0
    ensures forall u :: T(r, u) == if u == t then v else T(s, u)
    ensures forall m :: M(r, m) == M(s, m)
  {
    s.(tasks := s.tasks[t := v])
  }

  function SetM(s: State, m: MutexId, v: Mutex): (r: State)
    ensures forall n :: M(r, n) == if n == m then v else M(s, n)
    ensures forall t :: T(r, t) == T(s, t)
  {
    s.(mutexes := s.mutexes[m := v])
  }

  function Move(s: State, t: int, at: Place): State
    requires t >= 0
  {
    SetT(s, t, T(s, t).(at := at))
  }

  predicate IsReady(at: Place) {
    at.Outside? || at.Trying? || at.Suspending? || at.TimedOut? || at.GivingUp?
  }

  /** The scheduler runs a ready task of maximal priority: whoever is readied above the running task
      preempts it at once. */
  predicate Running(s: State, t: Task) {
    && s.owner == NOBODY
    && t in s.tasks && IsReady(T(s, t).at)
    && forall u :: u in s.tasks && IsReady(T(s, u).at) ==> T(s, u).priority <= T(s, t).priority
  }

  predicate Enabled(s: State, e: Event) {
    match e
    case Begin(t, m) => Running(s, t) && T(s, t).at.Outside? && !(M(s, m).recursive && M(s, m).holder == t)
    case Attempt(t, mayBlock) =>
      // no task waits for one mutex while it holds another
      Running(s, t) && T(s, t).at.Trying? && (mayBlock ==> T(s, t).held == 0)
    case Suspend(t, expired) => Running(s, t) && T(s, t).at.Suspending?
    case Lend(t) => s.owner == t && T(s, t).at.Claiming?
    case Join(t) => s.owner == t && T(s, t).at.Joining?
    case Expire(t) => s.owner == NOBODY && T(s, t).at.Waiting?
    case LastLook(t) => Running(s, t) && T(s, t).at.TimedOut?
    case Undo(t) => Running(s, t) && T(s, t).at.GivingUp?
    case Give(t, m) => Running(s, t) && T(s, t).at.Outside? && M(s, m).holder == t
    case TakeAgain(t, m) => Running(s, t) && T(s, t).at.Outside? && M(s, m).holder == t && M(s, m).recursive
    case Sleep(t) => Running(s, t) && T(s, t).at.Outside?
    case WakeUp(t) => s.owner == NOBODY && T(s, t).at.Asleep?
  }

  /** vListInsert on an event list: behind every waiter of at least the same priority. */
  function InsertByPriority(s: State, w: seq<Task>, t: Task): seq<Task> {
    if w == [] then [t]
    else if T(s, w[0]).priority >= T(s, t).priority then [w[0]] + InsertByPriority(s, w[1..], t)
    else [t] + w
  }

  /** prvGetDisinheritPriorityAfterTimeout: the list is ordered, so its head has the highest. */
  function HighestWaiting(s: State, m: MutexId): nat {
    var w := M(s, m).waiters;
    if w != [] then T(s, w[0]).priority else IDLE_PRIORITY
  }

  /** The take succeeds: count, holder, the taker's tally and the recursion depth change together. */
  function Take(s: State, t: Task, m: MutexId): State
    requires M(s, m).count > 0
  {
    var x := M(s, m);
    var taken := x.(count := x.count - 1, holder := t, calls := if x.recursive then x.calls + 1 else x.calls);
    SetT(SetM(s, m, taken), t, T(s, t).(held := T(s, t).held + 1, at := Outside))
  }

  /** xTaskRemoveFromEventList: the first waiter is readied and will try again. */
  function WakeFirst(s: State, m: MutexId): State {
    var x := M(s, m);
    if x.waiters == [] then s
    else
      var w := x.waiters[0];
      Move(SetM(s, m, x.(waiters := x.waiters[1..])), w, Trying(m, T(s, w).at.Waiting? && T(s, w).at.inherited))
  }

  /** The last give: the holder falls back, the mutex becomes free. */
  function Free(s: State, t: Task, m: MutexId): State {
    var x := M(s, m);
    var freed := x.(count := x.count + 1, holder := NOBODY, calls := if x.recursive then x.calls - 1 else x.calls);
    SetT(SetM(s, m, freed), t, Disinherit(T(s, t)))
  }

  function Apply(s: State, e: Event): State
    requires Enabled(s, e)
  {
    match e
    case Begin(t, m) => Move(s, t, Trying(m, false))
    case Attempt(t, mayBlock) =>
      var p := T(s, t).at;
      if M(s, p.m).count > 0 then Take(s, t, p.m)
      else Move(s, t, if mayBlock then Suspending(p.m, p.inherited) else Outside)
    case Suspend(t, expired) =>
      var p := T(s, t).at;
      if expired then Move(s, t, TimedOut(p.m, p.inherited))
      else if M(s, p.m).count == 0 then Move(s, t, Claiming(p.m, p.inherited)).(owner := t)
      else Move(s, t, Trying(p.m, p.inherited))
    case Lend(t) =>
      var m := T(s, t).at.m;
      var h := M(s, m).holder;
      if h < 0 then Move(s, t, Joining(m, false))
      else Move(SetT(s, h, Inherit(T(s, h), T(s, t).priority)), t, Joining(m, Lends(T(s, h), T(s, t).priority)))
    case Join(t) =>
      var p := T(s, t).at;
      var x := M(s, p.m);
      var joined := SetM(s, p.m, x.(waiters := InsertByPriority(s, x.waiters, t)));
      Move(joined, t, Waiting(p.m, p.inherited)).(owner := NOBODY)
    case Expire(t) =>
      var p := T(s, t).at;
      var x := M(s, p.m);
      Move(SetM(s, p.m, x.(waiters := Without(x.waiters, t))), t, Trying(p.m, p.inherited))
    case LastLook(t) =>
      var p := T(s, t).at;
      if M(s, p.m).count > 0 then Move(s, t, Trying(p.m, p.inherited))
      else Move(s, t, if p.inherited then GivingUp(p.m) else Outside)
    case Undo(t) =>
      var m := T(s, t).at.m;
      var h := M(s, m).holder;
      if h < 0 then Move(s, t, Outside)
      else Move(SetT(s, h, DisinheritAfterTimeout(T(s, h), HighestWaiting(s, m))), t, Outside)
    case Give(t, m) =>
      var x := M(s, m);
      if x.recursive && x.calls - 1 != 0 then SetM(s, m, x.(calls := x.calls - 1))
      else WakeFirst(Free(s, t, m), m)
    case TakeAgain(t, m) => SetM(s, m, M(s, m).(calls := M(s, m).calls + 1))
    case Sleep(t) => Move(s, t, Asleep)
    case WakeUp(t) => Move(s, t, Outside)
  }

  predicate CanRun(s: State, es: seq<Event>)
    decreases |es|
  {
    |es| == 0 || (Enabled(s, es[0]) && CanRun(Apply(s, es[0]), es[1..]))
  }

  function Run(s: State, es: seq<Event>): State
    requires CanRun(s, es)
    decreases |es|
  {
    if es == [] then s else Run(Apply(s, es[0]), es[1..])
  }

  // ---------- What every step keeps ----------

  ghost function HeldBy(s: State, t: int): set<MutexId> {
    set m | m in s.mutexes && M(s, m).holder == t
  }

  predicate MustHoldNothing(at: Place) {
    !at.Outside? && !at.Asleep? && !at.Trying?
  }

  predicate OnTheWay(at: Place) {
    at.Claiming? || at.Joining?
  }

  /** What holds of one task: its tally is the number of mutexes naming it holder, it never falls
      below its own priority and has exactly that when it holds none. */
  ghost predicate TaskOk(s: State, t: Task) {
    var x := T(s, t);
    && x.held == |HeldBy(s, t)|
    && x.priority >= x.base
    && (x.held == 0 ==> x.priority == x.base)
    && (MustHoldNothing(x.at) ==> x.held == 0)
    && (x.at.Waiting? ==> t in M(s, x.at.m).waiters)
    && (OnTheWay(x.at) ==> s.owner == t && M(s, x.at.m).holder != NOBODY)
    && (x.at.Joining? ==> x.priority <= T(s, M(s, x.at.m).holder).priority)
  }

  predicate Ordered(s: State, w: seq<Task>) {
    forall i, j :: 0 <= i < j < |w| ==> w[i] != w[j] && T(s, w[i]).priority >= T(s, w[j]).priority
  }

  predicate AllWaitFor(s: State, w: seq<Task>, m: MutexId) {
    forall u :: u in w ==> T(s, u).at.Waiting? && T(s, u).at.m == m
  }

  predicate AllBelow(s: State, w: seq<Task>, p: nat) {
    forall u :: u in w ==> T(s, u).priority <= p
  }

  /** A task readied for m that holds nothing and outranks everyone still waiting for it. */
  predicate IsHeir(s: State, m: MutexId, v: Task) {
    && v in s.tasks && T(s, v).at.Trying? && T(s, v).at.m == m && T(s, v).held == 0
    && AllBelow(s, M(s, m).waiters, T(s, v).priority)
  }

  /** What holds of one mutex: it is free exactly when it has no holder, its list is in order, and
      nobody waits above the holder; while it is free, an heir outranks everyone who waits. */
  ghost predicate MutexOk(s: State, m: MutexId) {
    var x := M(s, m);
    && x.count <= 1 && x.holder >= NOBODY
    && (x.count == 0 <==> x.holder != NOBODY)
    && (x.recursive ==> x.calls >= 0 && (x.calls == 0 <==> x.holder == NOBODY))
    && Ordered(s, x.waiters) && AllWaitFor(s, x.waiters, m)
    && (x.holder != NOBODY ==> AllBelow(s, x.waiters, T(s, x.holder).priority))
    && (x.holder == NOBODY && x.waiters != [] ==> exists v: Task :: IsHeir(s, m, v))
  }

  ghost predicate Sound(s: State) {
    && (forall t: Task :: TaskOk(s, t))
    && (forall m :: MutexOk(s, m))
    && (s.owner != NOBODY ==> s.owner >= 0 && OnTheWay(T(s, s.owner).at))
  }

  lemma SameHoldings(s: State, s': State, t: Task)
    requires forall m :: M(s', m).holder == M(s, m).holder
    ensures HeldBy(s', t) == HeldBy(s, t)
  {
    forall m ensures m in HeldBy(s', t) <==> m in HeldBy(s, t) {
      assert M(s', m).holder == M(s, m).holder;
    }
  }

  // ---------- Steps that only move one task ----------

  lemma MoveKeepsTask(s: State, t: Task, at: Place, u: Task)
    requires TaskOk(s, u)
    requires !at.Waiting? && !OnTheWay(at) && (MustHoldNothing(at) ==> T(s, t).held == 0)
    ensures TaskOk(Move(s, t, at), u)
  {
    SameHoldings(s, Move(s, t, at), u);
  }

  lemma MoveKeepsMutex(s: State, t: Task, at: Place, m: MutexId)
    requires MutexOk(s, m) && !T(s, t).at.Waiting?
    requires T(s, t).at.Trying? && T(s, t).at.m == m ==> M(s, m).holder != NOBODY
    ensures MutexOk(Move(s, t, at), m)
  {
    var s' := Move(s, t, at);
    if M(s, m).holder == NOBODY && M(s, m).waiters != [] {
      var v: Task :| IsHeir(s, m, v);
      assert IsHeir(s', m, v);
    }
  }

  lemma MoveKeeps(s: State, t: Task, at: Place)
    requires Sound(s) && s.owner == NOBODY && !T(s, t).at.Waiting?
    requires !at.Waiting? && !OnTheWay(at) && (MustHoldNothing(at) ==> T(s, t).held == 0)
    requires T(s, t).at.Trying? ==> M(s, T(s, t).at.m).holder != NOBODY
    ensures Sound(Move(s, t, at))
  {
    forall u: Task ensures TaskOk(Move(s, t, at), u) { MoveKeepsTask(s, t, at, u); }
    forall m ensures MutexOk(Move(s, t, at), m) { MoveKeepsMutex(s, t, at, m); }
  }

  lemma SuspendKeeps(s: State, t: Task, expired: bool)
    requires Sound(s) && Enabled(s, Suspend(t, expired))
    ensures Sound(Apply(s, Suspend(t, expired)))
  {
    var p := T(s, t).at;
    assert TaskOk(s, t);
    if !expired && M(s, p.m).count == 0 {
      var s' := Apply(s, Suspend(t, expired));
      assert MutexOk(s, p.m);
      forall u: Task ensures TaskOk(s', u) {
        assert TaskOk(s, u);
        SameHoldings(s, s', u);
      }
      forall m ensures MutexOk(s', m) {
        MoveKeepsMutex(s, t, Claiming(p.m, p.inherited), m);
        OwnerIsNoMatter(Move(s, t, Claiming(p.m, p.inherited)), t, m);
      }
    } else {
      MoveKeeps(s, t, if expired then TimedOut(p.m, p.inherited) else Trying(p.m, p.inherited));
    }
  }

  /** Who has suspended the scheduler does not enter into what holds of a mutex. */
  lemma OwnerIsNoMatter(s: State, owner: int, m: MutexId)
    requires MutexOk(s, m)
    ensures MutexOk(s.(owner := owner), m)
  {
    var s' := s.(owner := owner);
    assert forall t :: T(s', t) == T(s, t);
    assert M(s', m) == M(s, m);
    if M(s, m).holder == NOBODY && M(s, m).waiters != [] {
      var v: Task :| IsHeir(s, m, v);
      assert IsHeir(s', m, v);
    }
  }

  // ---------- Lending, joining, timing out ----------

  /** Raising or lowering a holder leaves event lists alone: a holder waits for nothing. */
  lemma LendKeeps(s: State, t: Task)
    requires Sound(s) && Enabled(s, Lend(t))
    ensures Sound(Apply(s, Lend(t)))
  {
    var m := T(s, t).at.m;
    var h := M(s, m).holder;
    assert TaskOk(s, t) && MutexOk(s, m);
    assert h >= 0;
    HolderHolds(s, m);
    var s' := Apply(s, Lend(t));
    forall u: Task ensures TaskOk(s', u) {
      assert TaskOk(s, u);
      SameHoldings(s, s', u);
    }
    forall n ensures MutexOk(s', n) {
      assert MutexOk(s, n);
      RaiseKeepsMutex(s, h, T(s, t).priority, n);
      MoveKeepsMutex(SetT(s, h, Inherit(T(s, h), T(s, t).priority)), t,
                     Joining(m, Lends(T(s, h), T(s, t).priority)), n);
    }
  }

  lemma HolderHolds(s: State, m: MutexId)
    requires Sound(s) && M(s, m).holder >= 0
    ensures T(s, M(s, m).holder).held > 0 && !MustHoldNothing(T(s, M(s, m).holder).at)
    ensures m in HeldBy(s, M(s, m).holder)
  {
    var h := M(s, m).holder;
    assert TaskOk(s, h);
    assert m in HeldBy(s, h);
  }

  lemma RaiseKeepsMutex(s: State, h: Task, p: nat, n: MutexId)
    requires MutexOk(s, n) && T(s, h).held > 0 && !T(s, h).at.Waiting?
    ensures MutexOk(SetT(s, h, Inherit(T(s, h), p)), n)
  {
    var s' := SetT(s, h, Inherit(T(s, h), p));
    if M(s, n).holder == NOBODY && M(s, n).waiters != [] {
      var v: Task :| IsHeir(s, n, v);
      assert IsHeir(s', n, v);
    }
  }

  lemma {:induction false} InsertKeepsOrder(s: State, w: seq<Task>, t: Task)
    requires Ordered(s, w) && t !in w
    ensures Ordered(s, InsertByPriority(s, w, t))
    ensures forall u :: u in InsertByPriority(s, w, t) <==> u in w || u == t
  {
    if w != [] && T(s, w[0]).priority >= T(s, t).priority {
      InsertKeepsOrder(s, w[1..], t);
      assert w == [w[0]] + w[1..];
      var r := InsertByPriority(s, w[1..], t);
      assert forall i :: 0 <= i < |r| ==> r[i] in r;
    }
  }

  lemma JoinKeepsItsMutex(s: State, t: Task)
    requires Enabled(s, Join(t)) && TaskOk(s, t) && MutexOk(s, T(s, t).at.m) && t !in M(s, T(s, t).at.m).waiters
    ensures MutexOk(Apply(s, Join(t)), T(s, t).at.m)
  {
    var m := T(s, t).at.m;
    var s' := Apply(s, Join(t));
    var w := InsertByPriority(s, M(s, m).waiters, t);
    InsertKeepsOrder(s, M(s, m).waiters, t);
    assert M(s', m) == M(s, m).(waiters := w);
    assert Ordered(s', w);
    assert AllWaitFor(s', w, m);
    assert AllBelow(s', w, T(s', M(s, m).holder).priority);
  }

  lemma JoinKeepsMutex(s: State, t: Task, n: MutexId)
    requires MutexOk(s, n) && Enabled(s, Join(t)) && n != T(s, t).at.m
    ensures MutexOk(Apply(s, Join(t)), n)
  {
    var s' := Apply(s, Join(t));
    if M(s, n).holder == NOBODY && M(s, n).waiters != [] {
      var v: Task :| IsHeir(s, n, v);
      assert IsHeir(s', n, v);
    }
  }

  lemma JoinKeeps(s: State, t: Task)
    requires Sound(s) && Enabled(s, Join(t))
    ensures Sound(Apply(s, Join(t)))
  {
    var m := T(s, t).at.m;
    var s' := Apply(s, Join(t));
    assert TaskOk(s, t);
    forall u: Task ensures TaskOk(s', u) {
      assert TaskOk(s, u) && MutexOk(s, m);
      SameHoldings(s, s', u);
      InsertKeepsOrder(s, M(s, m).waiters, t);
    }
    forall n ensures MutexOk(s', n) {
      assert MutexOk(s, n);
      if n == m { JoinKeepsItsMutex(s, t); } else { JoinKeepsMutex(s, t, n); }
    }
  }

  lemma ConsKeepsOrder(s: State, t: Task, w: seq<Task>)
    requires Ordered(s, w) && forall u :: u in w ==> u != t && T(s, u).priority <= T(s, t).priority
    ensures Ordered(s, [t] + w)
  {
    var r := [t] + w;
    forall i, j | 0 <= i < j < |r| ensures r[i] != r[j] && T(s, r[i]).priority >= T(s, r[j]).priority {
      assert r[j] == w[j - 1] && w[j - 1] in w;
    }
  }

  lemma RestIsBelow(s: State, w: seq<Task>)
    requires Ordered(s, w) && w != []
    ensures Ordered(s, w[1..]) && w == [w[0]] + w[1..]
    ensures forall u :: u in w[1..] ==> u != w[0] && T(s, u).priority <= T(s, w[0]).priority
  {
  }

  lemma {:induction false} WithoutKeepsOrder(s: State, w: seq<Task>, t: Task)
    requires Ordered(s, w)
    ensures Ordered(s, Without(w, t))
    ensures forall u :: u in Without(w, t) <==> u in w && u != t
  {
    if w != [] {
      RestIsBelow(s, w);
      WithoutKeepsOrder(s, w[1..], t);
      if w[0] != t {
        ConsKeepsOrder(s, w[0], Without(w[1..], t));
      }
    }
  }

  lemma ExpireKeeps(s: State, t: Task)
    requires Sound(s) && Enabled(s, Expire(t))
    ensures Sound(Apply(s, Expire(t)))
  {
    var m := T(s, t).at.m;
    var s' := Apply(s, Expire(t));
    assert TaskOk(s, t) && MutexOk(s, m);
    WithoutKeepsOrder(s, M(s, m).waiters, t);
    forall u: Task ensures TaskOk(s', u) {
      assert TaskOk(s, u);
      SameHoldings(s, s', u);
    }
    forall n ensures MutexOk(s', n) {
      assert MutexOk(s, n);
      if M(s', n).holder == NOBODY && M(s', n).waiters != [] {
        assert M(s, n).waiters != [];
        var v: Task :| IsHeir(s, n, v);
        assert IsHeir(s', n, v);
      }
    }
  }

  /** A task whose tally is one holds that mutex and no other. */
  lemma OnlyOne(s: State, h: Task, m: MutexId, n: MutexId)
    requires TaskOk(s, h) && T(s, h).held == 1 && M(s, m).holder == h && M(s, n).holder == h
    ensures m == n
  {
    assert m in HeldBy(s, h) && n in HeldBy(s, h);
    if m != n {
      assert {m, n} <= HeldBy(s, h);
      FewerInSubset({m, n}, HeldBy(s, h));
    }
  }

  lemma {:induction false} FewerInSubset(a: set<MutexId>, b: set<MutexId>)
    requires a <= b
    ensures |a| <= |b|
  {
    if a != {} {
      var x :| x in a;
      FewerInSubset(a - {x}, b - {x});
    }
  }

  /** Undoing an inheritance lowers a holder of one mutex to what its own waiters still need. */
  lemma UndoKeepsMutex(s: State, h: Task, m: MutexId, n: MutexId)
    requires MutexOk(s, n) && MutexOk(s, m) && TaskOk(s, h) && M(s, m).holder == h
    requires T(s, h).held > 0 && !T(s, h).at.Waiting?
    ensures MutexOk(SetT(s, h, DisinheritAfterTimeout(T(s, h), HighestWaiting(s, m))), n)
  {
    var s' := SetT(s, h, DisinheritAfterTimeout(T(s, h), HighestWaiting(s, m)));
    if T(s', h) != T(s, h) && M(s, n).holder == h {
      OnlyOne(s, h, m, n);
      assert AllBelow(s, M(s, m).waiters, HighestWaiting(s, m));
    } else if M(s, n).holder == NOBODY && M(s, n).waiters != [] {
      var v: Task :| IsHeir(s, n, v);
      assert IsHeir(s', n, v);
    }
  }

  lemma UndoKeeps(s: State, t: Task)
    requires Sound(s) && Enabled(s, Undo(t))
    ensures Sound(Apply(s, Undo(t)))
  {
    var m := T(s, t).at.m;
    var h := M(s, m).holder;
    var s' := Apply(s, Undo(t));
    assert TaskOk(s, t) && MutexOk(s, m);
    if h < 0 {
      MoveKeeps(s, t, Outside);
    } else {
      HolderHolds(s, m);
      assert TaskOk(s, h);
      var s1 := SetT(s, h, DisinheritAfterTimeout(T(s, h), HighestWaiting(s, m)));
      forall u: Task ensures TaskOk(s', u) {
        assert TaskOk(s, u);
        SameHoldings(s, s', u);
      }
      forall n ensures MutexOk(s', n) {
        assert MutexOk(s, n);
        UndoKeepsMutex(s, h, m, n);
        MoveKeepsMutex(s1, t, Outside, n);
      }
    }
  }

  // ---------- Taking and giving ----------

  /** Naming t the holder of m adds m to what t holds and to nobody else's. */
  lemma HoldingsAfter(s: State, s': State, m: MutexId, u: Task)
    requires forall n :: n != m ==> M(s', n).holder == M(s, n).holder
    requires M(s, m).holder == NOBODY || M(s', m).holder == NOBODY
    ensures M(s', m).holder == u ==> HeldBy(s', u) == HeldBy(s, u) + {m} && m !in HeldBy(s, u)
    ensures M(s, m).holder == u ==> HeldBy(s', u) == HeldBy(s, u) - {m} && m in HeldBy(s, u)
    ensures M(s, m).holder != u && M(s', m).holder != u ==> HeldBy(s', u) == HeldBy(s, u)
  {
    assert forall n :: n in HeldBy(s, u) <==> M(s, n).holder == u;
    assert forall n :: n in HeldBy(s', u) <==> M(s', n).holder == u;
  }

  lemma TakeKeepsTask(s: State, t: Task, m: MutexId, u: Task)
    requires TaskOk(s, u) && TaskOk(s, t) && MutexOk(s, m) && M(s, m).count > 0 && s.owner == NOBODY
    ensures TaskOk(Take(s, t, m), u)
  {
    HoldingsAfter(s, Take(s, t, m), m, u);
  }

  /** The running task outranks the heir, so it may take the mutex over everyone who waits. */
  lemma TakeKeepsMutex(s: State, t: Task, n: MutexId)
    requires Running(s, t) && T(s, t).at.Trying? && M(s, T(s, t).at.m).count > 0
    requires MutexOk(s, n)
    ensures MutexOk(Take(s, t, T(s, t).at.m), n)
  {
    var m := T(s, t).at.m;
    var s' := Take(s, t, m);
    if M(s, n).holder == NOBODY && M(s, n).waiters != [] {
      var v: Task :| IsHeir(s, n, v);
      if n == m {
        assert T(s, v).priority <= T(s, t).priority;
        assert AllBelow(s', M(s', n).waiters, T(s', t).priority);
      } else {
        assert IsHeir(s', n, v);
      }
    }
  }

  lemma AttemptKeeps(s: State, t: Task, mayBlock: bool)
    requires Sound(s) && Enabled(s, Attempt(t, mayBlock))
    ensures Sound(Apply(s, Attempt(t, mayBlock)))
  {
    var p := T(s, t).at;
    assert TaskOk(s, t) && MutexOk(s, p.m);
    if M(s, p.m).count > 0 {
      forall u: Task ensures TaskOk(Take(s, t, p.m), u) {
        assert TaskOk(s, u);
        TakeKeepsTask(s, t, p.m, u);
      }
      forall n ensures MutexOk(Take(s, t, p.m), n) {
        assert MutexOk(s, n);
        TakeKeepsMutex(s, t, n);
      }
    } else {
      MoveKeeps(s, t, if mayBlock then Suspending(p.m, p.inherited) else Outside);
    }
  }

  lemma DepthKeeps(s: State, t: Task, m: MutexId, calls: int)
    requires Sound(s) && M(s, m).recursive && M(s, m).holder != NOBODY && calls > 0
    ensures Sound(SetM(s, m, M(s, m).(calls := calls)))
  {
    var s' := SetM(s, m, M(s, m).(calls := calls));
    forall u: Task ensures TaskOk(s', u) {
      assert TaskOk(s, u);
      SameHoldings(s, s', u);
    }
    forall n ensures MutexOk(s', n) {
      assert MutexOk(s, n);
      if M(s, n).holder == NOBODY && M(s, n).waiters != [] {
        var v: Task :| IsHeir(s, n, v);
        assert IsHeir(s', n, v);
      }
    }
  }

  lemma ReleaseKeepsTask(s: State, t: Task, m: MutexId, u: Task)
    requires Enabled(s, Give(t, m)) && TaskOk(s, t) && TaskOk(s, u) && MutexOk(s, m)
    ensures TaskOk(WakeFirst(Free(s, t, m), m), u)
  {
    if M(s, m).waiters == [] {
      QuietReleaseKeepsTask(s, t, m, u);
    } else {
      WakingReleaseKeepsTask(s, t, m, u);
    }
  }

  lemma QuietReleaseKeepsTask(s: State, t: Task, m: MutexId, u: Task)
    requires Enabled(s, Give(t, m)) && TaskOk(s, t) && TaskOk(s, u) && MutexOk(s, m) && M(s, m).waiters == []
    ensures TaskOk(WakeFirst(Free(s, t, m), m), u)
  {
    HoldingsAfter(s, WakeFirst(Free(s, t, m), m), m, u);
  }

  lemma WakingReleaseKeepsTask(s: State, t: Task, m: MutexId, u: Task)
    requires Enabled(s, Give(t, m)) && TaskOk(s, t) && TaskOk(s, u) && MutexOk(s, m) && M(s, m).waiters != []
    ensures TaskOk(WakeFirst(Free(s, t, m), m), u)
  {
    var s' := WakeFirst(Free(s, t, m), m);
    HoldingsAfter(s, s', m, u);
    var w := M(s, m).waiters;
    assert w == [w[0]] + w[1..];
    assert T(s, w[0]).at.Waiting? && w[0] != t;
    assert forall n :: n != m ==> M(s', n) == M(s, n);
    assert M(s', m).waiters == w[1..];
    assert u != t && u != w[0] ==> T(s', u) == T(s, u);
  }

  /** The woken waiter becomes the heir of those still waiting. */
  lemma ReleaseMakesAnHeir(s: State, t: Task, m: MutexId)
    requires Enabled(s, Give(t, m)) && TaskOk(s, t) && MutexOk(s, m)
    requires forall u: Task :: TaskOk(s, u)
    requires M(s, m).recursive ==> M(s, m).calls == 1
    ensures MutexOk(WakeFirst(Free(s, t, m), m), m)
  {
    var s' := WakeFirst(Free(s, t, m), m);
    var w := M(s, m).waiters;
    if w != [] {
      assert TaskOk(s, w[0]);
      assert T(s, w[0]).at.Waiting?;
      assert w[0] != t;
      assert M(s', m).waiters == w[1..];
      assert Ordered(s', w[1..]);
      if w[1..] != [] {
        assert IsHeir(s', m, w[0]);
      }
    }
  }

  /** A mutex the giver still holds is one of several, so the giver keeps its priority. */
  lemma GiverKeepsPriority(s: State, t: Task, m: MutexId, n: MutexId)
    requires TaskOk(s, t) && M(s, m).holder == t && M(s, n).holder == t && n != m
    ensures Disinherit(T(s, t)).priority == T(s, t).priority
  {
    if T(s, t).held == 1 {
      OnlyOne(s, t, m, n);
    }
  }

  /** A mutex that somebody else holds, or the giver still does, is not concerned. */
  lemma ReleaseKeepsHeld(s: State, t: Task, m: MutexId, n: MutexId)
    requires Enabled(s, Give(t, m)) && TaskOk(s, t) && MutexOk(s, m) && MutexOk(s, n) && n != m
             && M(s, n).holder != NOBODY
    ensures MutexOk(WakeFirst(Free(s, t, m), m), n)
  {
    var s' := WakeFirst(Free(s, t, m), m);
    if M(s, n).holder == t {
      GiverKeepsPriority(s, t, m, n);
    }
    assert M(s', n) == M(s, n);
    assert forall u: Task :: u != t ==> T(s', u).priority == T(s, u).priority;
    assert forall u: Task :: T(s, u).at.Waiting? && T(s, u).at.m == n ==> u != t && T(s', u) == T(s, u);
  }

  /** A free mutex keeps its heir. */
  lemma ReleaseKeepsFree(s: State, t: Task, m: MutexId, n: MutexId)
    requires Enabled(s, Give(t, m)) && TaskOk(s, t) && MutexOk(s, m) && MutexOk(s, n) && n != m
             && M(s, n).holder == NOBODY
    ensures MutexOk(WakeFirst(Free(s, t, m), m), n)
  {
    var s' := WakeFirst(Free(s, t, m), m);
    assert M(s', n) == M(s, n);
    assert M(s, m).waiters != [] ==> T(s, M(s, m).waiters[0]).at.Waiting? && T(s, M(s, m).waiters[0]).at.m == m;
    assert forall u: Task :: T(s, u).at.Waiting? && T(s, u).at.m == n ==> u != t && T(s', u) == T(s, u);
    if M(s, n).waiters != [] {
      var v: Task :| IsHeir(s, n, v);
      assert v != t && T(s', v) == T(s, v);
      assert IsHeir(s', n, v);
    }
  }

  lemma ReleaseKeepsOther(s: State, t: Task, m: MutexId, n: MutexId)
    requires Enabled(s, Give(t, m)) && TaskOk(s, t) && MutexOk(s, m) && MutexOk(s, n) && n != m
    ensures MutexOk(WakeFirst(Free(s, t, m), m), n)
  {
    if M(s, n).holder == NOBODY {
      ReleaseKeepsFree(s, t, m, n);
    } else {
      ReleaseKeepsHeld(s, t, m, n);
    }
  }

  lemma GiveKeeps(s: State, t: Task, m: MutexId)
    requires Sound(s) && Enabled(s, Give(t, m))
    ensures Sound(Apply(s, Give(t, m)))
  {
    var x := M(s, m);
    assert TaskOk(s, t) && MutexOk(s, m);
    if x.recursive && x.calls - 1 != 0 {
      DepthKeeps(s, t, m, x.calls - 1);
    } else {
      var s' := WakeFirst(Free(s, t, m), m);
      forall u: Task ensures TaskOk(s', u) {
        assert TaskOk(s, u);
        ReleaseKeepsTask(s, t, m, u);
      }
      forall n ensures MutexOk(s', n) {
        assert MutexOk(s, n);
        if n == m { ReleaseMakesAnHeir(s, t, m); } else { ReleaseKeepsOther(s, t, m, n); }
      }
    }
  }

  lemma StepKeeps(s: State, e: Event)
    requires Sound(s) && Enabled(s, e)
    ensures Sound(Apply(s, e))
  {
    match e
    case Begin(t, m) => MoveKeeps(s, t, Trying(m, false));
    case Attempt(t, mayBlock) => AttemptKeeps(s, t, mayBlock);
    case Suspend(t, expired) => SuspendKeeps(s, t, expired);
    case Lend(t) => LendKeeps(s, t);
    case Join(t) => JoinKeeps(s, t);
    case Expire(t) => ExpireKeeps(s, t);
    case LastLook(t) =>
      assert TaskOk(s, t);
      MoveKeeps(s, t, T(Apply(s, e), t).at);
    case Undo(t) => UndoKeeps(s, t);
    case Give(t, m) => GiveKeeps(s, t, m);
    case TakeAgain(t, m) =>
      assert MutexOk(s, m);
      DepthKeeps(s, t, m, M(s, m).calls + 1);
    case Sleep(t) => MoveKeeps(s, t, Asleep);
    case WakeUp(t) => MoveKeeps(s, t, Outside);
  }

  // ---------- Whole runs ----------

  /** Tasks with any fixed priorities, none inside a take, and every mutex free. */
  ghost predicate Initial(s: State) {
    && s.owner == NOBODY
    && (forall t :: t in s.tasks ==>
         s.tasks[t].priority == s.tasks[t].base && s.tasks[t].held == 0 && s.tasks[t].at == Outside)
    && (forall m :: m in s.mutexes ==> s.mutexes[m] == Mutex(1, NOBODY, [], s.mutexes[m].recursive, 0))
  }

  lemma InitialIsSound(s: State)
    requires Initial(s)
    ensures Sound(s)
  {
    forall t: Task ensures TaskOk(s, t) {
      assert HeldBy(s, t) == {};
    }
  }

  lemma {:induction false} RunKeeps(s: State, es: seq<Event>)
    requires Sound(s) && CanRun(s, es)
    ensures Sound(Run(s, es))
    decreases |es|
  {
    if es != [] {
      StepKeeps(s, es[0]);
      RunKeeps(Apply(s, es[0]), es[1..]);
    }
  }

  /** Priority inheritance does its job in every reachable state: no task waits for a mutex above
      the priority its holder runs at, and nobody runs below its own priority. */
  lemma HolderOutranksEveryWaiter(s: State, es: seq<Event>, m: MutexId, u: Task)
    requires Initial(s) && CanRun(s, es)
    requires M(Run(s, es), m).holder >= 0 && T(Run(s, es), u).at.Waiting? && T(Run(s, es), u).at.m == m
    ensures T(Run(s, es), u).priority <= T(Run(s, es), M(Run(s, es), m).holder).priority
    ensures T(Run(s, es), u).priority >= T(Run(s, es), u).base
  {
    InitialIsSound(s);
    RunKeeps(s, es);
    assert TaskOk(Run(s, es), u);
    assert MutexOk(Run(s, es), m);
  }

  /** The ledger in every reachable state. */
  lemma LedgerBalances(s: State, es: seq<Event>, t: Task, m: MutexId)
    requires Initial(s) && CanRun(s, es)
    ensures var r := Run(s, es);
            && (M(r, m).count == 0 <==> M(r, m).holder != NOBODY)
            && T(r, t).held == |HeldBy(r, t)|
            && T(r, t).priority >= T(r, t).base
            && (T(r, t).held == 0 ==> T(r, t).priority == T(r, t).base)
  {
    InitialIsSound(s);
    RunKeeps(s, es);
    assert TaskOk(Run(s, es), t) && MutexOk(Run(s, es), m);
  }

  /** What one step adds to the recursion depth of m: one for a take that succeeds, minus one for a give. */
  function DepthChange(s: State, e: Event, m: MutexId): int {
    match e
    case Attempt(t, _) => if T(s, t).at.Trying? && T(s, t).at.m == m && M(s, m).count > 0 then 1 else 0
    case TakeAgain(_, n) => if n == m then 1 else 0
    case Give(_, n) => if n == m then -1 else 0
    case _ => 0
  }

  function TakesLessGives(s: State, es: seq<Event>, m: MutexId): int
    requires CanRun(s, es)
    decreases |es|
  {
    if es == [] then 0 else DepthChange(s, es[0], m) + TakesLessGives(Apply(s, es[0]), es[1..], m)
  }

  lemma StepChangesDepth(s: State, e: Event, m: MutexId)
    requires Sound(s) && Enabled(s, e) && M(s, m).recursive
    ensures M(Apply(s, e), m).recursive
    ensures M(Apply(s, e), m).calls == M(s, m).calls + DepthChange(s, e, m)
  {
  }

  lemma {:induction false} DepthIsTakesLessGives(s: State, es: seq<Event>, m: MutexId)
    requires Sound(s) && CanRun(s, es) && M(s, m).recursive
    ensures M(Run(s, es), m).recursive
    ensures M(Run(s, es), m).calls == M(s, m).calls + TakesLessGives(s, es, m)
    decreases |es|
  {
    if es != [] {
      StepKeeps(s, es[0]);
      StepChangesDepth(s, es[0], m);
      DepthIsTakesLessGives(Apply(s, es[0]), es[1..], m);
    }
  }

  /** A recursive mutex is back exactly when its gives have matched its takes. */
  lemma RecursiveMutexReturnsWhenBalanced(s: State, es: seq<Event>, m: MutexId)
    requires Initial(s) && CanRun(s, es) && M(s, m).recursive
    ensures M(Run(s, es), m).holder == NOBODY <==> TakesLessGives(s, es, m) == 0
    ensures TakesLessGives(s, es, m) >= 0
  {
    InitialIsSound(s);
    DepthIsTakesLessGives(s, es, m);
    RunKeeps(s, es);
    assert MutexOk(Run(s, es), m);
  }
}
