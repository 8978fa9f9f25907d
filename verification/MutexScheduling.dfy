/** The mutexes and the ready lists together: every call on a mutex drives the list work it does in tasks.c, from
    the moment the kernel is booted. */
module MutexScheduling {
  import opened Mutexes
  import opened MutexTimeouts
  import R = ReadyLists

  datatype Joint = Joint(s: State, r: R.State)

  /** A task is created, or a task does something with mutexes, sleeps or wakes up. The container is the list a
      task that blocks goes to, which depends on how long it is prepared to wait. */
  datatype Happening = Create(task: Task, priority: nat) | Happen(e: Event, container: R.Container)

  /** In a ready list: also a task that has suspended the scheduler and has not blocked yet. */
  predicate Listed(at: Place) {
    IsReady(at) || OnTheWay(at)
  }

  /** The idle task never blocks, and tasks are created by running tasks. */
  predicate CanHappen(j: Joint, x: Happening) {
    match x
    case Create(t, p) => j.s.owner == NOBODY && t !in j.s.tasks && t !in j.r.at && p < R.MAX_PRIORITIES
    case Happen(e, c) => Enabled(j.s, e) && (e.Join? || e.Sleep? ==> e.t != R.IDLE) && !c.ReadyList?
  }

  function Unblocked(r: R.State, t: Task): R.State {
    if t in r.at then R.Unblock(r, t) else r
  }

  function Blocked(r: R.State, t: Task, c: R.Container): R.State {
    if t in r.at then R.Block(r, t, c) else r
  }

  /** What each call does to the state lists. */
  function ListWork(s: State, r: R.State, e: Event, c: R.Container): R.State
    requires Enabled(s, e)
  {
    match e
    case Lend(t) =>
      var h := M(s, T(s, t).at.m).holder;
      if h >= 0 && T(s, h).priority < T(s, t).priority then R.Reprioritise(r, h, T(s, t).priority) else r
    case Join(t) => Blocked(r, t, c)
    case Expire(t) => Unblocked(r, t)
    case Undo(t) =>
      var h := M(s, T(s, t).at.m).holder;
      var p := T(Apply(s, e), h).priority;
      if h >= 0 && p != T(s, h).priority then R.ReprioritiseAfterTimeout(r, h, p) else r
    case Give(t, m) =>
      var x := M(s, m);
      if x.recursive && x.calls - 1 != 0 then r else Woken(Lowered(s, r, t), x.waiters)
    case Sleep(t) => Blocked(r, t, c)
    case WakeUp(t) => Unblocked(r, t)
    case _ => r
  }

  /** xTaskPriorityDisinherit. */
  function Lowered(s: State, r: R.State, t: Task): R.State {
    var p := Disinherit(T(s, t)).priority;
    if p != T(s, t).priority then R.Reprioritise(r, t, p) else r
  }

  function Woken(r: R.State, waiters: seq<Task>): R.State {
    if waiters == [] then r else Unblocked(r, waiters[0])
  }

  function Next(j: Joint, x: Happening): Joint
    requires CanHappen(j, x)
  {
    match x
    case Create(t, p) =>
      Joint(j.s.(tasks := j.s.tasks[t := Tcb(p, p, 0, Outside)]), R.AddToReady(R.WithPriority(j.r, t, p), t))
    case Happen(e, c) => Joint(Apply(j.s, e), ListWork(j.s, j.r, e, c))
  }

  predicate CanGo(j: Joint, xs: seq<Happening>)
    decreases |xs|
  {
    |xs| == 0 || (CanHappen(j, xs[0]) && CanGo(Next(j, xs[0]), xs[1..]))
  }

  function Go(j: Joint, xs: seq<Happening>): Joint
    requires CanGo(j, xs)
    decreases |xs|
  {
    if xs == [] then j else Go(Next(j, xs[0]), xs[1..])
  }

  // ---------- What the lists mirror ----------

  /** The ready lists hold the tasks that can run, and both sides agree on every priority. */
  ghost predicate Mirrors(s: State, r: R.State) {
    && (forall u: Task {:trigger R.IsReady(r, u)} :: R.IsReady(r, u) <==> u in s.tasks && Listed(T(s, u).at))
    && (forall u: Task {:trigger R.P(r, u)} {:trigger u in r.at} ::
          u in s.tasks ==> R.P(r, u) == T(s, u).priority && u in r.at && u in r.priority)
  }

  ghost predicate Good(j: Joint) {
    Justified(j.s) && R.Sound(j.r) && Mirrors(j.s, j.r)
  }

  /** Task t is as before, but for its priority and its being listed. */
  ghost predicate OnlyChanges(s: State, s': State, t: Task) {
    && s'.tasks.Keys == s.tasks.Keys
    && forall u: Task {:trigger T(s', u)} :: u in s.tasks && u != t ==>
         T(s', u).priority == T(s, u).priority && (Listed(T(s', u).at) <==> Listed(T(s, u).at))
  }

  lemma StaysMirrored(s: State, s': State, r: R.State, t: Task)
    requires Mirrors(s, r) && OnlyChanges(s, s', t)
    requires t in s.tasks ==> T(s', t).priority == T(s, t).priority && (Listed(T(s', t).at) <==> Listed(T(s, t).at))
    ensures Mirrors(s', r)
  {
    forall u: Task ensures R.IsReady(r, u) <==> u in s'.tasks && Listed(T(s', u).at) {
      assert R.IsReady(r, u) <==> u in s.tasks && Listed(T(s, u).at);
    }
    assert forall u: Task :: u in s.tasks ==> T(s', u).priority == T(s, u).priority;
  }

  lemma PriorityMirrored(s: State, s': State, r: R.State, t: Task, p: nat)
    requires R.Sound(r) && Mirrors(s, r) && OnlyChanges(s, s', t) && t in s.tasks && p < R.MAX_PRIORITIES
    requires T(s', t).priority == p && (Listed(T(s', t).at) <==> Listed(T(s, t).at))
    ensures R.Sound(R.Reprioritise(r, t, p)) && Mirrors(s', R.Reprioritise(r, t, p))
  {
    R.ReprioritiseKeeps(r, t, p);
    R.ReprioritiseMoves(r, t, p);
    var r' := R.Reprioritise(r, t, p);
    forall u: Task ensures R.IsReady(r', u) <==> u in s'.tasks && Listed(T(s', u).at) {
      assert R.IsReady(r, u) <==> u in s.tasks && Listed(T(s, u).at);
    }
    forall u: Task | u in s'.tasks ensures R.P(r', u) == T(s', u).priority && u in r'.at && u in r'.priority {
      assert R.P(r, u) == T(s, u).priority;
    }
  }

  lemma UnblockMirrored(s: State, s': State, r: R.State, t: Task)
    requires R.Sound(r) && Mirrors(s, r) && OnlyChanges(s, s', t) && t in s.tasks
    requires T(s', t).priority == T(s, t).priority && !Listed(T(s, t).at) && Listed(T(s', t).at)
    ensures R.Sound(Unblocked(r, t)) && Mirrors(s', Unblocked(r, t))
  {
    var r' := Unblocked(r, t);
    assert R.P(r, t) == T(s, t).priority && !R.IsReady(r, t);
    R.UnblockKeeps(r, t);
    assert r'.at == r.at[t := R.ReadyList(R.P(r, t))] && r'.priority == r.priority;
    forall u: Task ensures R.IsReady(r', u) <==> u in s'.tasks && Listed(T(s', u).at) {
      assert R.IsReady(r, u) <==> u in s.tasks && Listed(T(s, u).at);
    }
    forall u: Task | u in s'.tasks ensures R.P(r', u) == T(s', u).priority && u in r'.at && u in r'.priority {
      assert R.P(r, u) == T(s, u).priority;
    }
  }

  lemma BlockMirrored(s: State, s': State, r: R.State, t: Task, c: R.Container)
    requires R.Sound(r) && Mirrors(s, r) && OnlyChanges(s, s', t) && t in s.tasks && t != R.IDLE && !c.ReadyList?
    requires T(s', t).priority == T(s, t).priority && Listed(T(s, t).at) && !Listed(T(s', t).at)
    ensures R.Sound(Blocked(r, t, c)) && Mirrors(s', Blocked(r, t, c))
  {
    var r' := Blocked(r, t, c);
    assert R.IsReady(r, t);
    assert R.In(r, t, R.ReadyList(r.at[t].priority));
    R.BlockKeeps(r, t, c);
    assert r'.at == r.at[t := c] && r'.priority == r.priority;
    forall u: Task ensures R.IsReady(r', u) <==> u in s'.tasks && Listed(T(s', u).at) {
      assert R.IsReady(r, u) <==> u in s.tasks && Listed(T(s, u).at);
    }
    forall u: Task | u in s'.tasks ensures R.P(r', u) == T(s', u).priority && u in r'.at && u in r'.priority {
      assert R.P(r, u) == T(s, u).priority;
    }
  }

  // ---------- What every step keeps ----------

  lemma PriorityIsSmall(s: State, r: R.State, t: Task)
    requires R.Sound(r) && Mirrors(s, r) && t in s.tasks
    ensures T(s, t).priority < R.MAX_PRIORITIES
  {
    assert R.P(r, t) == T(s, t).priority;
    assert r.priority[t] < R.MAX_PRIORITIES;
  }

  lemma LendKeepsMirror(j: Joint, t: Task, c: R.Container)
    requires Good(j) && CanHappen(j, Happen(Lend(t), c))
    ensures R.Sound(Next(j, Happen(Lend(t), c)).r)
            && Mirrors(Next(j, Happen(Lend(t), c)).s, Next(j, Happen(Lend(t), c)).r)
  {
    var s, s' := j.s, Apply(j.s, Lend(t));
    var h := M(s, T(s, t).at.m).holder;
    assert TaskOk(s, t) && MutexOk(s, T(s, t).at.m);
    HolderHolds(s, T(s, t).at.m);
    if T(s, h).priority < T(s, t).priority {
      PriorityIsSmall(s, j.r, t);
      PriorityMirrored(s, s', j.r, h, T(s, t).priority);
    } else {
      StaysMirrored(s, s', j.r, t);
    }
  }

  /** The priority that a holder falls back to is its own or that of a task that waits. */
  lemma PriorityToUseIsSmall(j: Joint, t: Task)
    requires Good(j) && Enabled(j.s, Undo(t)) && M(j.s, T(j.s, t).at.m).holder >= 0
    ensures var h := M(j.s, T(j.s, t).at.m).holder;
            h in j.s.tasks && h != t && T(Apply(j.s, Undo(t)), h).priority < R.MAX_PRIORITIES
  {
    var s, m := j.s, T(j.s, t).at.m;
    var h := M(s, m).holder;
    assert TaskOk(s, t) && MutexOk(s, m) && TaskOk(s, h);
    HolderHolds(s, m);
    PriorityIsSmall(s, j.r, h);
    var w := M(s, m).waiters;
    if w != [] {
      assert w[0] in w;
      PriorityIsSmall(s, j.r, w[0]);
    }
  }

  /** The guard that the wrong bit needs holds whenever the kernel gets there. */
  lemma UndoIsSafe(j: Joint, t: Task)
    requires Good(j) && Enabled(j.s, Undo(t)) && M(j.s, T(j.s, t).at.m).holder >= 0
    ensures var h := M(j.s, T(j.s, t).at.m).holder;
            R.TimeoutIsSafe(j.r, h, T(Apply(j.s, Undo(t)), h).priority)
  {
    var s, r := j.s, j.r;
    var h := M(s, T(s, t).at.m).holder;
    var p := T(Apply(s, Undo(t)), h).priority;
    PriorityToUseIsSmall(j, t);
    assert R.P(r, h) == T(s, h).priority && TaskOk(s, h);
    if R.In(r, h, R.ReadyList(R.P(r, h))) && p != R.P(r, h) {
      assert R.IsReady(r, h);
      LoweredHasCompany(s, t);
      var x: Task :| x != h && x in s.tasks && IsReady(T(s, x).at) && T(s, x).priority == T(s, h).priority;
      assert R.IsReady(r, x) && R.P(r, x) == R.P(r, h);
      assert R.In(r, x, R.ReadyList(r.at[x].priority));
      assert h in R.L(r, R.ReadyList(R.P(r, h))) && x in R.L(r, R.ReadyList(R.P(r, h)));
    }
  }

  lemma UndoKeepsMirror(j: Joint, t: Task, c: R.Container)
    requires Good(j) && CanHappen(j, Happen(Undo(t), c))
    ensures R.Sound(Next(j, Happen(Undo(t), c)).r)
            && Mirrors(Next(j, Happen(Undo(t), c)).s, Next(j, Happen(Undo(t), c)).r)
  {
    var s, s' := j.s, Apply(j.s, Undo(t));
    var h := M(s, T(s, t).at.m).holder;
    if h >= 0 && T(s', h).priority != T(s, h).priority {
      var p := T(s', h).priority;
      PriorityToUseIsSmall(j, t);
      UndoIsSafe(j, t);
      R.SafeIsReprioritise(j.r, h, p);
      PriorityMirrored(s, s', j.r, h, p);
    } else {
      if h >= 0 {
        PriorityToUseIsSmall(j, t);
      }
      StaysMirrored(s, s', j.r, t);
    }
  }

  lemma FreeKeepsMirror(j: Joint, t: Task, m: MutexId)
    requires Good(j) && Enabled(j.s, Give(t, m))
    ensures R.Sound(Lowered(j.s, j.r, t)) && Mirrors(Free(j.s, t, m), Lowered(j.s, j.r, t))
  {
    var s, s' := j.s, Free(j.s, t, m);
    assert TaskOk(s, t);
    PriorityIsSmall(s, j.r, t);
    if T(s', t).priority != T(s, t).priority {
      PriorityMirrored(s, s', j.r, t, T(s', t).priority);
    } else {
      StaysMirrored(s, s', j.r, t);
    }
  }

  lemma GiveKeepsMirror(j: Joint, t: Task, m: MutexId, c: R.Container)
    requires Good(j) && CanHappen(j, Happen(Give(t, m), c))
    ensures R.Sound(Next(j, Happen(Give(t, m), c)).r)
    ensures Mirrors(Next(j, Happen(Give(t, m), c)).s, Next(j, Happen(Give(t, m), c)).r)
  {
    var s, x := j.s, M(j.s, m);
    if x.recursive && x.calls - 1 != 0 {
      StaysMirrored(s, Apply(s, Give(t, m)), j.r, t);
    } else {
      FreeKeepsMirror(j, t, m);
      if x.waiters != [] {
        var w := x.waiters[0];
        assert MutexOk(s, m) && w in x.waiters;
        UnblockMirrored(Free(s, t, m), Apply(s, Give(t, m)), Lowered(s, j.r, t), w);
      }
    }
  }

  /** The other events move one task on, or block or ready it. */
  lemma OthersKeepMirror(j: Joint, e: Event, c: R.Container)
    requires Good(j) && CanHappen(j, Happen(e, c)) && !e.Lend? && !e.Undo? && !e.Give?
    ensures R.Sound(Next(j, Happen(e, c)).r) && Mirrors(Next(j, Happen(e, c)).s, Next(j, Happen(e, c)).r)
  {
    var s, s' := j.s, Apply(j.s, e);
    match e {
      case Join(t) => BlockMirrored(s, s', j.r, t, c);
      case Sleep(t) => BlockMirrored(s, s', j.r, t, c);
      case Expire(t) => UnblockMirrored(s, s', j.r, t);
      case WakeUp(t) => UnblockMirrored(s, s', j.r, t);
      case _ => StaysMirrored(s, s', j.r, e.t);
    }
  }

  /** A new task changes nothing for the mutexes and those who wait. */
  lemma CreateKeepsMutexes(s: State, t: Task, p: nat)
    requires Justified(s) && s.owner == NOBODY && t !in s.tasks
    ensures Justified(s.(tasks := s.tasks[t := Tcb(p, p, 0, Outside)]))
  {
    var s' := s.(tasks := s.tasks[t := Tcb(p, p, 0, Outside)]);
    assert forall u: Task :: T(s', u) == if u == t then Tcb(p, p, 0, Outside) else T(s, u);
    assert forall m :: M(s', m) == M(s, m);
    forall u: Task ensures TaskOk(s', u) {
      assert TaskOk(s, u);
      SameHoldings(s, s', u);
    }
    forall m ensures MutexOk(s', m) {
      CreateKeepsMutex(s, t, p, m);
    }
    forall u: Task, m: MutexId ensures ClaimOk(s', u, m) {
      CreateKeepsClaim(s, t, p, u, m);
    }
  }

  lemma CreateKeepsMutex(s: State, t: Task, p: nat, m: MutexId)
    requires Sound(s) && t !in s.tasks
    ensures MutexOk(s.(tasks := s.tasks[t := Tcb(p, p, 0, Outside)]), m)
  {
    var s' := s.(tasks := s.tasks[t := Tcb(p, p, 0, Outside)]);
    assert MutexOk(s, m) && M(s', m) == M(s, m);
    if M(s, m).holder != NOBODY {
      HolderHolds(s, m);
    } else if M(s, m).waiters != [] {
      var v: Task :| IsHeir(s, m, v);
      assert IsHeir(s', m, v);
    }
  }

  lemma CreateKeepsClaim(s: State, t: Task, p: nat, u: Task, m: MutexId)
    requires Justified(s) && t !in s.tasks
    ensures ClaimOk(s.(tasks := s.tasks[t := Tcb(p, p, 0, Outside)]), u, m)
  {
    var s' := s.(tasks := s.tasks[t := Tcb(p, p, 0, Outside)]);
    assert ClaimOk(s, u, m) && M(s', m) == M(s, m) && MutexOk(s, m);
    var h := M(s, m).holder;
    if Claims(s', u, m) && h >= 0 {
      HolderHolds(s, m);
      if T(s, h).priority < T(s, u).priority && T(s, h).priority != T(s, h).base {
        var x: Task :| Backs(s, x, h, m);
        assert Backs(s', x, h, m);
      }
    }
  }

  lemma CreateKeepsMirror(j: Joint, t: Task, p: nat)
    requires Good(j) && CanHappen(j, Create(t, p))
    ensures R.Sound(Next(j, Create(t, p)).r) && Mirrors(Next(j, Create(t, p)).s, Next(j, Create(t, p)).r)
  {
    R.CreateKeeps(j.r, t, p);
    var j' := Next(j, Create(t, p));
    assert j'.r.at == j.r.at[t := R.ReadyList(p)] && j'.r.priority == j.r.priority[t := p];
    forall u: Task ensures R.IsReady(j'.r, u) <==> u in j'.s.tasks && Listed(T(j'.s, u).at) {
      assert R.IsReady(j.r, u) <==> u in j.s.tasks && Listed(T(j.s, u).at);
    }
    forall u: Task | u in j'.s.tasks
      ensures R.P(j'.r, u) == T(j'.s, u).priority && u in j'.r.at && u in j'.r.priority
    {
      assert u != t ==> R.P(j.r, u) == T(j.s, u).priority;
    }
  }

  lemma NextIsGood(j: Joint, x: Happening)
    requires Good(j) && CanHappen(j, x)
    ensures Good(Next(j, x))
  {
    match x {
      case Create(t, p) =>
        CreateKeepsMutexes(j.s, t, p);
        CreateKeepsMirror(j, t, p);
      case Happen(e, c) =>
        StepKeepsJustified(j.s, e);
        match e {
          case Lend(t) => LendKeepsMirror(j, t, c);
          case Undo(t) => UndoKeepsMirror(j, t, c);
          case Give(t, m) => GiveKeepsMirror(j, t, m, c);
          case _ => OthersKeepMirror(j, e, c);
        }
    }
  }

  // ---------- Every run from the start ----------

  /** The kernel has been booted: there is the idle task, and mutexes may have been created. */
  ghost predicate Booted(j: Joint) {
    && j.r == R.Booted() && Initial(j.s)
    && j.s.tasks == map[R.IDLE := Tcb(IDLE_PRIORITY, IDLE_PRIORITY, 0, Outside)]
  }

  lemma BootedIsGood(j: Joint)
    requires Booted(j)
    ensures Good(j)
  {
    InitialIsJustified(j.s);
    R.BootedIsSound();
  }

  lemma {:induction false} GoIsGood(j: Joint, xs: seq<Happening>)
    requires Good(j) && CanGo(j, xs)
    ensures Good(Go(j, xs))
    decreases |xs|
  {
    if xs != [] {
      NextIsGood(j, xs[0]);
      GoIsGood(Next(j, xs[0]), xs[1..]);
    }
  }

  /** However tasks are created and use mutexes, timeouts included, the ready lists and their bitmap stay in order
      and agree with the tasks' priorities: the bit that vTaskPriorityDisinheritAfterTimeout resets never matters. */
  lemma ReadyListsSurviveMutexes(j: Joint, xs: seq<Happening>)
    requires Booted(j) && CanGo(j, xs)
    ensures R.Sound(Go(j, xs).r) && Mirrors(Go(j, xs).s, Go(j, xs).r)
  {
    BootedIsGood(j);
    GoIsGood(j, xs);
  }

  /** And while no task has suspended the scheduler, the tasks that vTaskSwitchContext may select are exactly those
      that priority inheritance supposes to be running: the ready ones that no ready task outranks. */
  lemma SelectedIsRunning(j: Joint, xs: seq<Happening>, t: Task)
    requires Booted(j) && CanGo(j, xs) && Go(j, xs).s.owner == NOBODY
    ensures t in R.Selected(Go(j, xs).r) <==> Running(Go(j, xs).s, t)
  {
    BootedIsGood(j);
    GoIsGood(j, xs);
    SelectedIsRunningNow(Go(j, xs), t);
  }

  lemma SelectedIsRunningNow(j: Joint, t: Task)
    requires Good(j) && j.s.owner == NOBODY
    ensures t in R.Selected(j.r) <==> Running(j.s, t)
  {
    var s, r := j.s, j.r;
    forall u: Task ensures R.IsReady(r, u) <==> u in s.tasks && IsReady(T(s, u).at) {
      assert TaskOk(s, u);
    }
    forall u: Task | R.IsReady(r, u) ensures u in R.L(r, R.ReadyList(T(s, u).priority)) {
      assert R.P(r, u) == T(s, u).priority;
      assert R.In(r, u, R.ReadyList(r.at[u].priority));
    }
    R.SwitchSelectsAHighest(r, t);
    if Running(s, t) {
      var x := R.Selected(r)[0];
      assert x in R.Selected(r);
      R.SwitchSelectsAHighest(r, x);
      assert R.IsReady(r, t) && R.P(r, t) == T(s, t).priority && R.P(r, x) == T(s, x).priority;
      assert R.In(r, x, R.ReadyList(R.Highest(r.top, R.MAX_PRIORITIES - 1)));
    } else if t in R.Selected(r) {
      forall u: Task | u in s.tasks && IsReady(T(s, u).at) ensures T(s, u).priority <= T(s, t).priority {
        assert R.IsReady(r, u) && R.P(r, u) == T(s, u).priority && R.P(r, t) == T(s, t).priority;
      }
    }
  }
}
