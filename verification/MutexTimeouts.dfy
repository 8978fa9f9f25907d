/** When a wait for a mutex times out and the holder's inherited priority is taken back, the holder is
    never alone in its ready list: the argument that the ready bitmap rests on at that point. */
module MutexTimeouts {
  import opened Mutexes
  import opened Sequences

  /** A ready task that may come to undo the inheritance it caused on m. */
  predicate Claims(s: State, t: Task, m: MutexId) {
    var at := T(s, t).at;
    && (at.Trying? || at.Suspending? || at.TimedOut? || at.GivingUp?)
    && at.m == m && (at.GivingUp? || at.inherited)
  }

  /** A task that never held anything while it was at m, at the holder's very priority, and either still
      waiting for m or ready. */
  predicate Backs(s: State, x: Task, h: int, m: MutexId) {
    var at := T(s, x).at;
    && x in s.tasks && T(s, x).priority == T(s, h).priority && T(s, x).held == 0
    && ((at.Waiting? && at.m == m) || at.Trying? || at.Suspending? || at.TimedOut? || at.GivingUp?)
  }

  ghost predicate Backed(s: State, h: int, m: MutexId) {
    T(s, h).priority == T(s, h).base || exists x: Task :: Backs(s, x, h, m)
  }

  /** While such a task is ready, the holder is at least as high, or its priority has a reason. */
  ghost predicate ClaimOk(s: State, t: Task, m: MutexId) {
    Claims(s, t, m) ==>
      && T(s, t).held == 0
      && (M(s, m).holder >= 0 ==> T(s, M(s, m).holder).priority >= T(s, t).priority || Backed(s, M(s, m).holder, m))
  }

  /** Whoever has suspended the scheduler outranks every ready task. */
  ghost predicate OwnerOk(s: State) {
    s.owner >= 0 ==> forall u: Task {:trigger T(s, u)} :: u in s.tasks && IsReady(T(s, u).at) ==>
      T(s, u).priority <= T(s, s.owner).priority
  }

  ghost predicate Justified(s: State) {
    Sound(s) && OwnerOk(s) && forall t: Task, m: MutexId :: ClaimOk(s, t, m)
  }

  lemma ClaimantIsReady(s: State, t: Task, m: MutexId)
    requires Claims(s, t, m)
    ensures t in s.tasks && IsReady(T(s, t).at)
  {
  }

  /** As it was, or let off the list it waited on, or not at any mutex before. */
  predicate SameOrReadied(v: Tcb, v': Tcb) {
    v' == v || v.at.Asleep? || (v.at.Waiting? && v'.at.Trying? && v'.priority == v.priority && v'.held == v.held)
  }

  /** Only a and tasks that hold something may have changed otherwise. */
  ghost predicate QuietExcept(s: State, s': State, a: Task) {
    forall x: Task {:trigger T(s', x)} :: x != a && x in s.tasks && T(s, x).held == 0 ==>
      x in s'.tasks && SameOrReadied(T(s, x), T(s', x))
  }

  /** A claim stays in order through a step of a task that outranks the claimant. */
  lemma Carry(s: State, s': State, t: Task, m: MutexId, a: Task)
    requires ClaimOk(s, t, m) && Claims(s, t, m) && T(s, a).priority >= T(s, t).priority
    requires T(s', t).priority == T(s, t).priority && T(s', t).held == 0 && M(s', m).holder == M(s, m).holder
    requires var h := M(s, m).holder;
             h >= 0 ==> T(s', h).priority == T(s, h).priority && T(s', h).base == T(s, h).base
    requires QuietExcept(s, s', a)
    ensures ClaimOk(s', t, m)
  {
    var h := M(s, m).holder;
    if h >= 0 && T(s, h).priority < T(s, t).priority && T(s, h).priority != T(s, h).base {
      var x: Task :| Backs(s, x, h, m);
      assert T(s', x).priority == T(s, x).priority;
      assert Backs(s', x, h, m);
    }
  }

  lemma RunnerOutranks(s: State, a: Task, t: Task, m: MutexId)
    requires Claims(s, t, m) && (Running(s, a) || (s.owner == a && OwnerOk(s)))
    ensures T(s, a).priority >= T(s, t).priority
  {
    ClaimantIsReady(s, t, m);
  }

  /** The steps that only move the running task on. */
  lemma MoveClaim(s: State, a: Task, at: Place, t: Task, m: MutexId)
    requires Sound(s) && ClaimOk(s, t, m) && (Running(s, a) || (s.owner == a && OwnerOk(s)))
    requires a == t && Claims(Move(s, a, at), t, m) ==> Claims(s, t, m)
    ensures ClaimOk(Move(s, a, at), t, m)
  {
    var s' := Move(s, a, at);
    if Claims(s', t, m) {
      RunnerOutranks(s, a, t, m);
      Carry(s, s', t, m, a);
    }
  }

  lemma OwnerIsNoClaim(s: State, owner: int, t: Task, m: MutexId)
    requires ClaimOk(s, t, m)
    ensures ClaimOk(s.(owner := owner), t, m)
  {
    var s' := s.(owner := owner);
    assert forall x: Task :: T(s', x) == T(s, x);
    assert M(s', m) == M(s, m);
    var h := M(s, m).holder;
    if Claims(s, t, m) && h >= 0 && T(s, h).priority < T(s, t).priority && T(s, h).priority != T(s, h).base {
      var x: Task :| Backs(s, x, h, m);
      assert Backs(s', x, h, m);
    }
  }

  lemma TakeClaim(s: State, a: Task, n: MutexId, t: Task, m: MutexId)
    requires Sound(s) && ClaimOk(s, t, m) && Running(s, a) && T(s, a).at.Trying? && M(s, n).count > 0
    ensures ClaimOk(Take(s, a, n), t, m)
  {
    var s' := Take(s, a, n);
    if Claims(s', t, m) {
      RunnerOutranks(s, a, t, m);
      if n != m {
        Carry(s, s', t, m, a);
      }
    }
  }

  /** Lending only ever raises the holder, to the lender's own priority. */
  lemma LendClaim(s: State, a: Task, t: Task, m: MutexId)
    requires Justified(s) && Enabled(s, Lend(a))
    ensures ClaimOk(Apply(s, Lend(a)), t, m)
  {
    var s' := Apply(s, Lend(a));
    var n := T(s, a).at.m;
    assert ClaimOk(s, t, m) && TaskOk(s, a) && MutexOk(s, n);
    if Claims(s', t, m) {
      RunnerOutranks(s, a, t, m);
      HolderHolds(s, n);
      var h := M(s, m).holder;
      if h < 0 || T(s', h).priority == T(s, h).priority {
        Carry(s, s', t, m, a);
      }
    }
  }

  lemma JoinClaim(s: State, a: Task, t: Task, m: MutexId)
    requires Justified(s) && Enabled(s, Join(a))
    ensures ClaimOk(Apply(s, Join(a)), t, m)
  {
    var s' := Apply(s, Join(a));
    assert ClaimOk(s, t, m) && TaskOk(s, a);
    if Claims(s', t, m) {
      RunnerOutranks(s, a, t, m);
      Carry(s, s', t, m, a);
    }
  }

  /** A waiter that times out leaves a holder at least as high as itself. */
  lemma ExpireClaim(s: State, a: Task, t: Task, m: MutexId)
    requires Justified(s) && Enabled(s, Expire(a))
    ensures ClaimOk(Apply(s, Expire(a)), t, m)
  {
    var s' := Apply(s, Expire(a));
    assert ClaimOk(s, t, m) && TaskOk(s, a) && MutexOk(s, m);
    if Claims(s', t, m) && a != t {
      Carry(s, s', t, m, t);
    }
  }

  lemma WakeUpClaim(s: State, a: Task, t: Task, m: MutexId)
    requires Justified(s) && Enabled(s, WakeUp(a))
    ensures ClaimOk(Apply(s, WakeUp(a)), t, m)
  {
    assert ClaimOk(s, t, m);
    if Claims(Apply(s, WakeUp(a)), t, m) {
      Carry(s, Apply(s, WakeUp(a)), t, m, t);
    }
  }

  /** Undoing lowers a holder to its base, or to the priority of a task still waiting. */
  lemma UndoClaim(s: State, a: Task, t: Task, m: MutexId)
    requires Justified(s) && Enabled(s, Undo(a))
    ensures ClaimOk(Apply(s, Undo(a)), t, m)
  {
    var s' := Apply(s, Undo(a));
    var n := T(s, a).at.m;
    assert ClaimOk(s, t, m) && TaskOk(s, a) && MutexOk(s, n);
    if Claims(s', t, m) {
      RunnerOutranks(s, a, t, m);
      if M(s, n).holder >= 0 {
        HolderHolds(s, n);
        var h := M(s, m).holder;
        if h < 0 || T(s', h).priority == T(s, h).priority {
          Carry(s, s', t, m, a);
        } else {
          LoweredHasReason(s, a, m);
        }
      } else {
        Carry(s, s', t, m, a);
      }
    }
  }

  lemma LoweredHasReason(s: State, a: Task, m: MutexId)
    requires Justified(s) && Enabled(s, Undo(a)) && M(s, T(s, a).at.m).holder >= 0
    requires var h := M(s, m).holder;
             h >= 0 && T(Apply(s, Undo(a)), h).priority != T(s, h).priority
    ensures Backed(Apply(s, Undo(a)), M(s, m).holder, m)
  {
    var s' := Apply(s, Undo(a));
    var n, h := T(s, a).at.m, M(s, m).holder;
    assert TaskOk(s, h) && MutexOk(s, n);
    OnlyOne(s, h, m, n);
    if T(s', h).priority != T(s', h).base {
      var w := M(s, m).waiters[0];
      assert w in M(s, m).waiters;
      assert TaskOk(s, w);
      assert Backs(s', w, h, m);
    }
  }

  lemma DepthClaim(s: State, n: MutexId, calls: int, t: Task, m: MutexId)
    requires ClaimOk(s, t, m)
    ensures ClaimOk(SetM(s, n, M(s, n).(calls := calls)), t, m)
  {
    if Claims(s, t, m) {
      Carry(s, SetM(s, n, M(s, n).(calls := calls)), t, m, t);
    }
  }

  lemma ReleaseClaim(s: State, a: Task, n: MutexId, t: Task, m: MutexId)
    requires Justified(s) && Enabled(s, Give(a, n))
    ensures ClaimOk(WakeFirst(Free(s, a, n), n), t, m)
  {
    var s' := WakeFirst(Free(s, a, n), n);
    assert ClaimOk(s, t, m) && TaskOk(s, a) && MutexOk(s, n);
    if M(s, n).waiters != [] {
      assert M(s, n).waiters[0] in M(s, n).waiters;
      assert TaskOk(s, M(s, n).waiters[0]);
    }
    if Claims(s', t, m) && m != n {
      RunnerOutranks(s, a, t, m);
      if M(s, m).holder == a && T(s, a).held == 1 {
        OnlyOne(s, a, m, n);
      } else {
        Carry(s, s', t, m, a);
      }
    }
  }

  lemma SuspendClaim(s: State, a: Task, expired: bool, t: Task, m: MutexId)
    requires Justified(s) && Enabled(s, Suspend(a, expired))
    ensures ClaimOk(Apply(s, Suspend(a, expired)), t, m)
  {
    assert ClaimOk(s, t, m);
    var p := T(s, a).at;
    if expired {
      MoveClaim(s, a, TimedOut(p.m, p.inherited), t, m);
    } else if M(s, p.m).count == 0 {
      MoveClaim(s, a, Claiming(p.m, p.inherited), t, m);
      OwnerIsNoClaim(Move(s, a, Claiming(p.m, p.inherited)), a, t, m);
    } else {
      MoveClaim(s, a, Trying(p.m, p.inherited), t, m);
    }
  }

  lemma AttemptClaim(s: State, a: Task, mayBlock: bool, t: Task, m: MutexId)
    requires Justified(s) && Enabled(s, Attempt(a, mayBlock))
    ensures ClaimOk(Apply(s, Attempt(a, mayBlock)), t, m)
  {
    assert ClaimOk(s, t, m);
    var p := T(s, a).at;
    if M(s, p.m).count > 0 {
      TakeClaim(s, a, p.m, t, m);
    } else {
      MoveClaim(s, a, if mayBlock then Suspending(p.m, p.inherited) else Outside, t, m);
    }
  }

  lemma LastLookClaim(s: State, a: Task, t: Task, m: MutexId)
    requires Justified(s) && Enabled(s, LastLook(a))
    ensures ClaimOk(Apply(s, LastLook(a)), t, m)
  {
    assert ClaimOk(s, t, m);
    MoveClaim(s, a, T(Apply(s, LastLook(a)), a).at, t, m);
  }

  lemma GiveClaim(s: State, a: Task, n: MutexId, t: Task, m: MutexId)
    requires Justified(s) && Enabled(s, Give(a, n))
    ensures ClaimOk(Apply(s, Give(a, n)), t, m)
  {
    assert ClaimOk(s, t, m);
    var x := M(s, n);
    if x.recursive && x.calls - 1 != 0 {
      DepthClaim(s, n, x.calls - 1, t, m);
    } else {
      ReleaseClaim(s, a, n, t, m);
    }
  }

  lemma StepKeepsClaim(s: State, e: Event, t: Task, m: MutexId)
    requires Justified(s) && Enabled(s, e)
    ensures ClaimOk(Apply(s, e), t, m)
  {
    assert ClaimOk(s, t, m);
    match e {
      case Begin(a, n) => MoveClaim(s, a, Trying(n, false), t, m);
      case Attempt(a, mayBlock) => AttemptClaim(s, a, mayBlock, t, m);
      case Suspend(a, expired) => SuspendClaim(s, a, expired, t, m);
      case Lend(a) => LendClaim(s, a, t, m);
      case Join(a) => JoinClaim(s, a, t, m);
      case Expire(a) => ExpireClaim(s, a, t, m);
      case LastLook(a) => LastLookClaim(s, a, t, m);
      case Undo(a) => UndoClaim(s, a, t, m);
      case Give(a, n) => GiveClaim(s, a, n, t, m);
      case TakeAgain(a, n) => DepthClaim(s, n, M(s, n).calls + 1, t, m);
      case Sleep(a) => MoveClaim(s, a, Asleep, t, m);
      case WakeUp(a) => WakeUpClaim(s, a, t, m);
    }
  }

  /** Between claiming and joining the owner runs alone. */
  lemma StepKeepsOwner(s: State, e: Event)
    requires Justified(s) && Enabled(s, e)
    ensures OwnerOk(Apply(s, e))
  {
    var s' := Apply(s, e);
    match e {
      case Lend(a) =>
        assert MutexOk(s, T(s, a).at.m) && TaskOk(s, a);
        HolderHolds(s, T(s, a).at.m);
        assert T(s', a).priority == T(s, a).priority;
      case Suspend(a, expired) =>
        assert forall u: Task :: T(s', u).priority == T(s, u).priority;
      case _ =>
    }
  }

  lemma InitialIsJustified(s: State)
    requires Initial(s)
    ensures Justified(s)
  {
    InitialIsSound(s);
  }

  lemma StepKeepsJustified(s: State, e: Event)
    requires Justified(s) && Enabled(s, e)
    ensures Justified(Apply(s, e))
  {
    StepKeeps(s, e);
    StepKeepsOwner(s, e);
    forall t: Task, m: MutexId ensures ClaimOk(Apply(s, e), t, m) {
      StepKeepsClaim(s, e, t, m);
    }
  }

  lemma {:induction false} RunKeepsJustified(s: State, es: seq<Event>)
    requires Justified(s) && CanRun(s, es)
    ensures Justified(Run(s, es))
    decreases |es|
  {
    if es != [] {
      StepKeepsJustified(s, es[0]);
      RunKeepsJustified(Apply(s, es[0]), es[1..]);
    }
  }

  /** When a task whose wait has timed out takes back the priority a ready holder inherited, another ready task
      has that very priority, so the list the holder leaves keeps a task. */
  lemma LoweredHasCompany(r: State, t: Task)
    requires Justified(r) && Enabled(r, Undo(t))
    requires var h := M(r, T(r, t).at.m).holder;
             h >= 0 && IsReady(T(r, h).at) && T(Apply(r, Undo(t)), h).priority != T(r, h).priority
    ensures var h := M(r, T(r, t).at.m).holder;
            exists x: Task :: x != h && x in r.tasks && IsReady(T(r, x).at) && T(r, x).priority == T(r, h).priority
  {
    var m := T(r, t).at.m;
    var h := M(r, m).holder;
    assert ClaimOk(r, t, m) && MutexOk(r, m) && TaskOk(r, h) && TaskOk(r, t);
    HolderHolds(r, m);
    if T(r, h).priority >= T(r, t).priority {
      assert h in r.tasks;
      assert t != h && T(r, t).priority == T(r, h).priority;
    } else {
      CompanyOfBacked(r, t, m, h);
    }
  }

  /** So it is in every reachable state. */
  lemma LoweredHolderHasCompany(s: State, es: seq<Event>, t: Task)
    requires Initial(s) && CanRun(s, es) && Enabled(Run(s, es), Undo(t))
    requires var r := Run(s, es);
             var h := M(r, T(r, t).at.m).holder;
             h >= 0 && IsReady(T(r, h).at) && T(Apply(r, Undo(t)), h).priority != T(r, h).priority
    ensures var r := Run(s, es);
            var h := M(r, T(r, t).at.m).holder;
            exists x: Task :: x != h && x in r.tasks && IsReady(T(r, x).at) && T(r, x).priority == T(r, h).priority
  {
    InitialIsJustified(s);
    RunKeepsJustified(s, es);
    LoweredHasCompany(Run(s, es), t);
  }

  lemma CompanyOfBacked(r: State, t: Task, m: MutexId, h: Task)
    requires Justified(r) && Enabled(r, Undo(t)) && m == T(r, t).at.m && h == M(r, m).holder
    requires T(r, h).priority < T(r, t).priority && T(Apply(r, Undo(t)), h).priority != T(r, h).priority
    ensures exists x: Task :: x != h && x in r.tasks && IsReady(T(r, x).at) && T(r, x).priority == T(r, h).priority
  {
    assert ClaimOk(r, t, m) && MutexOk(r, m) && TaskOk(r, h);
    HolderHolds(r, m);
    LowestReason(r, m, h);
    var x: Task :| Backs(r, x, h, m);
    assert x != h;
    if T(r, x).at.Waiting? {
      assert TaskOk(r, x);
      WaiterIsNoHigher(r, m, x);
    }
  }

  /** If the priority to use is another one, the present one is not the holder's own. */
  lemma LowestReason(r: State, m: MutexId, h: Task)
    requires MutexOk(r, m) && TaskOk(r, h) && h == M(r, m).holder
    requires DisinheritAfterTimeout(T(r, h), HighestWaiting(r, m)).priority != T(r, h).priority
    ensures T(r, h).priority != T(r, h).base && HighestWaiting(r, m) < T(r, h).priority
  {
    if M(r, m).waiters != [] {
      assert M(r, m).waiters[0] in M(r, m).waiters;
    }
  }

  lemma WaiterIsNoHigher(r: State, m: MutexId, x: Task)
    requires MutexOk(r, m) && TaskOk(r, x) && T(r, x).at.Waiting? && T(r, x).at.m == m
    ensures T(r, x).priority <= HighestWaiting(r, m)
  {
    var w := M(r, m).waiters;
    var i :| 0 <= i < |w| && w[i] == x;
  }
}
