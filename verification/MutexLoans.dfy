/** What a holder's priority comes to when a wait is given up, who undoes what, and who is first in line, over every
    run of takes and gives. */
module MutexLoans {
  import opened Mutexes
  import opened Numbers
  import opened Sequences

  // ---------- Taking back a loan ----------

  predicate WaitsFor(s: State, u: Task, m: MutexId) {
    T(s, u).at.Waiting? && T(s, u).at.m == m
  }

  /** High enough for the holder's own sake and for everyone who still waits for the mutex. */
  ghost predicate Suffices(s: State, h: Task, m: MutexId, p: nat) {
    p >= T(s, h).base && forall u: Task {:trigger T(s, u)} :: WaitsFor(s, u, m) ==> p >= T(s, u).priority
  }

  lemma HighestIsNeeded(s: State, m: MutexId)
    requires MutexOk(s, m) && forall u: Task :: TaskOk(s, u)
    ensures forall u: Task {:trigger T(s, u)} :: WaitsFor(s, u, m) ==> T(s, u).priority <= HighestWaiting(s, m)
    ensures HighestWaiting(s, m) == 0 || exists u: Task :: WaitsFor(s, u, m) && T(s, u).priority == HighestWaiting(s, m)
  {
    var w := M(s, m).waiters;
    forall u: Task | WaitsFor(s, u, m) ensures T(s, u).priority <= HighestWaiting(s, m) {
      assert TaskOk(s, u);
      var i :| 0 <= i < |w| && w[i] == u;
    }
    if w != [] {
      assert w[0] in w && WaitsFor(s, w[0], m);
    }
  }

  lemma UndoSettles(s: State, t: Task)
    requires Sound(s) && Enabled(s, Undo(t)) && M(s, T(s, t).at.m).holder >= 0
    ensures var m := T(s, t).at.m;
            var h := M(s, m).holder;
            var s' := Apply(s, Undo(t));
            && h != t && T(s', h) == T(s, h).(priority := T(s', h).priority)
            && (T(s, h).held == 1 ==>
                  Suffices(s', h, m, T(s', h).priority)
                  && forall p: nat :: Suffices(s', h, m, p) ==> T(s', h).priority <= p)
            && (T(s, h).held != 1 ==> T(s', h) == T(s, h))
  {
    var m := T(s, t).at.m;
    var h := M(s, m).holder;
    var s' := Apply(s, Undo(t));
    assert TaskOk(s, t) && MutexOk(s, m);
    HolderHolds(s, m);
    assert TaskOk(s, h);
    HighestIsNeeded(s, m);
    assert forall u: Task :: WaitsFor(s', u, m) <==> WaitsFor(s, u, m);
    assert forall u: Task :: WaitsFor(s, u, m) ==> T(s', u) == T(s, u);
    if HighestWaiting(s, m) != 0 {
      var u: Task :| WaitsFor(s, u, m) && T(s, u).priority == HighestWaiting(s, m);
      assert T(s', u).priority == HighestWaiting(s, m);
    }
  }

  /** When a task gives up its wait and takes back what it lent, over every run: the holder of that mutex alone is left
      with the least priority that is not below its own nor below that of any task still waiting for the mutex. The
      holder of several keeps its priority. */
  lemma UndoLeavesTheLeast(s: State, es: seq<Event>, t: Task)
    requires Initial(s) && CanRun(s, es) && Enabled(Run(s, es), Undo(t))
    requires M(Run(s, es), T(Run(s, es), t).at.m).holder >= 0
    ensures var r, r' := Run(s, es), Apply(Run(s, es), Undo(t));
            var m := T(r, t).at.m;
            var h := M(r, m).holder;
            if T(r, h).held == 1 then
              Suffices(r', h, m, T(r', h).priority) && forall p: nat :: Suffices(r', h, m, p) ==> T(r', h).priority <= p
            else T(r', h).priority == T(r, h).priority
  {
    InitialIsSound(s);
    RunKeeps(s, es);
    UndoSettles(Run(s, es), t);
  }

  // ---------- Who takes back what ----------

  predicate InTake(at: Place) {
    !at.Outside? && !at.Asleep?
  }

  /** xInheritanceOccurred, as long as the task is inside the take. */
  predicate Flag(at: Place)
    requires InTake(at)
  {
    at.GivingUp? || at.inherited
  }

  /** Whether the task's priority was above the holder's own at the latest lending since its take began. */
  function Lending(s: State, e: Event, t: Task, before: bool): bool {
    match e
    case Begin(u, _) => u != t && before
    case Lend(u) =>
      if u != t then before
      else T(s, u).at.Claiming? && var h := M(s, T(s, u).at.m).holder; h >= 0 && T(s, h).base < T(s, u).priority
    case _ => before
  }

  function LentAbove(s: State, es: seq<Event>, t: Task, before: bool): bool
    requires CanRun(s, es)
    decreases |es|
  {
    if es == [] then before else LentAbove(Apply(s, es[0]), es[1..], t, Lending(s, es[0], t, before))
  }

  lemma LendSetsFlag(s: State, a: Task, t: Task, lent: bool)
    requires Sound(s) && Enabled(s, Lend(a)) && (InTake(T(s, t).at) ==> Flag(T(s, t).at) == lent)
    ensures var at := T(Apply(s, Lend(a)), t).at;
            InTake(at) ==> Flag(at) == Lending(s, Lend(a), t, lent)
  {
    var m := T(s, a).at.m;
    assert TaskOk(s, a) && MutexOk(s, m);
    HolderHolds(s, m);
    assert TaskOk(s, M(s, m).holder);
  }

  lemma GiveKeepsFlag(s: State, a: Task, m: MutexId, t: Task, lent: bool)
    requires Sound(s) && Enabled(s, Give(a, m)) && (InTake(T(s, t).at) ==> Flag(T(s, t).at) == lent)
    ensures var at := T(Apply(s, Give(a, m)), t).at;
            InTake(at) ==> Flag(at) == lent
  {
    assert MutexOk(s, m);
    if M(s, m).waiters != [] {
      assert M(s, m).waiters[0] in M(s, m).waiters;
    }
  }

  lemma StepKeepsFlag(s: State, e: Event, t: Task, lent: bool)
    requires Sound(s) && Enabled(s, e) && (InTake(T(s, t).at) ==> Flag(T(s, t).at) == lent)
    ensures var at := T(Apply(s, e), t).at;
            InTake(at) ==> Flag(at) == Lending(s, e, t, lent)
  {
    if e.Lend? {
      LendSetsFlag(s, e.t, t, lent);
    } else if e.Give? {
      GiveKeepsFlag(s, e.t, e.m, t, lent);
    }
  }

  lemma {:induction false} RunKeepsFlag(s: State, es: seq<Event>, t: Task, lent: bool)
    requires Sound(s) && CanRun(s, es) && (InTake(T(s, t).at) ==> Flag(T(s, t).at) == lent)
    ensures var at := T(Run(s, es), t).at;
            InTake(at) ==> Flag(at) == LentAbove(s, es, t, lent)
    decreases |es|
  {
    if es != [] {
      StepKeepsFlag(s, es[0], t, lent);
      StepKeeps(s, es[0]);
      RunKeepsFlag(Apply(s, es[0]), es[1..], t, Lending(s, es[0], t, lent));
    }
  }

  /** A task whose wait has timed out, over every run: it tries again if the mutex has become free, and otherwise goes
      on to take back its priority if and only if that was above the holder's own when it was last lent. */
  lemma LendersTakeBack(s: State, es: seq<Event>, t: Task)
    requires Initial(s) && CanRun(s, es) && Enabled(Run(s, es), LastLook(t))
    ensures var r := Run(s, es);
            var m, at := T(r, t).at.m, T(Apply(r, LastLook(t)), t).at;
            if M(r, m).holder == NOBODY then at.Trying? && at.m == m
            else at == if LentAbove(s, es, t, false) then GivingUp(m) else Outside
  {
    InitialIsSound(s);
    RunKeeps(s, es);
    RunKeepsFlag(s, es, t, false);
    assert MutexOk(Run(s, es), T(Run(s, es), t).at.m);
  }

  /** A wait is over its time exactly from the moment the task finds so to its last look at the mutex. */
  lemma TimedOutIff(s: State, e: Event, t: Task)
    requires Sound(s) && Enabled(s, e)
    ensures T(Apply(s, e), t).at.TimedOut? <==> e == Suspend(t, true) || (T(s, t).at.TimedOut? && e != LastLook(t))
  {
    if e.Give? {
      assert MutexOk(s, e.m);
      assert M(s, e.m).waiters != [] ==> M(s, e.m).waiters[0] in M(s, e.m).waiters;
    }
  }

  /** An attempt gets the mutex if and only if nobody holds it; the call is over then, or if it may not wait. */
  lemma FreeMutexIsTaken(s: State, t: Task, mayBlock: bool)
    requires Sound(s) && Enabled(s, Attempt(t, mayBlock))
    ensures var m, s' := T(s, t).at.m, Apply(s, Attempt(t, mayBlock));
            && (M(s', m).holder == t && !(M(s, m).holder == t) <==> M(s, m).holder == NOBODY)
            && (M(s, m).holder != NOBODY ==> M(s', m) == M(s, m))
            && (T(s', t).at == Outside <==> M(s, m).holder == NOBODY || !mayBlock)
            && T(s', t).held == T(s, t).held + if M(s, m).holder == NOBODY then 1 else 0
  {
    assert MutexOk(s, T(s, t).at.m);
  }

  /** What a taker that may wait goes through when the mutex is held. */
  function GoingToWait(t: Task): seq<Event> {
    [Attempt(t, true), Suspend(t, false), Lend(t), Join(t)]
  }

  lemma OneStep(s: State, e: Event, es: seq<Event>)
    requires Enabled(s, e) && CanRun(Apply(s, e), es)
    ensures CanRun(s, [e] + es) && Run(s, [e] + es) == Run(Apply(s, e), es)
  {
    assert ([e] + es)[1..] == es;
  }

  /** Undisturbed, it ends up on the list of the mutex, and the holder runs at least at its priority from then on,
      raised no further than that. */
  lemma HeldMutexIsWaitedFor(s: State, t: Task)
    requires Sound(s) && Enabled(s, Attempt(t, true)) && M(s, T(s, t).at.m).holder >= 0
    ensures CanRun(s, GoingToWait(t))
    ensures var m, s' := T(s, t).at.m, Run(s, GoingToWait(t));
            var h := M(s, m).holder;
            && WaitsFor(s', t, m) && t in M(s', m).waiters && M(s', m).holder == h && s'.owner == NOBODY
            && T(s', h).priority == Max(T(s, h).priority, T(s, t).priority) && T(s', h).base == T(s, h).base
  {
    var m := T(s, t).at.m;
    var h := M(s, m).holder;
    assert MutexOk(s, m);
    HolderHolds(s, m);
    var s1 := Apply(s, Attempt(t, true));
    StepKeeps(s, Attempt(t, true));
    var s2 := Apply(s1, Suspend(t, false));
    StepKeeps(s1, Suspend(t, false));
    var s3 := Apply(s2, Lend(t));
    StepKeeps(s2, Lend(t));
    var s4 := Apply(s3, Join(t));
    StepKeeps(s3, Join(t));
    assert TaskOk(s4, t);
    OneStep(s3, Join(t), []);
    OneStep(s2, Lend(t), [Join(t)]);
    OneStep(s1, Suspend(t, false), [Lend(t), Join(t)]);
    OneStep(s, Attempt(t, true), [Suspend(t, false), Lend(t), Join(t)]);
  }

  /** The last give frees the mutex and lets exactly one waiter try, if there is any; the others go on waiting. */
  lemma GiveLetsOneGo(s: State, a: Task, m: MutexId)
    requires Sound(s) && Enabled(s, Give(a, m)) && (M(s, m).recursive ==> M(s, m).calls == 1)
    ensures var s' := Apply(s, Give(a, m));
            && M(s', m).holder == NOBODY && |M(s', m).waiters| == Max(|M(s, m).waiters| - 1, 0)
            && (forall u: Task :: WaitsFor(s, u, m) ==>
                 WaitsFor(s', u, m) || (T(s', u).at.Trying? && T(s', u).at.m == m))
            && (M(s, m).waiters != [] ==> exists u: Task :: WaitsFor(s, u, m) && !WaitsFor(s', u, m))
  {
    assert MutexOk(s, m);
    var w := M(s, m).waiters;
    if w != [] {
      assert w[0] in w && WaitsFor(s, w[0], m) && !WaitsFor(Apply(s, Give(a, m)), w[0], m);
    }
  }

  // ---------- First come, first served ----------

  /** When each task last joined a list, counted in joins. */
  function Joins(es: seq<Event>, since: map<Task, nat>, n: nat): map<Task, nat> {
    if es == [] then since
    else if es[0].Join? then Joins(es[1..], since[es[0].t := n], n + 1)
    else Joins(es[1..], since, n)
  }

  function Since(since: map<Task, nat>, t: Task): nat {
    if t in since then since[t] else 0
  }

  /** Before everyone of a lower priority, and everyone of the same priority who came later. */
  predicate Goes(s: State, since: map<Task, nat>, u: Task, v: Task) {
    T(s, u).priority > T(s, v).priority || (T(s, u).priority == T(s, v).priority && Since(since, u) < Since(since, v))
  }

  predicate InLine(s: State, since: map<Task, nat>, w: seq<Task>) {
    forall i, j :: 0 <= i < j < |w| ==> Goes(s, since, w[i], w[j])
  }

  predicate Dated(since: map<Task, nat>, w: seq<Task>, n: nat) {
    forall u :: u in w ==> Since(since, u) < n
  }

  lemma {:induction false} InsertInLine(s: State, since: map<Task, nat>, w: seq<Task>, t: Task, n: nat)
    requires InLine(s, since, w) && Dated(since, w, n) && t !in w
    ensures InLine(s, since[t := n], InsertByPriority(s, w, t))
            && Dated(since[t := n], InsertByPriority(s, w, t), n + 1)
    ensures forall u :: u in InsertByPriority(s, w, t) <==> u in w || u == t
  {
    var since' := since[t := n];
    if w != [] {
      assert w == [w[0]] + w[1..];
      var rest := InsertByPriority(s, w[1..], t);
      if T(s, w[0]).priority >= T(s, t).priority {
        InsertInLine(s, since, w[1..], t, n);
        forall v | v in rest ensures Goes(s, since', w[0], v) {
          assert w[0] in w && (v == t || v in w[1..]);
          assert v != t ==> Goes(s, since, w[0], v) && v in w;
        }
        HeadGoesFirst(s, since', w[0], rest);
        forall u | u in [w[0]] + rest ensures Since(since', u) < n + 1 && (u in w || u == t) {
          assert u == w[0] || u in rest;
          assert u != t ==> u in w;
        }
      } else {
        assert InLine(s, since', w) by {
          assert forall i :: 0 <= i < |w| ==> w[i] in w && Since(since', w[i]) == Since(since, w[i]);
        }
        HeadGoesFirst(s, since', t, w);
      }
    }
  }

  lemma HeadGoesFirst(s: State, since: map<Task, nat>, u: Task, w: seq<Task>)
    requires InLine(s, since, w) && forall v :: v in w ==> Goes(s, since, u, v)
    ensures InLine(s, since, [u] + w)
  {
  }

  lemma {:induction false} WithoutInLine(s: State, since: map<Task, nat>, w: seq<Task>, t: Task)
    requires InLine(s, since, w)
    ensures InLine(s, since, Without(w, t)) && forall u :: u in Without(w, t) ==> u in w
  {
    if w != [] {
      assert w == [w[0]] + w[1..];
      WithoutInLine(s, since, w[1..], t);
      if w[0] != t {
        HeadGoesFirst(s, since, w[0], Without(w[1..], t));
      }
    }
  }

  lemma HolderIsNotWaiting(s: State, n: MutexId, u: Task)
    requires Sound(s) && T(s, u).at.Waiting? && M(s, n).holder >= 0
    ensures M(s, n).holder != u
  {
    HolderHolds(s, n);
  }

  /** Nobody's priority changes while it waits: it holds nothing. */
  lemma WaitersKeepPriority(s: State, e: Event, m: MutexId, u: Task)
    requires Sound(s) && Enabled(s, e) && u in M(s, m).waiters
    ensures T(Apply(s, e), u).priority == T(s, u).priority
  {
    assert MutexOk(s, m);
    if (e.Lend? || e.Undo?) && M(s, T(s, e.t).at.m).holder >= 0 {
      HolderIsNotWaiting(s, T(s, e.t).at.m, u);
    }
  }

  /** Whose priorities and places in line stay as they are stay in line. */
  lemma SameLine(s: State, s': State, since: map<Task, nat>, since': map<Task, nat>, w: seq<Task>)
    requires InLine(s, since, w)
    requires forall u :: u in w ==> T(s', u).priority == T(s, u).priority && Since(since', u) == Since(since, u)
    ensures InLine(s', since', w)
  {
    assert forall i :: 0 <= i < |w| ==> w[i] in w;
  }

  predicate Shrunk(before: seq<Task>, after: seq<Task>, t: Task) {
    after == before || (before != [] && after == before[1..]) || after == Without(before, t)
  }

  lemma OnlyJoinsGrow(s: State, e: Event, m: MutexId)
    requires Enabled(s, e) && !(e.Join? && T(s, e.t).at.m == m)
    ensures Shrunk(M(s, m).waiters, M(Apply(s, e), m).waiters, if e.Expire? then e.t else 0)
  {
  }

  lemma ShrunkInLine(s: State, since: map<Task, nat>, w: seq<Task>, w': seq<Task>, t: Task)
    requires InLine(s, since, w) && Shrunk(w, w', t)
    ensures InLine(s, since, w') && forall u :: u in w' ==> u in w
  {
    WithoutInLine(s, since, w, t);
    if w != [] {
      assert w == [w[0]] + w[1..];
    }
  }

  function JoinedAt(e: Event, since: map<Task, nat>, n: nat): map<Task, nat> {
    if e.Join? then since[e.t := n] else since
  }

  lemma StepKeepsLine(s: State, e: Event, since: map<Task, nat>, n: nat, m: MutexId)
    requires Sound(s) && Enabled(s, e) && InLine(s, since, M(s, m).waiters) && Dated(since, M(s, m).waiters, n)
    ensures var w, since' := M(Apply(s, e), m).waiters, JoinedAt(e, since, n);
            InLine(Apply(s, e), since', w) && Dated(since', w, if e.Join? then n + 1 else n)
  {
    var s', w, since' := Apply(s, e), M(s, m).waiters, JoinedAt(e, since, n);
    var w' := M(s', m).waiters;
    forall u | u in w ensures T(s', u).priority == T(s, u).priority && !(e.Join? && e.t == u) {
      assert MutexOk(s, m) && TaskOk(s, u);
      WaitersKeepPriority(s, e, m, u);
    }
    if e.Join? && T(s, e.t).at.m == m {
      InsertInLine(s, since, w, e.t, n);
      SameLine(s, s', since', since', w');
    } else {
      OnlyJoinsGrow(s, e, m);
      ShrunkInLine(s, since, w, w', if e.Expire? then e.t else 0);
      SameLine(s, s', since, since', w');
    }
  }

  lemma {:induction false} RunKeepsLine(s: State, es: seq<Event>, since: map<Task, nat>, n: nat, m: MutexId)
    requires Sound(s) && CanRun(s, es) && InLine(s, since, M(s, m).waiters) && Dated(since, M(s, m).waiters, n)
    ensures InLine(Run(s, es), Joins(es, since, n), M(Run(s, es), m).waiters)
    decreases |es|
  {
    if es != [] {
      var e := es[0];
      StepKeeps(s, e);
      StepKeepsLine(s, e, since, n, m);
      RunKeepsLine(Apply(s, e), es[1..], JoinedAt(e, since, n), if e.Join? then n + 1 else n, m);
    }
  }

  lemma GiveWakesFirst(r: State, since: map<Task, nat>, a: Task, m: MutexId, u: Task, v: Task)
    requires Sound(r) && Enabled(r, Give(a, m)) && Sound(Apply(r, Give(a, m))) && InLine(r, since, M(r, m).waiters)
    requires WaitsFor(r, u, m) && !WaitsFor(Apply(r, Give(a, m)), u, m) && WaitsFor(Apply(r, Give(a, m)), v, m)
    ensures Goes(r, since, u, v)
  {
    var r', w := Apply(r, Give(a, m)), M(r, m).waiters;
    assert TaskOk(r, u) && TaskOk(r', v);
    assert w == [w[0]] + w[1..];
    assert u == w[0] && v in w[1..];
    var j :| 0 <= j < |w[1..]| && w[1..][j] == v;
    assert w[j + 1] == v;
  }

  /** Over every run: the task that a give lets off the list of a mutex had a higher priority than everyone who goes on
      waiting for it, or the same priority and joined the list before. */
  lemma FirstInLineIsWoken(s: State, es: seq<Event>, a: Task, m: MutexId, u: Task, v: Task)
    requires Initial(s) && CanRun(s, es) && Enabled(Run(s, es), Give(a, m))
    requires var r, r' := Run(s, es), Apply(Run(s, es), Give(a, m));
             WaitsFor(r, u, m) && !WaitsFor(r', u, m) && WaitsFor(r', v, m)
    ensures var r, since := Run(s, es), Joins(es, map[], 0);
            || T(r, u).priority > T(r, v).priority
            || (T(r, u).priority == T(r, v).priority && Since(since, u) < Since(since, v))
  {
    InitialIsSound(s);
    RunKeeps(s, es);
    RunKeepsLine(s, es, map[], 0, m);
    StepKeeps(Run(s, es), Give(a, m));
    GiveWakesFirst(Run(s, es), Joins(es, map[], 0), a, m, u, v);
  }
}
