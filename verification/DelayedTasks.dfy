/** Delays and the tick of tasks.c: two delayed lists that change roles when the tick count wraps, an
    unblock time that says when to look at them, and ticks and readied tasks held back while the
    scheduler is suspended. */
module DelayedTasks {
  import opened OrderedLists
  import opened Sequences
  import opened Ticks

  type TaskId = nat

  // ---------- What delays mean, in true time ----------

  /** The ticks processed and still pended, and where every task is: delayed until a true time, asleep
      with no wake time, or ready. The pending tasks are also still delayed or asleep. */
  datatype Time = Time(processed: nat, pended: nat, suspended: nat, waking: map<TaskId, nat>, asleep: set<TaskId>,
                       pending: seq<TaskId>, ready: set<TaskId>)

  datatype Event =
    | Tick
    | SuspendAll
    | ResumeAll
    | Delay(task: TaskId, ticks: Tick, indefinitely: bool)
    | Signal(task: TaskId)
    | Suspend(task: TaskId)
    | Abort(task: TaskId)

  function NextTick(c: Time): Time {
    c.(processed := c.processed + 1,
       waking := map t | t in c.waking && c.waking[t] != c.processed + 1 :: c.waking[t],
       ready := c.ready + set t | t in c.waking && c.waking[t] == c.processed + 1)
  }

  function NextTicks(c: Time, n: nat): Time {
    if n == 0 then c else NextTick(NextTicks(c, n - 1))
  }

  /** The task leaves its delay, or its sleep, and is ready. */
  function Readied(c: Time, t: TaskId): Time {
    c.(waking := c.waking - {t}, asleep := c.asleep - {t}, ready := c.ready + {t})
  }

  function Released(c: Time): Time
    decreases |c.pending|
  {
    if c.pending == [] then c else Released(Readied(c, c.pending[0]).(pending := c.pending[1..]))
  }

  function Resumed(c: Time): Time
    requires c.suspended > 0
  {
    if c.suspended > 1 then c.(suspended := c.suspended - 1)
    else NextTicks(Released(c.(suspended := 0)), c.pended).(pended := 0)
  }

  predicate Enabled(c: Time, e: Event) {
    match e
    case Tick => c.suspended > 0 ==> c.pended < MAX_DELAY
    case SuspendAll => true
    case ResumeAll => c.suspended > 0
    case Delay(t, d, _) => t in c.ready && d > 0
    case Signal(t) => (t in c.waking || t in c.asleep) && t !in c.pending
    case Suspend(t) => t in c.waking || t in c.asleep || t in c.ready
    case Abort(t) => t in c.waking || t in c.asleep
  }

  function Apply(c: Time, e: Event): Time
    requires Enabled(c, e)
  {
    match e
    case Tick => if c.suspended > 0 then c.(pended := c.pended + 1) else NextTick(c)
    case SuspendAll => c.(suspended := c.suspended + 1)
    case ResumeAll => Resumed(c)
    case Delay(t, d, indefinitely) =>
      if d == MAX_DELAY && indefinitely then c.(ready := c.ready - {t}, asleep := c.asleep + {t})
      else c.(ready := c.ready - {t}, waking := c.waking[t := c.processed + d])
    case Signal(t) => if c.suspended > 0 then c.(pending := c.pending + [t]) else Readied(c, t)
    case Suspend(t) =>
      c.(waking := c.waking - {t}, ready := c.ready - {t}, asleep := c.asleep + {t}, pending := Without(c.pending, t))
    case Abort(t) => Readied(c, t).(pending := Without(c.pending, t))
  }

  ghost predicate CanRun(c: Time, es: seq<Event>)
    decreases |es|
  {
    es != [] ==> Enabled(c, es[0]) && CanRun(Apply(c, es[0]), es[1..])
  }

  function Run(c: Time, es: seq<Event>): Time
    requires CanRun(c, es)
    decreases |es|
  {
    if es == [] then c else Run(Apply(c, es[0]), es[1..])
  }

  // ---------- Every tick is counted, and every delay is exact ----------

  function TicksIn(es: seq<Event>): nat {
    if es == [] then 0 else (if es[0].Tick? then 1 else 0) + TicksIn(es[1..])
  }

  predicate Sane(c: Time) {
    && (c.suspended == 0 ==> c.pended == 0 && c.pending == [])
    && Distinct(c.pending)
    && (forall t :: t in c.waking ==> c.waking[t] > c.processed && t !in c.ready)
  }

  lemma {:induction false} NextTicksCount(c: Time, n: nat)
    ensures NextTicks(c, n)
            == c.(processed := c.processed + n, waking := NextTicks(c, n).waking, ready := NextTicks(c, n).ready)
  {
    if n > 0 {
      NextTicksCount(c, n - 1);
    }
  }

  lemma {:induction false} ReleasedCount(c: Time)
    ensures Released(c).processed == c.processed && Released(c).pended == c.pended
    ensures Released(c).suspended == c.suspended && Released(c).pending == []
    decreases |c.pending|
  {
    if c.pending != [] {
      ReleasedCount(Readied(c, c.pending[0]).(pending := c.pending[1..]));
    }
  }

  lemma {:induction false} ReleasedSane(c: Time)
    requires forall t :: t in c.waking ==> c.waking[t] > c.processed && t !in c.ready
    ensures forall t :: t in Released(c).waking ==> Released(c).waking[t] > c.processed && t !in Released(c).ready
    decreases |c.pending|
  {
    if c.pending != [] {
      ReleasedSane(Readied(c, c.pending[0]).(pending := c.pending[1..]));
    }
  }

  lemma {:induction false} NextTicksSane(c: Time, n: nat)
    requires forall t :: t in c.waking ==> c.waking[t] > c.processed && t !in c.ready
    ensures forall t :: t in NextTicks(c, n).waking ==>
            NextTicks(c, n).waking[t] > c.processed + n && t !in NextTicks(c, n).ready
  {
    if n > 0 {
      NextTicksSane(c, n - 1);
      NextTicksCount(c, n - 1);
    }
  }

  lemma StepKeepsSane(c: Time, e: Event)
    requires Sane(c) && Enabled(c, e)
    ensures Sane(Apply(c, e))
    ensures Apply(c, e).processed + Apply(c, e).pended == c.processed + c.pended + if e.Tick? then 1 else 0
  {
    if e.Suspend? || e.Abort? {
      WithoutIs(c.pending, e.task);
    } else if e.ResumeAll? && c.suspended == 1 {
      ReleasedCount(c.(suspended := 0));
      ReleasedSane(c.(suspended := 0));
      NextTicksCount(Released(c.(suspended := 0)), c.pended);
      NextTicksSane(Released(c.(suspended := 0)), c.pended);
    }
  }

  /** Over any run, however suspensions nest, no tick is lost, and none is outstanding once the
      scheduler runs again. */
  lemma {:induction false} EveryTickCounts(c: Time, es: seq<Event>)
    requires Sane(c) && CanRun(c, es)
    ensures var c' := Run(c, es);
            && Sane(c')
            && c'.processed + c'.pended == c.processed + c.pended + TicksIn(es)
            && (c'.suspended == 0 ==> c'.processed == c.processed + c.pended + TicksIn(es))
    decreases |es|
  {
    if es != [] {
      StepKeepsSane(c, es[0]);
      EveryTickCounts(Apply(c, es[0]), es[1..]);
    }
  }

  predicate Elsewhere(e: Event, t: TaskId) {
    match e
    case Delay(u, _, _) => u != t
    case Signal(u) => u != t
    case Suspend(u) => u != t
    case Abort(u) => u != t
    case _ => true
  }

  /** Nothing but the passing of time concerns the task. */
  predicate Undisturbed(es: seq<Event>, t: TaskId) {
    forall e :: e in es ==> Elsewhere(e, t)
  }

  /** Waiting until the true time, or ready because it has been processed. */
  predicate OnTime(c: Time, t: TaskId, wake: nat) {
    && t !in c.pending
    && if c.processed < wake then t in c.waking && c.waking[t] == wake && t !in c.ready
       else t !in c.waking && t in c.ready
  }

  lemma {:induction false} ReleasedOnTime(c: Time, t: TaskId, wake: nat)
    requires OnTime(c, t, wake)
    ensures OnTime(Released(c), t, wake)
    decreases |c.pending|
  {
    if c.pending != [] {
      ReleasedOnTime(Readied(c, c.pending[0]).(pending := c.pending[1..]), t, wake);
    }
  }

  lemma {:induction false} TicksOnTime(c: Time, n: nat, t: TaskId, wake: nat)
    requires OnTime(c, t, wake)
    ensures OnTime(NextTicks(c, n), t, wake)
  {
    if n > 0 {
      TicksOnTime(c, n - 1, t, wake);
    }
  }

  lemma StepOnTime(c: Time, e: Event, t: TaskId, wake: nat)
    requires Sane(c) && OnTime(c, t, wake) && Enabled(c, e) && Elsewhere(e, t)
    ensures OnTime(Apply(c, e), t, wake)
  {
    if e.Suspend? || e.Abort? {
      WithoutIs(c.pending, e.task);
    } else if e.ResumeAll? && c.suspended == 1 {
      ReleasedOnTime(c.(suspended := 0), t, wake);
      TicksOnTime(Released(c.(suspended := 0)), c.pended, t, wake);
    }
  }

  lemma {:induction false} RunOnTime(c: Time, es: seq<Event>, t: TaskId, wake: nat)
    requires Sane(c) && OnTime(c, t, wake) && CanRun(c, es) && Undisturbed(es, t)
    ensures OnTime(Run(c, es), t, wake)
    decreases |es|
  {
    if es != [] {
      assert es[0] in es;
      StepKeepsSane(c, es[0]);
      StepOnTime(c, es[0], t, wake);
      RunOnTime(Apply(c, es[0]), es[1..], t, wake);
    }
  }

  /** A task that delays itself at true tick T for d ticks is delayed while fewer than T + d ticks have
      been processed, and ready from the moment that tick has been, whatever else happens meanwhile. */
  lemma DelayIsExact(c: Time, t: TaskId, d: Tick, indefinitely: bool, es: seq<Event>)
    requires Sane(c) && t !in c.pending && Enabled(c, Delay(t, d, indefinitely)) && !(d == MAX_DELAY && indefinitely)
    requires CanRun(Apply(c, Delay(t, d, indefinitely)), es) && Undisturbed(es, t)
    ensures var c' := Run(Apply(c, Delay(t, d, indefinitely)), es);
            (t in c'.ready <==> c'.processed >= c.processed + d) && (t in c'.waking <==> c'.processed < c.processed + d)
  {
    StepKeepsSane(c, Delay(t, d, indefinitely));
    RunOnTime(Apply(c, Delay(t, d, indefinitely)), es, t, c.processed + d);
  }

  // ---------- Signals are not lost, and nobody else wakes up ----------

  function Members(list: seq<TaskId>): set<TaskId> {
    set t | t in list
  }

  lemma {:induction false} ReleasedReadies(c: Time)
    ensures Released(c).ready == c.ready + Members(c.pending)
    ensures Released(c).waking == c.waking - Members(c.pending)
    ensures Released(c).asleep == c.asleep - Members(c.pending)
    decreases |c.pending|
  {
    if c.pending != [] {
      assert Members(c.pending) == {c.pending[0]} + Members(c.pending[1..]);
      ReleasedReadies(Readied(c, c.pending[0]).(pending := c.pending[1..]));
    } else {
      assert Members(c.pending) == {};
    }
  }

  lemma {:induction false} TicksReadyOnly(c: Time, n: nat)
    ensures NextTicks(c, n).asleep == c.asleep && c.ready <= NextTicks(c, n).ready
    ensures NextTicks(c, n).waking.Keys <= c.waking.Keys
    ensures forall t :: t in NextTicks(c, n).ready ==> t in c.ready || (t in c.waking && t !in NextTicks(c, n).waking)
  {
    if n > 0 {
      TicksReadyOnly(c, n - 1);
    }
  }

  /** The last resume readies every task that was signalled meanwhile, and wakes no other that sleeps. */
  lemma ResumeReadies(c: Time)
    requires Sane(c) && c.suspended == 1
    ensures var c' := Apply(c, ResumeAll);
            && c'.suspended == 0 && c'.pending == [] && c'.asleep == c.asleep - Members(c.pending)
            && forall t :: t in c.pending ==> t in c'.ready && t !in c'.waking
  {
    var c0 := c.(suspended := 0);
    StepKeepsSane(c, ResumeAll);
    ReleasedReadies(c0);
    ReleasedCount(c0);
    TicksReadyOnly(Released(c0), c.pended);
    NextTicksCount(Released(c0), c.pended);
  }

  /** Signalled while the scheduler was suspended, or ready. */
  predicate Signalled(c: Time, t: TaskId) {
    t in c.pending || (t in c.ready && t !in c.waking && t !in c.asleep)
  }

  predicate PutsAway(e: Event, t: TaskId) {
    (e.Delay? || e.Suspend?) && e.task == t
  }

  lemma StepKeepsSignalled(c: Time, e: Event, t: TaskId)
    requires Sane(c) && Enabled(c, e) && Signalled(c, t) && !PutsAway(e, t)
    ensures Signalled(Apply(c, e), t)
  {
    if e.Suspend? || e.Abort? {
      WithoutIs(c.pending, e.task);
    } else if e.ResumeAll? && c.suspended == 1 {
      ResumeReadies(c);
      var c0 := c.(suspended := 0);
      ReleasedReadies(c0);
      TicksReadyOnly(Released(c0), c.pended);
    }
  }

  lemma {:induction false} RunKeepsSignalled(c: Time, es: seq<Event>, t: TaskId)
    requires Sane(c) && CanRun(c, es) && Signalled(c, t) && forall e :: e in es ==> !PutsAway(e, t)
    ensures Sane(Run(c, es)) && Signalled(Run(c, es), t)
    decreases |es|
  {
    if es != [] {
      assert es[0] in es;
      StepKeepsSane(c, es[0]);
      StepKeepsSignalled(c, es[0], t);
      RunKeepsSignalled(Apply(c, es[0]), es[1..], t);
    }
  }

  /** Over every run: a task that is signalled, or whose delay is aborted, is ready in every later state in which the
      scheduler is not suspended, unless it has been suspended or has delayed itself since. */
  lemma SignalledTaskIsReady(c: Time, e: Event, es: seq<Event>, t: TaskId)
    requires Sane(c) && (e == Signal(t) || e == Abort(t)) && Enabled(c, e) && CanRun(Apply(c, e), es)
    requires forall f :: f in es ==> !PutsAway(f, t)
    ensures var c' := Run(Apply(c, e), es);
            c'.suspended == 0 ==> t in c'.ready && t !in c'.waking && t !in c'.asleep
  {
    StepKeepsSane(c, e);
    RunKeepsSignalled(Apply(c, e), es, t);
  }

  /** Neither ready nor about to be. */
  predicate Sleeps(c: Time, t: TaskId) {
    t in c.asleep && t !in c.ready && t !in c.waking && t !in c.pending
  }

  lemma StepKeepsSleep(c: Time, e: Event, t: TaskId)
    requires Sane(c) && Enabled(c, e) && Sleeps(c, t) && Elsewhere(e, t)
    ensures Sleeps(Apply(c, e), t)
  {
    if e.Suspend? || e.Abort? {
      WithoutIs(c.pending, e.task);
    } else if e.ResumeAll? && c.suspended == 1 {
      ResumeReadies(c);
      var c0 := c.(suspended := 0);
      ReleasedReadies(c0);
      TicksReadyOnly(Released(c0), c.pended);
    }
  }

  /** Over every run: a task that is suspended, or blocks indefinitely, sleeps until something is done about it. */
  lemma {:induction false} SleepersSleepOn(c: Time, es: seq<Event>, t: TaskId)
    requires Sane(c) && CanRun(c, es) && Sleeps(c, t) && Undisturbed(es, t)
    ensures Sleeps(Run(c, es), t)
    decreases |es|
  {
    if es != [] {
      assert es[0] in es;
      StepKeepsSane(c, es[0]);
      StepKeepsSleep(c, es[0], t);
      SleepersSleepOn(Apply(c, es[0]), es[1..], t);
    }
  }

  lemma PutToSleep(c: Time, e: Event, es: seq<Event>, t: TaskId)
    requires Sane(c) && Enabled(c, e) && CanRun(Apply(c, e), es) && Undisturbed(es, t)
    requires e == Suspend(t) || (e == Delay(t, MAX_DELAY, true) && t !in c.pending)
    ensures Sleeps(Run(Apply(c, e), es), t)
  {
    WithoutIs(c.pending, t);
    StepKeepsSane(c, e);
    SleepersSleepOn(Apply(c, e), es, t);
  }

  // ---------- Waking at fixed intervals ----------

  /** The test of xTaskDelayUntil: is the next wake time still to come? */
  predicate StillToCome(previous: Tick, increment: Tick, now: Tick) {
    var wake := Add(previous, increment);
    if now < previous then wake < previous && wake > now else wake < previous || wake > now
  }

  /** Its four comparisons decide that in true time, across the wrap. */
  lemma StillToComeIsTrue(previous: nat, increment: Tick, now: nat)
    requires previous <= now < previous + WRAP && increment > 0
    ensures StillToCome(Wrap(previous), increment, Wrap(now)) <==> previous + increment > now
    ensures Add(Wrap(previous), increment) == Wrap(previous + increment)
    ensures previous + increment > now ==> Sub(Wrap(previous + increment), Wrap(now)) == previous + increment - now
  {
    DifferenceIsElapsed(previous, now);
    DifferenceIsElapsed(previous, previous + increment);
    if previous + increment > now {
      DifferenceIsElapsed(now, previous + increment);
    }
  }

  /** How long xTaskDelayUntil waits; 0 stands for not at all. */
  function UntilDelay(previous: Tick, increment: Tick, now: Tick): Tick {
    if StillToCome(previous, increment, now) then Sub(Add(previous, increment), now) else 0
  }

  /** It waits until one increment after the previous wake time, or not at all once that has passed, exactly when
      the previous wake time is not itself still to come, as it is for a task woken early (by xTaskAbortDelay). */
  lemma UntilDelayIsRightIff(previous: nat, increment: Tick, now: nat)
    requires now - WRAP < previous < now + WRAP && increment > 0
    ensures UntilDelay(Wrap(previous), increment, Wrap(now))
         == (if previous + increment > now then previous + increment - now else 0)
       <==> previous <= now
  {
    if previous <= now {
      StillToComeIsTrue(previous, increment, now);
    } else {
      DifferenceIsElapsed(now, previous);
    }
  }

  /** The scheduler has begun, with one task ready. */
  function Begun(): Time {
    Time(0, 0, 0, map[], {}, [], {1})
  }

  function TicksOf(n: nat): seq<Event> {
    seq(n, _ => Tick)
  }

  lemma {:induction false} AbortedAfter(c: Time, n: nat, wake: nat)
    requires c == Time(c.processed, 0, 0, map[1 := wake], {}, [], {}) && c.processed + n < wake
    ensures CanRun(c, TicksOf(n) + [Abort(1)])
    ensures Run(c, TicksOf(n) + [Abort(1)]) == Begun().(processed := c.processed + n)
    decreases n
  {
    var es := TicksOf(n) + [Abort(1)];
    if n == 0 {
      assert es == [Abort(1)] && es[1..] == [];
      assert Apply(c, Abort(1)) == Begun().(processed := c.processed);
    } else {
      assert NextTick(c) == c.(processed := c.processed + 1);
      assert es[0] == Tick && es[1..] == TicksOf(n - 1) + [Abort(1)];
      AbortedAfter(NextTick(c), n - 1, wake);
    }
  }

  /** A task that means to wake every so many ticks calls xTaskDelayUntil for the first time as the scheduler begins,
      and its delay is aborted after n ticks. Its next call, with the wake time it was set to before, returns at
      once, where it should wait until the wake time after that. */
  lemma AbortedDelayIsNotMadeUp(increment: Tick, n: nat)
    requires n < increment && 2 * increment < WRAP
    ensures UntilDelay(0, increment, 0) == increment
    ensures var es := [Delay(1, increment, false)] + TicksOf(n) + [Abort(1)];
            CanRun(Begun(), es) && Run(Begun(), es) == Begun().(processed := n)
    ensures UntilDelay(increment, increment, n) == 0
  {
    var es := [Delay(1, increment, false)] + TicksOf(n) + [Abort(1)];
    assert es[1..] == TicksOf(n) + [Abort(1)];
    AbortedAfter(Apply(Begun(), es[0]), n, increment);
  }

  // ---------- What the kernel's lists hold ----------

  predicate DueIn(waking: map<TaskId, nat>, t: TaskId, start: nat) {
    t in waking && start <= waking[t] < start + WRAP
  }

  ghost predicate Holds(waking: map<TaskId, nat>, list: seq<Entry>, start: nat) {
    && Sorted(list)
    && (forall e {:trigger e in list} :: e in list ==> DueIn(waking, e.id, start) && e.value == waking[e.id] - start)
    && (forall t {:trigger DueIn(waking, t, start)} :: DueIn(waking, t, start) ==> Entry(waking[t] - start, t) in list)
  }

  ghost predicate Early(list: seq<Entry>, next: Tick) {
    forall e {:trigger e in list} :: e in list ==> next <= e.value
  }

  /** Everything delayed is due later than the clock, in this epoch or the next. */
  ghost predicate Kept(waking: map<TaskId, nat>, clock: nat, base: nat, current: seq<Entry>, overflow: seq<Entry>,
                       next: Tick)
  {
    && base <= clock < base + WRAP
    && Holds(waking, current, base) && Holds(waking, overflow, base + WRAP)
    && (forall t {:trigger t in waking} :: t in waking ==> clock <= waking[t] < base + 2 * WRAP)
    && Early(current, next)
  }

  lemma ListGains(waking: map<TaskId, nat>, list: seq<Entry>, start: nat, t: TaskId, wake: nat)
    requires Holds(waking, list, start) && t !in waking
    ensures if start <= wake < start + WRAP then Holds(waking[t := wake], Insert(list, Entry(wake - start, t)), start)
            else Holds(waking[t := wake], list, start)
  {
    var waking' := waking[t := wake];
    assert forall x :: x != t ==> DueIn(waking', x, start) == DueIn(waking, x, start);
    if DueIn(waking', t, start) {
      assert Absent(list, t);
      InsertKeepsSorted(list, Entry(wake - start, t));
    }
  }

  lemma ListLoses(waking: map<TaskId, nat>, list: seq<Entry>, start: nat, t: TaskId)
    requires Holds(waking, list, start)
    ensures Holds(waking - {t}, WithoutId(list, t), start)
  {
    WithoutKeepsSorted(list, t);
    RestHolds(waking, list, WithoutId(list, t), start, t);
  }

  lemma RestHolds(waking: map<TaskId, nat>, list: seq<Entry>, rest: seq<Entry>, start: nat, t: TaskId)
    requires Holds(waking, list, start)
    requires Sorted(rest) && forall e :: e in rest <==> e in list && e.id != t
    ensures Holds(waking - {t}, rest, start)
  {
    assert forall x :: DueIn(waking - {t}, x, start) <==> x != t && DueIn(waking, x, start);
  }

  lemma LeavingKeeps(waking: map<TaskId, nat>, clock: nat, base: nat, current: seq<Entry>, overflow: seq<Entry>,
                     next: Tick, t: TaskId)
    requires Kept(waking, clock, base, current, overflow, next)
    ensures Kept(waking - {t}, clock, base, WithoutId(current, t), WithoutId(overflow, t), next)
  {
    ListLoses(waking, current, base, t);
    ListLoses(waking, overflow, base + WRAP, t);
    WithoutKeepsSorted(current, t);
  }

  lemma EarlyGrows(list: seq<Entry>, next: Tick, e: Entry)
    requires Early(list, next) && Sorted(list) && Absent(list, e.id)
    ensures Early(Insert(list, e), if e.value < next then e.value else next)
  {
    InsertKeepsSorted(list, e);
  }

  /** A task that delays itself goes into the list of the epoch it is to wake in. */
  lemma JoiningKeeps(waking: map<TaskId, nat>, clock: nat, base: nat, current: seq<Entry>, overflow: seq<Entry>,
                     next: Tick, t: TaskId, d: Tick)
    requires Kept(waking, clock, base, current, overflow, next) && t !in waking && d > 0
    ensures clock + d < base + WRAP ==>
              Kept(waking[t := clock + d], clock, base, Insert(current, Entry(clock + d - base, t)), overflow,
                   if clock + d - base < next then clock + d - base else next)
    ensures clock + d >= base + WRAP ==>
              Kept(waking[t := clock + d], clock, base, current,
                   Insert(overflow, Entry(clock + d - base - WRAP, t)), next)
  {
    var waking' := waking[t := clock + d];
    assert forall x :: x in waking' ==> clock <= waking'[x] < base + 2 * WRAP;
    ListGains(waking, current, base, t, clock + d);
    ListGains(waking, overflow, base + WRAP, t, clock + d);
    if clock + d < base + WRAP {
      assert Absent(current, t);
      EarlyGrows(current, next, Entry(clock + d - base, t));
    }
  }

  /** When the count is about to wrap nothing is left in the current list. */
  lemma EmptyAtSwitch(waking: map<TaskId, nat>, clock: nat, base: nat, current: seq<Entry>, overflow: seq<Entry>,
                      next: Tick)
    requires Kept(waking, clock, base, current, overflow, next) && clock == base + WRAP - 1
    requires forall t :: t in waking ==> clock < waking[t]
    ensures current == []
    ensures forall next' :: Early(overflow, next') ==> Kept(waking, clock + 1, base + WRAP, overflow, [], next')
  {
    assert forall t :: t in waking ==> !DueIn(waking, t, base + 2 * WRAP);
    if current != [] {
      HeadIsIn(current);
    }
  }

  /** The head of the current list, once its time has come, leaves that list and no other. */
  lemma HeadLeaves(waking: map<TaskId, nat>, clock: nat, base: nat, current: seq<Entry>, overflow: seq<Entry>,
                   next: Tick)
    requires Kept(waking, clock, base, current, overflow, next) && current != [] && current[0].value <= clock - base
    ensures current[0].id in waking && waking[current[0].id] == clock
    ensures Kept(waking - {current[0].id}, clock, base, current[1..], overflow, next)
  {
    var t := current[0].id;
    HeadIsIn(current);
    LeavingKeeps(waking, clock, base, current, overflow, next, t);
    assert Absent(overflow, t);
    WithoutKeepsSorted(overflow, t);
  }

  lemma RestIsLater(waking: map<TaskId, nat>, clock: nat, base: nat, current: seq<Entry>, overflow: seq<Entry>,
                    next: Tick)
    requires Kept(waking, clock, base, current, overflow, next)
    requires forall e :: e in current ==> e.value > clock - base
    ensures forall t :: t in waking ==> waking[t] > clock
  {
    forall t | t in waking ensures waking[t] > clock {
      if waking[t] == clock {
        assert DueIn(waking, t, base);
      }
    }
  }

  lemma ClockMoves(waking: map<TaskId, nat>, clock: nat, base: nat, current: seq<Entry>, overflow: seq<Entry>,
                   next: Tick)
    requires Kept(waking, clock, base, current, overflow, next) && clock + 1 < base + WRAP
    requires forall t :: t in waking ==> waking[t] > clock
    ensures Kept(waking, clock + 1, base, current, overflow, next)
  {
  }

  lemma GoneIsDue(waking: map<TaskId, nat>, gone: set<TaskId>, clock: nat)
    requires forall t :: t in gone ==> t in waking && waking[t] == clock
    requires forall t :: t in waking - gone ==> waking[t] > clock
    ensures gone == set t | t in waking && waking[t] == clock
    ensures waking - gone == map t | t in waking && waking[t] != clock :: waking[t]
  {
    assert forall t :: t in waking && t !in gone ==> t in waking - gone;
  }

  lemma NoneDue(c: Time)
    requires forall t :: t in c.waking ==> c.waking[t] > c.processed + 1
    ensures NextTick(c) == c.(processed := c.processed + 1)
  {
    assert NextTick(c).waking == c.waking;
  }

  lemma HeadIsLeast(list: seq<Entry>, bound: int)
    requires Sorted(list) && (list != [] ==> list[0].value > bound)
    ensures forall e :: e in list ==> e.value > bound
    ensures Early(list, if list == [] then MAX_DELAY else list[0].value)
  {
  }

  // ---------- The kernel ----------

  class Kernel {
    var tickCount: Tick
    var pendedTicks: nat
    var suspended: nat
    var numOverflows: nat
    var nextUnblock: Tick
    var current: seq<Entry>
    var overflow: seq<Entry>
    var asleep: set<TaskId>
    var pending: seq<TaskId>
    var ready: set<TaskId>
    ghost var clock: nat
    ghost var waking: map<TaskId, nat>

    ghost function View(): Time
      reads this
    {
      Time(clock, pendedTicks, suspended, waking, asleep, pending, ready)
    }

    ghost predicate ListsOk()
      reads this
    {
      Kept(waking, clock, Start(numOverflows), current, overflow, nextUnblock) && tickCount == Wrap(clock)
    }

    ghost predicate Consistent()
      reads this
    {
      && ListsOk()
      && (forall t :: t in waking ==> waking[t] > clock && t !in ready)
    }

    ghost predicate Valid()
      reads this
    {
      Consistent() && Sane(View())
    }

    constructor (tasks: set<TaskId>)
      ensures Valid() && View() == Time(0, 0, 0, map[], {}, [], tasks)
    {
      tickCount, pendedTicks, suspended, numOverflows, nextUnblock := 0, 0, 0, 0, MAX_DELAY;
      current, overflow, asleep, pending, ready := [], [], {}, [], tasks;
      clock, waking := 0, map[];
    }

    /** prvResetNextTaskUnblockTime. */
    method ResetNextTaskUnblockTime()
      requires ListsOk()
      modifies `nextUnblock
      ensures ListsOk()
    {
      HeadIsLeast(current, -1);
      nextUnblock := if current == [] then MAX_DELAY else current[0].value;
    }

    /** taskSWITCH_DELAYED_LISTS, on the tick that wraps the count. */
    method SwitchDelayedLists()
      requires clock == Start(numOverflows) + WRAP && tickCount == 0
      requires Kept(waking, clock - 1, Start(numOverflows), current, overflow, nextUnblock)
      requires forall t :: t in waking ==> waking[t] >= clock
      modifies `current, `overflow, `numOverflows, `nextUnblock
      ensures ListsOk() && numOverflows == old(numOverflows) + 1
      ensures old(current) == [] && current == old(overflow)
    {
      EmptyAtSwitch(waking, clock - 1, Start(numOverflows), current, overflow, nextUnblock);
      ShownInEpoch(numOverflows, clock);
      current, overflow := overflow, current;
      numOverflows := numOverflows + 1;
      nextUnblock := 0;
      ResetNextTaskUnblockTime();
    }

    /** One task whose time has come. */
    method UnblockHead()
      requires ListsOk() && current != [] && current[0].value <= tickCount
      modifies `current, `ready, `waking
      ensures ListsOk() && current == old(current)[1..]
      ensures waking == old(waking) - {old(current)[0].id} && ready == old(ready) + {old(current)[0].id}
      ensures old(current)[0].id in old(waking) && old(waking)[old(current)[0].id] == clock
    {
      var head := current[0];
      ShownInEpoch(numOverflows, clock);
      HeadLeaves(waking, clock, Start(numOverflows), current, overflow, nextUnblock);
      current := current[1..];
      waking := waking - {head.id};
      ready := ready + {head.id};
    }

    /** The loop of xTaskIncrementTick: everything whose time has come, and nothing else, is readied. */
    method UnblockDue()
      requires ListsOk() && forall t :: t in waking ==> t !in ready
      modifies `current, `nextUnblock, `ready, `waking
      ensures ListsOk()
      ensures waking == map t | t in old(waking) && old(waking)[t] != clock :: old(waking)[t]
      ensures ready == old(ready) + set t | t in old(waking) && old(waking)[t] == clock
      ensures forall t :: t in waking ==> waking[t] > clock
    {
      ghost var gone: set<TaskId> := {};
      ShownInEpoch(numOverflows, clock);
      while true
        invariant ListsOk()
        invariant forall t :: t in gone ==> t in old(waking) && old(waking)[t] == clock
        invariant waking == old(waking) - gone && ready == old(ready) + gone
        decreases |current|
      {
        if current == [] {
          nextUnblock := MAX_DELAY;
          break;
        }
        var head := current[0];
        if tickCount < head.value {
          HeadIsLeast(current, tickCount);
          nextUnblock := head.value;
          break;
        }
        UnblockHead();
        gone := gone + {head.id};
      }
      HeadIsLeast(current, tickCount);
      RestIsLater(waking, clock, Start(numOverflows), current, overflow, nextUnblock);
      GoneIsDue(old(waking), gone, clock);
    }

    /** The count goes up by one, with the lists changing roles when it wraps. */
    method CountTick()
      requires Consistent()
      modifies `tickCount, `clock, `current, `overflow, `numOverflows, `nextUnblock
      ensures ListsOk() && clock == old(clock) + 1
    {
      ShownInEpoch(numOverflows, clock);
      ShownInEpoch(numOverflows, clock + 1);
      tickCount := Add(tickCount, 1);
      clock := clock + 1;
      if tickCount == 0 {
        SwitchDelayedLists();
      } else {
        ClockMoves(waking, clock - 1, Start(numOverflows), current, overflow, nextUnblock);
      }
    }

    /** xTaskIncrementTick. */
    method IncrementTick()
      requires Consistent() && (suspended > 0 ==> pendedTicks < MAX_DELAY)
      modifies this
      ensures Consistent()
      ensures View() == if old(suspended) == 0 then NextTick(old(View()))
              else old(View()).(pended := old(pendedTicks) + 1)
    {
      if suspended == 0 {
        CountTick();
        if tickCount >= nextUnblock {
          UnblockDue();
        } else {
          ShownInEpoch(numOverflows, clock);
          RestIsLater(waking, clock, Start(numOverflows), current, overflow, nextUnblock);
          NoneDue(old(View()));
        }
      } else {
        pendedTicks := pendedTicks + 1;
      }
    }

    /** Taking a task's state item out of whichever list holds it. */
    method Unlist(t: TaskId)
      requires ListsOk()
      modifies `current, `overflow, `asleep, `waking
      ensures ListsOk() && waking == old(waking) - {t} && asleep == old(asleep) - {t}
    {
      LeavingKeeps(waking, clock, Start(numOverflows), current, overflow, nextUnblock, t);
      current, overflow, asleep := WithoutId(current, t), WithoutId(overflow, t), asleep - {t};
      waking := waking - {t};
    }

    /** The loop of xTaskResumeAll over the pending-ready list. */
    method ReleasePending()
      requires Consistent()
      modifies `current, `overflow, `asleep, `pending, `ready, `waking
      ensures Consistent() && View() == Released(old(View()))
      ensures pending == [] && ready == old(ready) + Members(old(pending))
              && asleep == old(asleep) - Members(old(pending))
      ensures waking == old(waking) - Members(old(pending))
    {
      ReleasedReadies(View());
      ReleasedCount(View());
      while pending != []
        invariant Consistent() && Released(View()) == Released(old(View()))
        decreases |pending|
      {
        var t := pending[0];
        Unlist(t);
        pending := pending[1..];
        ready := ready + {t};
      }
    }

    /** vTaskSuspendAll. */
    method SuspendAll()
      requires Valid()
      modifies `suspended
      ensures Valid() && View() == Apply(old(View()), Event.SuspendAll) && suspended == old(suspended) + 1
    {
      suspended := suspended + 1;
    }

    /** The loop of xTaskResumeAll over the pended ticks. */
    method CatchUp()
      requires Consistent() && suspended == 0
      modifies this
      ensures Consistent() && View() == NextTicks(old(View()), old(pendedTicks)).(pended := 0)
    {
      var counts := pendedTicks;
      while counts > 0
        invariant 0 <= counts <= pendedTicks == old(pendedTicks) && Consistent() && suspended == 0
        invariant View() == NextTicks(old(View()), pendedTicks - counts)
        decreases counts
      {
        IncrementTick();
        counts := counts - 1;
      }
      pendedTicks := 0;
    }

    /** xTaskResumeAll: the pending tasks first, then every tick that was held back. */
    method ResumeAll()
      requires Valid() && suspended > 0
      modifies this
      ensures Valid() && View() == Apply(old(View()), Event.ResumeAll) && suspended == old(suspended) - 1
      ensures suspended == 0 ==> clock == old(clock) + old(pendedTicks) && pendedTicks == 0 && pending == []
      ensures suspended == 0 ==>
              asleep == old(asleep) - Members(old(pending))
                && forall t :: t in old(pending) ==> t in ready && t !in waking && t !in asleep
      ensures suspended > 0 ==> unchanged(`clock, `pendedTicks, `pending, `asleep, `ready, `waking)
    {
      StepKeepsSane(View(), Event.ResumeAll);
      if suspended == 1 {
        ResumeReadies(View());
      }
      suspended := suspended - 1;
      if suspended == 0 {
        var some := pending != [];
        ReleasedCount(View());
        ReleasePending();
        if some {
          ResetNextTaskUnblockTime();
        }
        CatchUp();
      }
    }

    /** The task goes into the list of the epoch it is to wake in. */
    method FileDelayed(t: TaskId, ticks: Tick)
      requires ListsOk() && t !in waking && ticks > 0
      modifies `current, `overflow, `nextUnblock, `waking
      ensures ListsOk() && waking == old(waking)[t := clock + ticks]
    {
      ShownInEpoch(numOverflows, clock);
      JoiningKeeps(waking, clock, Start(numOverflows), current, overflow, nextUnblock, t, ticks);
      var wake := Add(tickCount, ticks);
      if wake < tickCount {
        overflow := Insert(overflow, Entry(wake, t));
      } else {
        current := Insert(current, Entry(wake, t));
        if wake < nextUnblock {
          nextUnblock := wake;
        }
      }
      waking := waking[t := clock + ticks];
    }

    /** prvAddCurrentTaskToDelayedList. */
    method AddCurrentTaskToDelayedList(t: TaskId, ticks: Tick, indefinitely: bool)
      requires Valid() && t in ready && ticks > 0
      modifies `current, `overflow, `asleep, `ready, `nextUnblock, `waking
      ensures Valid() && View() == Apply(old(View()), Delay(t, ticks, indefinitely))
      ensures ready == old(ready) - {t}
      ensures if ticks == MAX_DELAY && indefinitely then asleep == old(asleep) + {t} && waking == old(waking)
              else asleep == old(asleep) && waking == old(waking)[t := clock + ticks]
    {
      StepKeepsSane(View(), Delay(t, ticks, indefinitely));
      ready := ready - {t};
      if ticks == MAX_DELAY && indefinitely {
        asleep := asleep + {t};
      } else {
        FileDelayed(t, ticks);
      }
    }

    /** The part of xTaskDelayUntil that runs with the scheduler suspended: wake times are a fixed
        increment apart, and one already past is not waited for. */
    method TaskDelayUntil(t: TaskId, previous: Tick, increment: Tick, ghost truePrevious: nat)
      returns (wake: Tick, shouldDelay: bool)
      requires Valid() && t in ready && suspended > 0 && increment > 0 && previous == Wrap(truePrevious)
      modifies `current, `overflow, `asleep, `ready, `nextUnblock, `waking
      ensures Valid() && wake == Wrap(truePrevious + increment)
      ensures var d := UntilDelay(previous, increment, tickCount);
              shouldDelay == (d > 0) && View() == if d > 0 then Apply(old(View()), Delay(t, d, false)) else old(View())
      ensures truePrevious <= clock < truePrevious + WRAP ==>
                var until := truePrevious + increment;
                View() == if until > clock then Apply(old(View()), Delay(t, until - clock, false)) else old(View())
    {
      DifferenceIsElapsed(truePrevious, truePrevious + increment);
      if truePrevious <= clock < truePrevious + WRAP {
        UntilDelayIsRightIff(truePrevious, increment, clock);
      }
      wake := Add(previous, increment);
      shouldDelay := false;
      if tickCount < previous {
        if wake < previous && wake > tickCount {
          shouldDelay := true;
        }
      } else {
        if wake < previous || wake > tickCount {
          shouldDelay := true;
        }
      }
      if shouldDelay {
        AddCurrentTaskToDelayedList(t, Sub(wake, tickCount), false);
      }
    }

    /** xTaskRemoveFromEventList, for the task at the head of the event list. */
    method RemoveFromEventList(t: TaskId)
      requires Valid() && (t in waking || t in asleep) && t !in pending
      modifies `current, `overflow, `asleep, `pending, `ready, `waking
      ensures Valid() && View() == Apply(old(View()), Signal(t))
      ensures if suspended > 0 then pending == old(pending) + [t] && unchanged(`asleep, `ready, `waking)
              else t in ready && t !in waking && t !in asleep && pending == old(pending)
    {
      StepKeepsSane(View(), Signal(t));
      if suspended == 0 {
        Unlist(t);
        ready := ready + {t};
      } else {
        pending := pending + [t];
      }
    }

    /** Both list items of a task taken out of their lists. The event list item of a pending task is in the
        pending-ready list. */
    method ForceOut(t: TaskId)
      requires Consistent()
      modifies `current, `overflow, `asleep, `pending, `ready, `waking
      ensures Consistent() && waking == old(waking) - {t} && asleep == old(asleep) - {t}
      ensures ready == old(ready) - {t} && pending == Without(old(pending), t)
    {
      Unlist(t);
      ready := ready - {t};
      pending := Without(pending, t);
    }

    /** vTaskSuspend. */
    method TaskSuspend(t: TaskId)
      requires Valid() && (t in waking || t in asleep || t in ready)
      modifies `current, `overflow, `asleep, `pending, `ready, `nextUnblock, `waking
      ensures Valid() && View() == Apply(old(View()), Suspend(t))
      ensures asleep == old(asleep) + {t} && ready == old(ready) - {t} && waking == old(waking) - {t}
      ensures pending == Without(old(pending), t)
    {
      StepKeepsSane(View(), Suspend(t));
      ForceOut(t);
      asleep := asleep + {t};
      ResetNextTaskUnblockTime();
    }

    /** The part of xTaskAbortDelay that runs with the scheduler suspended, for a task that is blocked. */
    method AbortDelay(t: TaskId)
      requires Valid() && suspended > 0 && (t in waking || t in asleep)
      modifies `current, `overflow, `asleep, `pending, `ready, `waking
      ensures Valid() && View() == Apply(old(View()), Abort(t))
      ensures ready == old(ready) + {t} && asleep == old(asleep) - {t} && waking == old(waking) - {t}
      ensures pending == Without(old(pending), t)
    {
      StepKeepsSane(View(), Abort(t));
      ForceOut(t);
      ready := ready + {t};
    }
  }
}
