/** The timer daemon of timers.c: two expiry-ordered lists that change roles when the tick count
    wraps, late timers caught up by repeated reloads, and commands that restart a timer. */
module Timers {
  import opened OrderedLists
  import opened Ticks

  type TimerId = nat
  type Period = x: int | 0 < x < WRAP witness 1

  /** Set going, stopped (or never started), or having a command applied to it at this moment. */
  datatype Phase = Going | Halted | InHand

  /** The fields of Timer_t (listed: its list item has a container), and a record of what happened to
      it: the true time of the command that last set it going, how often its callback has run since. */
  datatype Timer = Timer(period: Period, autoReload: bool, active: bool, started: nat, fired: nat, phase: Phase,
    listed: bool)

  datatype Filing = ProcessNow | CurrentList | OverflowList

  // ---------- Classification across the wrap ----------

  /** The branches of prvInsertTimerInActiveList. */
  function Classify(next: Tick, now: Tick, command: Tick, period: Tick): Filing {
    if next <= now then
      if Sub(now, command) >= period then ProcessNow else OverflowList
    else
      if now < command && next >= command then ProcessNow else CurrentList
  }

  /** The four comparisons amount to one: has at least a period passed since the command? */
  lemma ClassifyIsOneTest(command: Tick, now: Tick, period: Tick)
    requires period > 0
    ensures Classify(Add(command, period), now, command, period) == ProcessNow <==> Sub(now, command) >= period
  {
  }

  /** In true time: the timer is processed at once exactly when it is due, and is otherwise filed in
      the list of the epoch it will be due in. */
  lemma ClassifyIsTrue(e: nat, command: nat, now: nat, period: Tick)
    requires command <= now < command + WRAP && period > 0 && Start(e) <= now < Start(e) + WRAP
    ensures var f := Classify(Add(Wrap(command), period), Wrap(now), Wrap(command), period);
            && (f == ProcessNow <==> command + period <= now)
            && (f == CurrentList <==> now < command + period < Start(e) + WRAP)
            && (f == OverflowList <==> now < command + period && Start(e) + WRAP <= command + period)
    ensures now < command + period ==> Add(Wrap(command), period) == Wrap(command + period)
    ensures command + period < Start(e) + 2 * WRAP
  {
    var due := command + period;
    DifferenceIsElapsed(command, now);
    ClassifyIsOneTest(Wrap(command), Wrap(now), period);
    DifferenceIsElapsed(command, due);
    if now < due {
      ShownInEpoch(e, due);
      ShownInEpoch(e, now);
    }
  }

  // ---------- What the daemon maintains ----------

  /** n periods of length p. */
  function Periods(n: nat, p: nat): nat {
    if n == 0 then 0 else Periods(n - 1, p) + p
  }

  function Due(t: Timer): nat {
    t.started + Periods(t.fired + 1, t.period)
  }

  function LastDue(t: Timer): nat {
    t.started + Periods(t.fired, t.period)
  }

  /** A listed timer is active, and everything it has fired for was due. */
  predicate Filed(t: Timer, clock: nat) {
    && t.active && t.phase == Going
    && LastDue(t) <= clock
    && (!t.autoReload ==> t.fired == 0)
  }

  /** A timer in no list was stopped, or is a one-shot that has fired once, when it was due. */
  predicate AtRest(t: Timer, clock: nat) {
    match t.phase
    case InHand => true
    case Halted => !t.active
    case Going => !t.active && !t.autoReload && t.fired == 1 && t.started + t.period <= clock
  }

  /** base is the true time at which the present epoch began, clock the last time looked at. */
  datatype World = World(timers: map<TimerId, Timer>, base: nat, clock: nat, current: seq<Entry>, overflow: seq<Entry>)

  predicate DueIn(timers: map<TimerId, Timer>, id: TimerId, start: nat) {
    id in timers && timers[id].listed && start <= Due(timers[id]) < start + WRAP
  }

  /** The list holds exactly the listed timers due in the epoch from start, under their due ticks. */
  ghost predicate Holds(timers: map<TimerId, Timer>, list: seq<Entry>, start: nat) {
    && Sorted(list)
    && (forall e {:trigger e in list} :: e in list ==>
         DueIn(timers, e.id, start) && e.value == Due(timers[e.id]) - start)
    && (forall id {:trigger DueIn(timers, id, start)} :: DueIn(timers, id, start) ==>
         Entry(Due(timers[id]) - start, id) in list)
  }

  const NONE := -1

  predicate TimerOk(t: Timer, base: nat, clock: nat) {
    if t.listed then Filed(t, clock) && base <= Due(t) < base + 2 * WRAP else AtRest(t, clock)
  }

  /** Everything in its place, one timer (being worked on) excepted. */
  ghost predicate OkBut(w: World, but: int) {
    && w.base <= w.clock < w.base + WRAP
    && Holds(w.timers, w.current, w.base) && Holds(w.timers, w.overflow, w.base + WRAP)
    && (forall id {:trigger id in w.timers} :: id in w.timers && id != but ==> TimerOk(w.timers[id], w.base, w.clock))
    && (but != NONE ==> but >= 0 && but in w.timers && !w.timers[but].listed)
  }

  /** One entry has been added, to the list of the epoch of its due time. */
  predicate Inserted(w: World, w': World, id: TimerId, due: nat) {
    && w.base <= due < w.base + 2 * WRAP
    && w'.current == (if due < w.base + WRAP then Insert(w.current, Entry(due - w.base, id)) else w.current)
    && w'.overflow == (if due < w.base + WRAP then w.overflow else Insert(w.overflow, Entry(due - w.base - WRAP, id)))
  }

  /** What an attempt to insert does: nothing yet if the due time has passed, and else an insertion. */
  predicate Attempted(w: World, w': World, id: TimerId, due: nat, passed: bool) {
    && (passed <==> due <= w.clock)
    && if passed then w'.current == w.current && w'.overflow == w.overflow else Inserted(w, w', id, due)
  }

  /** A timer that is being reloaded has been called a number of times so far; nothing else is touched. */
  predicate Reloading(w: World, w': World, id: TimerId, calls: nat) {
    && id in w.timers && w'.base == w.base && w'.clock == w.clock
    && w'.timers == w.timers[id := w.timers[id].(fired := w.timers[id].fired + calls)]
  }

  lemma ListGrows(timers: map<TimerId, Timer>, list: seq<Entry>, start: nat, id: TimerId, t: Timer)
    requires Holds(timers, list, start) && !DueIn(timers, id, start)
    ensures if t.listed && start <= Due(t) < start + WRAP
            then Holds(timers[id := t], Insert(list, Entry(Due(t) - start, id)), start)
            else Holds(timers[id := t], list, start)
  {
    var timers' := timers[id := t];
    assert forall x :: x != id ==> DueIn(timers', x, start) == DueIn(timers, x, start);
    if DueIn(timers', id, start) {
      InsertKeepsSorted(list, Entry(Due(t) - start, id));
    }
  }

  /** The timer being worked on may be changed freely, and may be left at rest. */
  lemma SetKeeps(w: World, id: TimerId, t: Timer)
    requires OkBut(w, id) && !t.listed
    ensures OkBut(w.(timers := w.timers[id := t]), id)
    ensures AtRest(t, w.clock) ==> OkBut(w.(timers := w.timers[id := t]), NONE)
  {
    ListGrows(w.timers, w.current, w.base, id, t);
    ListGrows(w.timers, w.overflow, w.base + WRAP, id, t);
  }

  lemma PlaceKeepsCurrent(w: World, w': World, id: TimerId, t: Timer)
    requires Holds(w.timers, w.current, w.base)
    requires id in w.timers && !w.timers[id].listed && t.listed
    requires w'.timers == w.timers[id := t] && w'.base == w.base && Inserted(w, w', id, Due(t))
    ensures Holds(w'.timers, w'.current, w'.base)
  {
    ListGrows(w.timers, w.current, w.base, id, t);
  }

  lemma PlaceKeepsOverflow(w: World, w': World, id: TimerId, t: Timer)
    requires Holds(w.timers, w.overflow, w.base + WRAP)
    requires id in w.timers && !w.timers[id].listed && t.listed
    requires w'.timers == w.timers[id := t] && w'.base == w.base && Inserted(w, w', id, Due(t))
    ensures Holds(w'.timers, w'.overflow, w'.base + WRAP)
  {
    ListGrows(w.timers, w.overflow, w.base + WRAP, id, t);
  }

  /** The timer goes back into the list of the epoch it is next due in. */
  lemma PlaceKeeps(w: World, w': World, id: TimerId, t: Timer)
    requires OkBut(w, id) && Filed(t, w.clock) && t.listed
    requires w'.timers == w.timers[id := t] && w'.base == w.base && w'.clock == w.clock
    requires Inserted(w, w', id, Due(t))
    ensures OkBut(w', NONE)
  {
    assert forall x :: x in w'.timers ==> TimerOk(w'.timers[x], w'.base, w'.clock);
    PlaceKeepsCurrent(w, w', id, t);
    PlaceKeepsOverflow(w, w', id, t);
  }

  lemma ListShrinks(timers: map<TimerId, Timer>, list: seq<Entry>, start: nat, id: TimerId)
    requires Holds(timers, list, start) && id in timers
    ensures Holds(timers[id := timers[id].(listed := false)], WithoutId(list, id), start)
  {
    WithoutKeepsSorted(list, id);
    WithoutHolds(timers, list, WithoutId(list, id), start, id);
  }

  lemma WithoutHolds(timers: map<TimerId, Timer>, list: seq<Entry>, rest: seq<Entry>, start: nat, id: TimerId)
    requires Holds(timers, list, start) && id in timers
    requires Sorted(rest) && forall e :: e in rest <==> e in list && e.id != id
    ensures Holds(timers[id := timers[id].(listed := false)], rest, start)
  {
    var timers' := timers[id := timers[id].(listed := false)];
    assert forall x :: DueIn(timers', x, start) <==> x != id && DueIn(timers, x, start);
  }

  function Unfiled(w: World, id: TimerId): World
    requires id in w.timers
  {
    w.(timers := w.timers[id := w.timers[id].(listed := false)],
       current := WithoutId(w.current, id), overflow := WithoutId(w.overflow, id))
  }

  lemma UnfileKeepsLists(w: World, id: TimerId)
    requires id in w.timers && Holds(w.timers, w.current, w.base) && Holds(w.timers, w.overflow, w.base + WRAP)
    ensures Holds(Unfiled(w, id).timers, Unfiled(w, id).current, w.base)
    ensures Holds(Unfiled(w, id).timers, Unfiled(w, id).overflow, w.base + WRAP)
  {
    ListShrinks(w.timers, w.current, w.base, id);
    ListShrinks(w.timers, w.overflow, w.base + WRAP, id);
  }

  /** Taking a timer off its list leaves everything else as it was. */
  lemma UnfileKeeps(w: World, id: TimerId)
    requires OkBut(w, NONE) && id in w.timers
    ensures OkBut(Unfiled(w, id), id)
  {
    var w' := Unfiled(w, id);
    assert forall x :: x in w'.timers && x != id ==> TimerOk(w'.timers[x], w'.base, w'.clock);
    UnfileKeepsLists(w, id);
  }

  /** What firing does to an expired timer: one callback, and one more for every period missed. */
  function Fire(t: Timer, clock: nat): Timer
    requires Due(t) <= clock
  {
    if t.autoReload then t.(fired := t.fired + 1 + (clock - Due(t)) / t.period)
    else t.(fired := t.fired + 1, active := false, listed := false)
  }

  lemma HeadIsDue(w: World, value: Tick)
    requires OkBut(w, NONE) && w.current != [] && value == w.current[0].value
    ensures w.current[0].id in w.timers
    ensures var t := w.timers[w.current[0].id];
            DueIn(w.timers, w.current[0].id, w.base) && Filed(t, w.clock) && Due(t) == w.base + value
  {
    assert w.current[0] in w.current;
  }

  /** A timer is due in one epoch only, so it is in one list only. */
  lemma AbsentFromOther(w: World, id: TimerId)
    requires OkBut(w, NONE) && DueIn(w.timers, id, w.base)
    ensures WithoutId(w.overflow, id) == w.overflow
  {
    assert Absent(w.overflow, id);
    WithoutKeepsSorted(w.overflow, id);
  }

  lemma {:induction false} PeriodsAdd(m: nat, n: nat, p: nat)
    ensures Periods(m, p) + Periods(n, p) == Periods(m + n, p)
  {
    if n > 0 {
      PeriodsAdd(m, n - 1, p);
    }
  }

  /** Looking at a later time of the same epoch changes nothing. */
  lemma LaterKeeps(w: World, clock: nat)
    requires OkBut(w, NONE) && w.clock <= clock < w.base + WRAP
    ensures OkBut(w.(clock := clock), NONE)
  {
  }

  /** Taking the expired head off the current list. */
  function HeadOff(w: World): World
    requires w.current != [] && w.current[0].id in w.timers
  {
    var id := w.current[0].id;
    w.(timers := w.timers[id := w.timers[id].(listed := false)], current := w.current[1..])
  }

  lemma HeadOffKeeps(w: World)
    requires OkBut(w, NONE) && w.current != []
    ensures w.current[0].id in w.timers && OkBut(HeadOff(w), w.current[0].id)
  {
    HeadIsDue(w, w.current[0].value);
    AbsentFromOther(w, w.current[0].id);
    UnfileKeeps(w, w.current[0].id);
  }

  lemma LastUpdateWins(timers: map<TimerId, Timer>, id: TimerId, a: Timer, b: Timer)
    ensures timers[id := a][id := b] == timers[id := b]
  {
  }

  /** In a list, and its time has come. */
  predicate IsDue(t: Timer, clock: nat) {
    t.listed && Due(t) <= clock
  }

  /** The head of the current list, whose time has come, has been fired and put where it belongs. */
  ghost predicate HeadFired(w: World, w': World) {
    && w.current != [] && w.current[0].id in w.timers
    && var t := w.timers[w.current[0].id];
    && Due(t) <= w.clock
    && t.listed && !IsDue(Fire(t, w.clock), w.clock)
    && w'.timers == w.timers[w.current[0].id := Fire(t, w.clock)] && w'.base == w.base && w'.clock == w.clock
    && (w.clock == w.base + WRAP - 1 ==> w'.current == w.current[1..])
    && OkBut(w', NONE)
  }

  lemma ExtraFirings(t: Timer, clock: nat, extra: nat)
    requires t.autoReload && Due(t) <= clock && extra == (clock - Due(t)) / t.period
    ensures var t' := t.(fired := t.fired + extra + 1);
            && t' == Fire(t, clock)
            && Due(t') == Due(t) + Periods(extra + 1, t.period)
            && LastDue(t') == Due(t) + Periods(extra + 1, t.period) - t.period
  {
    PeriodsAdd(t.fired + 1, extra, t.period);
    PeriodsAdd(t.fired + 1, extra + 1, t.period);
  }

  /** An expired timer that repeats has fired for every period missed once it is back in a list. */
  lemma RepeatFired(w: World, w1: World, w': World, id: TimerId, t: Timer, extra: nat)
    requires OkBut(w, NONE) && w.current != [] && id == w.current[0].id && DueIn(w.timers, id, w.base)
    requires t == w.timers[id] && Filed(t, w.clock) && t.autoReload && Due(t) <= w.clock
    requires w1 == HeadOff(w)
    requires extra == (w.clock - Due(t)) / t.period
    requires var next := Due(t) + Periods(extra + 1, t.period);
             next - t.period <= w.clock < next && Inserted(w1, w', id, next)
    requires w'.timers == w1.timers[id := t.(fired := t.fired + extra + 1)] && w'.base == w.base && w'.clock == w.clock
    ensures HeadFired(w, w')
  {
    HeadOffKeeps(w);
    LastUpdateWins(w.timers, id, t.(listed := false), t.(fired := t.fired + extra + 1));
    ExtraFirings(t, w.clock, extra);
    PlaceKeeps(w1, w', id, t.(fired := t.fired + extra + 1));
  }

  /** An expired one-shot timer comes to rest. */
  lemma OnceFired(w: World, w': World, id: TimerId, t: Timer)
    requires OkBut(w, NONE) && w.current != [] && id == w.current[0].id && DueIn(w.timers, id, w.base)
    requires t == w.timers[id] && Filed(t, w.clock) && !t.autoReload && Due(t) <= w.clock
    requires w' == HeadOff(w).(timers := HeadOff(w).timers[id := Fire(t, w.clock)])
    ensures HeadFired(w, w')
  {
    HeadOffKeeps(w);
    LastUpdateWins(w.timers, id, t.(listed := false), Fire(t, w.clock));
    assert Due(t) == t.started + Periods(0, t.period) + t.period;
    SetKeeps(HeadOff(w), id, Fire(t, w.clock));
  }

  /** Once the current list is empty the lists may change roles, for the next epoch. */
  lemma SwitchKeeps(w: World, clock: nat)
    requires OkBut(w, NONE) && w.current == [] && w.base + WRAP <= clock < w.base + 2 * WRAP
    ensures OkBut(w.(base := w.base + WRAP, clock := clock, current := w.overflow, overflow := []), NONE)
  {
    var w' := w.(base := w.base + WRAP, clock := clock, current := w.overflow, overflow := []);
    forall id | id in w.timers ensures TimerOk(w.timers[id], w'.base, clock) && !DueIn(w.timers, id, w'.base + WRAP) {
      assert TimerOk(w.timers[id], w.base, w.clock) && !DueIn(w.timers, id, w.base);
    }
  }

  // ---------- Counting the firings ----------

  lemma {:induction false} PeriodsIsProduct(n: nat, p: nat)
    ensures Periods(n, p) == n * p
  {
    if n > 0 {
      PeriodsIsProduct(n - 1, p);
      assert n * p == (n - 1) * p + p;
    }
  }

  lemma {:induction false} PeriodsGrow(m: nat, n: nat, p: nat)
    requires m < n
    ensures Periods(m, p) + p <= Periods(n, p)
  {
    if m < n - 1 {
      PeriodsGrow(m, n - 1, p);
    }
  }

  /** The number of periods completed is pinned down by the last due time and the next. */
  lemma QuotientIs(elapsed: nat, p: nat, n: nat)
    requires p > 0 && Periods(n, p) <= elapsed < Periods(n, p) + p
    ensures elapsed / p == n
  {
    var q := elapsed / p;
    PeriodsIsProduct(q, p);
    if q < n {
      PeriodsGrow(q, n, p);
    } else if n < q {
      PeriodsGrow(n, q, p);
    }
  }

  /** How often a timer set going at a true time should have fired by now. */
  function FiredBy(t: Timer, now: nat): nat {
    if now < t.started + t.period then 0 else if t.autoReload then (now - t.started) / t.period else 1
  }

  /** With everything in place and nothing in the current list due, every count is exact. */
  lemma CountsAreExact(w: World, id: TimerId)
    requires OkBut(w, NONE) && id in w.timers && w.timers[id].phase == Going
    requires w.current != [] ==> w.current[0].value > w.clock - w.base
    ensures w.timers[id].fired == FiredBy(w.timers[id], w.clock)
  {
    var t := w.timers[id];
    assert TimerOk(t, w.base, w.clock);
    if t.listed {
      if DueIn(w.timers, id, w.base) {
        assert Entry(Due(t) - w.base, id) in w.current;
      }
      GoingCount(t, w.clock);
    }
  }

  lemma GoingCount(t: Timer, now: nat)
    requires LastDue(t) <= now < Due(t) && (!t.autoReload ==> t.fired == 0)
    ensures t.fired == FiredBy(t, now)
  {
    QuotientIs(now - t.started, t.period, t.fired);
    if now < t.started + t.period {
      QuotientIs(now - t.started, t.period, 0);
    }
    assert !t.autoReload ==> Due(t) == t.started + Periods(0, t.period) + t.period;
  }

  /** A timer in no list is as it was, and one in a list can only have fired. */
  predicate MayHaveFired(t: Timer, t': Timer) {
    if t.listed then t' == t.(fired := t'.fired, active := t'.active, listed := t'.listed) && t'.fired >= t.fired
    else t' == t
  }

  /** Firing is all that has happened: nothing was commanded. */
  ghost predicate OnlyFired(timers: map<TimerId, Timer>, timers': map<TimerId, Timer>) {
    && timers'.Keys == timers.Keys
    && forall id {:trigger timers'[id]} :: id in timers' ==> MayHaveFired(timers[id], timers'[id])
  }

  lemma OnlyFiredTwice(a: map<TimerId, Timer>, b: map<TimerId, Timer>, c: map<TimerId, Timer>)
    requires OnlyFired(a, b) && OnlyFired(b, c)
    ensures OnlyFired(a, c)
  {
    forall id | id in c ensures id in b && (!a[id].listed ==> c[id] == a[id]) {
      assert b[id] == b[id];
    }
  }

  lemma FireOnlyRaises(t: Timer, clock: nat)
    requires Due(t) <= clock
    ensures var t' := Fire(t, clock);
            t' == t.(fired := t'.fired, active := t'.active, listed := t'.listed) && t'.fired > t.fired
  {
  }

  lemma HeadFiredOnlyFires(timers: map<TimerId, Timer>, w: World, w': World)
    requires OkBut(w, NONE) && OnlyFired(timers, w.timers) && HeadFired(w, w')
    ensures OnlyFired(timers, w'.timers)
  {
    HeadIsDue(w, w.current[0].value);
    FireOnlyRaises(w.timers[w.current[0].id], w.clock);
  }

  /** A command begins by taking the timer off its list, if it is in one. */
  lemma CommandBegins(w: World, id: TimerId)
    requires OkBut(w, NONE) && id in w.timers
    ensures var t := w.timers[id].(listed := false, phase := InHand);
            OkBut(Unfiled(w, id).(timers := w.timers[id := t]), NONE)
  {
    UnfileKeeps(w, id);
    LastUpdateWins(w.timers, id, w.timers[id].(listed := false), w.timers[id].(listed := false, phase := InHand));
    SetKeeps(Unfiled(w, id), id, w.timers[id].(listed := false, phase := InHand));
  }

  lemma UnlistedIsNowhere(w: World, id: TimerId)
    requires OkBut(w, NONE) && id in w.timers && !w.timers[id].listed
    ensures WithoutId(w.current, id) == w.current && WithoutId(w.overflow, id) == w.overflow
  {
    assert Absent(w.current, id) && Absent(w.overflow, id);
    WithoutKeepsSorted(w.current, id);
    WithoutKeepsSorted(w.overflow, id);
  }

  lemma LateCount(t: Timer, extra: nat, now: nat)
    requires t.started + t.period <= now && extra == (now - t.started - t.period) / t.period
    ensures (now - t.started) / t.period == extra + 1
  {
    assert now - t.started == (extra + 1) * t.period + (now - t.started - t.period) % t.period;
    PeriodsIsProduct(extra + 1, t.period);
    QuotientIs(now - t.started, t.period, extra + 1);
  }

  /** A timer started by a command sent at a true time, once that command has been carried out. */
  function Begun(t: Timer, sent: nat, now: nat): Timer {
    var t' := t.(started := sent, fired := 0, phase := Going);
    var fired := FiredBy(t', now);
    var resting := !t.autoReload && fired == 1;
    t'.(fired := fired, active := !resting, listed := !resting)
  }

  /** A timer whose period has been changed starts over when the command is read. */
  function Retimed(t: Timer, period: Period, now: nat): Timer {
    t.(period := period, started := now, fired := 0, phase := Going, active := true, listed := true)
  }

  function SetGoing(t: Timer, sent: nat): Timer {
    t.(active := true, started := sent, fired := 0, phase := Going)
  }

  ghost predicate HasBegun(w: World, w': World, id: TimerId, sent: nat) {
    id in w.timers && w'.timers == w.timers[id := Begun(w.timers[id], sent, w.clock)] && OkBut(w', NONE)
  }

  lemma OnTimeStart(w: World, w': World, id: TimerId, sent: nat)
    requires OkBut(w, NONE) && id in w.timers && !w.timers[id].listed
    requires var t := SetGoing(w.timers[id], sent);
             sent <= w.clock < sent + t.period && Inserted(w, w', id, sent + t.period)
               && w'.timers == w.timers[id := t.(listed := true)]
    requires w'.base == w.base && w'.clock == w.clock
    ensures HasBegun(w, w', id, sent)
  {
    var t := SetGoing(w.timers[id], sent).(listed := true);
    assert Due(t) == sent + Periods(0, t.period) + t.period;
    PlaceKeeps(w, w', id, t);
  }

  lemma FreshlyFiled(w: World, w': World, id: TimerId, t: Timer)
    requires OkBut(w, NONE) && id in w.timers && !w.timers[id].listed
    requires t.active && t.listed && t.phase == Going && t.fired == 0 && t.started == w.clock
    requires Inserted(w, w', id, w.clock + t.period) && w'.timers == w.timers[id := t] && w'.base == w.base
             && w'.clock == w.clock
    ensures OkBut(w', NONE)
  {
    assert Due(t) == t.started + Periods(0, t.period) + t.period;
    PlaceKeeps(w, w', id, t);
  }

  /** A timer whose one period is over by the time the command is read. */
  lemma LateOnce(w: World, w': World, id: TimerId, sent: nat)
    requires OkBut(w, NONE) && id in w.timers && !w.timers[id].listed
    requires var t := SetGoing(w.timers[id], sent);
             sent + t.period <= w.clock && !t.autoReload
               && w' == w.(timers := w.timers[id := t.(fired := 1, active := false)])
    ensures HasBegun(w, w', id, sent)
  {
    SetKeeps(w, id, SetGoing(w.timers[id], sent).(fired := 1, active := false));
  }

  /** A repeating timer whose first period is over by the time the command is read. */
  lemma LateStart(w: World, w': World, id: TimerId, sent: nat, extra: nat)
    requires OkBut(w, NONE) && id in w.timers && !w.timers[id].listed
    requires var t := SetGoing(w.timers[id], sent);
             var next := sent + t.period + Periods(extra + 1, t.period);
             && sent + t.period <= w.clock && t.autoReload && extra == (w.clock - (sent + t.period)) / t.period
             && next - t.period <= w.clock < next && Inserted(w, w', id, next)
             && w'.timers == w.timers[id := t.(fired := extra + 1, listed := true)]
    requires w'.base == w.base && w'.clock == w.clock
    ensures HasBegun(w, w', id, sent)
  {
    var t := SetGoing(w.timers[id], sent).(fired := extra + 1, listed := true);
    PeriodsAdd(1, extra, t.period);
    PeriodsAdd(1, extra + 1, t.period);
    LateCount(t, extra, w.clock);
    PlaceKeeps(w, w', id, t);
  }

  /** One command affects one timer; the others may only have fired. */
  ghost predicate OthersOnlyFired(timers: map<TimerId, Timer>, timers': map<TimerId, Timer>, id: TimerId) {
    id in timers && id in timers'
      && OnlyFired(timers[id := timers'[id].(listed := false)], timers'[id := timers'[id].(listed := false)])
  }

  lemma OthersStill(before: map<TimerId, Timer>, after: map<TimerId, Timer>, t: Timer, id: TimerId)
    requires id in before && id in after && OthersOnlyFired(before, after, id)
    ensures OthersOnlyFired(before, after[id := t], id)
  {
    var x, y := t.(listed := false), after[id].(listed := false);
    assert after[id := t][id := x] == after[id := x];
    assert before[id := x].Keys == before[id := y].Keys && after[id := x].Keys == after[id := y].Keys;
    forall j | j in after && j != id
      ensures after[id := x][j] == after[id := y][j] && before[id := x][j] == before[id := y][j]
    {
    }
  }

  lemma OthersSampled(before: map<TimerId, Timer>, off: Timer, sampled: map<TimerId, Timer>, id: TimerId)
    requires id in before && !off.listed && OnlyFired(before[id := off], sampled)
    ensures id in sampled && sampled[id] == off && OthersOnlyFired(before, sampled, id)
  {
    assert sampled[id := off] == sampled;
  }

  lemma OthersFired(timers: map<TimerId, Timer>, timers': map<TimerId, Timer>, id: TimerId)
    requires OthersOnlyFired(timers, timers', id)
    ensures timers.Keys == timers'.Keys
    ensures forall j {:trigger timers'[j]} :: j in timers && j != id ==> MayHaveFired(timers[j], timers'[j])
  {
    OthersKeepKeys(timers, timers', id);
    var a, b := timers[id := timers'[id].(listed := false)], timers'[id := timers'[id].(listed := false)];
    forall j | j in timers && j != id ensures MayHaveFired(timers[j], timers'[j]) {
      assert MayHaveFired(a[j], b[j]);
    }
  }

  lemma OthersKeepKeys(timers: map<TimerId, Timer>, timers': map<TimerId, Timer>, id: TimerId)
    requires OthersOnlyFired(timers, timers', id)
    ensures timers.Keys == timers'.Keys
  {
    var t := timers'[id].(listed := false);
    assert timers[id := t].Keys == timers.Keys && timers'[id := t].Keys == timers'.Keys;
  }

  /** Every timer that is going has fired exactly as often as its period has elapsed. */
  ghost predicate Exact(timers: map<TimerId, Timer>, now: nat) {
    forall id {:trigger timers[id]} :: id in timers && timers[id].phase == Going ==>
      timers[id].fired == FiredBy(timers[id], now)
  }

  lemma AllCountsAreExact(w: World)
    requires OkBut(w, NONE) && (w.current != [] ==> w.current[0].value > w.clock - w.base)
    ensures Exact(w.timers, w.clock)
  {
    forall id | id in w.timers && w.timers[id].phase == Going
      ensures w.timers[id].fired == FiredBy(w.timers[id], w.clock)
    {
      CountsAreExact(w, id);
    }
  }

  /** No timer is due before the given time, and there is one that is due then, unless that is the wrap. */
  ghost predicate NextDueIs(w: World, time: nat) {
    && (forall id {:trigger w.timers[id]} :: id in w.timers && w.timers[id].listed ==> Due(w.timers[id]) >= time)
    && (time == w.base + WRAP || exists id :: id in w.timers && w.timers[id].listed && Due(w.timers[id]) == time)
  }

  /** What prvGetNextExpireTime reads is the next due time, or else the next wrap. */
  lemma HeadIsNext(w: World)
    requires OkBut(w, NONE)
    ensures NextDueIs(w, if w.current == [] then w.base + WRAP else w.base + w.current[0].value)
  {
    if w.current != [] {
      HeadIsDue(w, w.current[0].value);
    }
    forall id | id in w.timers && w.timers[id].listed
      ensures Due(w.timers[id]) >= if w.current == [] then w.base + WRAP else w.base + w.current[0].value
    {
      assert TimerOk(w.timers[id], w.base, w.clock);
      if Due(w.timers[id]) < w.base + WRAP {
        assert DueIn(w.timers, id, w.base);
        assert Entry(Due(w.timers[id]) - w.base, id) in w.current;
      }
    }
  }

  /** The tick of the next due time of the present epoch, or none, when nothing is due before the wrap. */
  ghost predicate NextExpiry(w: World, next: Tick, none: bool) {
    NextDueIs(w, w.base + if none then WRAP else next) && (none ==> next == 0)
  }

  /** That determines what is at the head of the current list. */
  lemma NextIsHead(w: World, next: Tick, none: bool)
    requires OkBut(w, NONE) && NextExpiry(w, next, none)
    ensures none <==> w.current == []
    ensures !none ==> next == w.current[0].value
  {
    if w.current != [] {
      HeadIsDue(w, w.current[0].value);
    }
    if !none {
      var id :| id in w.timers && w.timers[id].listed && Due(w.timers[id]) == w.base + next;
      assert DueIn(w.timers, id, w.base);
      assert Entry(next, id) in w.current;
    }
  }

  /** Both lists are empty exactly when no timer is in a list. */
  lemma NoneListedIff(w: World)
    requires OkBut(w, NONE)
    ensures w.current == [] && w.overflow == [] <==> forall id :: id in w.timers ==> !w.timers[id].listed
  {
    forall id | id in w.timers && w.current == [] && w.overflow == [] ensures !w.timers[id].listed {
      assert TimerOk(w.timers[id], w.base, w.clock);
      assert !DueIn(w.timers, id, w.base) && !DueIn(w.timers, id, w.base + WRAP);
    }
    assert w.current != [] ==> w.current[0] in w.current && DueIn(w.timers, w.current[0].id, w.base);
    assert w.overflow != [] ==> w.overflow[0] in w.overflow && DueIn(w.timers, w.overflow[0].id, w.base + WRAP);
  }

  function DueNow(timers: map<TimerId, Timer>, clock: nat): set<TimerId> {
    set id | id in timers && IsDue(timers[id], clock)
  }

  lemma {:induction false} FewerMembers(a: set<TimerId>, b: set<TimerId>)
    requires a < b
    ensures |a| < |b|
  {
    if a != {} {
      var x :| x in a;
      FewerMembers(a - {x}, b - {x});
    }
  }

  /** One timer fewer is due after the head has been fired. */
  lemma FiringLeavesFewer(w: World, w': World)
    requires HeadFired(w, w')
    ensures DueNow(w'.timers, w.clock) < DueNow(w.timers, w.clock)
  {
    var id := w.current[0].id;
    assert id in DueNow(w.timers, w.clock) && id !in DueNow(w'.timers, w.clock);
  }

  /** What the daemon did: one pass that fired a timer, changed the lists over, or went to sleep; or a command. */
  datatype Pass = Fired | Switched | Blocked(ticks: Tick, indefinitely: bool) | Obeyed

  lemma NewTimerKeeps(w: World, id: TimerId, t: Timer)
    requires OkBut(w, NONE) && id !in w.timers && !t.listed && t.phase == Halted && !t.active
    ensures OkBut(w.(timers := w.timers[id := t]), NONE)
  {
    assert !DueIn(w.timers, id, w.base) && !DueIn(w.timers, id, w.base + WRAP);
    ListGrows(w.timers, w.current, w.base, id, t);
    ListGrows(w.timers, w.overflow, w.base + WRAP, id, t);
  }

  // ---------- Schedules ----------

  /** What makes the daemon act: a turn of its loop, or a command read from the queue. Times are true
      times; a command was sent less than a whole wrap before it is read. */
  datatype Command = SetOff(sent: nat) | Halt | Retime(period: Period)
  datatype Act = Turn(at: nat) | Do(at: nat, id: TimerId, command: Command)

  /** Fewer than 2^32 ticks between time samples, and every command about a known timer. */
  ghost predicate Paced(acts: seq<Act>, from: nat, known: set<TimerId>)
    decreases |acts|
  {
    acts != [] ==>
      && from <= acts[0].at < from + WRAP
      && (acts[0].Do? ==> acts[0].id in known && InTime(acts[0]))
      && Paced(acts[1..], acts[0].at, known)
  }

  lemma PacedOn(acts: seq<Act>, n: nat, from: nat, known: set<TimerId>)
    requires n < |acts| && Paced(acts[n..], from, known)
    ensures from <= acts[n].at < from + WRAP && (acts[n].Do? ==> acts[n].id in known && InTime(acts[n]))
    ensures Paced(acts[n + 1..], acts[n].at, known)
  {
    assert acts[n..][0] == acts[n] && acts[n..][1..] == acts[n + 1..];
  }

  predicate InTime(act: Act)
    requires act.Do?
  {
    act.command.SetOff? ==> act.command.sent <= act.at < act.command.sent + WRAP
  }

  /** What the commands so far say about a timer. */
  datatype Orders = Orders(period: Period, autoReload: bool, phase: Phase, started: nat)

  function OrdersOf(t: Timer): Orders {
    Orders(t.period, t.autoReload, t.phase, t.started)
  }

  /** A start or reset counts from when it was sent, a change of period from when it is read. */
  function Told(o: Orders, at: nat, command: Command): Orders {
    match command
    case SetOff(sent) => o.(phase := Going, started := sent)
    case Halt => o.(phase := Halted)
    case Retime(period) => o.(phase := Going, started := at, period := period)
  }

  /** The orders a timer is under after a schedule, read off the schedule alone. */
  function OrdersAfter(o: Orders, acts: seq<Act>, id: TimerId): Orders {
    if acts == [] then o
    else
      var before, last := OrdersAfter(o, acts[..|acts| - 1], id), acts[|acts| - 1];
      if last.Do? && last.id == id then Told(before, last.at, last.command) else before
  }

  /** The last command decides: nothing said about other timers, and no turn of the daemon, alters it. */
  lemma {:induction false} LastCommandDecides(o: Orders, acts: seq<Act>, id: TimerId, k: nat)
    requires k < |acts| && acts[k].Do? && acts[k].id == id
    requires forall j :: k < j < |acts| && acts[j].Do? ==> acts[j].id != id
    ensures OrdersAfter(o, acts, id) == Told(OrdersAfter(o, acts[..k], id), acts[k].at, acts[k].command)
  {
    var init := acts[..|acts| - 1];
    if k < |init| {
      LastCommandDecides(o, init, id, k);
      assert init[..k] == acts[..k];
    }
  }

  /** The timers after one act of a schedule, and what the daemon did. */
  datatype Moment = Moment(timers: map<TimerId, Timer>, pass: Pass)

  /** A timer as one command leaves it. */
  function Commanded(t: Timer, at: nat, command: Command): Timer {
    match command
    case SetOff(sent) => Begun(t, sent, at)
    case Halt => t.(active := false, phase := Halted, listed := false)
    case Retime(period) => Retimed(t, period, at)
  }

  /** No callback came before its time. */
  ghost predicate NoneEarly(timers: map<TimerId, Timer>, now: nat) {
    forall id {:trigger timers[id]} :: id in timers && timers[id].phase == Going ==>
      timers[id].fired <= FiredBy(timers[id], now)
  }

  lemma GoingIsNotEarly(t: Timer, now: nat)
    requires Filed(t, now)
    ensures t.fired <= FiredBy(t, now)
  {
    if t.fired > 0 {
      PeriodsGrow(0, t.fired, t.period);
      PeriodsFit(t.fired, t.period, now - t.started);
    }
  }

  lemma PeriodsFit(n: nat, p: nat, elapsed: nat)
    requires p > 0 && Periods(n, p) <= elapsed
    ensures n <= elapsed / p
  {
    var q := elapsed / p;
    PeriodsIsProduct(q, p);
    if q < n {
      PeriodsGrow(q, n, p);
    }
  }

  lemma NothingIsEarly(w: World)
    requires OkBut(w, NONE)
    ensures NoneEarly(w.timers, w.clock)
  {
    forall id | id in w.timers && w.timers[id].phase == Going
      ensures w.timers[id].fired <= FiredBy(w.timers[id], w.clock)
    {
      assert TimerOk(w.timers[id], w.base, w.clock);
      if w.timers[id].listed {
        GoingIsNotEarly(w.timers[id], w.clock);
      }
    }
  }

  /** What one act does, coming no earlier than the one before and, if it is a command, within a wrap of its being
      sent. A turn changes the lists over exactly when the tick count has wrapped since the last
      act; otherwise it fires one timer that is due, or goes to sleep with every count exact. A command does
      what it says to its timer. All other timers can only have fired, and none of them too early. */
  ghost predicate Followed(before: map<TimerId, Timer>, from: nat, act: Act, m: Moment) {
    && m.timers.Keys == before.Keys && from <= act.at && (act.Do? ==> act.id in before && InTime(act))
    && NoneEarly(m.timers, act.at)
    && (forall id {:trigger m.timers[id]} :: id in before && (act.Do? ==> id != act.id) ==>
         MayHaveFired(before[id], m.timers[id]))
    && match m.pass {
         case Obeyed => act.Do? && m.timers[act.id] == Commanded(before[act.id], act.at, act.command)
         case Switched => act.Turn? && Wrap(act.at) < Wrap(from)
         case Fired => act.Turn? && Wrap(act.at) >= Wrap(from) && |DueNow(m.timers, act.at)| < |DueNow(before, act.at)|
         case Blocked(_, _) => act.Turn? && Wrap(act.at) >= Wrap(from) && m.timers == before && Exact(m.timers, act.at)
       }
  }

  /** The timers when an act begins, and the time of the act before. */
  function TimersBefore(timers: map<TimerId, Timer>, log: seq<Moment>, i: nat): map<TimerId, Timer>
    requires i <= |log|
  {
    if i == 0 then timers else log[i - 1].timers
  }

  function TimeBefore(from: nat, acts: seq<Act>, i: nat): nat
    requires i <= |acts|
  {
    if i == 0 then from else acts[i - 1].at
  }

  /** A whole run, one moment for each act. */
  ghost predicate RunsTo(timers: map<TimerId, Timer>, from: nat, acts: seq<Act>, log: seq<Moment>)
    decreases |acts|
  {
    && |log| == |acts|
    && (acts != [] ==>
          var n := |acts| - 1;
          && RunsTo(timers, from, acts[..n], log[..n])
          && Followed(TimersBefore(timers, log, n), TimeBefore(from, acts, n), acts[n], log[n]))
  }

  lemma RunsOn(timers: map<TimerId, Timer>, from: nat, acts: seq<Act>, log: seq<Moment>, n: nat, m: Moment)
    requires n < |acts| && |log| == n && RunsTo(timers, from, acts[..n], log)
    requires Followed(TimersBefore(timers, log, n), TimeBefore(from, acts, n), acts[n], m)
    ensures RunsTo(timers, from, acts[..n + 1], log + [m])
  {
    var acts', log' := acts[..n + 1], log + [m];
    assert acts'[..n] == acts[..n] && log'[..n] == log;
    assert TimersBefore(timers, log', n) == TimersBefore(timers, log, n)
      && TimeBefore(from, acts', n) == TimeBefore(from, acts, n);
  }

  /** Within less than a wrap, a smaller tick is a later epoch. */
  lemma WrapShows(e: nat, from: nat, now: nat)
    requires Start(e) <= from < Start(e) + WRAP && from <= now < from + WRAP
    ensures Wrap(now) < Wrap(from) <==> Start(e) + WRAP <= now
  {
    ShownInEpoch(e, from);
    ShownInEpoch(e, now);
  }

  lemma FollowedOrders(before: map<TimerId, Timer>, from: nat, act: Act, m: Moment, id: TimerId)
    requires Followed(before, from, act, m) && id in before
    ensures OrdersOf(m.timers[id]) ==
            if act.Do? && act.id == id then Told(OrdersOf(before[id]), act.at, act.command) else OrdersOf(before[id])
  {
    assert act.Do? && act.id != id ==> MayHaveFired(before[id], m.timers[id]);
  }

  /** Every timer is always under the orders the schedule gave it. */
  lemma {:induction false} OrdersAreKept(timers: map<TimerId, Timer>, from: nat, acts: seq<Act>, log: seq<Moment>,
                                         i: nat, id: TimerId)
    requires RunsTo(timers, from, acts, log) && i < |acts| && id in timers
    ensures log[i].timers.Keys == timers.Keys
    ensures OrdersOf(log[i].timers[id]) == OrdersAfter(OrdersOf(timers[id]), acts[..i + 1], id)
    decreases |acts|, i
  {
    var n := |acts| - 1;
    if i < n {
      OrdersAreKept(timers, from, acts[..n], log[..n], i, id);
      assert acts[..n][..i + 1] == acts[..i + 1];
    } else {
      if n > 0 {
        OrdersAreKept(timers, from, acts[..n], log[..n], n - 1, id);
        assert acts[..n][..n] == acts[..n];
      } else {
        assert acts[..0] == [];
      }
      FollowedOrders(TimersBefore(timers, log, n), TimeBefore(from, acts, n), acts[n], log[n], id);
      assert acts[..i + 1] == acts;
    }
  }

  lemma {:induction false} WasFollowed(timers: map<TimerId, Timer>, from: nat, acts: seq<Act>, log: seq<Moment>, i: nat)
    requires RunsTo(timers, from, acts, log) && i < |acts|
    ensures Followed(TimersBefore(timers, log, i), TimeBefore(from, acts, i), acts[i], log[i])
    decreases |acts|
  {
    if i < |acts| - 1 {
      WasFollowed(timers, from, acts[..|acts| - 1], log[..|acts| - 1], i);
    }
  }

  /** As long as there is no other, the last command to a timer determines the orders it is under. */
  lemma OrdersSince(timers: map<TimerId, Timer>, from: nat, acts: seq<Act>, log: seq<Moment>, k: nat, i: nat,
                    id: TimerId)
    requires RunsTo(timers, from, acts, log) && k <= i < |acts| && id in timers
    requires acts[k].Do? && acts[k].id == id
    requires forall j :: k < j <= i && acts[j].Do? ==> acts[j].id != id
    ensures id in log[i].timers
    ensures OrdersOf(log[i].timers[id])
            == Told(OrdersAfter(OrdersOf(timers[id]), acts[..k], id), acts[k].at, acts[k].command)
  {
    OrdersAreKept(timers, from, acts, log, i, id);
    LastCommandDecides(OrdersOf(timers[id]), acts[..i + 1], id, k);
    assert acts[..i + 1][..k] == acts[..k];
  }

  /** Whole periods elapsed, and at most one for a timer that does not repeat. */
  lemma FiredByIs(t: Timer, now: nat)
    requires t.started <= now
    ensures var periods := (now - t.started) / t.period;
            FiredBy(t, now) == if t.autoReload then periods else if periods == 0 then 0 else 1
  {
    if now < t.started + t.period {
      QuotientIs(now - t.started, t.period, 0);
    } else {
      PeriodsIsProduct((now - t.started) / t.period, t.period);
      assert (now - t.started) / t.period > 0;
    }
  }

  /** Acts follow one another in time, and a command is read after it was sent. */
  lemma {:induction false} TimesGrow(timers: map<TimerId, Timer>, from: nat, acts: seq<Act>, log: seq<Moment>,
                                     k: nat, i: nat)
    requires RunsTo(timers, from, acts, log) && k <= i < |acts|
    ensures acts[k].at <= acts[i].at && (acts[k].Do? ==> InTime(acts[k]))
    decreases i
  {
    WasFollowed(timers, from, acts, log, i);
    if k < i {
      TimesGrow(timers, from, acts, log, k, i - 1);
    }
  }

  /** The timer service over whole runs. A timer last started at true time S (when the command was sent, or a
      change of period read), with no command to it since, has been called exactly floor((T - S) / P) times
      whenever the daemon goes to sleep at true time T, and at no moment more often; a one-shot timer once. */
  lemma NeitherDriftsNorLosesAFiring(timers: map<TimerId, Timer>, from: nat, acts: seq<Act>, log: seq<Moment>,
                                     k: nat, i: nat, id: TimerId)
    requires RunsTo(timers, from, acts, log) && k <= i < |acts| && id in timers
    requires acts[k].Do? && acts[k].id == id && !acts[k].command.Halt?
    requires forall j :: k < j <= i && acts[j].Do? ==> acts[j].id != id
    ensures id in log[i].timers
    ensures var orders := Told(OrdersAfter(OrdersOf(timers[id]), acts[..k], id), acts[k].at, acts[k].command);
            var periods := (acts[i].at - orders.started) / orders.period;
            var due := if orders.autoReload then periods else if periods == 0 then 0 else 1;
            log[i].timers[id].fired <= due && (log[i].pass.Blocked? ==> log[i].timers[id].fired == due)
  {
    OrdersSince(timers, from, acts, log, k, i, id);
    WasFollowed(timers, from, acts, log, i);
    TimesGrow(timers, from, acts, log, k, i);
    FiredByIs(log[i].timers[id], acts[i].at);
  }

  /** A stopped timer is left alone until the next command to it. */
  lemma {:induction false} StoppedStaysStopped(timers: map<TimerId, Timer>, from: nat, acts: seq<Act>, log: seq<Moment>,
                                               k: nat, i: nat, id: TimerId)
    requires RunsTo(timers, from, acts, log) && k <= i < |acts| && id in timers
    requires acts[k] == Do(acts[k].at, id, Halt)
    requires forall j :: k < j <= i && acts[j].Do? ==> acts[j].id != id
    ensures id in log[i].timers && id in log[k].timers && log[i].timers[id] == log[k].timers[id]
    ensures !log[i].timers[id].active && !log[i].timers[id].listed
    decreases i
  {
    OrdersAreKept(timers, from, acts, log, i, id);
    WasFollowed(timers, from, acts, log, i);
    if k < i {
      StoppedStaysStopped(timers, from, acts, log, k, i - 1, id);
    }
  }

  // ---------- The daemon ----------

  class TimerDaemon {
    var timers: map<TimerId, Timer>
    var current: seq<Entry>
    var overflow: seq<Entry>
    var lastTime: Tick
    ghost var epoch: nat
    ghost var clock: nat

    ghost function View(): World
      reads this
    {
      World(timers, Start(epoch), clock, current, overflow)
    }

    ghost predicate Valid()
      reads this
    {
      OkBut(View(), NONE) && lastTime == Wrap(clock)
    }

    constructor ()
      ensures Valid() && timers == map[] && clock == 0
    {
      timers, current, overflow, lastTime := map[], [], [], 0;
      epoch, clock := 0, 0;
    }

    /** prvInsertTimerInActiveList, for a timer whose period is counted from the command time. */
    method InsertTimerInActiveList(id: TimerId, next: Tick, now: Tick, command: Tick, ghost trueCommand: nat)
      returns (processNow: bool)
      requires id in timers && Start(epoch) <= clock < Start(epoch) + WRAP
      requires now == Wrap(clock) && command == Wrap(trueCommand) && next == Add(command, timers[id].period)
      requires trueCommand <= clock < trueCommand + WRAP
      modifies `current, `overflow
      ensures Attempted(old(View()), View(), id, trueCommand + timers[id].period, processNow)
    {
      ClassifyIsTrue(epoch, trueCommand, clock, timers[id].period);
      ShownInEpoch(epoch, trueCommand + timers[id].period);
      processNow := false;
      if next <= now {
        if Sub(now, command) >= timers[id].period {
          processNow := true;
        } else {
          overflow := Insert(overflow, Entry(next, id));
        }
      } else {
        if now < command && next >= command {
          processNow := true;
        } else {
          current := Insert(current, Entry(next, id));
        }
      }
    }

    /** The body of the loop of prvReloadTimer, and its next test: a callback for the expiry reached. */
    method CallAndRetry(id: TimerId, at: Tick, now: Tick, ghost reached: nat, ghost w: World, ghost calls: nat)
      returns (again: bool)
      requires Reloading(w, View(), id, calls) && Attempted(w, View(), id, reached, true)
      requires Start(epoch) <= clock < Start(epoch) + WRAP
      requires now == Wrap(clock) && at == Wrap(reached) && reached <= clock < reached + WRAP
      modifies `current, `overflow, `timers
      ensures Reloading(w, View(), id, calls + 1)
      ensures Attempted(w, View(), id, reached + w.timers[id].period, again)
    {
      LastUpdateWins(w.timers, id, timers[id], timers[id].(fired := timers[id].fired + 1));
      timers := timers[id := timers[id].(fired := timers[id].fired + 1)];  // the callback runs
      again := InsertTimerInActiveList(id, Add(at, timers[id].period), now, at, reached);
    }

    /** prvReloadTimer: one extra callback for every period missed since the expiry. */
    method ReloadTimer(id: TimerId, expiredTime: Tick, now: Tick, ghost expired: nat) returns (ghost calls: nat)
      requires id in timers && Start(epoch) <= clock < Start(epoch) + WRAP
      requires now == Wrap(clock) && expiredTime == Wrap(expired) && expired <= clock < expired + WRAP
      modifies `current, `overflow, `timers
      ensures calls == (clock - expired) / old(timers)[id].period
      ensures Reloading(old(View()), View(), id, calls)
      ensures var next := expired + Periods(calls + 1, old(timers)[id].period);
              next - old(timers)[id].period <= clock < next && Inserted(old(View()), View(), id, next)
    {
      calls := 0;
      var at := expiredTime;
      ghost var reached, p := expired, timers[id].period;
      var again := InsertTimerInActiveList(id, Add(at, timers[id].period), now, at, reached);
      while again
        invariant Reloading(old(View()), View(), id, calls)
        invariant reached == expired + Periods(calls, p) && reached <= clock && at == Wrap(reached)
        invariant Attempted(old(View()), View(), id, reached + p, again)
        decreases clock - reached, again
      {
        DifferenceIsElapsed(reached, reached + p);
        at, reached := Add(at, timers[id].period), reached + p;
        again := CallAndRetry(id, at, now, reached, old(View()), calls);
        calls := calls + 1;
      }
      QuotientIs(clock - expired, p, calls);
    }

    /** The auto-reload branch of prvProcessExpiredTimer, and the callback after it. */
    method ReloadHead(id: TimerId, value: Tick, now: Tick, ghost w: World)
      requires OkBut(w, NONE) && w.current != [] && id == w.current[0].id && DueIn(w.timers, id, w.base)
      requires Filed(w.timers[id], w.clock) && w.timers[id].autoReload && Due(w.timers[id]) <= w.clock
      requires View() == HeadOff(w) && id in timers && w.base <= clock < w.base + WRAP
      requires now == Wrap(clock) && value == Wrap(Due(w.timers[id])) && clock < Due(w.timers[id]) + WRAP
      modifies `current, `overflow, `timers
      ensures HeadFired(w, View())
    {
      ghost var t, w1 := w.timers[id], View();
      ghost var extra := ReloadTimer(id, value, now, Due(t));
      timers := timers[id := timers[id].(fired := timers[id].fired + 1, listed := true)];  // the callback runs
      assert timers[id] == t.(fired := t.fired + extra + 1);
      RepeatFired(w, w1, View(), id, t, extra);
    }

    /** prvProcessExpiredTimer: take the head off, reload it if it repeats, run the callback. */
    method ProcessExpiredTimer(value: Tick, now: Tick)
      requires OkBut(View(), NONE) && current != [] && current[0].value == value && value <= now == Wrap(clock)
      modifies `current, `overflow, `timers
      ensures HeadFired(old(View()), View())
    {
      var id := current[0].id;
      ghost var w := View();
      HeadIsDue(w, value);
      ghost var t := timers[id];
      ShownInEpoch(epoch, clock);
      ShownInEpoch(epoch, Due(t));
      current := current[1..];
      timers := timers[id := timers[id].(listed := false)];
      if timers[id].autoReload {
        ReloadHead(id, value, now, w);
      } else {
        timers := timers[id := timers[id].(active := false)];
        timers := timers[id := timers[id].(fired := timers[id].fired + 1)];  // the callback runs
        LastUpdateWins(HeadOff(w).timers, id, t.(listed := false, active := false), Fire(t, clock));
        OnceFired(w, View(), id, t);
      }
    }

    /** The loop of prvSwitchTimerLists: whatever is left in the current list expired before the wrap. */
    method DrainCurrent()
      requires OkBut(View(), NONE) && clock == Start(epoch) + WRAP - 1
      modifies `current, `overflow, `timers
      ensures OkBut(View(), NONE) && current == [] && OnlyFired(old(timers), timers)
    {
      ShownInEpoch(epoch, clock);
      while current != []
        invariant OkBut(View(), NONE) && OnlyFired(old(timers), timers)
        decreases |current|
      {
        ghost var w := View();
        ProcessExpiredTimer(current[0].value, MAX_DELAY);
        HeadFiredOnlyFires(old(timers), w, View());
      }
    }

    /** prvSwitchTimerLists. */
    method SwitchTimerLists()
      requires OkBut(View(), NONE)
      modifies `current, `overflow, `timers, `epoch, `clock
      ensures OkBut(View(), NONE) && epoch == old(epoch) + 1 && clock == Start(epoch)
      ensures OnlyFired(old(timers), timers)
    {
      LaterKeeps(View(), Start(epoch) + WRAP - 1);
      clock := Start(epoch) + WRAP - 1;
      DrainCurrent();
      ghost var w := View();
      ShownInEpoch(epoch, clock);
      SwitchKeeps(w, w.base + WRAP);
      current, overflow := overflow, current;
      epoch, clock := epoch + 1, Start(epoch + 1);
      assert View() == w.(base := w.base + WRAP, clock := w.base + WRAP, current := w.overflow, overflow := []);
    }

    /** prvSampleTimeNow: a tick below the last one seen means that the count has wrapped. */
    method SampleTimeNow(tick: Tick, ghost trueNow: nat) returns (now: Tick, switched: bool)
      requires Valid() && tick == Wrap(trueNow) && clock <= trueNow < clock + WRAP
      modifies this
      ensures Valid() && clock == trueNow && now == tick
      ensures OnlyFired(old(timers), timers)
      ensures switched <==> Start(old(epoch)) + WRAP <= trueNow
      ensures switched ==> epoch == old(epoch) + 1
      ensures !switched ==>
              timers == old(timers) && current == old(current) && overflow == old(overflow) && epoch == old(epoch)
    {
      now := tick;
      ShownInEpoch(epoch, trueNow);
      ShownInEpoch(epoch, clock);
      switched := now < lastTime;
      if switched {
        SwitchTimerLists();
      }
      LaterKeeps(View(), trueNow);
      clock := trueNow;
      lastTime := now;
    }

    /** prvGetNextExpireTime: the next due time of any timer, or the wrap when none is due before it. */
    method GetNextExpireTime() returns (next: Tick, listWasEmpty: bool)
      requires Valid()
      ensures NextExpiry(View(), next, listWasEmpty)
    {
      HeadIsNext(View());
      listWasEmpty := current == [];
      next := if listWasEmpty then 0 else current[0].value;
    }

    /** prvProcessTimerOrBlockTask: a wrap changes the lists over, an expired head is fired, and otherwise
        the daemon sleeps, with every count exact, until the next timer is due or the wrap. */
    method ProcessTimerOrBlockTask(next: Tick, listWasEmpty: bool, tick: Tick, ghost trueNow: nat) returns (pass: Pass)
      requires Valid() && tick == Wrap(trueNow) && clock <= trueNow < clock + WRAP
      requires NextExpiry(View(), next, listWasEmpty)
      modifies this
      ensures Valid() && clock == trueNow && OnlyFired(old(timers), timers)
      ensures pass.Switched? <==> Start(old(epoch)) + WRAP <= trueNow
      ensures pass.Switched? <==> epoch != old(epoch)
      ensures !pass.Obeyed?
      ensures pass.Fired? ==> HeadFired(old(View()).(clock := trueNow), View())
      ensures pass.Blocked? ==> timers == old(timers) && Exact(timers, trueNow)
      ensures pass.Blocked? ==> NextDueIs(View(), trueNow + if pass.ticks == 0 then WRAP else pass.ticks)
      ensures pass.Blocked? && pass.ticks == 0 ==> tick == 0
      ensures pass.Blocked? ==> (pass.indefinitely <==> forall id :: id in timers ==> !timers[id].listed)
    {
      NextIsHead(View(), next, listWasEmpty);
      var now, switched := SampleTimeNow(tick, trueNow);
      if switched {
        return Switched;
      }
      ghost var w := View();
      ShownInEpoch(epoch, trueNow);
      if !listWasEmpty && next <= now {
        ProcessExpiredTimer(next, now);
        HeadFiredOnlyFires(old(timers), w, View());
        pass := Fired;
      } else {
        pass := Blocked(Sub(next, now), listWasEmpty && overflow == []);
        AllCountsAreExact(w);
        HeadIsNext(w);
        NoneListedIff(w);
      }
    }

    /** The daemon's loop with no command to obey: after finitely many passes it sleeps, with every count
        exact. */
    method WorkUntilAsleep(tick: Tick, ghost trueNow: nat) returns (pass: Pass)
      requires Valid() && tick == Wrap(trueNow) && clock <= trueNow < clock + WRAP
      modifies this
      ensures Valid() && clock == trueNow && pass.Blocked? && Exact(timers, trueNow) && OnlyFired(old(timers), timers)
    {
      pass := Switched;
      while !pass.Blocked?
        invariant Valid() && clock <= trueNow < clock + WRAP && OnlyFired(old(timers), timers)
        invariant pass.Blocked? ==> clock == trueNow && Exact(timers, trueNow)
        decreases Start(epoch) + WRAP <= trueNow, |DueNow(timers, trueNow)|, !pass.Blocked?
      {
        ghost var w := View();
        var next, empty := GetNextExpireTime();
        pass := ProcessTimerOrBlockTask(next, empty, tick, trueNow);
        OnlyFiredTwice(old(timers), w.timers, timers);
        if pass.Fired? {
          FiringLeavesFewer(w.(clock := trueNow), View());
          FewerMembers(DueNow(timers, trueNow), DueNow(w.timers, trueNow));
        }
        ShownInEpoch(epoch, trueNow);
      }
    }

    /** The start of every command: the timer leaves its list before the time is sampled. */
    method TakeOff(id: TimerId)
      requires Valid() && id in timers
      modifies `timers, `current, `overflow
      ensures Valid() && timers == old(timers)[id := old(timers)[id].(listed := false, phase := InHand)]
    {
      CommandBegins(View(), id);
      if timers[id].listed {
        current, overflow := WithoutId(current, id), WithoutId(overflow, id);
      } else {
        UnlistedIsNowhere(View(), id);
      }
      timers := timers[id := timers[id].(listed := false, phase := InHand)];
    }

    /** What every command begins with. */
    method TakeOffAndSample(id: TimerId, tick: Tick, ghost trueNow: nat) returns (now: Tick)
      requires Valid() && tick == Wrap(trueNow) && clock <= trueNow < clock + WRAP && id in timers
      modifies this
      ensures Valid() && clock == trueNow && now == tick && OthersOnlyFired(old(timers), timers, id)
      ensures timers[id] == old(timers)[id].(listed := false, phase := InHand)
    {
      TakeOff(id);
      ghost var off := timers[id];
      var switched;
      now, switched := SampleTimeNow(tick, trueNow);
      OthersSampled(old(timers), off, timers, id);
    }

    /** tmrCOMMAND_STOP. */
    method Stop(id: TimerId, tick: Tick, ghost trueNow: nat)
      requires Valid() && tick == Wrap(trueNow) && clock <= trueNow < clock + WRAP && id in timers
      modifies this
      ensures Valid() && clock == trueNow && OthersOnlyFired(old(timers), timers, id)
      ensures timers[id] == old(timers)[id].(active := false, phase := Halted, listed := false)
    {
      var _ := TakeOffAndSample(id, tick, trueNow);
      ghost var w := View();
      OthersStill(old(timers), timers, timers[id].(active := false, phase := Halted), id);
      timers := timers[id := timers[id].(active := false, phase := Halted)];
      SetKeeps(w, id, timers[id]);
    }

    /** A started timer that is due already: its callback runs, and once more for every period missed. */
    method FireLate(id: TimerId, command: Tick, now: Tick, trueCommand: nat, ghost w: World)
      requires OkBut(w, NONE) && id in w.timers && !w.timers[id].listed && id in timers
      requires View() == w.(timers := w.timers[id := SetGoing(w.timers[id], trueCommand)])
      requires now == Wrap(clock) && command == Wrap(trueCommand)
      requires trueCommand + timers[id].period <= clock < trueCommand + WRAP
               && Start(epoch) <= clock < Start(epoch) + WRAP
      modifies `timers, `current, `overflow
      ensures HasBegun(w, View(), id, trueCommand)
    {
      ghost var t := timers[id];
      if timers[id].autoReload {
        DifferenceIsElapsed(trueCommand, trueCommand + t.period);
        ghost var extra := ReloadTimer(id, Add(command, timers[id].period), now, trueCommand + t.period);
        timers := timers[id := timers[id].(fired := timers[id].fired + 1, listed := true)];  // the callback runs
        LastUpdateWins(w.timers, id, t, timers[id]);
        LateStart(w, View(), id, trueCommand, extra);
      } else {
        timers := timers[id := timers[id].(active := false)];
        timers := timers[id := timers[id].(fired := timers[id].fired + 1)];  // the callback runs
        LastUpdateWins(w.timers, id, t, timers[id]);
        LateOnce(w, View(), id, trueCommand);
      }
    }

    /** The insertion that starts a timer, and what is due at once if it comes late. */
    method BeginPeriods(id: TimerId, command: Tick, now: Tick, trueCommand: nat)
      requires OkBut(View(), NONE) && id in timers && !timers[id].listed
      requires now == Wrap(clock) && command == Wrap(trueCommand) && trueCommand <= clock < trueCommand + WRAP
      modifies `timers, `current, `overflow
      ensures HasBegun(old(View()), View(), id, trueCommand)
    {
      ghost var w := View();
      timers := timers[id := timers[id].(active := true, started := trueCommand, fired := 0, phase := Going)];
      ghost var t := timers[id];
      var late := InsertTimerInActiveList(id, Add(command, timers[id].period), now, command, trueCommand);
      if late {
        FireLate(id, command, now, trueCommand, w);
      } else {
        timers := timers[id := timers[id].(listed := true)];
        LastUpdateWins(w.timers, id, t, timers[id]);
        OnTimeStart(w, View(), id, trueCommand);
      }
    }

    /** tmrCOMMAND_START and tmrCOMMAND_RESET: the period counts from the time the command was sent. */
    method StartTimer(id: TimerId, command: Tick, tick: Tick, trueCommand: nat, ghost trueNow: nat)
      requires Valid() && tick == Wrap(trueNow) && clock <= trueNow < clock + WRAP && id in timers
      requires command == Wrap(trueCommand) && trueCommand <= trueNow < trueCommand + WRAP
      modifies this
      ensures Valid() && clock == trueNow && OthersOnlyFired(old(timers), timers, id)
      ensures timers[id] == Begun(old(timers)[id], trueCommand, trueNow)
    {
      var now := TakeOffAndSample(id, tick, trueNow);
      OthersStill(old(timers), timers, Begun(timers[id], trueCommand, trueNow), id);
      BeginPeriods(id, command, now, trueCommand);
    }

    /** The insertion that ends a change of period; it can only file the timer. */
    method RefileNow(id: TimerId, period: Period, now: Tick, trueNow: nat)
      requires OkBut(View(), NONE) && id in timers && !timers[id].listed && now == Wrap(clock) && trueNow == clock
      modifies `timers, `current, `overflow
      ensures OkBut(View(), NONE)
      ensures timers == old(timers)[id := Retimed(old(timers)[id], period, trueNow)]
    {
      ghost var w := View();
      timers := timers[id :=
        timers[id].(active := true, period := period, started := trueNow, fired := 0, phase := Going)];
      ghost var t := timers[id];
      var late := InsertTimerInActiveList(id, Add(now, timers[id].period), now, now, trueNow);
      assert !late && Inserted(w, View(), id, clock + period);
      timers := timers[id := timers[id].(listed := true)];
      LastUpdateWins(w.timers, id, t, timers[id]);
      assert timers[id] == Retimed(w.timers[id], period, trueNow);
      FreshlyFiled(w, View(), id, Retimed(w.timers[id], period, trueNow));
    }

    /** tmrCOMMAND_CHANGE_PERIOD: the new period counts from the time the command is read. */
    method ChangePeriod(id: TimerId, period: Period, tick: Tick, trueNow: nat)
      requires Valid() && tick == Wrap(trueNow) && clock <= trueNow < clock + WRAP && id in timers
      modifies this
      ensures Valid() && clock == trueNow && OthersOnlyFired(old(timers), timers, id)
      ensures timers[id] == Retimed(old(timers)[id], period, trueNow)
    {
      var now := TakeOffAndSample(id, tick, trueNow);
      OthersStill(old(timers), timers, Retimed(timers[id], period, trueNow), id);
      RefileNow(id, period, now, trueNow);
    }

    method Create(id: TimerId, period: Period, autoReload: bool)
      requires Valid() && id !in timers
      modifies `timers
      ensures Valid() && timers == old(timers)[id := Timer(period, autoReload, false, 0, 0, Halted, false)]
    {
      NewTimerKeeps(View(), id, Timer(period, autoReload, false, 0, 0, Halted, false));
      timers := timers[id := Timer(period, autoReload, false, 0, 0, Halted, false)];
    }

    /** The switch of prvProcessReceivedCommands. */
    method Obey(act: Act)
      requires Valid() && act.Do? && clock <= act.at < clock + WRAP && act.id in timers && InTime(act)
      modifies this
      ensures Valid() && clock == act.at && OthersOnlyFired(old(timers), timers, act.id)
      ensures timers[act.id] == Commanded(old(timers)[act.id], act.at, act.command)
    {
      match act.command {
      case SetOff(sent) => StartTimer(act.id, Wrap(sent), Wrap(act.at), sent, act.at);
      case Halt => Stop(act.id, Wrap(act.at), act.at);
      case Retime(period) => ChangePeriod(act.id, period, Wrap(act.at), act.at);
      }
    }

    /** One act of a schedule. */
    method Follow(act: Act) returns (pass: Pass)
      requires Valid() && clock <= act.at < clock + WRAP && (act.Do? ==> act.id in timers && InTime(act))
      modifies this
      ensures Valid() && clock == act.at
      ensures Followed(old(timers), old(clock), act, Moment(timers, pass))
    {
      if act.Turn? {
        ghost var w := View().(clock := act.at);
        WrapShows(epoch, clock, act.at);
        var next, empty := GetNextExpireTime();
        pass := ProcessTimerOrBlockTask(next, empty, Wrap(act.at), act.at);
        if pass.Fired? {
          FiringLeavesFewer(w, View());
          FewerMembers(DueNow(timers, act.at), DueNow(w.timers, act.at));
        }
      } else {
        Obey(act);
        OthersFired(old(timers), timers, act.id);
        pass := Obeyed;
      }
      NothingIsEarly(View());
    }

    /** prvTimerTask over any schedule of turns and commands, each at a time of its own. */
    method TimerTask(acts: seq<Act>) returns (log: seq<Moment>)
      requires Valid() && Paced(acts, clock, timers.Keys)
      modifies this
      ensures Valid() && RunsTo(old(timers), old(clock), acts, log)
    {
      log := [];
      var done := 0;
      while done < |acts|
        invariant done <= |acts| && Valid() && Paced(acts[done..], clock, timers.Keys)
        invariant |log| == done && RunsTo(old(timers), old(clock), acts[..done], log)
        invariant timers == TimersBefore(old(timers), log, done) && clock == TimeBefore(old(clock), acts, done)
      {
        PacedOn(acts, done, clock, timers.Keys);
        var pass := Follow(acts[done]);
        RunsOn(old(timers), old(clock), acts, log, done, Moment(timers, pass));
        log := log + [Moment(timers, pass)];
        done := done + 1;
      }
      assert acts[..done] == acts;
    }
  }
}
