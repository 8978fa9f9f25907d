/** The state lists of tasks.c: one ready list per priority with a bitmap of the non-empty ones, and the
    lists that hold every other task. */
module ReadyLists {
  import opened Sequences

  type Task = nat

  const MAX_PRIORITIES := 32
  const IDLE: Task := 0

  datatype Container = ReadyList(priority: nat) | DelayedList | OverflowList | SuspendedList

  /** The lists, the container of each task's state item, each uxPriority, uxTopReadyPriority as the set
      of its bits, and pxCurrentTCB. */
  datatype State = State(lists: map<Container, seq<Task>>, at: map<Task, Container>, priority: map<Task, nat>,
    top: set<nat>, current: Task)

  function L(s: State, c: Container): seq<Task> {
    if c in s.lists then s.lists[c] else []
  }

  function P(s: State, t: Task): nat {
    if t in s.priority then s.priority[t] else 0
  }

  predicate In(s: State, t: Task, c: Container) {
    t in s.at && s.at[t] == c
  }

  predicate IsReady(s: State, t: Task) {
    t in s.at && s.at[t].ReadyList?
  }

  /** uxListRemove. */
  function Unlisted(s: State, t: Task): State
    requires t in s.at
  {
    s.(lists := s.lists[s.at[t] := Without(L(s, s.at[t]), t)], at := s.at - {t})
  }

  /** listINSERT_END. */
  function Listed(s: State, t: Task, c: Container): State {
    s.(lists := s.lists[c := L(s, c) + [t]], at := s.at[t := c])
  }

  /** prvAddTaskToReadyList. */
  function AddToReady(s: State, t: Task): State {
    Listed(s.(top := s.top + {P(s, t)}), t, ReadyList(P(s, t)))
  }

  /** Taking a ready task off its list, and its bit down if that leaves the list empty. */
  function LeaveReady(s: State, t: Task): State
    requires t in s.at
  {
    var s' := Unlisted(s, t);
    if L(s', s.at[t]) == [] then s'.(top := s.top - {P(s, t)}) else s'
  }

  function WithPriority(s: State, t: Task, p: nat): State {
    s.(priority := s.priority[t := p])
  }

  /** The list work of xTaskPriorityInherit and xTaskPriorityDisinherit. */
  function Reprioritise(s: State, t: Task, p: nat): State {
    if In(s, t, ReadyList(P(s, t))) then AddToReady(WithPriority(LeaveReady(s, t), t, p), t) else WithPriority(s, t, p)
  }

  /** The list work of vTaskPriorityDisinheritAfterTimeout: the priority is changed first, so the bit
      that is reset when the old list becomes empty is the one of the new priority. */
  function ReprioritiseAfterTimeout(s: State, t: Task, p: nat): State {
    var previous := P(s, t);
    var s1 := WithPriority(s, t, p);
    if In(s1, t, ReadyList(previous)) then
      var s2 := Unlisted(s1, t);
      AddToReady(if L(s2, ReadyList(previous)) == [] then s2.(top := s2.top - {p}) else s2, t)
    else s1
  }

  /** A delayed or suspended task becomes ready. */
  function Unblock(s: State, t: Task): State
    requires t in s.at
  {
    AddToReady(Unlisted(s, t), t)
  }

  /** prvAddCurrentTaskToDelayedList. */
  function Block(s: State, t: Task, c: Container): State
    requires t in s.at
  {
    Listed(LeaveReady(s, t), t, c)
  }

  /** vTaskSuspend: the task may be in any list, so its ready list is looked at again. */
  function Suspend(s: State, t: Task): State
    requires t in s.at
  {
    var s1 := Unlisted(s, t);
    var s2 := if L(s1, s.at[t]) == [] && L(s1, ReadyList(P(s, t))) == [] then s1.(top := s1.top - {P(s, t)}) else s1;
    Listed(s2, t, SuspendedList)
  }

  // ---------- What the lists keep ----------

  ghost predicate ListsOk(s: State) {
    && (forall c: Container {:trigger L(s, c)} :: Distinct(L(s, c)))
    && (forall c: Container, t: Task {:trigger In(s, t, c)} {:trigger t in L(s, c)} :: t in L(s, c) <==> In(s, t, c))
  }

  /** A ready task is in the list of its current priority. */
  ghost predicate PrioritiesOk(s: State) {
    && (forall t: Task, p: nat {:trigger In(s, t, ReadyList(p))} :: In(s, t, ReadyList(p)) ==> P(s, t) == p)
    && (forall t: Task {:trigger s.priority[t]} :: t in s.priority ==> s.priority[t] < MAX_PRIORITIES)
  }

  /** Bit p is set exactly when list p is non-empty. */
  ghost predicate BitsOk(s: State) {
    forall p: nat {:trigger p in s.top} :: p in s.top <==> L(s, ReadyList(p)) != []
  }

  ghost predicate Sound(s: State) {
    ListsOk(s) && PrioritiesOk(s) && BitsOk(s) && IsReady(s, IDLE)
  }

  lemma UnlistedKeeps(s: State, t: Task)
    requires ListsOk(s) && t in s.at
    ensures ListsOk(Unlisted(s, t))
  {
    var s' := Unlisted(s, t);
    WithoutIs(L(s, s.at[t]), t);
    forall c: Container ensures Distinct(L(s', c)) && forall u: Task :: u in L(s', c) <==> In(s', u, c) {
      assert Distinct(L(s, c));
      assert forall u: Task :: u in L(s, c) <==> In(s, u, c);
    }
  }

  lemma ListedKeeps(s: State, t: Task, c: Container)
    requires ListsOk(s) && t !in s.at
    ensures ListsOk(Listed(s, t, c))
  {
    var s' := Listed(s, t, c);
    forall d: Container ensures Distinct(L(s', d)) && forall u: Task :: u in L(s', d) <==> In(s', u, d) {
      assert Distinct(L(s, d));
      assert forall u: Task :: u in L(s, d) <==> In(s, u, d);
      assert !In(s, t, d);
    }
  }

  lemma UnlistedBits(s: State, t: Task)
    requires ListsOk(s) && BitsOk(s) && t in s.at
    ensures forall p: nat :: s.at[t] != ReadyList(p) ==> (p in s.top <==> L(Unlisted(s, t), ReadyList(p)) != [])
    ensures s.at[t].ReadyList? ==> s.at[t].priority in s.top
  {
    assert In(s, t, s.at[t]);
  }

  lemma LeaveReadyKeeps(s: State, t: Task)
    requires ListsOk(s) && PrioritiesOk(s) && BitsOk(s) && In(s, t, ReadyList(P(s, t)))
    ensures ListsOk(LeaveReady(s, t)) && PrioritiesOk(LeaveReady(s, t)) && BitsOk(LeaveReady(s, t))
    ensures LeaveReady(s, t).at == s.at - {t} && LeaveReady(s, t).priority == s.priority
  {
    var s' := LeaveReady(s, t);
    UnlistedKeeps(s, t);
    UnlistedBits(s, t);
    assert forall c: Container :: L(s', c) == L(Unlisted(s, t), c);
    assert forall u: Task, p: nat :: In(s', u, ReadyList(p)) ==> In(s, u, ReadyList(p));
  }

  lemma AddToReadyKeeps(s: State, t: Task)
    requires ListsOk(s) && PrioritiesOk(s) && BitsOk(s) && t !in s.at
    ensures ListsOk(AddToReady(s, t)) && PrioritiesOk(AddToReady(s, t)) && BitsOk(AddToReady(s, t))
    ensures AddToReady(s, t).at == s.at[t := ReadyList(P(s, t))] && AddToReady(s, t).priority == s.priority
  {
    var s1 := s.(top := s.top + {P(s, t)});
    var s' := AddToReady(s, t);
    assert forall c: Container :: L(s1, c) == L(s, c);
    assert forall u: Task, c: Container :: In(s1, u, c) == In(s, u, c);
    assert ListsOk(s1) by {
      forall c: Container, u: Task ensures Distinct(L(s1, c)) && (u in L(s1, c) <==> In(s1, u, c)) {
        assert Distinct(L(s, c)) && (u in L(s, c) <==> In(s, u, c));
      }
    }
    ListedKeeps(s1, t, ReadyList(P(s, t)));
    forall u: Task, p: nat | In(s', u, ReadyList(p)) ensures P(s', u) == p {
      if u != t {
        assert In(s, u, ReadyList(p));
      }
    }
  }

  lemma WithPriorityKeeps(s: State, t: Task, p: nat)
    requires ListsOk(s) && PrioritiesOk(s) && BitsOk(s) && !IsReady(s, t) && p < MAX_PRIORITIES
    ensures ListsOk(WithPriority(s, t, p)) && PrioritiesOk(WithPriority(s, t, p)) && BitsOk(WithPriority(s, t, p))
  {
    var s' := WithPriority(s, t, p);
    assert forall c: Container :: L(s', c) == L(s, c);
    assert forall u: Task, c: Container :: In(s', u, c) == In(s, u, c);
  }

  lemma ReprioritiseKeeps(s: State, t: Task, p: nat)
    requires Sound(s) && p < MAX_PRIORITIES
    ensures Sound(Reprioritise(s, t, p))
    ensures t in s.priority ==> forall u :: u in s.at ==> IsReady(Reprioritise(s, t, p), u) == IsReady(s, u)
  {
    if In(s, t, ReadyList(P(s, t))) {
      LeaveReadyKeeps(s, t);
      WithPriorityKeeps(LeaveReady(s, t), t, p);
      AddToReadyKeeps(WithPriority(LeaveReady(s, t), t, p), t);
    } else {
      assert !IsReady(s, t) by {
        if IsReady(s, t) {
          assert In(s, t, ReadyList(s.at[t].priority));
        }
      }
      WithPriorityKeeps(s, t, p);
    }
  }

  /** The change of priority moves the task between ready lists at most. */
  lemma ReprioritiseMoves(s: State, t: Task, p: nat)
    ensures var s' := Reprioritise(s, t, p);
            && s'.priority == s.priority[t := p] && s'.at.Keys == s.at.Keys
            && forall u: Task :: IsReady(s', u) <==> IsReady(s, u)
  {
    var s' := Reprioritise(s, t, p);
    if In(s, t, ReadyList(P(s, t))) {
      assert s'.at == s.at[t := ReadyList(p)];
    }
  }

  lemma BlockKeeps(s: State, t: Task, c: Container)
    requires Sound(s) && In(s, t, ReadyList(P(s, t))) && t != IDLE && !c.ReadyList?
    ensures Sound(Block(s, t, c))
  {
    LeaveReadyKeeps(s, t);
    ListedElsewhereKeeps(LeaveReady(s, t), t, c);
  }

  lemma ListedElsewhereKeeps(s: State, t: Task, c: Container)
    requires ListsOk(s) && PrioritiesOk(s) && BitsOk(s) && t !in s.at && !c.ReadyList?
    ensures ListsOk(Listed(s, t, c)) && PrioritiesOk(Listed(s, t, c)) && BitsOk(Listed(s, t, c))
  {
    ListedKeeps(s, t, c);
    var s' := Listed(s, t, c);
    assert forall p: nat :: L(s', ReadyList(p)) == L(s, ReadyList(p));
    assert forall u: Task, p: nat :: In(s', u, ReadyList(p)) ==> In(s, u, ReadyList(p));
  }

  lemma UnlistedParkedKeeps(s: State, t: Task)
    requires ListsOk(s) && PrioritiesOk(s) && BitsOk(s) && t in s.at && !IsReady(s, t)
    ensures ListsOk(Unlisted(s, t)) && PrioritiesOk(Unlisted(s, t)) && BitsOk(Unlisted(s, t))
  {
    UnlistedKeeps(s, t);
    UnlistedBits(s, t);
    assert forall u: Task, p: nat :: In(Unlisted(s, t), u, ReadyList(p)) ==> In(s, u, ReadyList(p));
  }

  lemma UnblockKeeps(s: State, t: Task)
    requires Sound(s) && t in s.at && !IsReady(s, t)
    ensures Sound(Unblock(s, t))
  {
    UnlistedParkedKeeps(s, t);
    AddToReadyKeeps(Unlisted(s, t), t);
  }

  lemma SuspendKeeps(s: State, t: Task)
    requires Sound(s) && t in s.at && t != IDLE
    ensures Sound(Suspend(s, t))
  {
    if IsReady(s, t) {
      assert In(s, t, ReadyList(s.at[t].priority));
      LeaveReadyKeeps(s, t);
      ListedElsewhereKeeps(LeaveReady(s, t), t, SuspendedList);
    } else {
      UnlistedParkedKeeps(s, t);
      var s1 := Unlisted(s, t);
      assert L(s1, ReadyList(P(s, t))) == [] ==> s1.top - {P(s, t)} == s1.top;
      ListedElsewhereKeeps(s1, t, SuspendedList);
    }
  }

  // ---------- The reset of the wrong bit ----------

  /** When resetting the bit of the new priority does no harm: the task is not in a ready list, its
      priority does not change, or its old list keeps another task. */
  predicate TimeoutIsSafe(s: State, t: Task, p: nat) {
    !In(s, t, ReadyList(P(s, t))) || p == P(s, t) || |L(s, ReadyList(P(s, t)))| > 1
  }

  lemma SafeIsReprioritise(s: State, t: Task, p: nat)
    requires Sound(s) && TimeoutIsSafe(s, t, p)
    ensures ReprioritiseAfterTimeout(s, t, p) == Reprioritise(s, t, p)
  {
    if In(s, t, ReadyList(P(s, t))) {
      WithoutLength(L(s, ReadyList(P(s, t))), t);
      assert WithPriority(s, t, p).at == s.at;
      if |L(s, ReadyList(P(s, t)))| > 1 {
        assert L(Unlisted(s, t), ReadyList(P(s, t))) != [];
      }
    }
  }

  /** The bitmap survives exactly then; otherwise the bit of a list just emptied stays set. */
  lemma TimeoutKeepsIff(s: State, t: Task, p: nat)
    requires Sound(s) && p < MAX_PRIORITIES
    ensures Sound(ReprioritiseAfterTimeout(s, t, p)) <==> TimeoutIsSafe(s, t, p)
  {
    var before := P(s, t);
    if TimeoutIsSafe(s, t, p) {
      SafeIsReprioritise(s, t, p);
      ReprioritiseKeeps(s, t, p);
    } else {
      WithoutLength(L(s, ReadyList(before)), t);
      assert L(s, ReadyList(before)) != [];
      var s' := ReprioritiseAfterTimeout(s, t, p);
      assert before in s'.top && L(s', ReadyList(before)) == [];
    }
  }

  /** Why the kernel gets away with it: the one who calls is running, at a priority no higher than the
      holder's, so a ready holder shares its list with the caller. */
  lemma RunningWaiterMakesItSafe(s: State, t: Task, p: nat)
    requires Sound(s) && IsReady(s, s.current) && s.current != t
    requires forall u: Task {:trigger IsReady(s, u)} :: IsReady(s, u) ==> P(s, u) <= P(s, s.current)
    requires P(s, t) >= P(s, s.current)
    ensures TimeoutIsSafe(s, t, p)
  {
    if In(s, t, ReadyList(P(s, t))) {
      assert IsReady(s, t);
      assert In(s, s.current, ReadyList(s.at[s.current].priority));
    }
  }

  // ---------- Choosing the next task ----------

  /** portGET_HIGHEST_PRIORITY: the highest bit set. */
  function Highest(top: set<nat>, n: nat): nat {
    if n in top || n == 0 then n else Highest(top, n - 1)
  }

  lemma {:induction false} HighestIs(top: set<nat>, n: nat, p: nat)
    requires p in top && p <= n && forall q :: q in top ==> q <= p
    ensures Highest(top, n) == p
  {
    if n != p {
      HighestIs(top, n - 1, p);
    }
  }

  lemma {:induction false} HighestIsHighest(top: set<nat>, n: nat)
    requires exists p :: p in top && p <= n
    ensures Highest(top, n) in top && Highest(top, n) <= n
    ensures forall q :: q in top && q <= n ==> q <= Highest(top, n)
  {
    if n !in top {
      HighestIsHighest(top, n - 1);
    }
  }

  function Selected(s: State): seq<Task> {
    L(s, ReadyList(Highest(s.top, MAX_PRIORITIES - 1)))
  }

  /** The list vTaskSwitchContext selects from is not empty, and no ready task outranks its members. */
  lemma SwitchSelectsAHighest(s: State, t: Task)
    requires Sound(s)
    ensures Selected(s) != []
    ensures t in Selected(s) ==> IsReady(s, t) && forall u: Task {:trigger IsReady(s, u)} :: IsReady(s, u) ==>
            P(s, u) <= P(s, t)
  {
    assert forall u: Task :: IsReady(s, u) ==> In(s, u, ReadyList(s.at[u].priority));
    assert forall u: Task :: IsReady(s, u) ==> s.at[u] == ReadyList(P(s, u));
    assert IDLE in L(s, ReadyList(P(s, IDLE)));
    assert P(s, IDLE) in s.top;
    HighestIsHighest(s.top, MAX_PRIORITIES - 1);
    if t in Selected(s) {
      assert In(s, t, ReadyList(Highest(s.top, MAX_PRIORITIES - 1)));
      forall u: Task | IsReady(s, u) ensures P(s, u) <= P(s, t) {
        assert u in L(s, ReadyList(P(s, u)));
        assert P(s, u) in s.top && P(s, u) <= MAX_PRIORITIES - 1;
      }
    }
  }

  // ---------- Every run ----------

  datatype Event =
    | Create(task: Task, priority: nat)
    | Delay(container: Container)
    | MakeReady(task: Task)
    | MakeSuspended(task: Task)
    | Inherit(task: Task, priority: nat)
    | Disinherit(task: Task, priority: nat)
    | DisinheritLate(task: Task, priority: nat)
    | Switch(task: Task)

  predicate Enabled(s: State, e: Event) {
    match e
    case Create(t, p) => t !in s.at && p < MAX_PRIORITIES
    case Delay(c) => IsReady(s, s.current) && s.current != IDLE && !c.ReadyList?
    case MakeReady(t) => t in s.at && !IsReady(s, t)
    case MakeSuspended(t) => t in s.at && t != IDLE
    case Inherit(t, p) => p < MAX_PRIORITIES
    case Disinherit(t, p) => p < MAX_PRIORITIES
    case DisinheritLate(t, p) => p < MAX_PRIORITIES && TimeoutIsSafe(s, t, p)
    case Switch(t) => t in Selected(s)
  }

  function Apply(s: State, e: Event): State
    requires Enabled(s, e)
  {
    match e
    case Create(t, p) => AddToReady(WithPriority(s, t, p), t)
    case Delay(c) => Block(s, s.current, c)
    case MakeReady(t) => Unblock(s, t)
    case MakeSuspended(t) => Suspend(s, t)
    case Inherit(t, p) => Reprioritise(s, t, p)
    case Disinherit(t, p) => Reprioritise(s, t, p)
    case DisinheritLate(t, p) => ReprioritiseAfterTimeout(s, t, p)
    case Switch(t) => s.(current := t)
  }

  ghost predicate CanRun(s: State, es: seq<Event>)
    decreases |es|
  {
    es != [] ==> Enabled(s, es[0]) && CanRun(Apply(s, es[0]), es[1..])
  }

  function Run(s: State, es: seq<Event>): State
    requires CanRun(s, es)
    decreases |es|
  {
    if es == [] then s else Run(Apply(s, es[0]), es[1..])
  }

  lemma CreateKeeps(s: State, t: Task, p: nat)
    requires Sound(s) && t !in s.at && p < MAX_PRIORITIES
    ensures Sound(AddToReady(WithPriority(s, t, p), t))
  {
    WithPriorityKeeps(s, t, p);
    AddToReadyKeeps(WithPriority(s, t, p), t);
  }

  lemma CurrentKeeps(s: State, t: Task)
    requires Sound(s)
    ensures Sound(s.(current := t))
  {
    var s' := s.(current := t);
    assert forall c: Container :: L(s', c) == L(s, c);
    assert forall u: Task, c: Container :: In(s', u, c) == In(s, u, c);
  }

  lemma StepKeeps(s: State, e: Event)
    requires Sound(s) && Enabled(s, e)
    ensures Sound(Apply(s, e))
  {
    match e {
      case Create(t, p) => CreateKeeps(s, t, p);
      case Delay(c) =>
        assert In(s, s.current, ReadyList(s.at[s.current].priority));
        BlockKeeps(s, s.current, c);
      case MakeReady(t) => UnblockKeeps(s, t);
      case MakeSuspended(t) => SuspendKeeps(s, t);
      case Inherit(t, p) => ReprioritiseKeeps(s, t, p);
      case Disinherit(t, p) => ReprioritiseKeeps(s, t, p);
      case DisinheritLate(t, p) => TimeoutKeepsIff(s, t, p);
      case Switch(t) => CurrentKeeps(s, t);
    }
  }

  function Booted(): State {
    State(map[ReadyList(0) := [IDLE]], map[IDLE := ReadyList(0)], map[IDLE := 0], {0}, IDLE)
  }

  lemma BootedIsSound()
    ensures Sound(Booted())
  {
    assert forall c: Container :: c != ReadyList(0) ==> L(Booted(), c) == [];
    assert L(Booted(), ReadyList(0)) == [IDLE];
  }

  lemma {:induction false} RunKeeps(s: State, es: seq<Event>)
    requires Sound(s) && CanRun(s, es)
    ensures Sound(Run(s, es))
    decreases |es|
  {
    if es != [] {
      StepKeeps(s, es[0]);
      RunKeeps(Apply(s, es[0]), es[1..]);
    }
  }

  /** In every state the kernel can reach, each task is in the one list its state item names, the bitmap
      is that of the non-empty ready lists, and the next switch can only select a task that no ready
      task outranks. */
  lemma ReadyStructureHolds(es: seq<Event>, t: Task)
    requires CanRun(Booted(), es)
    ensures var s := Run(Booted(), es);
            && (forall c: Container, u: Task {:trigger In(s, u, c)} :: u in L(s, c) <==> In(s, u, c))
            && (forall p: nat {:trigger p in s.top} :: p in s.top <==> L(s, ReadyList(p)) != [])
            && (IsReady(s, t) ==> t in L(s, ReadyList(P(s, t))))
            && Selected(s) != []
            && (t in Selected(s) ==> forall u: Task {:trigger IsReady(s, u)} :: IsReady(s, u) ==> P(s, u) <= P(s, t))
  {
    BootedIsSound();
    RunKeeps(Booted(), es);
    var s := Run(Booted(), es);
    SwitchSelectsAHighest(s, t);
    if IsReady(s, t) {
      assert In(s, t, ReadyList(s.at[t].priority));
    }
  }

  /** A task is created with priority 1, inherits priority 5, and is alone there when the inheritance is undone after a
      timeout: the next switch looks for its task in an empty list. */
  lemma StaleBitExample()
    ensures CanRun(Booted(), [Create(1, 1), Inherit(1, 5)])
    ensures var s := ReprioritiseAfterTimeout(Run(Booted(), [Create(1, 1), Inherit(1, 5)]), 1, 1);
            Highest(s.top, MAX_PRIORITIES - 1) == 5 && L(s, ReadyList(5)) == []
  {
    var es := [Create(1, 1), Inherit(1, 5)];
    var s1 := Apply(Booted(), es[0]);
    assert s1.at[1] == ReadyList(1) && s1.priority[1] == 1 && s1.top == {0, 1} && L(s1, ReadyList(1)) == [1];
    var s2 := Apply(s1, es[1]);
    assert s2.at[1] == ReadyList(5) && s2.priority[1] == 5 && s2.top == {0, 5} && L(s2, ReadyList(5)) == [1];
    assert es[1..] == [es[1]] && es[1..][1..] == [] && Run(Booted(), es) == s2;
    HighestIs(ReprioritiseAfterTimeout(s2, 1, 1).top, MAX_PRIORITIES - 1, 5);
  }

  // ---------- The lists as they are updated in place ----------

  class Scheduler {
    var lists: map<Container, seq<Task>>
    var at: map<Task, Container>
    var priority: map<Task, nat>
    var uxTopReadyPriority: set<nat>
    var current: Task

    ghost function View(): State
      reads this
    {
      State(lists, at, priority, uxTopReadyPriority, current)
    }

    constructor ()
      ensures View() == Booted() && Sound(View())
    {
      lists, at, priority := map[ReadyList(0) := [IDLE]], map[IDLE := ReadyList(0)], map[IDLE := 0];
      uxTopReadyPriority, current := {0}, IDLE;
      new;
    }

    function Items(c: Container): seq<Task>
      reads this
    {
      if c in lists then lists[c] else []
    }

    /** uxListRemove on the state item: how many items the list still has. */
    method ListRemove(t: Task) returns (remaining: nat)
      requires t in at
      modifies `lists, `at
      ensures View() == Unlisted(old(View()), t) && remaining == |L(View(), old(at)[t])|
      ensures at == old(at) - {t} && Items(old(at)[t]) == Without(old(Items(at[t])), t)
    {
      var c := at[t];
      lists := lists[c := Without(Items(c), t)];
      at := at - {t};
      remaining := |lists[c]|;
    }

    method AddTaskToReadyList(t: Task)
      requires t in priority
      modifies `lists, `at, `uxTopReadyPriority
      ensures View() == AddToReady(old(View()), t)
      ensures at == old(at)[t := ReadyList(priority[t])]
      ensures Items(ReadyList(priority[t])) == old(Items(ReadyList(priority[t]))) + [t]
      ensures uxTopReadyPriority == old(uxTopReadyPriority) + {priority[t]}
    {
      uxTopReadyPriority := uxTopReadyPriority + {priority[t]};
      lists := lists[ReadyList(priority[t]) := Items(ReadyList(priority[t])) + [t]];
      at := at[t := ReadyList(priority[t])];
    }

    /** xTaskPriorityInherit, the ready list part: the running task lends its priority. */
    method PriorityInherit(holder: Task) returns (inherited: bool)
      requires holder in priority && current in priority && priority[current] < MAX_PRIORITIES
      modifies this
      ensures inherited == (old(priority[holder]) < old(priority[current]))
      ensures View() == if inherited then Reprioritise(old(View()), holder, old(priority[current])) else old(View())
      ensures priority == if inherited then old(priority)[holder := old(priority[current])] else old(priority)
      ensures !inherited ==> unchanged(this)
      ensures Sound(old(View())) ==> Sound(View())
    {
      if Sound(View()) {
        ReprioritiseKeeps(View(), holder, priority[current]);
      }
      inherited := priority[holder] < priority[current];
      if inherited {
        if holder in at && at[holder] == ReadyList(priority[holder]) {
          var remaining := ListRemove(holder);
          if remaining == 0 {
            uxTopReadyPriority := uxTopReadyPriority - {priority[holder]};
          }
          priority := priority[holder := priority[current]];
          AddTaskToReadyList(holder);
        } else {
          priority := priority[holder := priority[current]];
        }
      }
    }

    /** xTaskPriorityDisinherit, once the last mutex has been given: the running task is in its list. */
    method PriorityDisinherit(base: nat)
      requires current in priority && In(View(), current, ReadyList(priority[current])) && base < MAX_PRIORITIES
      modifies this
      ensures View() == Reprioritise(old(View()), current, base)
      ensures priority == old(priority)[current := base] && at == old(at)[current := ReadyList(base)]
      ensures Sound(old(View())) ==> Sound(View())
    {
      if Sound(View()) {
        ReprioritiseKeeps(View(), current, base);
      }
      var remaining := ListRemove(current);
      if remaining == 0 {
        uxTopReadyPriority := uxTopReadyPriority - {priority[current]};
      }
      priority := priority[current := base];
      AddTaskToReadyList(current);
    }

    /** vTaskPriorityDisinheritAfterTimeout, once it has decided on the priority to use. */
    method PriorityDisinheritAfterTimeout(holder: Task, priorityToUse: nat)
      requires holder in priority && priorityToUse < MAX_PRIORITIES
      modifies this
      ensures View() == ReprioritiseAfterTimeout(old(View()), holder, priorityToUse)
      ensures priority == old(priority)[holder := priorityToUse]
      ensures at == if holder in old(at) && old(at)[holder] == ReadyList(old(priority)[holder])
              then old(at)[holder := ReadyList(priorityToUse)] else old(at)
      ensures Sound(old(View())) ==> (Sound(View()) <==> TimeoutIsSafe(old(View()), holder, priorityToUse))
    {
      if Sound(View()) {
        TimeoutKeepsIff(View(), holder, priorityToUse);
      }
      var priorityUsedOnEntry := priority[holder];
      priority := priority[holder := priorityToUse];
      if holder in at && at[holder] == ReadyList(priorityUsedOnEntry) {
        var remaining := ListRemove(holder);
        if remaining == 0 {
          uxTopReadyPriority := uxTopReadyPriority - {priority[holder]};
        }
        AddTaskToReadyList(holder);
      }
    }

    /** vTaskSwitchContext with the scheduler running; place stands for where the list's index is. */
    method SwitchContext(place: nat)
      requires Sound(View()) && place < |Selected(View())|
      modifies `current
      ensures View() == old(View()).(current := Selected(old(View()))[place]) && Sound(View())
      ensures IsReady(View(), current) && forall u: Task {:trigger IsReady(View(), u)} :: IsReady(View(), u) ==>
              P(View(), u) <= P(View(), current)
    {
      ghost var s := View();
      var p := Highest(uxTopReadyPriority, MAX_PRIORITIES - 1);
      current := Items(ReadyList(p))[place];
      SwitchSelectsAHighest(s, current);
      CurrentKeeps(s, current);
      assert forall u: Task :: IsReady(View(), u) == IsReady(s, u) && P(View(), u) == P(s, u);
    }
  }
}
