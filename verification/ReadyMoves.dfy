/** Where each event puts the task it is about: which list it leaves, which it joins, and that it joins at the end. */
module ReadyMoves {
  import opened ReadyLists
  import opened Sequences

  /** The task an event is about. */
  function Subject(s: State, e: Event): Task {
    if e.Delay? then s.current else e.task
  }

  /** A change of priority moves only a ready task, to the end of its new list. */
  predicate Moves(s: State, e: Event) {
    if e.Inherit? || e.Disinherit? || e.DisinheritLate? then IsReady(s, e.task) else !e.Switch?
  }

  /** The list that the task goes to. */
  function Goal(s: State, e: Event): Container {
    match e
    case Create(_, p) => ReadyList(p)
    case Delay(c) => c
    case MakeReady(t) => ReadyList(P(s, t))
    case MakeSuspended(_) => SuspendedList
    case Inherit(_, p) => ReadyList(p)
    case Disinherit(_, p) => ReadyList(p)
    case DisinheritLate(_, p) => ReadyList(p)
    case Switch(t) => ReadyList(P(s, t))
  }

  predicate SetsPriority(e: Event) {
    e.Create? || e.Inherit? || e.Disinherit? || e.DisinheritLate?
  }

  /** The contents of a list once a task has left it, if it was there, and joined it at the end, if it goes there. */
  function Afterwards(s: State, c: Container, t: Task, goal: Container): seq<Task> {
    (if In(s, t, c) then Without(L(s, c), t) else L(s, c)) + if c == goal then [t] else []
  }

  /** The delayed lists are kept in the order of wake times, which DelayedTasks is about. */
  ghost predicate Moved(s: State, s': State, t: Task, goal: Container) {
    && s'.at == s.at[t := goal]
    && forall c: Container {:trigger L(s', c)} :: c.ReadyList? || c.SuspendedList? ==>
         L(s', c) == Afterwards(s, c, t, goal)
  }

  ghost predicate Stayed(s: State, s': State) {
    s'.at == s.at && forall c: Container {:trigger L(s', c)} :: L(s', c) == L(s, c)
  }

  lemma ReadyIsIn(s: State, t: Task)
    requires Sound(s)
    ensures IsReady(s, t) <==> In(s, t, ReadyList(P(s, t)))
  {
    if IsReady(s, t) {
      assert In(s, t, ReadyList(s.at[t].priority));
    }
  }

  /** Leaving one list and joining another, whatever else is done to bits and priorities. */
  lemma LeftAndJoined(s: State, s1: State, s': State, t: Task, goal: Container)
    requires t in s.at && s1.lists == Unlisted(s, t).lists && s1.at == Unlisted(s, t).at
    requires s'.lists == Listed(s1, t, goal).lists && s'.at == Listed(s1, t, goal).at
    ensures Moved(s, s', t, goal)
  {
    forall c: Container {:trigger L(s', c)} ensures L(s', c) == Afterwards(s, c, t, goal) {
      var x := if In(s, t, c) then Without(L(s, c), t) else L(s, c);
      assert x + [] == x;
    }
  }

  lemma PriorityMoves(s: State, t: Task, p: nat)
    requires Sound(s)
    ensures var s' := Reprioritise(s, t, p);
            && s'.priority == s.priority[t := p] && s'.current == s.current
            && (if IsReady(s, t) then Moved(s, s', t, ReadyList(p)) else Stayed(s, s'))
  {
    ReadyIsIn(s, t);
    if IsReady(s, t) {
      LeftAndJoined(s, LeaveReady(s, t), Reprioritise(s, t, p), t, ReadyList(p));
    }
  }

  lemma OthersMove(s: State, e: Event)
    requires Sound(s) && Enabled(s, e) && (e.Delay? || e.MakeReady? || e.MakeSuspended?)
    ensures Moved(s, Apply(s, e), Subject(s, e), Goal(s, e))
  {
    var t := Subject(s, e);
    var s1 := if e.Delay? then LeaveReady(s, t) else Unlisted(s, t);
    LeftAndJoined(s, s1, Apply(s, e), t, Goal(s, e));
  }

  lemma CreateMoves(s: State, t: Task, p: nat)
    requires Sound(s) && Enabled(s, Create(t, p))
    ensures Moved(s, Apply(s, Create(t, p)), t, ReadyList(p))
  {
    var s' := Apply(s, Create(t, p));
    forall c: Container {:trigger L(s', c)} ensures L(s', c) == Afterwards(s, c, t, ReadyList(p)) {
      assert L(s, c) + [] == L(s, c);
    }
  }

  /** Every step: the task it is about leaves its list and is the last of the ready or suspended list it goes to,
      everyone else stays in place, and every priority but the one that is set stays. */
  lemma StepMoves(s: State, e: Event)
    requires Sound(s) && Enabled(s, e)
    ensures if Moves(s, e) then Moved(s, Apply(s, e), Subject(s, e), Goal(s, e)) else Stayed(s, Apply(s, e))
    ensures Apply(s, e).priority == if SetsPriority(e) then s.priority[e.task := e.priority] else s.priority
    ensures Apply(s, e).current == if e.Switch? then e.task else s.current
  {
    match e {
      case Create(t, p) => CreateMoves(s, t, p);
      case Inherit(t, p) => PriorityMoves(s, t, p);
      case Disinherit(t, p) => PriorityMoves(s, t, p);
      case DisinheritLate(t, p) =>
        SafeIsReprioritise(s, t, p);
        PriorityMoves(s, t, p);
      case Switch(_) =>
      case _ => OthersMove(s, e);
    }
  }

  // ---------- Every run ----------

  /** The list a task was last put into, read off the events. */
  function LastPut(s: State, es: seq<Event>, t: Task, before: Container): Container
    requires CanRun(s, es)
    decreases |es|
  {
    if es == [] then before
    else LastPut(Apply(s, es[0]), es[1..], t, if Moves(s, es[0])
      && Subject(s, es[0]) == t then Goal(s, es[0]) else before)
  }

  lemma {:induction false} StaysPut(s: State, es: seq<Event>, t: Task, before: Container)
    requires Sound(s) && CanRun(s, es) && (t in s.at ==> s.at[t] == before)
    ensures Sound(Run(s, es)) && (t in Run(s, es).at ==> Run(s, es).at[t] == LastPut(s, es, t, before))
    decreases |es|
  {
    if es != [] {
      StepKeeps(s, es[0]);
      StepMoves(s, es[0]);
      StaysPut(Apply(s, es[0]), es[1..], t, if Moves(s, es[0])
        && Subject(s, es[0]) == t then Goal(s, es[0]) else before);
    }
  }

  /** In every state the kernel can reach, each task is in the list it was last put into, and in no other. */
  lemma TasksAreWhereTheyWerePut(es: seq<Event>, t: Task, c: Container)
    requires CanRun(Booted(), es) && t in Run(Booted(), es).at
    ensures t in L(Run(Booted(), es), c) <==> c == LastPut(Booted(), es, t, ReadyList(0))
  {
    BootedIsSound();
    StaysPut(Booted(), es, t, ReadyList(0));
    assert In(Run(Booted(), es), t, c) <==> c == LastPut(Booted(), es, t, ReadyList(0));
  }
}
