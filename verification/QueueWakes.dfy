/** Who is woken: over every run of a queue, a task let off an event list outranks everyone who stays on it. */
module QueueWakes {
  import opened Numbers
  import opened QueueLocks
  import opened QueueRuns
  import opened Sequences

  /** Of higher priority, or of the same priority and longer on the list. */
  predicate Outranks(a: Rank, b: Rank) {
    a.priority > b.priority || (a.priority == b.priority && a.since < b.since)
  }

  predicate InLine(ranks: map<Task, Rank>, waiting: seq<Task>) {
    forall i, j :: 0 <= i < j < |waiting| ==> Outranks(RankIn(ranks, waiting[i]), RankIn(ranks, waiting[j]))
  }

  predicate Dated(ranks: map<Task, Rank>, waiting: seq<Task>, joins: nat) {
    forall t :: t in waiting ==> RankIn(ranks, t).since < joins
  }

  predicate Lined(s: System) {
    && InLine(s.ranks, s.q.tx.waiting) && Dated(s.ranks, s.q.tx.waiting, s.joins)
    && InLine(s.ranks, s.q.rx.waiting) && Dated(s.ranks, s.q.rx.waiting, s.joins)
  }

  // ---------- Leaving a list ----------

  /** Tasks have left from the head of the list only, and only they can have become woken. */
  predicate LeavesFromHead(before: Side, after: Side) {
    && |after.waiting| <= |before.waiting|
    && var n := |before.waiting| - |after.waiting|;
    && after.waiting == before.waiting[n..]
    && forall t :: t in after.woken ==> t in before.woken || t in before.waiting[..n]
  }

  lemma NotifiedFromHead(before: Side, after: Side)
    requires after.waiting == before.waiting && after.woken <= before.woken
    ensures LeavesFromHead(before, after) && LeavesFromHead(before, NotifyFromTask(after))
    ensures LeavesFromHead(before, NotifyFromIsr(after))
  {
    if before.waiting != [] {
      assert before.waiting[0] in before.waiting[..1];
    }
  }

  lemma UnlockedFromHead(before: Side)
    ensures LeavesFromHead(before, Unlock(before))
  {
    DrainTakesFromHead(before);
    DrainWakesThose(before);
  }

  lemma AttemptSides(s: System, t: Task, overwrite: bool, mayBlock: bool)
    requires Enabled(s, Attempt(t, overwrite, mayBlock))
    ensures var q, tx, rx := Apply(s, Attempt(t, overwrite, mayBlock)).q, Retry(s.q.tx, t), Retry(s.q.rx, t);
            (q.tx == tx || q.tx == NotifyFromTask(tx)) && (q.rx == rx || q.rx == NotifyFromTask(rx))
  {
  }

  lemma AttemptLeavesFromHead(s: System, t: Task, overwrite: bool, mayBlock: bool)
    requires Enabled(s, Attempt(t, overwrite, mayBlock))
    ensures LeavesFromHead(s.q.tx, Apply(s, Attempt(t, overwrite, mayBlock)).q.tx)
    ensures LeavesFromHead(s.q.rx, Apply(s, Attempt(t, overwrite, mayBlock)).q.rx)
  {
    AttemptSides(s, t, overwrite, mayBlock);
    NotifiedFromHead(s.q.tx, Retry(s.q.tx, t));
    NotifiedFromHead(s.q.rx, Retry(s.q.rx, t));
  }

  lemma QuietStepsLeave(s: System, e: Event)
    requires Enabled(s, e) && (e.Call? || e.Check? || e.Resume? || e.Continue? || e.LastLook?)
    ensures Apply(s, e).q == s.q
  {
  }

  lemma WakingSides(s: System, e: Event)
    requires Enabled(s, e) && (e.IsrSend? || e.IsrReceive? || e.ResetEvent? || e.LockEvent?)
    ensures var tx, tx' := s.q.tx, Apply(s, e).q.tx;
            tx' == tx || tx' == NotifyFromIsr(tx) || tx' == Lock(tx) || tx' == tx.(lock := UNLOCKED)
    ensures var rx, rx' := s.q.rx, Apply(s, e).q.rx;
            rx' == rx || rx' == NotifyFromIsr(rx) || rx' == Lock(rx) || rx' == NotifyFromTask(rx.(lock := UNLOCKED))
  {
  }

  lemma WakingStepsLeave(s: System, e: Event)
    requires Enabled(s, e) && (e.IsrSend? || e.IsrReceive? || e.ResetEvent? || e.LockEvent?)
    ensures LeavesFromHead(s.q.tx, Apply(s, e).q.tx) && LeavesFromHead(s.q.rx, Apply(s, e).q.rx)
  {
    WakingSides(s, e);
    AnyChangeLeaves(s.q.tx);
    AnyChangeLeaves(s.q.rx);
  }

  lemma AnyChangeLeaves(side: Side)
    ensures LeavesFromHead(side, side) && LeavesFromHead(side, NotifyFromIsr(side)) && LeavesFromHead(side, Lock(side))
    ensures LeavesFromHead(side, side.(lock := UNLOCKED))
    ensures LeavesFromHead(side, NotifyFromTask(side.(lock := UNLOCKED)))
  {
    NotifiedFromHead(side, side);
    NotifiedFromHead(side, Lock(side));
    NotifiedFromHead(side, side.(lock := UNLOCKED));
  }

  /** Every step but joining and timing out. */
  lemma StepsLeaveFromHead(s: System, e: Event)
    requires Enabled(s, e) && !e.Join? && !e.TimeOut?
    ensures LeavesFromHead(s.q.tx, Apply(s, e).q.tx) && LeavesFromHead(s.q.rx, Apply(s, e).q.rx)
  {
    if e.Attempt? {
      AttemptLeavesFromHead(s, e.t, e.overwrite, e.mayBlock);
    } else if e.UnlockTxEvent? {
      UnlockedFromHead(s.q.tx);
      NotifiedFromHead(s.q.rx, s.q.rx);
    } else if e.UnlockRxEvent? {
      UnlockedFromHead(s.q.rx);
      NotifiedFromHead(s.q.tx, s.q.tx);
    } else if e.IsrSend? || e.IsrReceive? || e.ResetEvent? || e.LockEvent? {
      WakingStepsLeave(s, e);
    } else {
      QuietStepsLeave(s, e);
      NotifiedFromHead(s.q.tx, s.q.tx);
      NotifiedFromHead(s.q.rx, s.q.rx);
    }
  }

  lemma RanksStay(s: System, e: Event)
    requires Enabled(s, e) && !e.Join?
    ensures Apply(s, e).ranks == s.ranks && Apply(s, e).joins == s.joins
  {
  }

  lemma HeadsLeaveInLine(before: Side, after: Side, ranks: map<Task, Rank>, joins: nat)
    requires LeavesFromHead(before, after) && InLine(ranks, before.waiting) && Dated(ranks, before.waiting, joins)
    ensures InLine(ranks, after.waiting) && Dated(ranks, after.waiting, joins)
    ensures forall t, u :: t in after.woken && t !in before.woken && u in after.waiting ==>
            Outranks(RankIn(ranks, t), RankIn(ranks, u))
  {
    var n, w := |before.waiting| - |after.waiting|, before.waiting;
    assert w == w[..n] + w[n..];
  }

  lemma {:induction false} WithoutInLine(ranks: map<Task, Rank>, waiting: seq<Task>, t: Task)
    requires InLine(ranks, waiting)
    ensures InLine(ranks, Without(waiting, t)) && forall u :: u in Without(waiting, t) ==> u in waiting
  {
    if waiting != [] {
      assert waiting == [waiting[0]] + waiting[1..];
      WithoutInLine(ranks, waiting[1..], t);
      if waiting[0] != t {
        var w := Without(waiting[1..], t);
        forall j | 0 <= j < |w| ensures Outranks(RankIn(ranks, waiting[0]), RankIn(ranks, w[j])) {
          assert w[j] in waiting[1..];
        }
      }
    }
  }

  // ---------- Joining one ----------

  lemma {:induction false} PlaceIsBetween(ranks: map<Task, Rank>, waiting: seq<Task>, priority: nat)
    requires InLine(ranks, waiting)
    ensures var place := PlaceIn(ranks, waiting, priority);
            && (forall i :: 0 <= i < place ==> RankIn(ranks, waiting[i]).priority >= priority)
            && (forall i :: place <= i < |waiting| ==> RankIn(ranks, waiting[i]).priority < priority)
  {
    if waiting != [] && RankIn(ranks, waiting[0]).priority >= priority {
      PlaceIsBetween(ranks, waiting[1..], priority);
    }
  }

  /** One more in a list, in front of everyone it outranks and behind everyone who outranks it. */
  lemma PutInLine(ranks: map<Task, Rank>, before: seq<Task>, after: seq<Task>, t: Task)
    requires InLine(ranks, before + after)
    requires forall u :: u in before ==> Outranks(RankIn(ranks, u), RankIn(ranks, t))
    requires forall u :: u in after ==> Outranks(RankIn(ranks, t), RankIn(ranks, u))
    ensures InLine(ranks, before + [t] + after)
  {
    var w, n, r := before + after, |before|, before + [t] + after;
    forall i, j | 0 <= i < j < |r| ensures Outranks(RankIn(ranks, r[i]), RankIn(ranks, r[j])) {
      var i', j' := if i < n then i else i - 1, if j < n then j else j - 1;
      if i != n && j != n {
        assert r[i] == w[i'] && r[j] == w[j'];
      }
    }
  }

  lemma JoinerIsBetween(ranks: map<Task, Rank>, waiting: seq<Task>, joins: nat, t: Task, priority: nat)
    requires InLine(ranks, waiting) && Dated(ranks, waiting, joins) && t !in waiting
    ensures var place, ranks' := PlaceIn(ranks, waiting, priority), ranks[t := Rank(priority, joins)];
            && (forall u :: u in waiting[..place] ==> Outranks(RankIn(ranks', u), RankIn(ranks', t)))
            && (forall u :: u in waiting[place..] ==> Outranks(RankIn(ranks', t), RankIn(ranks', u)))
  {
    var place, ranks' := PlaceIn(ranks, waiting, priority), ranks[t := Rank(priority, joins)];
    PlaceIsBetween(ranks, waiting, priority);
    forall u | u in waiting[..place] ensures Outranks(RankIn(ranks', u), RankIn(ranks', t)) {
      var i :| 0 <= i < place && waiting[i] == u;
      assert waiting[i] in waiting;
    }
    forall u | u in waiting[place..] ensures Outranks(RankIn(ranks', t), RankIn(ranks', u)) {
      var i :| place <= i < |waiting| && waiting[i] == u;
      assert waiting[i] in waiting;
    }
  }

  lemma JoinedInLine(ranks: map<Task, Rank>, waiting: seq<Task>, joins: nat, t: Task, priority: nat, place: nat)
    requires InLine(ranks, waiting) && Dated(ranks, waiting, joins) && t !in waiting
    requires place == PlaceIn(ranks, waiting, priority)
    ensures var ranks', waiting' := ranks[t := Rank(priority, joins)], waiting[..place] + [t] + waiting[place..];
            InLine(ranks', waiting') && Dated(ranks', waiting', joins + 1)
  {
    OthersInLine(ranks, waiting, joins, t, Rank(priority, joins));
    JoinerIsBetween(ranks, waiting, joins, t, priority);
    assert waiting == waiting[..place] + waiting[place..];
    PutInLine(ranks[t := Rank(priority, joins)], waiting[..place], waiting[place..], t);
  }

  lemma OthersInLine(ranks: map<Task, Rank>, waiting: seq<Task>, joins: nat, t: Task, rank: Rank)
    requires InLine(ranks, waiting) && Dated(ranks, waiting, joins) && t !in waiting
    ensures InLine(ranks[t := rank], waiting) && Dated(ranks[t := rank], waiting, joins + 1)
  {
    assert forall i :: 0 <= i < |waiting| ==>
      waiting[i] in waiting && RankIn(ranks[t := rank], waiting[i]) == RankIn(ranks, waiting[i]);
  }

  lemma StepKeepsLine(s: System, e: Event)
    requires Sound(s) && Lined(s) && Enabled(s, e)
    ensures Lined(Apply(s, e))
  {
    match e {
      case Join(t, priority) =>
        JoinKeepsLine(s, t, priority);
      case TimeOut(t) =>
        WithoutInLine(s.ranks, s.q.tx.waiting, t);
        WithoutInLine(s.ranks, s.q.rx.waiting, t);
      case _ =>
        StepsLeaveFromHead(s, e);
        RanksStay(s, e);
        HeadsLeaveInLine(s.q.tx, Apply(s, e).q.tx, s.ranks, s.joins);
        HeadsLeaveInLine(s.q.rx, Apply(s, e).q.rx, s.ranks, s.joins);
    }
  }

  lemma JoinKeepsLine(s: System, t: Task, priority: nat)
    requires Sound(s) && Lined(s) && Enabled(s, Join(t, priority))
    ensures Lined(Apply(s, Join(t, priority)))
  {
    assert t !in s.q.tx.waiting && t !in s.q.rx.waiting;
    if PcOf(s, t).op == Sending {
      JoinedInLine(s.ranks, s.q.rx.waiting, s.joins, t, priority, PlaceIn(s.ranks, s.q.rx.waiting, priority));
      OthersInLine(s.ranks, s.q.tx.waiting, s.joins, t, Rank(priority, s.joins));
    } else {
      JoinedInLine(s.ranks, s.q.tx.waiting, s.joins, t, priority, PlaceIn(s.ranks, s.q.tx.waiting, priority));
      OthersInLine(s.ranks, s.q.rx.waiting, s.joins, t, Rank(priority, s.joins));
    }
  }

  // ---------- Every run ----------

  lemma {:induction false} RunKeepsLine(s: System, es: seq<Event>)
    requires Sound(s) && Lined(s) && CanRun(s, es)
    ensures Sound(Run(s, es)) && Lined(Run(s, es))
    decreases |es|
  {
    if es != [] {
      StepIsSound(s, es[0]);
      StepKeepsLine(s, es[0]);
      RunKeepsLine(Apply(s, es[0]), es[1..]);
    }
  }

  /** The priority with which a task last joined a list, and how many had joined before it, read off the events. */
  function LastJoin(es: seq<Event>, t: Task, joins: nat, rank: Rank): Rank {
    if es == [] then rank
    else if es[0].Join? then
      LastJoin(es[1..], t, joins + 1, if es[0].t == t then Rank(es[0].priority, joins) else rank)
    else LastJoin(es[1..], t, joins, rank)
  }

  lemma {:induction false} RanksAreTrue(s: System, es: seq<Event>, t: Task)
    requires CanRun(s, es)
    ensures RankIn(Run(s, es).ranks, t) == LastJoin(es, t, s.joins, RankIn(s.ranks, t))
    decreases |es|
  {
    if es != [] {
      if !es[0].Join? {
        RanksStay(s, es[0]);
      }
      RanksAreTrue(Apply(s, es[0]), es[1..], t);
    }
  }

  /** Over every run, whatever readies a task off an event list, a send, a receive, an unlock or a reset: no task that
      stays on that list joined it with a higher priority, or with the same priority and before it. */
  lemma FirstInLineIsWoken(length: nat, itemSize: nat, es: seq<Event>, e: Event, t: Task, u: Task)
    requires CanRun(Initial(length, itemSize), es) && Enabled(Run(Initial(length, itemSize), es), e)
    requires var s := Run(Initial(length, itemSize), es);
             var q, q' := s.q, Apply(s, e).q;
             || (t in q'.tx.woken && t !in q.tx.woken && u in q'.tx.waiting)
             || (t in q'.rx.woken && t !in q.rx.woken && u in q'.rx.waiting)
    ensures var a, b := LastJoin(es, t, 0, Rank(0, 0)), LastJoin(es, u, 0, Rank(0, 0));
            a.priority > b.priority || (a.priority == b.priority && a.since < b.since)
  {
    RunKeepsLine(Initial(length, itemSize), es);
    RanksAreTrue(Initial(length, itemSize), es, t);
    RanksAreTrue(Initial(length, itemSize), es, u);
    var s := Run(Initial(length, itemSize), es);
    if !e.Join? && !e.TimeOut? {
      StepsLeaveFromHead(s, e);
      HeadsLeaveInLine(s.q.tx, Apply(s, e).q.tx, s.ranks, s.joins);
      HeadsLeaveInLine(s.q.rx, Apply(s, e).q.rx, s.ranks, s.joins);
    }
  }
}
