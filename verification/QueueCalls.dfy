/** What the calls on a queue come to over every run: items are conserved, and a call fails only when it has to. */
module QueueCalls {
  import opened Numbers
  import opened QueueLocks
  import opened QueueRuns

  // ---------- Items are conserved ----------

  /** Whether an operation can be done at once: a send with room for the item, or one to take or to look at. */
  predicate Possible(s: System, op: Op, overwrite: bool) {
    if op == Sending then s.q.messages < s.q.length || overwrite else s.q.messages > 0
  }

  /** How many items a step adds, read off what the call asks for. Overwriting an item that has a size adds none. */
  function Added(s: System, e: Event): int {
    match e
    case Attempt(t, overwrite, _) =>
      if !PcOf(s, t).Try? || PcOf(s, t).op == Peeking || !Possible(s, PcOf(s, t).op, overwrite) then 0
      else if PcOf(s, t).op == Receiving then -1
      else if overwrite && s.q.itemSize > 0 && s.q.messages > 0 then 0
      else 1
    case IsrSend(overwrite) =>
      if !Possible(s, Sending, overwrite) || (overwrite && s.q.itemSize > 0 && s.q.messages > 0) then 0 else 1
    case IsrReceive => if Possible(s, Receiving, false) then -1 else 0
    case ResetEvent(_) => 0 - s.q.messages
    case _ => 0
  }

  function Balance(s: System, es: seq<Event>): int
    requires CanRun(s, es)
    decreases |es|
  {
    if es == [] then 0 else Added(s, es[0]) + Balance(Apply(s, es[0]), es[1..])
  }

  lemma StepAdds(s: System, e: Event)
    requires Enabled(s, e)
    ensures Apply(s, e).q.messages == s.q.messages + Added(s, e)
    ensures Apply(s, e).q.length == s.q.length && Apply(s, e).q.itemSize == s.q.itemSize
  {
  }

  /** Over every run the queue holds what was put in less what was taken out: no item is lost or made up. */
  lemma {:induction false} ItemsAreConserved(s: System, es: seq<Event>)
    requires CanRun(s, es)
    ensures Run(s, es).q.messages == s.q.messages + Balance(s, es)
    decreases |es|
  {
    if es != [] {
      StepAdds(s, es[0]);
      ItemsAreConserved(Apply(s, es[0]), es[1..]);
    }
  }

  // ---------- How calls end ----------

  predicate IsBy(e: Event, t: Task) {
    match e
    case Call(u, _) => u == t
    case Attempt(u, _, _) => u == t
    case LockEvent(u) => u == t
    case Check(u, _) => u == t
    case Join(u, _) => u == t
    case UnlockTxEvent(u) => u == t
    case UnlockRxEvent(u) => u == t
    case Resume(u) => u == t
    case Continue(u) => u == t
    case LastLook(u) => u == t
    case _ => false
  }

  /** Its block time has run out, and it is on its way out of the call. */
  predicate Leaving(pc: Pc) {
    (pc.Expired? && pc.op != Sending) || ((pc.Unlocking? || pc.HalfUnlocked? || pc.Resuming?) && pc.next == GiveUp)
  }

  function OwnSteps(es: seq<Event>, t: Task): nat {
    if es == [] then 0 else (if IsBy(es[0], t) then 1 else 0) + OwnSteps(es[1..], t)
  }

  /** How many steps of its own a task on its way out has to make. A sender does not look at the queue again. */
  function StepsLeft(pc: Pc): nat
    requires Leaving(pc)
  {
    if pc.Expired? then 1
    else (if pc.op == Sending then 0 else 1) + if pc.Resuming? then 1 else if pc.HalfUnlocked? then 2 else 3
  }

  lemma OthersStepsLeaveItThere(s: System, e: Event, t: Task)
    requires Enabled(s, e) && !IsBy(e, t)
    ensures PcOf(Apply(s, e), t) == PcOf(s, t)
  {
  }

  lemma LeavingGoesOn(s: System, e: Event, t: Task)
    requires Enabled(s, e) && IsBy(e, t) && Leaving(PcOf(s, t))
    ensures var pc, pc' := PcOf(s, t), PcOf(Apply(s, e), t);
            if StepsLeft(pc) > 1 then Leaving(pc') && pc'.op == pc.op && StepsLeft(pc') == StepsLeft(pc) - 1
            else pc' == if pc.op == Sending || s.q.messages == 0 then Idle else Try(pc.op)
  {
  }

  lemma {:induction false} LeavingCallEnds(s: System, es: seq<Event>, t: Task)
    requires CanRun(s, es) && Leaving(PcOf(s, t)) && OwnSteps(es, t) == StepsLeft(PcOf(s, t))
    requires es != [] && IsBy(es[|es| - 1], t)
    ensures CanRun(s, es[..|es| - 1])
    ensures var op, q := PcOf(s, t).op, Run(s, es[..|es| - 1]).q;
            PcOf(Run(s, es), t) == if op == Sending || q.messages == 0 then Idle else Try(op)
    decreases |es|
  {
    var e, rest := es[0], es[1..];
    if |es| == 1 {
      assert rest == [] && es[..0] == [] && OwnSteps(rest, t) == 0;
      LeavingGoesOn(s, e, t);
    } else {
      assert es[..|es| - 1] == [e] + rest[..|rest| - 1] && rest[|rest| - 1] == es[|es| - 1];
      LastIsCounted(rest, t);
      if IsBy(e, t) {
        LeavingGoesOn(s, e, t);
      } else {
        OthersStepsLeaveItThere(s, e, t);
      }
      LeavingCallEnds(Apply(s, e), rest, t);
      OneStep(s, e, rest[..|rest| - 1]);
    }
  }

  lemma {:induction false} LastIsCounted(es: seq<Event>, t: Task)
    requires es != [] && IsBy(es[|es| - 1], t)
    ensures OwnSteps(es, t) > 0
  {
    if |es| > 1 {
      LastIsCounted(es[1..], t);
    }
  }

  /** A task that finds its block time over returns after a fixed number of further steps of its own, whatever the
      others do meanwhile: a sender without success after three, a receiver after four, the last of which is one more
      look, by which it may still find something. */
  lemma TimedOutCallEnds(s: System, es: seq<Event>, t: Task)
    requires CanRun(s, [Check(t, true)] + es)
    requires es != [] && IsBy(es[|es| - 1], t) && OwnSteps(es, t) == if PcOf(s, t).op == Sending then 3 else 4
    ensures CanRun(s, [Check(t, true)] + es[..|es| - 1])
    ensures var op, q := PcOf(s, t).op, Run(s, [Check(t, true)] + es[..|es| - 1]).q;
            PcOf(Run(s, [Check(t, true)] + es), t) == if op == Sending || q.messages == 0 then Idle else Try(op)
  {
    assert ([Check(t, true)] + es)[1..] == es;
    assert ([Check(t, true)] + es[..|es| - 1])[1..] == es[..|es| - 1];
    LeavingCallEnds(Apply(s, Check(t, true)), es, t);
  }

  /** Whether the latest of a task's checks since its call found its block time over. */
  function GaveUp(es: seq<Event>, t: Task): bool {
    if es == [] then false
    else
      match es[|es| - 1]
      case Check(u, timedOut) => if u == t then timedOut else GaveUp(es[..|es| - 1], t)
      case Call(u, _) => u != t && GaveUp(es[..|es| - 1], t)
      case _ => GaveUp(es[..|es| - 1], t)
  }

  lemma {:induction false} RunOfOneMore(s: System, es: seq<Event>, e: Event)
    requires CanRun(s, es + [e])
    ensures CanRun(s, es) && Enabled(Run(s, es), e) && Run(s, es + [e]) == Apply(Run(s, es), e)
    decreases |es|
  {
    if es == [] {
      assert es + [e] == [e] && [e][1..] == [];
    } else {
      assert (es + [e])[1..] == es[1..] + [e];
      RunOfOneMore(Apply(s, es[0]), es[1..], e);
    }
  }

  lemma StepsToLeaving(s: System, e: Event, t: Task)
    requires Enabled(s, e) && Leaving(PcOf(Apply(s, e), t))
    ensures Leaving(PcOf(s, t)) || e == Check(t, true)
    ensures e != Check(t, false) && !(e.Call? && e.t == t)
  {
  }

  lemma {:induction false} LeavingGaveUp(s: System, es: seq<Event>, t: Task)
    requires CanRun(s, es) && !Leaving(PcOf(s, t)) && Leaving(PcOf(Run(s, es), t))
    ensures GaveUp(es, t)
    decreases |es|
  {
    if es != [] {
      var init, e := es[..|es| - 1], es[|es| - 1];
      assert es == init + [e];
      RunOfOneMore(s, init, e);
      StepsToLeaving(Run(s, init), e, t);
      if e != Check(t, true) {
        LeavingGaveUp(s, init, t);
      }
    }
  }

  /** Only receivers and peekers look once more. */
  lemma {:induction false} SendersNeverExpire(s: System, es: seq<Event>, t: Task)
    requires CanRun(s, es) && PcOf(s, t) != Expired(Sending)
    ensures PcOf(Run(s, es), t) != Expired(Sending)
    decreases |es|
  {
    if es != [] {
      SendersNeverExpire(Apply(s, es[0]), es[1..], t);
    }
  }

  lemma StepReturns(s: System, e: Event, t: Task)
    requires Enabled(s, e) && PcOf(s, t) != Idle && PcOf(Apply(s, e), t) == Idle && PcOf(s, t) != Expired(Sending)
    ensures IsBy(e, t)
    ensures if e.Attempt? then !e.mayBlock || Possible(s, PcOf(s, t).op, e.overwrite)
            else Leaving(PcOf(s, t)) && (PcOf(s, t).op != Sending ==> s.q.messages == 0)
  {
  }

  /** Over every run a call returns only from an attempt that succeeds, from one that may not wait, or because its block
      time was found to be over; and then a receiver has seen the queue empty. */
  lemma CallsReturnOnlyThen(length: nat, itemSize: nat, es: seq<Event>, e: Event, t: Task)
    requires CanRun(Initial(length, itemSize), es) && Enabled(Run(Initial(length, itemSize), es), e)
    requires var s := Run(Initial(length, itemSize), es);
             PcOf(s, t) != Idle && PcOf(Apply(s, e), t) == Idle
    ensures var s := Run(Initial(length, itemSize), es);
            || (e.Attempt? && e.t == t && (!e.mayBlock || Possible(s, PcOf(s, t).op, e.overwrite)))
            || (GaveUp(es, t) && (PcOf(s, t).op != Sending ==> s.q.messages == 0))
  {
    var s := Run(Initial(length, itemSize), es);
    SendersNeverExpire(Initial(length, itemSize), es, t);
    StepReturns(s, e, t);
    if !e.Attempt? {
      LeavingGaveUp(Initial(length, itemSize), es, t);
    }
  }

  /** And an attempt that can succeed does, at once. */
  lemma AttemptsSucceed(s: System, t: Task, overwrite: bool, mayBlock: bool)
    requires Enabled(s, Attempt(t, overwrite, mayBlock))
    ensures var pc := PcOf(Apply(s, Attempt(t, overwrite, mayBlock)), t);
            if Possible(s, PcOf(s, t).op, overwrite) || !mayBlock then pc == Idle else pc == AboutToLock(PcOf(s, t).op)
  {
  }
}
