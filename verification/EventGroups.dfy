/** Event groups (event_groups.c): tasks wait for bits with the terms of their wait packed beside the bits
    in one 32-bit list value; setting bits walks the list once and lets go whoever is satisfied. */
module EventGroups {
  import opened Numbers

  type Task = nat

  /** A 32-bit word, as the set of the numbers of its one bits. */
  type Bits = set<nat>

  const CLEAR_EVENTS_ON_EXIT: Bits := {24}
  const UNBLOCKED_DUE_TO_BIT_SET: Bits := {25}
  const WAIT_FOR_ALL_BITS: Bits := {26}
  const CONTROL_BYTES: Bits := {24, 25, 26, 27, 28, 29, 30, 31}
  const VALUE_IN_USE: Bits := {31}

  /** Only bits that applications may use. */
  predicate NoControl(bits: Bits) {
    bits !! CONTROL_BYTES
  }

  /** A waiting task and the value of its event list item. */
  datatype Waiter = Waiter(task: Task, value: Bits)

  datatype Group = Group(bits: Bits, waiters: seq<Waiter>, woken: seq<Waiter>)

  /** prvTestWaitCondition. */
  predicate Met(current: Bits, wanted: Bits, all: bool) {
    if all then current * wanted == wanted else current * wanted != {}
  }

  /** What a wait is for: all of its bits, or any one of them. */
  ghost predicate ConditionHolds(bits: Bits, wanted: Bits, all: bool) {
    if all then wanted <= bits else exists b :: b in wanted && b in bits
  }

  lemma MetMeans(bits: Bits, wanted: Bits, all: bool)
    ensures Met(bits, wanted, all) <==> ConditionHolds(bits, wanted, all)
  {
    if all {
      assert bits * wanted == wanted <==> wanted <= bits;
    } else if bits * wanted != {} {
      var b :| b in bits * wanted;
      assert b in wanted && b in bits;
    } else {
      forall b | b in wanted ensures b !in bits {
        assert b !in bits * wanted;
      }
    }
  }

  /** The list item value with which a task goes to wait. */
  function Packed(wanted: Bits, clear: bool, all: bool): Bits {
    wanted + (if clear then CLEAR_EVENTS_ON_EXIT else {}) + (if all then WAIT_FOR_ALL_BITS else {}) + VALUE_IN_USE
  }

  function Wanted(value: Bits): Bits {
    value - CONTROL_BYTES
  }

  predicate WantsAll(value: Bits) {
    value * WAIT_FOR_ALL_BITS != {}
  }

  predicate Clears(value: Bits) {
    value * CLEAR_EVENTS_ON_EXIT != {}
  }

  /** The terms of a wait survive being packed into the list value. */
  lemma PackingIsFaithful(wanted: Bits, clear: bool, all: bool)
    requires NoControl(wanted)
    ensures Wanted(Packed(wanted, clear, all)) == wanted
    ensures WantsAll(Packed(wanted, clear, all)) == all && Clears(Packed(wanted, clear, all)) == clear
  {
  }

  predicate Satisfied(w: Waiter, bits: Bits) {
    Met(bits, Wanted(w.value), WantsAll(w.value))
  }

  /** The value of a list item taken off because bits were set. */
  function WakeValue(bits: Bits): Bits {
    bits + UNBLOCKED_DUE_TO_BIT_SET + VALUE_IN_USE
  }

  // ---------- Setting bits ----------

  function Kept(ws: seq<Waiter>, bits: Bits): seq<Waiter> {
    if ws == [] then []
    else
      var w := ws[|ws| - 1];
      Kept(ws[..|ws| - 1], bits) + if Satisfied(w, bits) then [] else [w]
  }

  function LetGo(ws: seq<Waiter>, bits: Bits): seq<Waiter> {
    if ws == [] then []
    else
      var w := ws[|ws| - 1];
      LetGo(ws[..|ws| - 1], bits) + if Satisfied(w, bits) then [Waiter(w.task, WakeValue(bits))] else []
  }

  /** The bits that those let go asked to have cleared. */
  function ToClear(ws: seq<Waiter>, bits: Bits): Bits {
    if ws == [] then {}
    else
      var w := ws[|ws| - 1];
      ToClear(ws[..|ws| - 1], bits) + if Satisfied(w, bits) && Clears(w.value) then Wanted(w.value) else {}
  }

  function Set(g: Group, added: Bits): Group {
    var bits := g.bits + added;
    Group(bits - ToClear(g.waiters, bits), Kept(g.waiters, bits), g.woken + LetGo(g.waiters, bits))
  }

  /** Exactly the satisfied waiters are let go, with the value that satisfied them; the others stay. */
  lemma {:induction false} SetReleasesExactly(ws: seq<Waiter>, bits: Bits, w: Waiter)
    requires NoControl(bits)
    ensures w in Kept(ws, bits) <==> w in ws && !Satisfied(w, bits)
    ensures w in ws && Satisfied(w, bits) ==> Waiter(w.task, WakeValue(bits)) in LetGo(ws, bits)
    ensures |Kept(ws, bits)| + |LetGo(ws, bits)| == |ws|
    ensures Wanted(WakeValue(bits)) == bits && WakeValue(bits) * UNBLOCKED_DUE_TO_BIT_SET != {}
  {
    if ws != [] {
      var last := ws[|ws| - 1];
      assert ws == ws[..|ws| - 1] + [last];
      SetReleasesExactly(ws[..|ws| - 1], bits, w);
    }
    assert 25 in WakeValue(bits) * UNBLOCKED_DUE_TO_BIT_SET;
    assert forall b :: b in bits ==> b !in CONTROL_BYTES;
  }

  predicate Asks(w: Waiter, bits: Bits, bit: nat) {
    Satisfied(w, bits) && Clears(w.value) && bit in Wanted(w.value)
  }

  /** A bit is cleared exactly when somebody let go asked for it. */
  lemma {:induction false} ClearedOnRequest(ws: seq<Waiter>, bits: Bits, bit: nat)
    ensures bit in ToClear(ws, bits) <==> exists w :: w in ws && Asks(w, bits, bit)
  {
    if ws != [] {
      var init, last := ws[..|ws| - 1], ws[|ws| - 1];
      assert ws == init + [last];
      ClearedOnRequest(init, bits, bit);
      if Asks(last, bits, bit) {
        assert last in ws;
      }
    }
  }

  /** The bits afterwards: those there and those set, but for what those let go asked to have cleared. The waiters
      afterwards: those whose conditions still do not hold. */
  lemma SetLeaves(g: Group, added: Bits)
    requires NoControl(g.bits) && NoControl(added)
    ensures var bits, g' := g.bits + added, Set(g, added);
            && (forall b :: b in g'.bits <==> b in bits && !exists w :: w in g.waiters && Asks(w, bits, b))
            && (forall w :: w in g'.waiters <==> w in g.waiters && !Satisfied(w, bits))
  {
    var bits := g.bits + added;
    forall b ensures b in ToClear(g.waiters, bits) <==> exists w :: w in g.waiters && Asks(w, bits, b) {
      ClearedOnRequest(g.waiters, bits, b);
    }
    forall w ensures w in Kept(g.waiters, bits) <==> w in g.waiters && !Satisfied(w, bits) {
      SetReleasesExactly(g.waiters, bits, w);
    }
  }

  // ---------- The other calls ----------

  /** What a waiting call asked for. */
  datatype Terms = Terms(wanted: Bits, clear: bool, all: bool)

  /** Bits that satisfy a call which does not (or no longer) wait are cleared if it asks for that. */
  function Consumed(bits: Bits, terms: Terms): Bits {
    if Met(bits, terms.wanted, terms.all) && terms.clear then bits - terms.wanted else bits
  }

  function Join(g: Group, t: Task, terms: Terms): Group {
    g.(waiters := g.waiters + [Waiter(t, Packed(terms.wanted, terms.clear, terms.all))])
  }

  /** xEventGroupWaitBits up to the point where the task blocks or returns. */
  function Wait(g: Group, t: Task, terms: Terms, mayBlock: bool): Group {
    if Met(g.bits, terms.wanted, terms.all) || !mayBlock then g.(bits := Consumed(g.bits, terms)) else Join(g, t, terms)
  }

  /** xEventGroupSync, likewise: set, then meet the others or wait for them. */
  function Sync(g: Group, t: Task, added: Bits, wanted: Bits, mayBlock: bool): Group {
    var g' := Set(g, added);
    if Met(g.bits + added, wanted, true) then g'.(bits := g'.bits - wanted)
    else if mayBlock then Join(g', t, Terms(wanted, true, true))
    else g'
  }

  function Leave(ws: seq<Waiter>, t: Task): seq<Waiter> {
    if ws == [] then [] else if ws[0].task == t then ws[1..] else [ws[0]] + Leave(ws[1..], t)
  }

  datatype Event =
    | SetBits(added: Bits)
    | ClearBits(cleared: Bits)
    | WaitBits(task: Task, terms: Terms, mayBlock: bool)
    | SyncBits(task: Task, added: Bits, wanted: Bits, mayBlock: bool)
    | Expire(task: Task)
    | ReturnLate(terms: Terms)

  predicate Allowed(e: Event) {
    match e
    case SetBits(added) => NoControl(added)
    case WaitBits(_, terms, _) => NoControl(terms.wanted) && terms.wanted != {}
    case SyncBits(_, added, wanted, _) => NoControl(added) && NoControl(wanted) && wanted != {}
    case _ => true
  }

  /** ReturnLate is a call that timed out and looks at the bits once more before it returns. */
  function Apply(g: Group, e: Event): Group {
    match e
    case SetBits(added) => Set(g, added)
    case ClearBits(cleared) => g.(bits := g.bits - cleared)
    case WaitBits(t, terms, mayBlock) => Wait(g, t, terms, mayBlock)
    case SyncBits(t, added, wanted, mayBlock) => Sync(g, t, added, wanted, mayBlock)
    case Expire(t) => g.(waiters := Leave(g.waiters, t))
    case ReturnLate(terms) => g.(bits := Consumed(g.bits, terms))
  }

  function Run(g: Group, es: seq<Event>): Group
    decreases |es|
  {
    if es == [] then g else Run(Apply(g, es[0]), es[1..])
  }

  // ---------- Nobody is stranded ----------

  predicate NobodyStranded(g: Group) {
    NoControl(g.bits) && forall w :: w in g.waiters ==> !Satisfied(w, g.bits)
  }

  /** Taking bits away never satisfies anybody. */
  lemma FewerBitsSatisfyLess(bits: Bits, fewer: Bits, wanted: Bits, all: bool)
    requires fewer <= bits && Met(fewer, wanted, all)
    ensures Met(bits, wanted, all)
  {
  }

  lemma SetKeeps(g: Group, added: Bits)
    requires NoControl(g.bits) && NoControl(added)
    ensures NobodyStranded(Set(g, added))
  {
    var bits := g.bits + added;
    forall w | w in Kept(g.waiters, bits) ensures !Satisfied(w, bits) {
      SetReleasesExactly(g.waiters, bits, w);
    }
  }

  lemma JoinKeeps(g: Group, t: Task, terms: Terms)
    requires NobodyStranded(g) && NoControl(terms.wanted) && !Met(g.bits, terms.wanted, terms.all)
    ensures NobodyStranded(Join(g, t, terms))
  {
    PackingIsFaithful(terms.wanted, terms.clear, terms.all);
  }

  lemma {:induction false} LeaveIsPart(ws: seq<Waiter>, t: Task)
    ensures forall w :: w in Leave(ws, t) ==> w in ws
  {
    if ws != [] {
      LeaveIsPart(ws[1..], t);
    }
  }

  lemma SyncKeeps(g: Group, t: Task, added: Bits, wanted: Bits, mayBlock: bool)
    requires NobodyStranded(g) && NoControl(added) && NoControl(wanted)
    ensures NobodyStranded(Sync(g, t, added, wanted, mayBlock))
  {
    SetKeeps(g, added);
    var g' := Set(g, added);
    if !Met(g.bits + added, wanted, true) && mayBlock {
      if Met(g'.bits, wanted, true) {
        FewerBitsSatisfyLess(g.bits + added, g'.bits, wanted, true);
      } else {
        JoinKeeps(g', t, Terms(wanted, true, true));
      }
    }
  }

  lemma StepKeeps(g: Group, e: Event)
    requires NobodyStranded(g) && Allowed(e)
    ensures NobodyStranded(Apply(g, e))
  {
    match e {
      case SetBits(added) => SetKeeps(g, added);
      case WaitBits(t, terms, mayBlock) =>
        if mayBlock && !Met(g.bits, terms.wanted, terms.all) {
          JoinKeeps(g, t, terms);
        }
      case SyncBits(t, added, wanted, mayBlock) => SyncKeeps(g, t, added, wanted, mayBlock);
      case Expire(t) => LeaveIsPart(g.waiters, t);
      case _ =>
    }
  }

  /** In every state an event group can reach, no waiting task's condition holds on the current bits. */
  lemma {:induction false} NobodyIsEverStranded(g: Group, es: seq<Event>)
    requires NobodyStranded(g) && forall e :: e in es ==> Allowed(e)
    ensures NobodyStranded(Run(g, es))
    decreases |es|
  {
    if es != [] {
      assert es[0] in es;
      StepKeeps(g, es[0]);
      NobodyIsEverStranded(Apply(g, es[0]), es[1..]);
    }
  }

  // ---------- A bit is consumed once ----------

  /** A call that is satisfied without waiting (any longer), with the help of this bit, and asks to have it cleared. */
  ghost predicate Takes(g: Group, e: Event, b: nat) {
    && b in g.bits
    && match e
       case WaitBits(_, terms, _) => b in terms.wanted && terms.clear && ConditionHolds(g.bits, terms.wanted, terms.all)
       case ReturnLate(terms) => b in terms.wanted && terms.clear && ConditionHolds(g.bits, terms.wanted, terms.all)
       case _ => false
  }

  predicate Sets(e: Event, b: nat) {
    (e.SetBits? || e.SyncBits?) && b in e.added
  }

  lemma {:induction false} GoneStaysGone(g: Group, es: seq<Event>, b: nat)
    requires b !in g.bits && forall e :: e in es ==> !Sets(e, b)
    ensures b !in Run(g, es).bits
    decreases |es|
  {
    if es != [] {
      assert es[0] in es;
      GoneStaysGone(Apply(g, es[0]), es[1..], b);
    }
  }

  lemma TakenIsGone(g: Group, e: Event, b: nat)
    requires Takes(g, e, b)
    ensures b !in Apply(g, e).bits && Apply(g, e).waiters == g.waiters && Apply(g, e).woken == g.woken
  {
    MetMeans(g.bits, e.terms.wanted, e.terms.all);
  }

  lemma {:induction false} RunsJoin(g: Group, a: seq<Event>, b: seq<Event>)
    ensures Run(g, a + b) == Run(Run(g, a), b)
    decreases |a|
  {
    if a == [] {
      assert a + b == b;
    } else {
      assert (a + b)[1..] == a[1..] + b;
      RunsJoin(Apply(g, a[0]), a[1..], b);
    }
  }

  /** Over every run: of two calls that clear a bit they are satisfied by, the second owes it to a set in between. */
  lemma ConsumedOnce(g: Group, es: seq<Event>, i: nat, j: nat, b: nat)
    requires i < j < |es| && Takes(Run(g, es[..i]), es[i], b) && Takes(Run(g, es[..j]), es[j], b)
    ensures exists k :: i < k < j && Sets(es[k], b)
  {
    var between := es[i + 1..j];
    assert es[..j] == es[..i] + ([es[i]] + between) && ([es[i]] + between)[1..] == between;
    RunsJoin(g, es[..i], [es[i]] + between);
    TakenIsGone(Run(g, es[..i]), es[i], b);
    if forall e :: e in between ==> !Sets(e, b) {
      GoneStaysGone(Apply(Run(g, es[..i]), es[i]), between, b);
    } else {
      var k :| 0 <= k < |between| && Sets(between[k], b);
      assert between[k] == es[i + 1 + k];
    }
  }

  // ---------- How a wait ends ----------

  function AddedBy(e: Event): Bits {
    if e.SetBits? || e.SyncBits? then e.added else {}
  }

  lemma {:induction false} OthersStay(ws: seq<Waiter>, t: Task, w: Waiter)
    requires w.task != t
    ensures w in Leave(ws, t) <==> w in ws
  {
    if ws != [] {
      OthersStay(ws[1..], t, w);
      assert ws == [ws[0]] + ws[1..];
    }
  }

  /** A task waits only once in a group, and its timeout takes that wait off the list. */
  lemma {:induction false} LeaveTakesOut(ws: seq<Waiter>, t: Task)
    requires forall i, j :: 0 <= i < j < |ws| ==> ws[i].task != ws[j].task
    ensures forall w :: w in Leave(ws, t) <==> w in ws && w.task != t
  {
    if ws != [] {
      assert ws == [ws[0]] + ws[1..];
      forall w | w in ws[1..] ensures w.task != ws[0].task {
        var j :| 0 <= j < |ws[1..]| && ws[1..][j] == w;
        assert ws[0].task != ws[j + 1].task;
      }
      LeaveTakesOut(ws[1..], t);
    }
  }

  /** A waiter is let go by a step if and only if that sets bits by which its condition holds, and then with those bits
      as the result; otherwise it goes on waiting, its own timeout excepted. */
  lemma WaitEndsIff(g: Group, e: Event, w: Waiter)
    requires NobodyStranded(g) && Allowed(e) && w in g.waiters && e != Expire(w.task)
    ensures var bits, g' := g.bits + AddedBy(e), Apply(g, e);
            && (w in g'.waiters || ConditionHolds(bits, Wanted(w.value), WantsAll(w.value)))
            && (ConditionHolds(bits, Wanted(w.value), WantsAll(w.value)) ==>
                  g.woken <= g'.woken && Waiter(w.task, WakeValue(bits)) in g'.woken[|g.woken|..])
  {
    var bits := g.bits + AddedBy(e);
    MetMeans(bits, Wanted(w.value), WantsAll(w.value));
    if e.SetBits? || e.SyncBits? {
      SetReleasesExactly(g.waiters, bits, w);
    } else {
      assert bits == g.bits;
      if e.Expire? {
        OthersStay(g.waiters, e.task, w);
      }
    }
  }

  lemma {:induction false} LetGoWereSatisfied(ws: seq<Waiter>, bits: Bits, v: Waiter)
    requires v in LetGo(ws, bits)
    ensures v.value == WakeValue(bits) && exists w :: w in ws && w.task == v.task && Satisfied(w, bits)
  {
    var init, last := ws[..|ws| - 1], ws[|ws| - 1];
    assert ws == init + [last];
    if v in LetGo(init, bits) {
      LetGoWereSatisfied(init, bits, v);
    }
  }

  /** And nobody else is let go. */
  lemma OnlyTheSatisfiedReturn(g: Group, e: Event, v: Waiter)
    requires g.woken <= Apply(g, e).woken && v in Apply(g, e).woken[|g.woken|..]
    ensures v.value == WakeValue(g.bits + AddedBy(e))
    ensures exists w :: w in g.waiters && w.task == v.task
              && ConditionHolds(g.bits + AddedBy(e), Wanted(w.value), WantsAll(w.value))
  {
    var bits := g.bits + AddedBy(e);
    LetGoWereSatisfied(g.waiters, bits, v);
    var w :| w in g.waiters && w.task == v.task && Satisfied(w, bits);
    MetMeans(bits, Wanted(w.value), WantsAll(w.value));
  }

  /** Whoever is waiting after a step waited before, or has just called and found its condition not to hold. */
  lemma WaitBeginsIff(g: Group, e: Event, w: Waiter)
    requires NobodyStranded(g) && Allowed(e) && w in Apply(g, e).waiters && w !in g.waiters
    ensures (e.WaitBits? || e.SyncBits?) && e.mayBlock && e.task == w.task
    ensures e.WaitBits? ==> w.value == Packed(e.terms.wanted, e.terms.clear, e.terms.all)
    ensures e.WaitBits? ==> !ConditionHolds(g.bits, e.terms.wanted, e.terms.all)
    ensures e.SyncBits? ==> w.value == Packed(e.wanted, true, true) && !(e.wanted <= g.bits + e.added)
  {
    match e {
      case WaitBits(_, terms, _) => MetMeans(g.bits, terms.wanted, terms.all);
      case SyncBits(_, added, wanted, _) =>
        MetMeans(g.bits + added, wanted, true);
        SetReleasesExactly(g.waiters, g.bits + added, w);
      case SetBits(added) => SetReleasesExactly(g.waiters, g.bits + added, w);
      case Expire(t) => LeaveIsPart(g.waiters, t);
      case _ =>
    }
  }

  // ---------- The rendezvous ----------

  datatype Arrival = Arrival(task: Task, added: Bits)

  function Syncs(arrivals: seq<Arrival>, wanted: Bits): seq<Event> {
    seq(|arrivals|, i requires 0 <= i < |arrivals| => SyncBits(arrivals[i].task, arrivals[i].added, wanted, true))
  }

  function AllAdded(arrivals: seq<Arrival>): Bits {
    if arrivals == [] then {} else AllAdded(arrivals[..|arrivals| - 1]) + arrivals[|arrivals| - 1].added
  }

  function Queued(arrivals: seq<Arrival>, value: Bits): seq<Waiter> {
    seq(|arrivals|, i requires 0 <= i < |arrivals| => Waiter(arrivals[i].task, value))
  }

  lemma {:induction false} RunOfOneMore(g: Group, es: seq<Event>, e: Event)
    ensures Run(g, es + [e]) == Apply(Run(g, es), e)
    decreases |es|
  {
    if es == [] {
      assert es + [e] == [e];
    } else {
      assert (es + [e])[1..] == es[1..] + [e];
      RunOfOneMore(Apply(g, es[0]), es[1..], e);
    }
  }

  lemma {:induction false} NoneLetGo(arrivals: seq<Arrival>, value: Bits, bits: Bits)
    requires !Met(bits, Wanted(value), WantsAll(value))
    ensures Kept(Queued(arrivals, value), bits) == Queued(arrivals, value)
    ensures LetGo(Queued(arrivals, value), bits) == [] && ToClear(Queued(arrivals, value), bits) == {}
  {
    if arrivals != [] {
      var n := |arrivals| - 1;
      NoneLetGo(arrivals[..n], value, bits);
      assert Queued(arrivals, value) == Queued(arrivals[..n], value) + [Waiter(arrivals[n].task, value)];
    }
  }

  lemma {:induction false} AllLetGo(arrivals: seq<Arrival>, value: Bits, bits: Bits)
    requires Met(bits, Wanted(value), WantsAll(value)) && Clears(value)
    ensures Kept(Queued(arrivals, value), bits) == []
    ensures LetGo(Queued(arrivals, value), bits) == Queued(arrivals, WakeValue(bits))
    ensures ToClear(Queued(arrivals, value), bits) <= Wanted(value)
  {
    if arrivals != [] {
      var n := |arrivals| - 1;
      AllLetGo(arrivals[..n], value, bits);
      assert Queued(arrivals, value) == Queued(arrivals[..n], value) + [Waiter(arrivals[n].task, value)];
      assert Queued(arrivals, WakeValue(bits))
        == Queued(arrivals[..n], WakeValue(bits)) + [Waiter(arrivals[n].task, WakeValue(bits))];
    }
  }

  lemma OneMoreArrives(init: seq<Arrival>, last: Arrival, had: Bits, wanted: Bits)
    requires NoControl(wanted) && !(wanted <= had + last.added)
    ensures var value := Packed(wanted, true, true);
            Sync(Group(had, Queued(init, value), []), last.task, last.added, wanted, true)
            == Group(had + last.added, Queued(init + [last], value), [])
  {
    var value := Packed(wanted, true, true);
    PackingIsFaithful(wanted, true, true);
    NoneLetGo(init, value, had + last.added);
    assert Queued(init + [last], value) == Queued(init, value) + [Waiter(last.task, value)];
  }

  lemma SyncsGrow(init: seq<Arrival>, last: Arrival, wanted: Bits)
    ensures Syncs(init + [last], wanted) == Syncs(init, wanted) + [SyncBits(last.task, last.added, wanted, true)]
    ensures AllAdded(init + [last]) == AllAdded(init) + last.added
  {
  }

  /** Those who arrive before the bits are complete all wait, and their bits stay set. */
  lemma {:induction false} EarlyArrivalsWait(arrivals: seq<Arrival>, wanted: Bits)
    requires NoControl(wanted) && !(wanted <= AllAdded(arrivals))
    ensures Run(Group({}, [], []), Syncs(arrivals, wanted))
            == Group(AllAdded(arrivals), Queued(arrivals, Packed(wanted, true, true)), [])
  {
    if arrivals == [] {
      assert Syncs(arrivals, wanted) == [];
    } else {
      var init, last := arrivals[..|arrivals| - 1], arrivals[|arrivals| - 1];
      assert arrivals == init + [last];
      SyncsGrow(init, last, wanted);
      EarlyArrivalsWait(init, wanted);
      RunOfOneMore(Group({}, [], []), Syncs(init, wanted), SyncBits(last.task, last.added, wanted, true));
      OneMoreArrives(init, last, AllAdded(init), wanted);
    }
  }

  /** A task waiting in a rendezvous is let go by a set exactly when that completes the bits of its mask. */
  lemma MaskIsReleasedIff(g: Group, added: Bits, wanted: Bits, w: Waiter)
    requires NoControl(g.bits) && NoControl(added) && NoControl(wanted)
    requires w in g.waiters && w.value == Packed(wanted, true, true)
    ensures w in Set(g, added).waiters <==> !(wanted <= g.bits + added)
    ensures wanted <= g.bits + added ==> Waiter(w.task, WakeValue(g.bits + added)) in LetGo(g.waiters, g.bits + added)
  {
    PackingIsFaithful(wanted, true, true);
    SetReleasesExactly(g.waiters, g.bits + added, w);
    assert (g.bits + added) * wanted == wanted <==> wanted <= g.bits + added;
  }

  /** In any group, whoever else waits in it: the arrival that completes the bits lets every task waiting for the
      same mask go, all with the same value, returns without waiting and leaves the bits of the mask clear. */
  lemma LastArrivalReleasesAll(g: Group, last: Arrival, wanted: Bits, mayBlock: bool)
    requires NoControl(g.bits) && NoControl(last.added) && NoControl(wanted) && wanted <= g.bits + last.added
    ensures var bits := g.bits + last.added;
            var g' := Sync(g, last.task, last.added, wanted, mayBlock);
            && (forall w :: w in g.waiters && w.value == Packed(wanted, true, true) ==>
                  g.woken <= g'.woken && Waiter(w.task, WakeValue(bits)) in g'.woken[|g.woken|..])
            && (forall w :: w in g'.waiters ==> w in g.waiters && w.value != Packed(wanted, true, true))
            && g'.bits !! wanted
  {
    var bits := g.bits + last.added;
    assert bits * wanted == wanted;
    forall w | w in g.waiters && w.value == Packed(wanted, true, true)
      ensures Waiter(w.task, WakeValue(bits)) in LetGo(g.waiters, bits)
    {
      MaskIsReleasedIff(g, last.added, wanted, w);
    }
    forall w | w in Kept(g.waiters, bits) ensures w in g.waiters && w.value != Packed(wanted, true, true) {
      SetReleasesExactly(g.waiters, bits, w);
      if w.value == Packed(wanted, true, true) {
        MaskIsReleasedIff(g, last.added, wanted, w);
      }
    }
  }

  /** A whole rendezvous in a fresh group: the arrival that completes the bits lets every earlier one go, and
      leaves the group ready for the next round. */
  lemma RendezvousCompletes(arrivals: seq<Arrival>, last: Arrival, wanted: Bits)
    requires NoControl(wanted) && !(wanted <= AllAdded(arrivals)) && wanted <= AllAdded(arrivals) + last.added
    ensures var bits := AllAdded(arrivals) + last.added;
            Run(Group({}, [], []), Syncs(arrivals + [last], wanted))
              == Group(bits - wanted, [], Queued(arrivals, WakeValue(bits)))
  {
    EarlyArrivalsWait(arrivals, wanted);
    SyncsGrow(arrivals, last, wanted);
    RunOfOneMore(Group({}, [], []), Syncs(arrivals, wanted), SyncBits(last.task, last.added, wanted, true));
    LastOneArrives(arrivals, last, AllAdded(arrivals), wanted);
  }

  lemma LastOneArrives(arrivals: seq<Arrival>, last: Arrival, had: Bits, wanted: Bits)
    requires NoControl(wanted) && wanted <= had + last.added
    ensures var bits := had + last.added;
            Sync(Group(had, Queued(arrivals, Packed(wanted, true, true)), []), last.task, last.added, wanted, true)
            == Group(bits - wanted, [], Queued(arrivals, WakeValue(bits)))
  {
    PackingIsFaithful(wanted, true, true);
    AllLetGo(arrivals, Packed(wanted, true, true), had + last.added);
  }

  // ---------- The group as it is updated in place ----------

  /** The test of one list item, with the bits it asks to have cleared. */
  method TestItem(value: Bits, eventBits: Bits) returns (matchFound: bool, clear: Bits)
    ensures matchFound == Met(eventBits, Wanted(value), WantsAll(value))
    ensures matchFound == ConditionHolds(eventBits, value - CONTROL_BYTES, 26 in value)
    ensures clear == if Clears(value) then Wanted(value) else {}
    ensures clear == if 24 in value then value - CONTROL_BYTES else {}
  {
    MetMeans(eventBits, value - CONTROL_BYTES, 26 in value);
    assert 26 in value <==> 26 in value * CONTROL_BYTES * WAIT_FOR_ALL_BITS;
    assert 24 in value <==> 24 in value * CONTROL_BYTES * CLEAR_EVENTS_ON_EXIT;
    var controlBits, bitsWaitedFor := value * CONTROL_BYTES, value - CONTROL_BYTES;
    matchFound, clear := false, {};
    if controlBits * WAIT_FOR_ALL_BITS == {} {
      if bitsWaitedFor * eventBits != {} {
        matchFound := true;
      }
    } else if bitsWaitedFor * eventBits == bitsWaitedFor {
      matchFound := true;
    }
    if controlBits * CLEAR_EVENTS_ON_EXIT != {} {
      clear := bitsWaitedFor;
    }
  }

  /** Part-way through the walk: what was kept is before the item, what is still to be looked at behind. */
  ghost predicate Walked(all: seq<Waiter>, done: nat, bits: Bits, ws: seq<Waiter>, item: nat, toClear: Bits) {
    && done <= |all| && item <= |ws|
    && ws[..item] == Kept(all[..done], bits) && ws[item..] == all[done..]
    && toClear == ToClear(all[..done], bits)
  }

  lemma WalkEnds(all: seq<Waiter>, done: nat, bits: Bits, ws: seq<Waiter>, item: nat, toClear: Bits)
    requires Walked(all, done, bits, ws, item, toClear) && item == |ws|
    ensures all[..done] == all && ws == Kept(all, bits) && toClear == ToClear(all, bits)
  {
  }

  lemma NextOfRest(all: seq<Waiter>, done: nat, ws: seq<Waiter>, item: nat)
    requires done <= |all| && item < |ws| && ws[item..] == all[done..]
    ensures done < |all| && all[..done + 1] == all[..done] + [ws[item]]
    ensures ws[item + 1..] == all[done + 1..] && ws[..item + 1] == ws[..item] + [ws[item]]
  {
  }

  lemma WalkGoesOn(all: seq<Waiter>, done: nat, bits: Bits, ws: seq<Waiter>, item: nat, toClear: Bits)
    requires Walked(all, done, bits, ws, item, toClear) && item < |ws|
    ensures done < |all|
    ensures var w := ws[item];
            LetGo(all[..done + 1], bits)
              == LetGo(all[..done], bits) + (if Satisfied(w, bits) then [Waiter(w.task, WakeValue(bits))] else [])
    ensures var w := ws[item];
            if Satisfied(w, bits)
            then Walked(all, done + 1, bits, ws[..item] + ws[item + 1..], item,
                        toClear + if Clears(w.value) then Wanted(w.value) else {})
            else Walked(all, done + 1, bits, ws, item + 1, toClear)
  {
    NextOfRest(all, done, ws, item);
    assert ws[item..][1..] == ws[item + 1..];
  }

  class EventGroup {
    var eventBits: Bits
    var waitingForBits: seq<Waiter>
    var woken: seq<Waiter>

    ghost function View(): Group
      reads this
    {
      Group(eventBits, waitingForBits, woken)
    }

    constructor ()
      ensures View() == Group({}, [], [])
    {
      eventBits, waitingForBits, woken := {}, [], [];
    }

    /** xEventGroupSetBits: one walk over the list, taking items off on the way. */
    method SetBits(added: Bits)
      modifies this
      ensures View() == Set(old(View()), added)
      ensures NoControl(old(eventBits)) && NoControl(added) ==>
              var bits := old(eventBits) + added;
              && (forall b :: b in eventBits
                   <==> b in bits && !exists w :: w in old(waitingForBits) && Asks(w, bits, b))
              && (forall w :: w in waitingForBits <==> w in old(waitingForBits) && !Satisfied(w, bits))
    {
      if NoControl(eventBits) && NoControl(added) {
        SetLeaves(View(), added);
      }
      var toClear: Bits := {};
      eventBits := eventBits + added;
      ghost var all, done, bits, before := waitingForBits, 0, eventBits, woken;
      var item := 0;
      assert before + [] == before;
      while item < |waitingForBits|
        invariant item <= |waitingForBits| && eventBits == bits
        invariant Walked(all, done, bits, waitingForBits, item, toClear)
        invariant woken == before + LetGo(all[..done], bits)
        decreases |waitingForBits| - item
      {
        var w := waitingForBits[item];
        WalkGoesOn(all, done, bits, waitingForBits, item, toClear);
        var matchFound, clear := TestItem(w.value, eventBits);
        if matchFound {
          toClear := toClear + clear;
          woken := woken + [Waiter(w.task, eventBits + UNBLOCKED_DUE_TO_BIT_SET + VALUE_IN_USE)];
          waitingForBits := waitingForBits[..item] + waitingForBits[item + 1..];
        } else {
          item := item + 1;
        }
        done := done + 1;
      }
      WalkEnds(all, done, bits, waitingForBits, item, toClear);
      eventBits := eventBits - toClear;
    }

    /** xEventGroupWaitBits up to the point where the task blocks or returns. */
    method WaitBits(t: Task, wanted: Bits, clearOnExit: bool, waitForAll: bool, mayBlock: bool)
      returns (blocked: bool, result: Bits)
      modifies this
      ensures View() == Wait(old(View()), t, Terms(wanted, clearOnExit, waitForAll), mayBlock)
      ensures blocked == (mayBlock && !ConditionHolds(old(eventBits), wanted, waitForAll))
      ensures var held := ConditionHolds(old(eventBits), wanted, waitForAll);
              forall b :: b in eventBits <==> b in old(eventBits) && !(held && clearOnExit && b in wanted)
      ensures unchanged(`woken)
      ensures if blocked then
                waitingForBits == old(waitingForBits) + [Waiter(t, Packed(wanted, clearOnExit, waitForAll))]
              else result == old(eventBits) && unchanged(`waitingForBits)
    {
      MetMeans(eventBits, wanted, waitForAll);
      var current := eventBits;
      blocked, result := false, current;
      if Met(current, wanted, waitForAll) {
        if clearOnExit {
          eventBits := eventBits - wanted;
        }
      } else if mayBlock {
        var controlBits: Bits := {};
        if clearOnExit {
          controlBits := controlBits + CLEAR_EVENTS_ON_EXIT;
        }
        if waitForAll {
          controlBits := controlBits + WAIT_FOR_ALL_BITS;
        }
        assert wanted + controlBits + VALUE_IN_USE == Packed(wanted, clearOnExit, waitForAll);
        waitingForBits := waitingForBits + [Waiter(t, wanted + controlBits + VALUE_IN_USE)];
        blocked, result := true, {};
      }
    }

    /** What a call does whose time has run out, in either function: one more look at the bits. */
    method ReturnLate(wanted: Bits, clearOnExit: bool, waitForAll: bool) returns (result: Bits)
      modifies `eventBits
      ensures View() == Apply(old(View()), Event.ReturnLate(Terms(wanted, clearOnExit, waitForAll)))
      ensures result == old(eventBits)
      ensures var held := ConditionHolds(old(eventBits), wanted, waitForAll);
              forall b :: b in eventBits <==> b in old(eventBits) && !(held && clearOnExit && b in wanted)
    {
      MetMeans(eventBits, wanted, waitForAll);
      result := eventBits;
      if Met(eventBits, wanted, waitForAll) {
        if clearOnExit {
          eventBits := eventBits - wanted;
        }
      }
    }

    /** xEventGroupSync up to the point where the task blocks or returns. */
    method SyncBits(t: Task, added: Bits, wanted: Bits, mayBlock: bool) returns (blocked: bool, result: Bits)
      modifies this
      ensures View() == Sync(old(View()), t, added, wanted, mayBlock)
      ensures Met(old(eventBits) + added, wanted, true) ==> !blocked && result == old(eventBits) + added
      ensures !Met(old(eventBits) + added, wanted, true) ==> blocked == mayBlock && (!blocked ==> result == eventBits)
      ensures NoControl(old(eventBits)) && NoControl(added) ==>
              var bits := old(eventBits) + added;
              var met := if wanted <= bits then wanted else {};
              && (forall b :: b in eventBits <==>
                    b in bits - met && !exists w :: w in old(waitingForBits) && Asks(w, bits, b))
              && (forall w :: w in waitingForBits[..|waitingForBits| - if blocked then 1 else 0] <==>
                    w in old(waitingForBits) && !Satisfied(w, bits))
      ensures blocked ==> [Waiter(t, Packed(wanted, true, true))] == waitingForBits[Max(|waitingForBits| - 1, 0)..]
    {
      var original := eventBits;
      SetBits(added);
      if (original + added) * wanted == wanted {
        blocked, result := false, original + added;
        eventBits := eventBits - wanted;
      } else if mayBlock {
        assert wanted + CLEAR_EVENTS_ON_EXIT + WAIT_FOR_ALL_BITS + VALUE_IN_USE == Packed(wanted, true, true);
        waitingForBits := waitingForBits
          + [Waiter(t, wanted + CLEAR_EVENTS_ON_EXIT + WAIT_FOR_ALL_BITS + VALUE_IN_USE)];
        blocked, result := true, {};
      } else {
        blocked, result := false, eventBits;
      }
    }

    /** xEventGroupClearBits. */
    method ClearBits(cleared: Bits) returns (before: Bits)
      modifies `eventBits
      ensures before == old(eventBits) && View() == Apply(old(View()), Event.ClearBits(cleared))
      ensures forall b :: b in eventBits <==> b in old(eventBits) && b !in cleared
    {
      before := eventBits;
      eventBits := eventBits - cleared;
    }
  }
}
