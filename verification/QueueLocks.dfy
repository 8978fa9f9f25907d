/** The part of Queue_t that decides who is woken: the item count, the two lock counters and the
    two event lists.  Sending and receiving are mirror images, so one side of a queue (a lock
    counter with the list of tasks it protects) is modelled once and used twice. */
module QueueLocks {
  import opened Numbers
  import opened Sequences

  type Task = nat

  const UNLOCKED := -1
  const LOCKED_UNMODIFIED := 0
  const INT8_MAX := 127

  /** One lock counter, the tasks on the event list it protects, highest priority first, and the
      tasks an event took off that list that have not yet looked at the queue again. */
  datatype Side = Side(lock: int, waiting: seq<Task>, woken: set<Task>)

  /** tx counts items posted while locked and protects the receivers; rx is the mirror image. */
  datatype Queue = Queue(messages: nat, length: nat, itemSize: nat, tx: Side, rx: Side)

  predicate SideOk(s: Side) {
    && Distinct(s.waiting)
    && forall t :: t in s.waiting ==> t !in s.woken
  }

  /** Nobody sleeps through an event: while a task waits, every available unit is accounted for by
      a task already woken or by a count the next unlock will act on. */
  predicate NoLostWake(s: Side, available: int) {
    s.waiting != [] ==> available <= |s.woken| + Max(s.lock, 0)
  }

  /** Tasks only leave the list, and only those that were on it can become woken. */
  ghost predicate OnlyWakes(before: Side, after: Side) {
    && (forall t :: t in after.waiting ==> t in before.waiting)
    && (forall t :: t in after.woken ==> t in before.woken || t in before.waiting)
  }

  /** xTaskRemoveFromEventList: the head of the list, the highest priority waiter, is readied. */
  function Wake(s: Side): Side
    requires s.waiting != []
  {
    s.(waiting := s.waiting[1..], woken := s.woken + {s.waiting[0]})
  }

  function NotifyFromTask(s: Side): Side {
    if s.waiting != [] then Wake(s) else s
  }

  function NotifyFromIsr(s: Side): Side {
    if s.lock == UNLOCKED then NotifyFromTask(s) else s.(lock := ToInt8(s.lock + 1))
  }

  function Lock(s: Side): Side {
    if s.lock == UNLOCKED then s.(lock := LOCKED_UNMODIFIED) else s
  }

  /** The loop of prvUnlockQueue on one side: one waiter for each count, while there are any. */
  function Drain(s: Side): Side
    decreases s.lock
  {
    if s.lock > LOCKED_UNMODIFIED && s.waiting != []
    then Drain(Wake(s).(lock := s.lock - 1))
    else s
  }

  function Unlock(s: Side): Side {
    Drain(s).(lock := UNLOCKED)
  }

  /** A task joins the event list; its place depends on priorities, so it is left open. */
  function Enqueue(s: Side, t: Task, place: nat): Side
    requires place <= |s.waiting|
  {
    s.(waiting := s.waiting[..place] + [t] + s.waiting[place..])
  }

  /** The tick finds that the block time of t has run out. */
  function Expire(s: Side, t: Task): Side {
    s.(waiting := Without(s.waiting, t))
  }

  /** The task looks at the queue again: it no longer counts as woken. */
  function Retry(s: Side, t: Task): Side {
    s.(woken := s.woken - {t})
  }

  function Free(q: Queue): int {
    q.length - q.messages
  }

  predicate Room(q: Queue, overwrite: bool) {
    q.messages < q.length || overwrite
  }

  /** What prvCopyDataToQueue does to the count. Items of size 0 are never overwritten: they pile up. */
  function Posted(q: Queue, overwrite: bool): nat {
    if overwrite && q.itemSize > 0 && q.messages > 0 then q.messages else q.messages + 1
  }

  function Send(q: Queue, overwrite: bool): Queue {
    q.(messages := Posted(q, overwrite), tx := NotifyFromTask(q.tx))
  }

  function SendFromIsr(q: Queue, overwrite: bool): Queue {
    q.(messages := Posted(q, overwrite), tx := NotifyFromIsr(q.tx))
  }

  function Receive(q: Queue): Queue
    requires q.messages > 0
  {
    q.(messages := q.messages - 1, rx := NotifyFromTask(q.rx))
  }

  function ReceiveFromIsr(q: Queue): Queue
    requires q.messages > 0
  {
    q.(messages := q.messages - 1, rx := NotifyFromIsr(q.rx))
  }

  /** Peeking leaves the item, so the next receiver is told about it as well. */
  function Peek(q: Queue): Queue {
    q.(tx := NotifyFromTask(q.tx))
  }

  function LockQueue(q: Queue): Queue {
    q.(tx := Lock(q.tx), rx := Lock(q.rx))
  }

  /** xQueueGenericReset on a queue in use: only one waiting sender is woken. */
  function Reset(q: Queue): Queue {
    q.(messages := 0,
       tx := q.tx.(lock := UNLOCKED),
       rx := NotifyFromTask(q.rx.(lock := UNLOCKED)))
  }

  // ---------- What each operation does to one side ----------

  lemma WakeKeeps(s: Side, available: int)
    requires SideOk(s) && s.waiting != [] && NoLostWake(s, available)
    ensures SideOk(Wake(s))
    ensures |Wake(s).woken| == |s.woken| + 1
    ensures NoLostWake(Wake(s), available + 1)
  {
    assert s.waiting == [s.waiting[0]] + s.waiting[1..];
    assert s.waiting[0] !in s.woken;
  }

  /** A unit may appear whenever it is announced, unless the int8_t counter is at its limit. */
  lemma NotifyKeeps(s: Side, available: int)
    requires SideOk(s)
    ensures SideOk(NotifyFromTask(s)) && OnlyWakes(s, NotifyFromTask(s))
    ensures SideOk(NotifyFromIsr(s)) && OnlyWakes(s, NotifyFromIsr(s))
    ensures NoLostWake(s, available) ==> NoLostWake(NotifyFromTask(s), available + 1)
    ensures NoLostWake(s, available) && UNLOCKED <= s.lock < INT8_MAX ==> NoLostWake(NotifyFromIsr(s), available + 1)
  {
    if s.waiting != [] {
      WakeKeeps(s, |s.woken| + Max(s.lock, 0));
    }
  }

  /** The 128th post of one locked section is where the claim breaks: announcing one more unit keeps the
      claim exactly below the limit, or when nobody waits, or when the woken tasks alone have units to spare. */
  lemma SaturationIsTheLimit(s: Side, available: int)
    requires SideOk(s) && NoLostWake(s, available) && LOCKED_UNMODIFIED <= s.lock <= INT8_MAX
    ensures NoLostWake(NotifyFromIsr(s), available + 1)
            <==> s.lock < INT8_MAX || s.waiting == [] || available < |s.woken|
  {
    if s.lock == INT8_MAX {
      assert NotifyFromIsr(s).lock == -128;
    }
  }

  /** How many waiters an unlock wakes: one per count, while there are any. */
  function Wakes(s: Side): nat {
    if s.lock <= LOCKED_UNMODIFIED then 0 else if s.lock <= |s.waiting| then s.lock else |s.waiting|
  }

  lemma {:induction false} DrainTakesFromHead(s: Side)
    ensures Drain(s).waiting == s.waiting[Wakes(s)..]
    ensures Drain(s).waiting != [] ==> Drain(s).lock <= LOCKED_UNMODIFIED
    decreases s.lock
  {
    if s.lock > LOCKED_UNMODIFIED && s.waiting != [] {
      var w := Wake(s).(lock := s.lock - 1);
      DrainTakesFromHead(w);
      assert w.waiting[Wakes(w)..] == s.waiting[Wakes(s)..];
    }
  }

  lemma {:induction false} DrainWakesThose(s: Side)
    ensures forall t :: t in Drain(s).woken <==> t in s.woken || t in s.waiting[..Wakes(s)]
    decreases s.lock
  {
    if s.lock > LOCKED_UNMODIFIED && s.waiting != [] {
      var w := Wake(s).(lock := s.lock - 1);
      DrainWakesThose(w);
      assert s.waiting[..Wakes(s)] == [s.waiting[0]] + w.waiting[..Wakes(w)];
    }
  }

  lemma {:induction false} DrainCounts(s: Side)
    requires SideOk(s)
    ensures SideOk(Drain(s)) && |Drain(s).woken| == |s.woken| + Wakes(s)
    decreases s.lock
  {
    if s.lock > LOCKED_UNMODIFIED && s.waiting != [] {
      WakeKeeps(s, |s.woken| + s.lock);
      DrainCounts(Wake(s).(lock := s.lock - 1));
    }
  }

  /** Unlocking turns counts into woken tasks one for one, taking waiters from the head, and stops
      short only when nobody is left to wake. */
  lemma DrainWakesInOrder(s: Side)
    requires SideOk(s)
    ensures Drain(s).waiting == s.waiting[Wakes(s)..]
    ensures forall t :: t in Drain(s).woken <==> t in s.woken || t in s.waiting[..Wakes(s)]
    ensures |Drain(s).woken| == |s.woken| + Wakes(s)
    ensures Drain(s).waiting != [] ==> Drain(s).lock <= LOCKED_UNMODIFIED
    ensures SideOk(Drain(s))
  {
    DrainTakesFromHead(s);
    DrainWakesThose(s);
    DrainCounts(s);
  }

  lemma UnlockKeeps(s: Side, available: int)
    requires SideOk(s)
    ensures SideOk(Unlock(s)) && OnlyWakes(s, Unlock(s))
    ensures NoLostWake(s, available) ==> NoLostWake(Unlock(s), available)
  {
    DrainWakesInOrder(s);
  }

  lemma ExpireKeeps(s: Side, t: Task, available: int)
    requires SideOk(s)
    ensures SideOk(Expire(s, t)) && OnlyWakes(s, Expire(s, t))
    ensures NoLostWake(s, available) ==> NoLostWake(Expire(s, t), available)
    ensures Expire(s, t).woken == s.woken && forall u :: u in Expire(s, t).waiting <==> u in s.waiting && u != t
  {
    WithoutIs(s.waiting, t);
    if s.waiting == [] {
      assert Without(s.waiting, t) == [];
    }
  }

  lemma EnqueueKeeps(s: Side, t: Task, place: nat)
    requires SideOk(s) && place <= |s.waiting| && t !in s.waiting && t !in s.woken
    ensures SideOk(Enqueue(s, t, place))
    ensures forall u :: u in Enqueue(s, t, place).waiting <==> u in s.waiting || u == t
  {
    var w := s.waiting;
    assert w == w[..place] + w[place..];
    var e := Enqueue(s, t, place).waiting;
    assert forall i :: 0 <= i < |e| ==> e[i] == if i < place then w[i] else if i == place then t else w[i - 1];
  }

  /** The sender's claim survives a reset exactly when at most one sender waited, or the senders
      already woken (the one the reset wakes included) can fill the emptied queue. */
  lemma ResetKeepsSendersIff(q: Queue)
    requires SideOk(q.rx)
    ensures NoLostWake(Reset(q).rx, Free(Reset(q)))
       <==> |q.rx.waiting| <= 1 || q.length <= |q.rx.woken| + 1
  {
    if q.rx.waiting != [] {
      WakeKeeps(q.rx, |q.rx.woken| + Max(q.rx.lock, 0));
    }
  }

  // ---------- The queue as it is updated in place ----------

  /** The task at the head of an event list, if there is one, has been taken off it and is ready. */
  ghost predicate HeadReadied(waiting: seq<Task>, woken: set<Task>, waiting': seq<Task>, woken': set<Task>) {
    if waiting == [] then waiting' == [] && woken' == woken
    else waiting' == waiting[1..] && woken' == woken + {waiting[0]}
  }

  class QueueControl {
    var messages: nat
    const length: nat
    const itemSize: nat
    var cRxLock: int
    var cTxLock: int
    var waitingToSend: seq<Task>
    var waitingToReceive: seq<Task>
    ghost var wokenSenders: set<Task>
    ghost var wokenReceivers: set<Task>

    ghost function View(): Queue
      reads this
    {
      Queue(messages, length, itemSize, Side(cTxLock, waitingToReceive, wokenReceivers),
        Side(cRxLock, waitingToSend, wokenSenders))
    }

    constructor (length: nat, itemSize: nat)
      ensures View() == Queue(0, length, itemSize, Side(UNLOCKED, [], {}), Side(UNLOCKED, [], {}))
    {
      this.length, this.itemSize := length, itemSize;
      messages, cRxLock, cTxLock := 0, UNLOCKED, UNLOCKED;
      waitingToSend, waitingToReceive := [], [];
      wokenSenders, wokenReceivers := {}, {};
    }

    /** xTaskRemoveFromEventList on xTasksWaitingToReceive. */
    method WakeReceiver()
      requires waitingToReceive != []
      modifies `waitingToReceive, `wokenReceivers
      ensures View() == old(View()).(tx := Wake(old(View()).tx))
      ensures HeadReadied(old(waitingToReceive), old(wokenReceivers), waitingToReceive, wokenReceivers)
    {
      wokenReceivers := wokenReceivers + {waitingToReceive[0]};
      waitingToReceive := waitingToReceive[1..];
    }

    /** xTaskRemoveFromEventList on xTasksWaitingToSend. */
    method WakeSender()
      requires waitingToSend != []
      modifies `waitingToSend, `wokenSenders
      ensures View() == old(View()).(rx := Wake(old(View()).rx))
      ensures HeadReadied(old(waitingToSend), old(wokenSenders), waitingToSend, wokenSenders)
    {
      wokenSenders := wokenSenders + {waitingToSend[0]};
      waitingToSend := waitingToSend[1..];
    }

    /** The count at the end of prvCopyDataToQueue. */
    method CountItem(overwrite: bool)
      modifies `messages
      ensures messages == Posted(old(View()), overwrite)
    {
      var uxMessagesWaiting := messages;
      if itemSize != 0 && overwrite && uxMessagesWaiting > 0 {
        uxMessagesWaiting := uxMessagesWaiting - 1;
      }
      messages := uxMessagesWaiting + 1;
    }

    /** The critical section of xQueueGenericSend. */
    method TrySend(overwrite: bool) returns (sent: bool)
      modifies this
      ensures sent == (old(messages) < length || overwrite)
      ensures View() == if sent then Send(old(View()), overwrite) else old(View())
      ensures sent ==> HeadReadied(old(waitingToReceive), old(wokenReceivers), waitingToReceive, wokenReceivers)
      ensures sent ==> messages == old(messages) + (if overwrite && itemSize > 0 && old(messages) > 0 then 0 else 1)
      ensures !sent ==> unchanged(this)
      ensures unchanged(`cRxLock, `cTxLock, `waitingToSend, `wokenSenders)
    {
      if messages < length || overwrite {
        CountItem(overwrite);
        if waitingToReceive != [] {
          WakeReceiver();
        }
        return true;
      }
      return false;
    }

    /** xQueueGenericSendFromISR, and xQueueGiveFromISR when overwrite is false. */
    method TrySendFromIsr(overwrite: bool) returns (sent: bool)
      modifies this
      ensures sent == (old(messages) < length || overwrite)
      ensures View() == if sent then SendFromIsr(old(View()), overwrite) else old(View())
      ensures sent && old(cTxLock) == UNLOCKED ==>
              HeadReadied(old(waitingToReceive), old(wokenReceivers), waitingToReceive, wokenReceivers)
      ensures sent ==> messages == old(messages) + (if overwrite && itemSize > 0 && old(messages) > 0 then 0 else 1)
      ensures sent && old(cTxLock) != UNLOCKED ==> unchanged(`waitingToReceive, `wokenReceivers)
      ensures -1 <= old(cTxLock) < INT8_MAX ==>
              cTxLock == if sent && old(cTxLock) != UNLOCKED then old(cTxLock) + 1 else old(cTxLock)
      ensures !sent ==> unchanged(this)
      ensures unchanged(`cRxLock, `waitingToSend, `wokenSenders)
    {
      if messages < length || overwrite {
        CountItem(overwrite);
        if cTxLock == UNLOCKED {
          if waitingToReceive != [] {
            WakeReceiver();
          }
        } else {
          cTxLock := ToInt8(cTxLock + 1);
        }
        return true;
      }
      return false;
    }

    /** The critical section of xQueueReceive and xQueueSemaphoreTake. */
    method TryReceive() returns (received: bool)
      modifies this
      ensures received == (old(messages) > 0)
      ensures View() == if received then Receive(old(View())) else old(View())
      ensures received ==> HeadReadied(old(waitingToSend), old(wokenSenders), waitingToSend, wokenSenders)
      ensures messages == old(messages) - (if received then 1 else 0)
      ensures !received ==> unchanged(this)
      ensures unchanged(`cRxLock, `cTxLock, `waitingToReceive, `wokenReceivers)
    {
      if messages > 0 {
        messages := messages - 1;
        if waitingToSend != [] {
          WakeSender();
        }
        return true;
      }
      return false;
    }

    method TryReceiveFromIsr() returns (received: bool)
      modifies this
      ensures received == (old(messages) > 0)
      ensures View() == if received then ReceiveFromIsr(old(View())) else old(View())
      ensures received && old(cRxLock) == UNLOCKED ==>
              HeadReadied(old(waitingToSend), old(wokenSenders), waitingToSend, wokenSenders)
      ensures messages == old(messages) - (if received then 1 else 0)
      ensures received && old(cRxLock) != UNLOCKED ==> unchanged(`waitingToSend, `wokenSenders)
      ensures -1 <= old(cRxLock) < INT8_MAX ==>
              cRxLock == if received && old(cRxLock) != UNLOCKED then old(cRxLock) + 1 else old(cRxLock)
      ensures !received ==> unchanged(this)
      ensures unchanged(`cTxLock, `waitingToReceive, `wokenReceivers)
    {
      if messages > 0 {
        messages := messages - 1;
        if cRxLock == UNLOCKED {
          if waitingToSend != [] {
            WakeSender();
          }
        } else {
          cRxLock := ToInt8(cRxLock + 1);
        }
        return true;
      }
      return false;
    }

    /** The critical section of xQueuePeek. */
    method TryPeek() returns (peeked: bool)
      modifies this
      ensures peeked == (old(messages) > 0)
      ensures View() == if peeked then Peek(old(View())) else old(View())
      ensures peeked ==> HeadReadied(old(waitingToReceive), old(wokenReceivers), waitingToReceive, wokenReceivers)
      ensures !peeked ==> unchanged(this)
      ensures unchanged(`messages, `cRxLock, `cTxLock, `waitingToSend, `wokenSenders)
    {
      if messages > 0 {
        if waitingToReceive != [] {
          WakeReceiver();
        }
        return true;
      }
      return false;
    }

    method LockBoth()
      modifies this
      ensures View() == LockQueue(old(View()))
      ensures cRxLock == (if old(cRxLock) == UNLOCKED then LOCKED_UNMODIFIED else old(cRxLock))
      ensures cTxLock == (if old(cTxLock) == UNLOCKED then LOCKED_UNMODIFIED else old(cTxLock))
      ensures unchanged(`messages, `waitingToSend, `waitingToReceive, `wokenSenders, `wokenReceivers)
    {
      if cRxLock == UNLOCKED {
        cRxLock := LOCKED_UNMODIFIED;
      }
      if cTxLock == UNLOCKED {
        cTxLock := LOCKED_UNMODIFIED;
      }
    }

    /** The first critical section of prvUnlockQueue, for a queue outside any set. */
    method UnlockTx()
      modifies this
      ensures View() == old(View()).(tx := Unlock(old(View()).tx))
      ensures cTxLock == UNLOCKED && unchanged(`messages, `cRxLock, `waitingToSend, `wokenSenders)
      ensures var n := Min(Max(old(cTxLock), 0), |old(waitingToReceive)|);
              && waitingToReceive == old(waitingToReceive)[n..]
              && forall t :: t in wokenReceivers <==> t in old(wokenReceivers) || t in old(waitingToReceive)[..n]
    {
      DrainTakesFromHead(View().tx);
      DrainWakesThose(View().tx);
      var lock := cTxLock;
      while lock > LOCKED_UNMODIFIED
        invariant View().rx == old(View()).rx && messages == old(messages)
        invariant Drain(View().tx.(lock := lock)) == Drain(old(View()).tx)
        invariant cTxLock == old(cTxLock)
      {
        if waitingToReceive != [] {
          WakeReceiver();
        } else {
          break;
        }
        lock := lock - 1;
      }
      cTxLock := UNLOCKED;
    }

    /** The second critical section of prvUnlockQueue. */
    method UnlockRx()
      modifies this
      ensures View() == old(View()).(rx := Unlock(old(View()).rx))
      ensures cRxLock == UNLOCKED && unchanged(`messages, `cTxLock, `waitingToReceive, `wokenReceivers)
      ensures var n := Min(Max(old(cRxLock), 0), |old(waitingToSend)|);
              && waitingToSend == old(waitingToSend)[n..]
              && forall t :: t in wokenSenders <==> t in old(wokenSenders) || t in old(waitingToSend)[..n]
    {
      DrainTakesFromHead(View().rx);
      DrainWakesThose(View().rx);
      var lock := cRxLock;
      while lock > LOCKED_UNMODIFIED
        invariant View().tx == old(View()).tx && messages == old(messages)
        invariant Drain(View().rx.(lock := lock)) == Drain(old(View()).rx)
        invariant cRxLock == old(cRxLock)
      {
        if waitingToSend != [] {
          WakeSender();
          lock := lock - 1;
        } else {
          break;
        }
      }
      cRxLock := UNLOCKED;
    }

    /** xQueueGenericReset with xNewQueue false. */
    method ResetInUse()
      modifies this
      ensures View() == Reset(old(View()))
      ensures messages == 0 && cRxLock == cTxLock == UNLOCKED && unchanged(`waitingToReceive, `wokenReceivers)
      ensures HeadReadied(old(waitingToSend), old(wokenSenders), waitingToSend, wokenSenders)
    {
      messages := 0;
      cRxLock, cTxLock := UNLOCKED, UNLOCKED;
      if waitingToSend != [] {
        WakeSender();
      }
    }
  }
}
