/** Queue sets of queue.c: every item posted to a member puts the member's handle in the set, at once
    or, when the member is locked, once for each count when it is unlocked. */
module QueueSets {
  import opened Numbers
  import opened QueueLocks

  type Index = nat

  /** The fields of a member that matter, and how often its handle has been selected from the set
      without the member having been read yet. */
  datatype Member = Member(messages: nat, length: nat, itemSize: nat, lock: int, selected: nat)

  /** dropped counts the handles that found the set full. */
  datatype Set = Set(members: seq<Member>, handles: seq<Index>, capacity: nat, dropped: nat)

  datatype Event =
    | Post(i: Index, overwrite: bool)
    | PostFromIsr(i: Index, overwrite: bool)
    | Select
    | Read(i: Index)
    | LockMember(i: Index)
    | UnlockMember(i: Index)
    | Add(elsewhere: bool, messages: nat, length: nat, itemSize: nat)
    | Remove(i: Index)

  function M(s: Set, i: Index): Member {
    if i < |s.members| then s.members[i] else Member(0, 0, 0, UNLOCKED, 0)
  }

  function Put(s: Set, i: Index, m: Member): (s': Set)
    ensures i < |s.members| ==> M(s', i) == m
    ensures forall j :: j != i ==> M(s', j) == M(s, j)
    ensures |s'.members| == |s.members|
  {
    if i < |s.members| then s.(members := s.members[i := m]) else s
  }

  /** prvNotifyQueueSetContainer. */
  function Notify(s: Set, i: Index): Set {
    if |s.handles| < s.capacity then s.(handles := s.handles + [i]) else s.(dropped := s.dropped + 1)
  }

  predicate MemberHasRoom(m: Member, overwrite: bool) {
    m.messages < m.length || overwrite
  }

  /** prvCopyDataToQueue: an item of size 0 cannot be overwritten, so the count rises even then. */
  function PostedMember(m: Member, overwrite: bool): Member {
    if overwrite && m.messages > 0 && m.itemSize > 0 then m else m.(messages := m.messages + 1)
  }

  /** A task's post, and an interrupt's to an unlocked member: an item overwritten is not announced. */
  function PostTo(s: Set, i: Index, overwrite: bool): Set {
    var m := M(s, i);
    if !MemberHasRoom(m, overwrite) then s
    else if overwrite && m.messages > 0 then Put(s, i, PostedMember(m, overwrite))
    else Notify(Put(s, i, PostedMember(m, overwrite)), i)
  }

  /** An interrupt's post to a locked member only adds to the lock count, whatever it did to the items. */
  function PostFromIsrTo(s: Set, i: Index, overwrite: bool): Set {
    var m := M(s, i);
    if !MemberHasRoom(m, overwrite) then s
    else if m.lock == UNLOCKED then PostTo(s, i, overwrite)
    else Put(s, i, PostedMember(m, overwrite).(lock := ToInt8(m.lock + 1)))
  }

  /** The loop of prvUnlockQueue for a member of a set: no count is passed over. */
  function DrainTo(s: Set, i: Index): Set
    decreases M(s, i).lock
  {
    var m := M(s, i);
    if i < |s.members| && m.lock > LOCKED_UNMODIFIED
    then DrainTo(Notify(Put(s, i, m.(lock := m.lock - 1)), i), i)
    else s
  }

  function UnlockOf(s: Set, i: Index): Set {
    var s' := DrainTo(s, i);
    Put(s', i, M(s', i).(lock := UNLOCKED))
  }

  function SelectFrom(s: Set): Set {
    if s.handles == [] then s
    else
      var i := s.handles[0];
      Put(s.(handles := s.handles[1..]), i, M(s, i).(selected := M(s, i).selected + 1))
  }

  /** A member is read only after it has been selected. */
  function ReadFrom(s: Set, i: Index): Set {
    var m := M(s, i);
    if m.messages == 0 || m.selected == 0 then s
    else Put(s, i, m.(messages := m.messages - 1, selected := m.selected - 1))
  }

  /** xQueueAddToSet: only an empty queue is taken in, and none that is in this set or another. */
  function AddTo(s: Set, m: Member, elsewhere: bool): Set {
    if elsewhere || m.messages != 0 then s else s.(members := s.members + [m])
  }

  /** The critical section of xQueueRemoveFromSet. A place without room is left; what is in the queue no longer
      concerns the set, but handles, announcements and selections that there are stay. */
  function RemoveFrom(s: Set, i: Index): Set {
    Put(s, i, M(s, i).(messages := 0, length := 0))
  }

  function Apply(s: Set, e: Event): Set {
    match e
    case Post(i, overwrite) => PostTo(s, i, overwrite)
    case PostFromIsr(i, overwrite) => PostFromIsrTo(s, i, overwrite)
    case Select => SelectFrom(s)
    case Read(i) => ReadFrom(s, i)
    case LockMember(i) => if M(s, i).lock == UNLOCKED then Put(s, i, M(s, i).(lock := LOCKED_UNMODIFIED)) else s
    case UnlockMember(i) => UnlockOf(s, i)
    case Add(elsewhere, messages, length, itemSize) =>
      AddTo(s, Member(messages, length, itemSize, UNLOCKED, 0), elsewhere)
    case Remove(i) => RemoveFrom(s, i)
  }

  // ---------- The ledger ----------

  function Count(handles: seq<Index>, i: Index): nat {
    if handles == [] then 0 else Count(handles[..|handles| - 1], i) + if handles[|handles| - 1] == i then 1 else 0
  }

  /** Handles in the set, announcements still held back, and selections not yet read: together they
      are the items in the member. */
  predicate Ledger(s: Set, i: Index) {
    Count(s.handles, i) + Max(M(s, i).lock, 0) + M(s, i).selected == M(s, i).messages
  }

  function Lengths(members: seq<Member>): nat {
    if members == [] then 0 else Lengths(members[..|members| - 1]) + members[|members| - 1].length
  }

  predicate MemberOk(s: Set, i: Index) {
    Ledger(s, i) && M(s, i).messages <= M(s, i).length && UNLOCKED <= M(s, i).lock <= INT8_MAX
  }

  predicate SetOk(s: Set) {
    && (forall k {:trigger s.handles[k]} :: 0 <= k < |s.handles| ==> s.handles[k] < |s.members|)
    && Lengths(s.members) <= s.capacity
    && s.dropped == 0
  }

  ghost predicate Sound(s: Set) {
    SetOk(s) && forall i: Index {:trigger M(s, i)} :: i < |s.members| ==> MemberOk(s, i)
  }

  /** One member has an item more than the ledger accounts for. */
  ghost predicate OneShort(s: Set, short: Index) {
    && SetOk(s) && short < |s.members|
    && (forall i: Index {:trigger M(s, i)} :: i < |s.members| && i != short ==> MemberOk(s, i))
    && Count(s.handles, short) + Max(M(s, short).lock, 0) + M(s, short).selected + 1 == M(s, short).messages
    && M(s, short).messages <= M(s, short).length && UNLOCKED <= M(s, short).lock <= INT8_MAX
  }

  lemma {:induction false} CountFirst(handles: seq<Index>, j: Index)
    requires handles != []
    ensures Count(handles, j) == Count(handles[1..], j) + if handles[0] == j then 1 else 0
  {
    if |handles| > 1 {
      var init := handles[..|handles| - 1];
      CountFirst(init, j);
      assert init[1..] == handles[1..][..|handles| - 2];
    } else {
      assert handles[..0] == [] && handles[1..] == [];
    }
  }

  /** The handles of the first n members. */
  function CountTo(handles: seq<Index>, n: nat): nat {
    if n == 0 then 0 else CountTo(handles, n - 1) + Count(handles, n - 1)
  }

  lemma {:induction false} CountToAppend(handles: seq<Index>, i: Index, n: nat)
    ensures CountTo(handles + [i], n) == CountTo(handles, n) + if i < n then 1 else 0
  {
    if n > 0 {
      CountToAppend(handles, i, n - 1);
    }
  }

  lemma {:induction false} CountToNone(n: nat)
    ensures CountTo([], n) == 0
  {
    if n > 0 {
      CountToNone(n - 1);
    }
  }

  /** Every handle belongs to some member. */
  lemma {:induction false} CountToAll(handles: seq<Index>, n: nat)
    requires forall k {:trigger handles[k]} :: 0 <= k < |handles| ==> handles[k] < n
    ensures CountTo(handles, n) == |handles|
  {
    if handles == [] {
      CountToNone(n);
    } else {
      var init, last := handles[..|handles| - 1], handles[|handles| - 1];
      assert handles == init + [last];
      CountToAll(init, n);
      CountToAppend(init, last, n);
    }
  }

  /** Handles never outnumber the lengths, and fall short of them when one member's do. */
  lemma {:induction false} CountBelowLengths(members: seq<Member>, handles: seq<Index>, short: Index)
    requires forall i {:trigger members[i]} :: 0 <= i < |members| ==>
             Count(handles, i) <= members[i].length - if i == short then 1 else 0
    ensures CountTo(handles, |members|) <= Lengths(members) - if short < |members| then 1 else 0
  {
    if members != [] {
      var init := members[..|members| - 1];
      assert forall i :: 0 <= i < |init| ==> init[i] == members[i];
      CountBelowLengths(init, handles, short);
    }
  }

  lemma {:induction false} LengthsChange(members: seq<Member>, i: Index, m: Member)
    requires i < |members|
    ensures Lengths(members[i := m]) == Lengths(members) - members[i].length + m.length
  {
    var n := |members| - 1;
    if i < n {
      LengthsChange(members[..n], i, m);
      assert members[i := m][..n] == members[..n][i := m];
    } else {
      assert members[i := m][..n] == members[..n];
    }
  }

  /** A member with more items than handles has left room for one in the set. */
  lemma RoomForOne(s: Set, i: Index)
    requires i < |s.members| && Count(s.handles, i) < M(s, i).length && Lengths(s.members) <= s.capacity
    requires forall j: Index {:trigger M(s, j)} :: j < |s.members| ==> Count(s.handles, j) <= M(s, j).length
    requires forall k {:trigger s.handles[k]} :: 0 <= k < |s.handles| ==> s.handles[k] < |s.members|
    ensures |s.handles| < s.capacity
  {
    CountToAll(s.handles, |s.members|);
    assert forall j :: 0 <= j < |s.members| ==> s.members[j] == M(s, j);
    CountBelowLengths(s.members, s.handles, i);
  }

  // ---------- What every step keeps ----------

  /** Announcing the item always finds room, and squares the ledger. */
  lemma NotifyKeeps(s: Set, i: Index)
    requires OneShort(s, i)
    ensures Sound(Notify(s, i)) && Notify(s, i).handles == s.handles + [i]
  {
    assert Max(M(s, i).lock, 0) >= 0;
    RoomForOne(s, i);
    var s' := Notify(s, i);
    forall j: Index | j < |s.members| ensures MemberOk(s', j) {
      assert M(s', j) == M(s, j);
    }
  }

  lemma PutKeepsSet(s: Set, i: Index, m: Member)
    requires SetOk(s) && i < |s.members| && m.length <= M(s, i).length
    ensures SetOk(Put(s, i, m))
  {
    LengthsChange(s.members, i, m);
  }

  /** A change to one member that leaves its own account square. */
  lemma PutKeeps(s: Set, i: Index, m: Member)
    requires Sound(s) && i < |s.members| && m.length <= M(s, i).length
    requires m.messages - Max(m.lock, 0) - m.selected == M(s, i).messages - Max(M(s, i).lock, 0) - M(s, i).selected
    requires m.messages <= m.length && UNLOCKED <= m.lock <= INT8_MAX
    ensures Sound(Put(s, i, m))
  {
    PutKeepsSet(s, i, m);
    var s' := Put(s, i, m);
    forall j: Index | j < |s.members| ensures MemberOk(s', j) {
      assert MemberOk(s, j);
    }
  }

  lemma PutShort(s: Set, i: Index, m: Member)
    requires Sound(s) && i < |s.members| && m.length == M(s, i).length
    requires m.messages - Max(m.lock, 0) - m.selected == M(s, i).messages - Max(M(s, i).lock, 0) - M(s, i).selected + 1
    requires m.messages <= m.length && UNLOCKED <= m.lock <= INT8_MAX
    ensures OneShort(Put(s, i, m), i)
  {
    PutKeepsSet(s, i, m);
    var s' := Put(s, i, m);
    assert MemberOk(s, i);
    forall j: Index | j < |s.members| && j != i ensures MemberOk(s', j) {
      assert MemberOk(s, j);
    }
  }

  /** When a task's post leaves the ledger square: an item was there to be overwritten, or it is announced. */
  predicate PostIsAccountedFor(m: Member, overwrite: bool) {
    overwrite && m.messages > 0 ==> m.itemSize > 0
  }

  /** Exactly then: overwriting the item of a full binary semaphore adds a second one, unannounced. */
  lemma PostKeepsIff(s: Set, i: Index, overwrite: bool)
    requires Sound(s) && i < |s.members| && (overwrite ==> M(s, i).length == 1)
    ensures Sound(PostTo(s, i, overwrite)) <==> PostIsAccountedFor(M(s, i), overwrite)
  {
    var m := M(s, i);
    assert MemberOk(s, i);
    if !PostIsAccountedFor(m, overwrite) {
      assert !MemberOk(PostTo(s, i, overwrite), i);
    } else if overwrite && m.messages > 0 {
      PutKeeps(s, i, m);
    } else if MemberHasRoom(m, overwrite) {
      PutShort(s, i, PostedMember(m, overwrite));
      NotifyKeeps(Put(s, i, PostedMember(m, overwrite)), i);
    }
  }

  /** When an interrupt's post does: as for a task if the member is unlocked; if it is locked, the post must add
      an item, for every post is announced at the unlock, and the lock count must be below its limit. */
  predicate IsrPostIsAccountedFor(m: Member, overwrite: bool) {
    || !MemberHasRoom(m, overwrite)
    || if m.lock == UNLOCKED then PostIsAccountedFor(m, overwrite)
       else !(overwrite && m.messages > 0) && m.lock < INT8_MAX
  }

  /** Exactly then do the ledger and the bound on the items hold: an interrupt that overwrites in a full and locked
      member announces its item a second time or, if the items have no size, adds one beyond the length. */
  lemma IsrPostKeepsIff(s: Set, i: Index, overwrite: bool)
    requires Sound(s) && i < |s.members| && (overwrite ==> M(s, i).length == 1)
    ensures Sound(PostFromIsrTo(s, i, overwrite)) <==> IsrPostIsAccountedFor(M(s, i), overwrite)
  {
    var m := M(s, i);
    assert MemberOk(s, i);
    if m.lock == UNLOCKED {
      PostKeepsIff(s, i, overwrite);
    } else if !IsrPostIsAccountedFor(m, overwrite) {
      assert !MemberOk(PostFromIsrTo(s, i, overwrite), i);
    } else if MemberHasRoom(m, overwrite) {
      PutKeeps(s, i, PostedMember(m, overwrite).(lock := m.lock + 1));
    }
  }

  lemma {:induction false} DrainKeeps(s: Set, i: Index)
    requires Sound(s) && i < |s.members|
    ensures Sound(DrainTo(s, i)) && |DrainTo(s, i).members| == |s.members|
    ensures M(DrainTo(s, i), i) == M(s, i).(lock := if M(s, i).lock > 0 then 0 else M(s, i).lock)
    decreases M(s, i).lock
  {
    var m := M(s, i);
    if m.lock > LOCKED_UNMODIFIED {
      PutShort(s, i, m.(lock := m.lock - 1));
      NotifyKeeps(Put(s, i, m.(lock := m.lock - 1)), i);
      DrainKeeps(Notify(Put(s, i, m.(lock := m.lock - 1)), i), i);
    }
  }

  lemma UnlockKeeps(s: Set, i: Index)
    requires Sound(s) && i < |s.members|
    ensures Sound(UnlockOf(s, i))
  {
    DrainKeeps(s, i);
    var s' := DrainTo(s, i);
    assert MemberOk(s, i);
    PutKeeps(s', i, M(s', i).(lock := UNLOCKED));
  }

  lemma SelectKeeps(s: Set)
    requires Sound(s)
    ensures Sound(SelectFrom(s))
  {
    if s.handles != [] {
      var i := s.handles[0];
      var s' := SelectFrom(s);
      LengthsChange(s.members, i, M(s', i));
      forall j: Index | j < |s.members| ensures MemberOk(s', j) {
        assert MemberOk(s, j);
        CountFirst(s.handles, j);
      }
    }
  }

  /** An empty queue may join, and only that: a task that calls xQueueAddToSet finds the queue unlocked, with no
      announcement held back (QueueRuns.CallersFindItUnlocked). */
  lemma AddKeeps(s: Set, m: Member)
    requires Sound(s) && m.selected == 0 && m.lock == UNLOCKED && Lengths(s.members) + m.length <= s.capacity
    ensures forall elsewhere :: Sound(AddTo(s, m, elsewhere))
    ensures Sound(s.(members := s.members + [m])) <==> m.messages == 0
  {
    var s' := s.(members := s.members + [m]);
    var n := |s.members|;
    assert s'.members[..n] == s.members;
    NoHandles(s.handles, n);
    assert M(s', n) == m;
    forall j: Index | j < n ensures MemberOk(s', j) {
      assert MemberOk(s, j) && M(s', j) == M(s, j);
    }
    if m.messages == 0 {
      assert MemberOk(s', n);
    }
  }

  /** A removal leaves no handle, announcement or selection behind exactly if the queue is empty at that moment.
      xQueueRemoveFromSet has looked before, outside the critical section. */
  lemma RemoveKeepsIff(s: Set, i: Index)
    requires Sound(s) && i < |s.members|
    ensures Sound(RemoveFrom(s, i)) <==> M(s, i).messages == 0
    ensures M(s, i).messages == 0 ==> i !in s.handles
  {
    assert MemberOk(s, i);
    CountedIsIn(s.handles, i);
    if M(s, i).messages == 0 {
      PutKeeps(s, i, M(s, i).(length := 0));
    } else {
      assert !Ledger(RemoveFrom(s, i), i);
      assert !MemberOk(RemoveFrom(s, i), i);
    }
  }

  lemma {:induction false} NoHandles(handles: seq<Index>, n: nat)
    requires forall k {:trigger handles[k]} :: 0 <= k < |handles| ==> handles[k] < n
    ensures Count(handles, n) == 0
  {
    if handles != [] {
      NoHandles(handles[..|handles| - 1], n);
    }
  }

  // ---------- Every run ----------

  /** What the application must respect: overwriting is for queues of one item that has a size, and not from an
      interrupt while the member is locked and full; at most 127 posts per locked section; the set is as long as
      its members together; a member is still empty when its removal gets into its critical section. */
  predicate Allowed(s: Set, e: Event) {
    match e
    case Post(i, overwrite) =>
      i < |s.members| && (overwrite ==> M(s, i).length == 1) && PostIsAccountedFor(M(s, i), overwrite)
    case PostFromIsr(i, overwrite) =>
      i < |s.members| && (overwrite ==> M(s, i).length == 1) && IsrPostIsAccountedFor(M(s, i), overwrite)
    case Select => true
    case Read(i) => i < |s.members|
    case LockMember(i) => i < |s.members|
    case UnlockMember(i) => i < |s.members|
    case Add(_, messages, length, itemSize) => Lengths(s.members) + length <= s.capacity
    case Remove(i) => i < |s.members| && M(s, i).messages == 0
  }

  lemma StepKeeps(s: Set, e: Event)
    requires Sound(s) && Allowed(s, e)
    ensures Sound(Apply(s, e))
  {
    match e {
      case Post(i, overwrite) => PostKeepsIff(s, i, overwrite);
      case PostFromIsr(i, overwrite) => IsrPostKeepsIff(s, i, overwrite);
      case Select => SelectKeeps(s);
      case Read(i) => ReadKeeps(s, i);
      case LockMember(i) =>
        if M(s, i).lock == UNLOCKED {
          assert MemberOk(s, i);
          PutKeeps(s, i, M(s, i).(lock := LOCKED_UNMODIFIED));
        }
      case UnlockMember(i) => UnlockKeeps(s, i);
      case Add(_, messages, length, itemSize) => AddKeeps(s, Member(messages, length, itemSize, UNLOCKED, 0));
      case Remove(i) => RemoveKeepsIff(s, i);
    }
  }

  lemma ReadKeeps(s: Set, i: Index)
    requires Sound(s) && i < |s.members|
    ensures Sound(ReadFrom(s, i))
  {
    var m := M(s, i);
    assert MemberOk(s, i);
    if m.messages > 0 && m.selected > 0 {
      PutKeeps(s, i, m.(messages := m.messages - 1, selected := m.selected - 1));
    }
  }

  ghost predicate CanRun(s: Set, es: seq<Event>)
    decreases |es|
  {
    es != [] ==> Allowed(s, es[0]) && CanRun(Apply(s, es[0]), es[1..])
  }

  function Run(s: Set, es: seq<Event>): Set
    decreases |es|
  {
    if es == [] then s else Run(Apply(s, es[0]), es[1..])
  }

  lemma {:induction false} RunKeeps(s: Set, es: seq<Event>)
    requires Sound(s) && CanRun(s, es)
    ensures Sound(Run(s, es))
    decreases |es|
  {
    if es != [] {
      StepKeeps(s, es[0]);
      RunKeeps(Apply(s, es[0]), es[1..]);
    }
  }

  /** In every state a set can reach: the ledger is square for every member, no handle ever found the set
      full, a member that has been selected holds an item for whoever selected it, and there is no handle of a
      queue that has been removed. */
  lemma SelectedMembersAreReady(capacity: nat, es: seq<Event>)
    requires CanRun(Set([], [], capacity, 0), es)
    ensures var s := Run(Set([], [], capacity, 0), es);
            && s.dropped == 0
            && (forall i: Index {:trigger M(s, i)} :: i < |s.members| ==>
                 Ledger(s, i) && M(s, i).selected <= M(s, i).messages)
            && (forall i: Index {:trigger M(s, i)} ::
                  i < |s.members| && M(s, i).lock <= 0 && M(s, i).messages > M(s, i).selected ==> i in s.handles)
            && (forall i: Index {:trigger M(s, i)} :: i < |s.members| && M(s, i).length == 0 ==> i !in s.handles)
  {
    RunKeeps(Set([], [], capacity, 0), es);
    var s := Run(Set([], [], capacity, 0), es);
    forall i: Index | i < |s.members|
      ensures Ledger(s, i) && M(s, i).selected <= M(s, i).messages
      ensures M(s, i).lock <= 0 && M(s, i).messages > M(s, i).selected ==> i in s.handles
      ensures M(s, i).length == 0 ==> i !in s.handles
    {
      assert MemberOk(s, i);
      CountedIsIn(s.handles, i);
    }
  }

  lemma {:induction false} CountedIsIn(handles: seq<Index>, i: Index)
    ensures Count(handles, i) > 0 <==> i in handles
  {
    if handles != [] {
      CountedIsIn(handles[..|handles| - 1], i);
    }
  }

  // ---------- First announced, first selected ----------

  function Times(i: Index, n: nat): seq<Index> {
    seq(n, _ => i)
  }

  /** The members a step announces, read off what is posted: a post that adds an item to a member that is not locked, or
      is made by a task; and an unlock once for each post counted. */
  function Announced(s: Set, e: Event): seq<Index> {
    match e
    case Post(i, overwrite) =>
      if (M(s, i).messages < M(s, i).length || overwrite) && !(overwrite && M(s, i).messages > 0) then [i] else []
    case PostFromIsr(i, overwrite) =>
      if M(s, i).lock == UNLOCKED && (M(s, i).messages < M(s, i).length || overwrite)
         && !(overwrite && M(s, i).messages > 0)
      then [i] else []
    case UnlockMember(i) => Times(i, Max(M(s, i).lock, 0))
    case _ => []
  }

  function AllAnnounced(s: Set, es: seq<Event>): seq<Index>
    decreases |es|
  {
    if es == [] then [] else Announced(s, es[0]) + AllAnnounced(Apply(s, es[0]), es[1..])
  }

  /** One selection more of this member has not been followed by a read. */
  predicate IsSelected(s: Set, s': Set, i: Index) {
    i < |s.members| && M(s', i).selected == M(s, i).selected + 1
  }

  /** The members that the selections of a run return, in order. */
  ghost predicate Selects(s: Set, es: seq<Event>, log: seq<Index>)
    decreases |es|
  {
    if es == [] then log == []
    else
      var s' := Apply(s, es[0]);
      if es[0].Select? && s.handles != [] then log != [] && IsSelected(s, s', log[0]) && Selects(s', es[1..], log[1..])
      else Selects(s', es[1..], log)
  }

  lemma {:induction false} DrainAnnounces(s: Set, i: Index)
    requires Sound(s) && i < |s.members|
    ensures DrainTo(s, i).handles == s.handles + Times(i, Max(M(s, i).lock, 0))
    decreases M(s, i).lock
  {
    var m := M(s, i);
    if m.lock > LOCKED_UNMODIFIED {
      var s1 := Put(s, i, m.(lock := m.lock - 1));
      PutShort(s, i, m.(lock := m.lock - 1));
      NotifyKeeps(s1, i);
      DrainAnnounces(Notify(s1, i), i);
      assert s.handles + Times(i, m.lock) == (s.handles + [i]) + Times(i, m.lock - 1);
    }
  }

  lemma PostsAnnounce(s: Set, i: Index, overwrite: bool)
    requires Sound(s) && i < |s.members| && (overwrite ==> M(s, i).length == 1)
    ensures PostTo(s, i, overwrite).handles == s.handles + Announced(s, Post(i, overwrite))
  {
    var m := M(s, i);
    assert MemberOk(s, i);
    if MemberHasRoom(m, overwrite) && !(overwrite && m.messages > 0) {
      PutShort(s, i, PostedMember(m, overwrite));
      NotifyKeeps(Put(s, i, PostedMember(m, overwrite)), i);
    }
  }

  lemma {:induction false} DrainChangesOne(s: Set, i: Index)
    requires Sound(s) && i < |s.members|
    ensures DrainTo(s, i).members == s.members[i := s.members[i].(lock := M(DrainTo(s, i), i).lock)]
    decreases M(s, i).lock
  {
    var m := M(s, i);
    if m.lock > LOCKED_UNMODIFIED {
      var s1 := Put(s, i, m.(lock := m.lock - 1));
      PutShort(s, i, m.(lock := m.lock - 1));
      NotifyKeeps(s1, i);
      DrainChangesOne(Notify(s1, i), i);
    }
  }

  lemma UnlockAnnounces(s: Set, i: Index)
    requires i < |s.members|
    ensures Sound(s) ==> UnlockOf(s, i).handles == s.handles + Times(i, Max(M(s, i).lock, 0))
    ensures Sound(s) ==> UnlockOf(s, i).members == s.members[i := s.members[i].(lock := UNLOCKED)]
  {
    if Sound(s) {
      DrainAnnounces(s, i);
      DrainChangesOne(s, i);
    }
  }

  /** One step: what was there and what it announces is what it selects and what is there afterwards. */
  lemma StepKeepsOrder(s: Set, e: Event, selected: Index)
    requires Sound(s) && Allowed(s, e)
    requires e.Select? && s.handles != [] ==> IsSelected(s, Apply(s, e), selected)
    ensures (if e.Select? && s.handles != [] then [selected] else []) + Apply(s, e).handles
            == s.handles + Announced(s, e)
  {
    match e {
      case Post(i, overwrite) => PostsAnnounce(s, i, overwrite);
      case PostFromIsr(i, overwrite) =>
        if M(s, i).lock == UNLOCKED {
          PostsAnnounce(s, i, overwrite);
        }
      case UnlockMember(i) => DrainAnnounces(s, i);
      case _ =>
    }
  }

  lemma Chained(first: seq<Index>, log: seq<Index>, left: seq<Index>, before: seq<Index>, between: seq<Index>,
                added: seq<Index>, rest: seq<Index>)
    requires first + between == before + added && log + left == between + rest
    ensures (first + log) + left == before + (added + rest)
  {
    assert (first + log) + left == first + (log + left) == (first + between) + rest;
  }

  /** Over every run, the members selected so far, followed by those whose handles are still in the set, are those that
      were there at the start, followed by those announced since, in order. */
  lemma {:induction false} SelectedInOrder(s: Set, es: seq<Event>, log: seq<Index>)
    requires Sound(s) && CanRun(s, es) && Selects(s, es, log)
    ensures log + Run(s, es).handles == s.handles + AllAnnounced(s, es)
    decreases |es|
  {
    if es != [] {
      var s' := Apply(s, es[0]);
      var n := if es[0].Select? && s.handles != [] then 1 else 0;
      StepKeeps(s, es[0]);
      StepKeepsOrder(s, es[0], if n == 1 then log[0] else 0);
      SelectedInOrder(s', es[1..], log[n..]);
      Chained(log[..n], log[n..], Run(s, es).handles, s.handles, s'.handles, Announced(s, es[0]),
              AllAnnounced(s', es[1..]));
      assert log[..n] + log[n..] == log;
    }
  }

  /** Every run has such a sequence. */
  lemma {:induction false} SelectionsAreLogged(s: Set, es: seq<Event>)
    requires Sound(s) && CanRun(s, es)
    ensures exists log :: Selects(s, es, log)
    decreases |es|
  {
    if es == [] {
      assert Selects(s, es, []);
    } else {
      StepKeeps(s, es[0]);
      SelectionsAreLogged(Apply(s, es[0]), es[1..]);
      var log :| Selects(Apply(s, es[0]), es[1..], log);
      if es[0].Select? && s.handles != [] {
        assert ([s.handles[0]] + log)[1..] == log;
        assert Selects(s, es, [s.handles[0]] + log);
      } else {
        assert Selects(s, es, log);
      }
    }
  }

  // ---------- Items are conserved ----------

  /** How many items a step adds to a member. An item is read only after a selection. */
  function ItemsAdded(s: Set, e: Event, i: Index): int {
    match e
    case Post(j, overwrite) => if j == i then PostAdds(M(s, i), overwrite) else 0
    case PostFromIsr(j, overwrite) => if j == i then PostAdds(M(s, i), overwrite) else 0
    case Read(j) => if j == i && M(s, i).messages > 0 && M(s, i).selected > 0 then -1 else 0
    case _ => 0
  }

  function PostAdds(m: Member, overwrite: bool): nat {
    if (m.messages < m.length || overwrite) && !(overwrite && m.itemSize > 0 && m.messages > 0) then 1 else 0
  }

  function Balance(s: Set, es: seq<Event>, i: Index): int
    decreases |es|
  {
    if es == [] then 0 else ItemsAdded(s, es[0], i) + Balance(Apply(s, es[0]), es[1..], i)
  }

  lemma {:induction false} DrainLeavesItems(s: Set, j: Index, i: Index)
    ensures M(DrainTo(s, j), i).messages == M(s, i).messages && |DrainTo(s, j).members| == |s.members|
    decreases M(s, j).lock
  {
    var m := M(s, j);
    if j < |s.members| && m.lock > LOCKED_UNMODIFIED {
      DrainLeavesItems(Notify(Put(s, j, m.(lock := m.lock - 1)), j), j, i);
    }
  }

  lemma StepAdds(s: Set, e: Event, i: Index)
    requires Allowed(s, e) && i < |s.members|
    ensures M(Apply(s, e), i).messages == M(s, i).messages + ItemsAdded(s, e, i)
    ensures |Apply(s, e).members| >= |s.members|
  {
    if e.UnlockMember? {
      DrainLeavesItems(s, e.i, i);
    }
  }

  /** Over every run a member holds what was posted to it less what was read. */
  lemma {:induction false} ItemsAreConserved(s: Set, es: seq<Event>, i: Index)
    requires CanRun(s, es) && i < |s.members|
    ensures M(Run(s, es), i).messages == M(s, i).messages + Balance(s, es, i)
    decreases |es|
  {
    if es != [] {
      StepAdds(s, es[0], i);
      ItemsAreConserved(Apply(s, es[0]), es[1..], i);
    }
  }

  // ---------- Where the ledger ends ----------

  /** A set with one full and locked one-item member. */
  function FullAndLocked(): Set {
    Set([Member(1, 1, 4, LOCKED_UNMODIFIED, 0)], [0], 2, 0)
  }

  lemma FullAndLockedIsReached()
    ensures var es := [Add(false, 0, 1, 4), Post(0, false), LockMember(0)];
            CanRun(Set([], [], 2, 0), es) && Run(Set([], [], 2, 0), es) == FullAndLocked()
  {
    var es := [Add(false, 0, 1, 4), Post(0, false), LockMember(0)];
    var s := Apply(Set([], [], 2, 0), es[0]);
    assert s == Set([Member(0, 1, 4, UNLOCKED, 0)], [], 2, 0);
    var s1 := Apply(s, es[1]);
    assert s1 == Set([Member(1, 1, 4, UNLOCKED, 0)], [0], 2, 0);
    assert Apply(s1, es[2]) == FullAndLocked();
    assert es[1..][1..] == [es[2]] && es[1..][0] == es[1] && es[1..][1..][1..] == [];
  }

  /** An interrupt overwrites the item, and the member is unlocked: two handles for one item. */
  lemma OverwriteFromIsrIsAnnouncedTwice()
    ensures var es := [Add(false, 0, 1, 4), Post(0, false), LockMember(0)];
            CanRun(Set([], [], 2, 0), es)
            && var s := Run(Set([], [], 2, 0), es);
               UnlockOf(PostFromIsrTo(s, 0, true), 0) == Set([Member(1, 1, 4, UNLOCKED, 0)], [0, 0], 2, 0)
  {
    FullAndLockedIsReached();
    var s := PostFromIsrTo(FullAndLocked(), 0, true);
    assert s == Set([Member(1, 1, 4, 1, 0)], [0], 2, 0);
    var s' := Notify(Put(s, 0, Member(1, 1, 4, LOCKED_UNMODIFIED, 0)), 0);
    assert s' == Set([Member(1, 1, 4, LOCKED_UNMODIFIED, 0)], [0, 0], 2, 0);
    assert DrainTo(s, 0) == DrainTo(s', 0) == s';
  }

  /** A full binary semaphore is given by overwriting: two items and one handle. */
  lemma OverwritingASemaphoreIsNotAnnounced()
    ensures var es := [Add(false, 0, 1, 0), Post(0, false)];
            CanRun(Set([], [], 1, 0), es)
            && PostTo(Run(Set([], [], 1, 0), es), 0, true) == Set([Member(2, 1, 0, UNLOCKED, 0)], [0], 1, 0)
  {
    var s := Apply(Set([], [], 1, 0), Add(false, 0, 1, 0));
    assert s.members[..0] == [] && s == Set([Member(0, 1, 0, UNLOCKED, 0)], [], 1, 0);
    assert Apply(s, Post(0, false)) == Set([Member(1, 1, 0, UNLOCKED, 0)], [0], 1, 0);
    assert [Add(false, 0, 1, 0), Post(0, false)][1..] == [Post(0, false)] && [Post(0, false)][1..] == [];
  }

  /** A queue is found empty, an item is posted to it, and it is removed: the set holds the handle of a queue that is
      no longer in it. */
  lemma RemovalLeavesAHandle()
    ensures var es := [Add(false, 0, 1, 4)];
            CanRun(Set([], [], 1, 0), es)
            && var s := Run(Set([], [], 1, 0), es);
               M(s, 0).messages == 0
                 && RemoveFrom(PostTo(s, 0, false), 0) == Set([Member(0, 0, 4, UNLOCKED, 0)], [0], 1, 0)
  {
    var es := [Add(false, 0, 1, 4)];
    var s := Apply(Set([], [], 1, 0), es[0]);
    assert s.members[..0] == [] && s == Set([Member(0, 1, 4, UNLOCKED, 0)], [], 1, 0);
    assert es[1..] == [] && Run(Set([], [], 1, 0), es) == s;
    assert PostTo(s, 0, false) == Set([Member(1, 1, 4, UNLOCKED, 0)], [0], 1, 0);
  }

  // ---------- The set as it is updated in place ----------

  class QueueSet {
    var members: seq<Member>
    var handles: seq<Index>
    const capacity: nat
    ghost var dropped: nat

    ghost function View(): Set
      reads this
    {
      Set(members, handles, capacity, dropped)
    }

    constructor (capacity: nat)
      ensures View() == Set([], [], capacity, 0)
    {
      this.capacity := capacity;
      members, handles, dropped := [], [], 0;
    }

    /** prvNotifyQueueSetContainer. */
    method NotifyContainer(i: Index)
      modifies `handles, `dropped
      ensures View() == Notify(old(View()), i)
      ensures handles == if |old(handles)| < capacity then old(handles) + [i] else old(handles)
    {
      if |handles| < capacity {
        handles := handles + [i];
      } else {
        dropped := dropped + 1;
      }
    }

    /** The count at the end of prvCopyDataToQueue. */
    method CountItem(i: Index, overwrite: bool)
      requires i < |members|
      modifies `members
      ensures members == old(members)[i := PostedMember(old(members)[i], overwrite)]
    {
      var uxMessagesWaiting := members[i].messages;
      if members[i].itemSize != 0 && overwrite && uxMessagesWaiting > 0 {
        uxMessagesWaiting := uxMessagesWaiting - 1;
      }
      members := members[i := members[i].(messages := uxMessagesWaiting + 1)];
    }

    /** The part of xQueueGenericSend that concerns a member of a set. */
    method PostItem(i: Index, overwrite: bool) returns (posted: bool)
      requires i < |members|
      modifies this
      ensures View() == PostTo(old(View()), i, overwrite)
      ensures posted == (old(members[i].messages) < old(members[i].length) || overwrite)
      ensures !posted ==> unchanged(this)
      ensures var m := old(members)[i];
              members == old(members)[i := m.(messages := m.messages + PostAdds(m, overwrite))]
      ensures var announced := posted && !(overwrite && old(members)[i].messages > 0) && |old(handles)| < capacity;
              announced ==> handles == old(handles) + [i]
      ensures overwrite && old(members[i].messages) > 0 ==> unchanged(`handles, `dropped)
    {
      var m := members[i];
      posted := m.messages < m.length || overwrite;
      if posted {
        var previous := m.messages;
        CountItem(i, overwrite);
        if !(overwrite && previous != 0) {
          NotifyContainer(i);
        }
      }
    }

    /** xQueueGenericSendFromISR. */
    method PostItemFromIsr(i: Index, overwrite: bool) returns (posted: bool)
      requires i < |members|
      modifies this
      ensures View() == PostFromIsrTo(old(View()), i, overwrite)
      ensures posted == (old(members[i].messages) < old(members[i].length) || overwrite)
      ensures !posted ==> unchanged(this)
      ensures var m := old(members)[i];
              && members[i].messages == m.messages + PostAdds(m, overwrite)
              && members == old(members)[i := m.(messages := members[i].messages, lock := members[i].lock)]
      ensures var announced := posted && !(overwrite && old(members)[i].messages > 0) && |old(handles)| < capacity;
              announced && old(members)[i].lock == UNLOCKED ==> handles == old(handles) + [i]
      ensures posted && 0 <= old(members[i].lock) < INT8_MAX ==>
              members[i].lock == old(members[i].lock) + 1 && unchanged(`handles, `dropped)
    {
      var m := members[i];
      posted := m.messages < m.length || overwrite;
      if posted {
        var previous := m.messages;
        CountItem(i, overwrite);
        if m.lock == UNLOCKED {
          if !(overwrite && previous != 0) {
            NotifyContainer(i);
          }
        } else {
          members := members[i := members[i].(lock := ToInt8(m.lock + 1))];
        }
      }
    }

    /** The first critical section of prvUnlockQueue, for a member of a set. */
    method UnlockTx(i: Index)
      requires i < |members|
      modifies this
      ensures View() == UnlockOf(old(View()), i)
      ensures old(Sound(View())) ==> handles == old(handles) + Times(i, Max(old(members[i].lock), 0))
      ensures old(Sound(View())) ==> members == old(members)[i := old(members[i]).(lock := UNLOCKED)]
    {
      UnlockAnnounces(View(), i);
      var lock := members[i].lock;
      while lock > LOCKED_UNMODIFIED
        invariant |members| == |old(members)| && lock == members[i].lock
        invariant DrainTo(View(), i) == DrainTo(old(View()), i)
      {
        members := members[i := members[i].(lock := lock - 1)];
        NotifyContainer(i);
        lock := lock - 1;
      }
      members := members[i := members[i].(lock := UNLOCKED)];
    }

    /** xQueueSelectFromSet, when it does not wait. */
    method SelectMember() returns (found: bool, i: Index)
      requires Sound(View())
      modifies this
      ensures View() == SelectFrom(old(View())) && Sound(View())
      ensures found == (old(handles) != []) && (found ==> old(handles) == [i] + handles)
      ensures found ==> i < |members| && members[i].messages >= members[i].selected > 0
      ensures !found ==> forall i: Index :: i < |members| && M(View(), i).lock <= 0 ==>
              M(View(), i).messages == M(View(), i).selected
    {
      SelectKeeps(View());
      found, i := handles != [], 0;
      if found {
        i := handles[0];
        handles := handles[1..];
        members := members[i := members[i].(selected := members[i].selected + 1)];
        assert MemberOk(View(), i);
      } else {
        assert forall i: Index :: i < |members| ==> MemberOk(View(), i);
      }
    }

    /** xQueueAddToSet. */
    method AddToSet(m: Member, elsewhere: bool) returns (added: bool)
      modifies `members
      ensures added == (!elsewhere && m.messages == 0) && View() == AddTo(old(View()), m, elsewhere)
      ensures members == if added then old(members) + [m] else old(members)
    {
      if elsewhere {
        added := false;
      } else if m.messages != 0 {
        added := false;
      } else {
        members := members + [m];
        added := true;
      }
    }

    /** xQueueRemoveFromSet, if nothing is posted between its test and its critical section. */
    method RemoveFromSet(i: Index, contained: bool) returns (removed: bool)
      requires i < |members|
      modifies `members
      ensures removed == (contained && M(old(View()), i).messages == 0)
      ensures View() == if removed then RemoveFrom(old(View()), i) else old(View())
      ensures removed && old(Sound(View())) ==> Sound(View()) && i !in handles
    {
      removed := contained && members[i].messages == 0;
      if removed {
        ghost var s := View();
        members := members[i := members[i].(messages := 0, length := 0)];
        if Sound(s) {
          RemoveKeepsIff(s, i);
        }
      }
    }
  }
}
