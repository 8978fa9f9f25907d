/** The intrusive list of list.c: items linked in a circle through an end marker, with an index that
    walks round it. */
module Lists {
  import opened RoundRobin
  import opened Sequences
  import opened Ticks

  class ListItem {
    var value: Tick
    const owner: Item
    var next: ListItem
    var previous: ListItem
    var container: List?

    /** vListInitialiseItem, with the value and owner set as well. */
    constructor (value: Tick, owner: Item)
      ensures container == null && this.value == value && this.owner == owner && next == this && previous == this
    {
      this.value, this.owner, container := value, owner, null;
      next, previous := this, this;
    }
  }

  function After(i: nat, n: nat): nat {
    if i + 1 == n then 0 else i + 1
  }

  function Before(i: nat, n: nat): nat
    requires n > 0
  {
    if i == 0 then n - 1 else i - 1
  }

  ghost predicate Different(nodes: seq<ListItem>) {
    forall i, j {:trigger nodes[i], nodes[j]} :: 0 <= i < j < |nodes| ==> nodes[i] != nodes[j]
  }

  /** Each node is linked to the next and to the one before, all the way round. */
  ghost predicate Circle(nodes: seq<ListItem>)
    reads nodes`next, nodes`previous
  {
    && Different(nodes)
    && (forall i: nat {:trigger nodes[i].next} :: i < |nodes| ==> nodes[i].next == nodes[After(i, |nodes|)])
    && (forall i: nat {:trigger nodes[i].previous} :: i < |nodes| ==> nodes[i].previous == nodes[Before(i, |nodes|)])
  }

  function With<T>(s: seq<T>, k: nat, x: T): seq<T>
    requires k <= |s|
  {
    s[..k] + [x] + s[k..]
  }

  function Less<T>(s: seq<T>, k: nat): seq<T>
    requires k < |s|
  {
    s[..k] + s[k + 1..]
  }

  function Owners(nodes: seq<ListItem>): (r: seq<Item>)
    ensures |r| == |nodes|
  {
    seq(|nodes|, i requires 0 <= i < |nodes| => nodes[i].owner)
  }

  /** The owners behind the end marker, split at the index. */
  function RingOf(owners: seq<Item>, at: nat): Ring
    requires at < |owners|
  {
    Ring(owners[1..at + 1], owners[at + 1..])
  }

  lemma InsertEndIsRing(nodes: seq<ListItem>, at: nat, item: ListItem)
    requires at < |nodes|
    ensures RingOf(Owners(With(nodes, if at == 0 then |nodes| else at, item)), if at == 0 then 0 else at + 1)
         == RoundRobin.InsertEnd(RingOf(Owners(nodes), at), item.owner)
  {
    var k := if at == 0 then |nodes| else at;
    assert Owners(With(nodes, k, item)) == With(Owners(nodes), k, item.owner);
    var r := RoundRobin.InsertEnd(RingOf(Owners(nodes), at), item.owner);
    assert at > 0 ==> With(Owners(nodes), k, item.owner)[1..at + 2] == r.seen;
  }

  lemma {:induction false} WithoutAt(items: seq<Item>, k: nat)
    requires k < |items| && Distinct(items)
    ensures Without(items, items[k]) == Less(items, k)
  {
    if k > 0 {
      WithoutAt(items[1..], k - 1);
      assert [items[0]] + Less(items[1..], k - 1) == Less(items, k);
    }
  }

  lemma LessAt<T>(s: seq<T>, k: nat, i: nat)
    requires k < |s| && i < |s| - 1
    ensures |Less(s, k)| == |s| - 1 && Less(s, k)[i] == if i < k then s[i] else s[i + 1]
  {
  }

  lemma LessInFront(o: seq<Item>, at: nat, k: nat)
    requires 1 <= k <= at < |o|
    ensures RingOf(Less(o, k), at - 1) == Ring(Less(o[1..at + 1], k - 1), o[at + 1..])
  {
    var a, b := Less(o, k)[1..at], Less(o[1..at + 1], k - 1);
    forall i | 0 <= i < |a| ensures a[i] == b[i] {
      LessAt(o, k, i + 1);
      LessAt(o[1..at + 1], k - 1, i);
    }
    assert a == b;
    var c, d := Less(o, k)[at..], o[at + 1..];
    forall i | 0 <= i < |c| ensures c[i] == d[i] {
      LessAt(o, k, at + i);
    }
    assert c == d;
  }

  lemma LessBehind(o: seq<Item>, at: nat, k: nat)
    requires at < k < |o|
    ensures RingOf(Less(o, k), at) == Ring(o[1..at + 1], Less(o[at + 1..], k - at - 1))
  {
    var a, b := Less(o, k)[1..at + 1], o[1..at + 1];
    forall i | 0 <= i < |a| ensures a[i] == b[i] {
      LessAt(o, k, i + 1);
    }
    assert a == b;
    var c, d := Less(o, k)[at + 1..], Less(o[at + 1..], k - at - 1);
    forall i | 0 <= i < |c| ensures c[i] == d[i] {
      LessAt(o, k, at + 1 + i);
      LessAt(o[at + 1..], k - at - 1, i);
    }
    assert c == d;
  }

  lemma RemoveSeen(o: seq<Item>, at: nat, k: nat)
    requires 1 <= k <= at < |o| && Distinct(o[1..])
    ensures RingOf(Less(o, k), at - 1) == RoundRobin.Remove(RingOf(o, at), o[k])
  {
    var r := RingOf(o, at);
    SplitOwners(o, at);
    assert r.seen[k - 1] == o[k] && o[k] in r.seen;
    WithoutAt(r.seen, k - 1);
    WithoutAbsent(r.ahead, o[k]);
    LessInFront(o, at, k);
  }

  lemma RemoveAhead(o: seq<Item>, at: nat, k: nat)
    requires at < k < |o| && Distinct(o[1..])
    ensures RingOf(Less(o, k), at) == RoundRobin.Remove(RingOf(o, at), o[k])
  {
    var r := RingOf(o, at);
    SplitOwners(o, at);
    assert r.ahead[k - at - 1] == o[k] && o[k] in r.ahead;
    WithoutAt(r.ahead, k - at - 1);
    WithoutAbsent(r.seen, o[k]);
    LessBehind(o, at, k);
  }

  lemma SplitOwners(o: seq<Item>, at: nat)
    requires at < |o| && Distinct(o[1..])
    ensures var r := RingOf(o, at);
            Distinct(r.seen) && Distinct(r.ahead) && forall x :: x in r.seen ==> x !in r.ahead
  {
    assert All(RingOf(o, at)) == o[1..];
    Parts(RingOf(o, at));
  }

  function Stepped(at: nat, k: nat): nat {
    if at >= k && at > 0 then at - 1 else at
  }

  predicate DifferentOwners(nodes: seq<ListItem>) {
    nodes != [] && Distinct(Owners(nodes)[1..])
  }

  /** For items with different owners, what Remove does to the nodes and the index is what it should do
      to the order in which they are handed out. */
  lemma RemoveIsRing(nodes: seq<ListItem>, at: nat, k: nat)
    requires at < |nodes| && 1 <= k < |nodes|
    ensures |Less(nodes, k)| == |nodes| - 1 && Stepped(at, k) < |nodes| - 1
    ensures DifferentOwners(nodes) ==>
              RingOf(Owners(Less(nodes, k)), Stepped(at, k))
                == RoundRobin.Remove(RingOf(Owners(nodes), at), nodes[k].owner)
  {
    if DifferentOwners(nodes) {
      assert Owners(Less(nodes, k)) == Less(Owners(nodes), k);
      if at >= k {
        RemoveSeen(Owners(nodes), at, k);
      } else {
        RemoveAhead(Owners(nodes), at, k);
      }
    }
  }

  lemma NextIsRing(owners: seq<Item>, at: nat)
    requires at < |owners| && |owners| > 1
    ensures var at' := if at + 1 < |owners| then at + 1 else 1;
            All(RingOf(owners, at)) != [] && RingOf(owners, at') == Advance(RingOf(owners, at))
              && owners[at'] == Next(RingOf(owners, at))
  {
  }

  /** The four assignments that put an item between two neighbours. */
  method LinkIn(item: ListItem, before: ListItem, after: ListItem, ghost nodes: seq<ListItem>, ghost k: nat)
    requires Circle(nodes) && item !in nodes && 1 <= k <= |nodes|
    requires before == nodes[k - 1] && after == nodes[if k == |nodes| then 0 else k]
    modifies nodes`next, nodes`previous, item`next, item`previous
    ensures Circle(With(nodes, k, item))
  {
    item.next := after;
    item.previous := before;
    before.next := item;
    after.previous := item;
    ghost var r := With(nodes, k, item);
    assert Different(r);
    forall i: nat | i < |r| ensures r[i].next == r[After(i, |r|)] && r[i].previous == r[Before(i, |r|)] {
      if i < k {
        assert r[i] == nodes[i];
      } else if i > k {
        assert r[i] == nodes[i - 1];
      }
    }
  }

  /** The two assignments that take an item out from between its neighbours. */
  method LinkOut(item: ListItem, ghost nodes: seq<ListItem>, ghost k: nat)
    requires Circle(nodes) && 1 <= k < |nodes| && item == nodes[k]
    modifies nodes`next, nodes`previous
    ensures Circle(Less(nodes, k)) && item.previous == nodes[k - 1]
  {
    item.next.previous := item.previous;
    item.previous.next := item.next;
    ghost var r := Less(nodes, k);
    assert Different(r);
    forall i: nat | i < |r| ensures r[i].next == r[After(i, |r|)] && r[i].previous == r[Before(i, |r|)] {
      if i < k {
        assert r[i] == nodes[i];
      } else {
        assert r[i] == nodes[i + 1];
      }
    }
  }

  /** vListInsert's order: no node after the end marker has a value below its predecessor's. */
  ghost predicate Ascending(nodes: seq<ListItem>)
    reads nodes`value
  {
    forall i, j {:trigger nodes[i].value, nodes[j].value} :: 0 < i < j < |nodes| ==> nodes[i].value <= nodes[j].value
  }

  ghost predicate Contained(nodes: seq<ListItem>, list: List)
    reads nodes`container
  {
    forall i: nat {:trigger nodes[i]} :: 0 < i < |nodes| ==> nodes[i].container == list
  }

  lemma ContainedWith(nodes: seq<ListItem>, k: nat, item: ListItem, list: List)
    requires Contained(nodes, list) && item.container == list && 1 <= k <= |nodes|
    ensures Contained(With(nodes, k, item), list)
  {
  }

  lemma ContainedLess(nodes: seq<ListItem>, k: nat, list: List)
    requires Contained(nodes, list) && Different(nodes) && 1 <= k < |nodes|
    ensures Contained(Less(nodes, k), list) && nodes[k] !in Less(nodes, k)
  {
    var r := Less(nodes, k);
    forall i: nat | i < |r| ensures r[i] != nodes[k] && (i > 0 ==> r[i].container == list) {
      assert r[i] == nodes[if i < k then i else i + 1];
    }
  }

  /** The place behind everything not above the value and before everything above it. */
  ghost predicate PlaceOf(nodes: seq<ListItem>, k: nat, value: Tick)
    reads nodes`value
  {
    && 1 <= k <= |nodes|
    && (forall i: nat {:trigger nodes[i].value} :: 0 < i < k ==> nodes[i].value <= value)
    && (forall i: nat {:trigger nodes[i].value} :: k <= i < |nodes| ==> nodes[i].value > value)
  }

  lemma InsertKeepsAscending(nodes: seq<ListItem>, k: nat, item: ListItem)
    requires Ascending(nodes) && PlaceOf(nodes, k, item.value)
    ensures Ascending(With(nodes, k, item))
  {
  }

  class List {
    const end: ListItem
    var index: ListItem
    var numberOfItems: nat
    ghost var nodes: seq<ListItem>
    ghost var at: nat

    /** The nodes from the end marker round. */
    ghost predicate Linked()
      reads this`nodes, this`numberOfItems, nodes`next, nodes`previous, nodes`container, end`value
    {
      && |nodes| > 0 && nodes[0] == end && numberOfItems == |nodes| - 1
      && Circle(nodes) && Contained(nodes, this)
      && end.value == MAX_DELAY
    }

    /** And the index at one of them. */
    ghost predicate Valid()
      reads this, nodes`next, nodes`previous, nodes`container, end`value
    {
      Linked() && at < |nodes| && index == nodes[at]
    }

    ghost function Order(): Ring
      reads this
      requires at < |nodes|
    {
      RingOf(Owners(nodes), at)
    }

    /** vListInitialise. */
    constructor ()
      ensures Valid() && nodes == [end] && fresh(end)
    {
      var e := new ListItem(MAX_DELAY, 0);
      end, index, numberOfItems := e, e, 0;
      nodes, at := [e], 0;
    }

    /** The end of both insertions: the links, the container and the count. */
    method Attach(item: ListItem, before: ListItem, after: ListItem, ghost k: nat)
      requires Linked() && item !in nodes && 1 <= k <= |nodes|
      requires before == nodes[k - 1] && after == nodes[if k == |nodes| then 0 else k]
      modifies this`nodes, this`numberOfItems, nodes`next, nodes`previous, item`next, item`previous, item`container
      ensures Linked() && item.container == this && nodes == With(old(nodes), k, item)
    {
      LinkIn(item, before, after, nodes, k);
      item.container := this;
      ContainedWith(nodes, k, item, this);
      numberOfItems := numberOfItems + 1;
      nodes := With(nodes, k, item);
    }

    /** The same for removal. */
    method Detach(item: ListItem, ghost k: nat)
      requires Linked() && 1 <= k < |nodes| && item == nodes[k]
      modifies this`nodes, this`numberOfItems, nodes`next, nodes`previous, item`container
      ensures Linked() && item.container == null && nodes == Less(old(nodes), k) && item.previous == old(nodes)[k - 1]
    {
      ContainedLess(nodes, k, this);
      LinkOut(item, nodes, k);
      item.container := null;
      numberOfItems := numberOfItems - 1;
      nodes := Less(nodes, k);
    }

    /** vListInsertEnd: just before the index. */
    method InsertEnd(item: ListItem)
      requires Valid() && item !in nodes
      modifies this, nodes`next, nodes`previous, item`next, item`previous, item`container
      ensures Valid() && index == old(index) && item.container == this
      ensures nodes == With(old(nodes), if old(at) == 0 then |old(nodes)| else old(at), item)
      ensures at == if old(at) == 0 then 0 else old(at) + 1
      ensures Order() == RoundRobin.InsertEnd(old(Order()), item.owner)
    {
      InsertEndIsRing(nodes, at, item);
      assert nodes[at].previous == nodes[Before(at, |nodes|)];
      Attach(item, index.previous, index, if at == 0 then |nodes| else at);
      at := if at == 0 then 0 else at + 1;
    }

    /** The search of vListInsert, which stops at the end marker at the latest. */
    method FindPlace(value: Tick) returns (place: ListItem, ghost k: nat)
      requires Valid() && Ascending(nodes)
      ensures PlaceOf(nodes, k, value) && place == nodes[k - 1]
    {
      if value == MAX_DELAY {
        assert nodes[0].previous == nodes[|nodes| - 1];
        return end.previous, |nodes|;
      }
      place, k := end, 1;
      assert nodes[0].next == nodes[After(0, |nodes|)];
      while place.next.value <= value
        invariant 1 <= k <= |nodes| && place == nodes[k - 1] && place.next == nodes[After(k - 1, |nodes|)]
        invariant forall i: nat :: 0 < i < k ==> nodes[i].value <= value
        decreases |nodes| - k
      {
        place := place.next;
        k := k + 1;
        assert nodes[k - 1].next == nodes[After(k - 1, |nodes|)];
      }
      assert forall i: nat :: k < i < |nodes| ==> nodes[k].value <= nodes[i].value;
    }

    method AttachInOrder(item: ListItem, place: ListItem, ghost k: nat)
      requires Linked() && item !in nodes && Ascending(nodes) && PlaceOf(nodes, k, item.value) && place == nodes[k - 1]
      modifies this`nodes, this`numberOfItems, nodes`next, nodes`previous, item`next, item`previous, item`container
      ensures Linked() && item.container == this && nodes == With(old(nodes), k, item) && Ascending(nodes)
    {
      ghost var was := nodes;
      Attach(item, place, place.next, k);
      InsertKeepsAscending(was, k, item);
    }

    /** vListInsert: behind every item whose value is not above its own, and before the others. */
    method Insert(item: ListItem) returns (ghost k: nat)
      requires Valid() && item !in nodes && Ascending(nodes)
      modifies this, nodes`next, nodes`previous, item`next, item`previous, item`container
      ensures Valid() && index == old(index) && item.container == this
      ensures PlaceOf(old(nodes), k, item.value) && nodes == With(old(nodes), k, item) && Ascending(nodes)
      ensures at == if old(at) < k then old(at) else old(at) + 1
    {
      var place;
      place, k := FindPlace(item.value);
      assert nodes[k - 1].next == nodes[After(k - 1, |nodes|)];
      AttachInOrder(item, place, k);
      at := if at < k then at else at + 1;
    }

    /** The links, and the index, which steps back from the item. */
    method TakeOut(item: ListItem, ghost k: nat)
      requires Valid() && 1 <= k < |nodes| && item == nodes[k]
      modifies this, nodes`next, nodes`previous, item`container
      ensures Valid() && nodes == Less(old(nodes), k) && item.container == null && at == Stepped(old(at), k)
    {
      assert index == item <==> at == k;
      LessAt(nodes, k, Stepped(at, k));
      Detach(item, k);
      if index == item {
        index := item.previous;
      }
      at := Stepped(at, k);
    }

    /** uxListRemove. */
    method Remove(item: ListItem, ghost k: nat) returns (remaining: nat)
      requires Valid() && 1 <= k < |nodes| && item == nodes[k]
      modifies this, nodes`next, nodes`previous, item`container
      ensures Valid() && nodes == Less(old(nodes), k) && item.container == null && remaining == |nodes| - 1
      ensures at == Stepped(old(at), k)
      ensures DifferentOwners(old(nodes)) ==> Order() == RoundRobin.Remove(old(Order()), item.owner)
    {
      RemoveIsRing(nodes, at, k);
      TakeOut(item, k);
      remaining := numberOfItems;
    }

    /** listGET_OWNER_OF_NEXT_ENTRY. */
    method NextEntry() returns (owner: Item)
      requires Valid() && numberOfItems > 0
      modifies this`index, this`at
      ensures Valid() && nodes == old(nodes)
      ensures All(old(Order())) != [] && owner == Next(old(Order())) && Order() == Advance(old(Order()))
    {
      NextIsRing(Owners(nodes), at);
      assert nodes[at].next == nodes[After(at, |nodes|)] && nodes[0].next == nodes[After(0, |nodes|)];
      index := index.next;
      at := After(at, |nodes|);
      if index == end {
        index := index.next;
        at := 1;
      }
      owner := index.owner;
    }
  }
}
