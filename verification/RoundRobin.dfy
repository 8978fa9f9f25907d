/** The order in which a FreeRTOS list hands out its items: the index walks round, new items go in just
    before it, and items may leave at any time (listGET_OWNER_OF_NEXT_ENTRY, vListInsertEnd,
    uxListRemove). */
module RoundRobin {
  import opened Sequences

  type Item = nat

  /** The items up to and including the one the index is at, and those after it. With nothing seen the
      index is at the end marker. */
  datatype Ring = Ring(seen: seq<Item>, ahead: seq<Item>)

  function All(r: Ring): seq<Item> {
    r.seen + r.ahead
  }

  /** Just before the item the index is at: behind all the others, as the index will find them. */
  function InsertEnd(r: Ring, x: Item): Ring {
    if r.seen == [] then Ring([], r.ahead + [x])
    else Ring(r.seen[..|r.seen| - 1] + [x, r.seen[|r.seen| - 1]], r.ahead)
  }

  /** If the index was at the item it steps back by one. */
  function Remove(r: Ring, x: Item): Ring {
    Ring(Without(r.seen, x), Without(r.ahead, x))
  }

  /** The next item after the index, the end marker being skipped. */
  function Next(r: Ring): Item
    requires All(r) != []
  {
    if r.ahead != [] then r.ahead[0] else r.seen[0]
  }

  function Advance(r: Ring): Ring
    requires All(r) != []
  {
    if r.ahead != [] then Ring(r.seen + [r.ahead[0]], r.ahead[1..]) else Ring([r.seen[0]], r.seen[1..])
  }

  datatype Event = Enter(item: Item) | Leave(item: Item) | Select

  predicate Enabled(r: Ring, e: Event) {
    match e
    case Enter(x) => x !in All(r)
    case Leave(x) => x in All(r)
    case Select => All(r) != []
  }

  function Apply(r: Ring, e: Event): Ring
    requires Enabled(r, e)
  {
    match e
    case Enter(x) => InsertEnd(r, x)
    case Leave(x) => Remove(r, x)
    case Select => Advance(r)
  }

  ghost predicate CanRun(r: Ring, es: seq<Event>)
    decreases |es|
  {
    es != [] ==> Enabled(r, es[0]) && CanRun(Apply(r, es[0]), es[1..])
  }

  function Run(r: Ring, es: seq<Event>): Ring
    requires CanRun(r, es)
    decreases |es|
  {
    if es == [] then r else Run(Apply(r, es[0]), es[1..])
  }

  /** How often an item is selected, and how often the index passes the end marker. */
  function Selections(r: Ring, es: seq<Event>, x: Item): nat
    requires CanRun(r, es)
    decreases |es|
  {
    if es == [] then 0
    else (if es[0].Select? && Next(r) == x then 1 else 0) + Selections(Apply(r, es[0]), es[1..], x)
  }

  function Passes(r: Ring, es: seq<Event>): nat
    requires CanRun(r, es)
    decreases |es|
  {
    if es == [] then 0
    else (if es[0].Select? && r.ahead == [] then 1 else 0) + Passes(Apply(r, es[0]), es[1..])
  }

  /** 1 while the item is still to come in this pass. */
  function ToCome(r: Ring, x: Item): nat {
    if x in r.ahead then 1 else 0
  }

  predicate Stays(es: seq<Event>, x: Item) {
    forall e :: e in es ==> e != Leave(x)
  }

  lemma Parts(r: Ring)
    requires Distinct(All(r))
    ensures Distinct(r.seen) && Distinct(r.ahead)
    ensures forall x :: x in r.seen ==> x !in r.ahead
    ensures forall x :: x in All(r) <==> x in r.seen || x in r.ahead
  {
    forall i | 0 <= i < |r.seen| ensures All(r)[i] == r.seen[i] {}
    forall j | 0 <= j < |r.ahead| ensures All(r)[|r.seen| + j] == r.ahead[j] {}
  }

  lemma Whole(r: Ring)
    requires Distinct(r.seen) && Distinct(r.ahead) && forall x :: x in r.seen ==> x !in r.ahead
    ensures Distinct(All(r))
  {
    forall i, j | 0 <= i < j < |All(r)| ensures All(r)[i] != All(r)[j] {
      if i < |r.seen| <= j {
        assert r.seen[i] in r.seen && r.ahead[j - |r.seen|] in r.ahead;
      }
    }
  }

  /** One step, for an item that stays: it is selected when its turn comes, and its turn comes once a pass. */
  lemma StepCounts(r: Ring, e: Event, x: Item)
    requires Distinct(All(r)) && Enabled(r, e) && x in All(r) && e != Leave(x)
    ensures Distinct(All(Apply(r, e))) && x in All(Apply(r, e))
    ensures (if e.Select? && Next(r) == x then 1 else 0) + ToCome(Apply(r, e), x)
         == (if e.Select? && r.ahead == [] then 1 else 0) + ToCome(r, x)
  {
    Parts(r);
    var r' := Apply(r, e);
    match e {
      case Enter(y) => EnterKeeps(r, y);
      case Leave(y) =>
        WithoutIs(r.seen, y);
        WithoutIs(r.ahead, y);
        Whole(r');
        Parts(r');
      case Select =>
        assert All(r') == All(r);
        Parts(r');
        if r.ahead != [] {
          assert r.ahead == [r.ahead[0]] + r.ahead[1..];
        } else {
          assert r.seen == [r.seen[0]] + r.seen[1..];
        }
    }
  }

  lemma EnterKeeps(r: Ring, y: Item)
    requires Distinct(All(r)) && y !in All(r)
    ensures Distinct(All(InsertEnd(r, y)))
    ensures forall x :: x in All(InsertEnd(r, y)) <==> x in All(r) || x == y
    ensures forall x :: x != y ==> (x in InsertEnd(r, y).ahead <==> x in r.ahead)
  {
    var r' := InsertEnd(r, y);
    var k := if r.seen == [] then |All(r)| else |r.seen| - 1;
    assert All(r') == All(r)[..k] + [y] + All(r)[k..];
    forall i | 0 <= i < |All(r')|
      ensures All(r')[i] == if i < k then All(r)[i] else if i == k then y else All(r)[i - 1]
    {
    }
    assert All(r) == All(r)[..k] + All(r)[k..];
  }

  /** Over any run, an item that stays is selected once for every pass of the index over the end marker,
      give or take whether its turn was to come at the start and is to come at the end. */
  lemma {:induction false} OncePerPass(r: Ring, es: seq<Event>, x: Item)
    requires Distinct(All(r)) && CanRun(r, es) && x in All(r) && Stays(es, x)
    ensures Selections(r, es, x) + ToCome(Run(r, es), x) == Passes(r, es) + ToCome(r, x)
    ensures Distinct(All(Run(r, es))) && x in All(Run(r, es))
    decreases |es|
  {
    if es != [] {
      assert es[0] in es && forall e :: e in es[1..] ==> e in es;
      StepCounts(r, es[0], x);
      OncePerPass(Apply(r, es[0]), es[1..], x);
    }
  }

  // ---------- Equal shares ----------

  ghost predicate Precedes(items: seq<Item>, y: Item, x: Item) {
    exists i, j :: 0 <= i < j < |items| && items[i] == y && items[j] == x
  }

  lemma {:induction false} WithoutKeepsOrder(items: seq<Item>, gone: Item, y: Item, x: Item)
    requires Precedes(items, y, x) && gone != y && gone != x
    ensures Precedes(Without(items, gone), y, x)
  {
    var i, j :| 0 <= i < j < |items| && items[i] == y && items[j] == x;
    var w := Without(items, gone);
    if items[0] == gone {
      assert w[i - 1] == y && w[j - 1] == x;
    } else if i == 0 {
      WithoutKeepsMember(items[1..], gone, x);
      var k :| 0 <= k < |Without(items[1..], gone)| && Without(items[1..], gone)[k] == x;
      assert w[0] == y && w[k + 1] == x;
    } else {
      assert items[1..][i - 1] == y && items[1..][j - 1] == x;
      WithoutKeepsOrder(items[1..], gone, y, x);
      var a, b :| 0 <= a < b < |Without(items[1..], gone)| && Without(items[1..], gone)[a] == y
        && Without(items[1..], gone)[b] == x;
      assert w[a + 1] == y && w[b + 1] == x;
    }
  }

  lemma {:induction false} WithoutKeepsMember(items: seq<Item>, gone: Item, x: Item)
    requires x in items && x != gone
    ensures x in Without(items, gone)
  {
    if items[0] != gone && items[0] != x {
      WithoutKeepsMember(items[1..], gone, x);
    }
  }

  lemma {:induction false} WithoutOfSum(a: seq<Item>, b: seq<Item>, gone: Item)
    requires gone in a ==> gone !in b
    ensures Without(a + b, gone) == Without(a, gone) + Without(b, gone)
  {
    if a == [] {
      assert a + b == b;
    } else {
      assert (a + b)[1..] == a[1..] + b;
      if a[0] == gone {
        WithoutAbsent(b, gone);
      } else {
        WithoutOfSum(a[1..], b, gone);
      }
    }
  }

  lemma InsertKeepsOrder(items: seq<Item>, k: nat, z: Item, y: Item, x: Item)
    requires k <= |items| && Precedes(items, y, x)
    ensures Precedes(items[..k] + [z] + items[k..], y, x)
  {
    var r := items[..k] + [z] + items[k..];
    var i, j :| 0 <= i < j < |items| && items[i] == y && items[j] == x;
    var i', j' := if i < k then i else i + 1, if j < k then j else j + 1;
    assert r[i'] == y && r[j'] == x;
  }

  /** The circular order of the items that stay never changes. */
  lemma StepKeepsOrder(r: Ring, e: Event, y: Item, x: Item)
    requires Distinct(All(r)) && Enabled(r, e) && Precedes(All(r), y, x) && e != Leave(x) && e != Leave(y)
    ensures Precedes(All(Apply(r, e)), y, x)
  {
    var r' := Apply(r, e);
    match e {
      case Enter(z) =>
        var k := if r.seen == [] then |All(r)| else |r.seen| - 1;
        assert All(r') == All(r)[..k] + [z] + All(r)[k..];
        InsertKeepsOrder(All(r), k, z, y, x);
      case Leave(z) =>
        Parts(r);
        WithoutOfSum(r.seen, r.ahead, z);
        WithoutKeepsOrder(All(r), z, y, x);
      case Select =>
        assert All(r') == All(r);
    }
  }

  /** Whoever comes later in the order is still to come if the earlier one is. */
  lemma OrderBoundsToCome(r: Ring, y: Item, x: Item)
    requires Distinct(All(r)) && Precedes(All(r), y, x)
    ensures ToCome(r, y) <= ToCome(r, x)
  {
    Parts(r);
    var i, j :| 0 <= i < j < |All(r)| && All(r)[i] == y && All(r)[j] == x;
    if y in r.ahead {
      assert i >= |r.seen|;
      assert r.ahead[j - |r.seen|] == x;
    }
  }

  lemma {:induction false} RunKeepsOrder(r: Ring, es: seq<Event>, y: Item, x: Item)
    requires Distinct(All(r)) && CanRun(r, es) && Precedes(All(r), y, x) && Stays(es, x) && Stays(es, y)
    ensures Distinct(All(Run(r, es))) && Precedes(All(Run(r, es)), y, x)
    decreases |es|
  {
    if es != [] {
      assert es[0] in es && forall e :: e in es[1..] ==> e in es;
      var i, j :| 0 <= i < j < |All(r)| && All(r)[i] == y && All(r)[j] == x;
      StepCounts(r, es[0], x);
      StepKeepsOrder(r, es[0], y, x);
      RunKeepsOrder(Apply(r, es[0]), es[1..], y, x);
    }
  }

  /** Two items that stay are never more than one selection apart, whoever else comes and goes. */
  lemma EqualShares(r: Ring, es: seq<Event>, y: Item, x: Item)
    requires Distinct(All(r)) && CanRun(r, es) && x in All(r) && y in All(r) && Stays(es, x) && Stays(es, y)
    ensures -1 <= Selections(r, es, x) - Selections(r, es, y) <= 1
  {
    OncePerPass(r, es, x);
    OncePerPass(r, es, y);
    if x != y {
      var i :| 0 <= i < |All(r)| && All(r)[i] == y;
      var j :| 0 <= j < |All(r)| && All(r)[j] == x;
      if i < j {
        OrderBoundsToCome(r, y, x);
        RunKeepsOrder(r, es, y, x);
        OrderBoundsToCome(Run(r, es), y, x);
      } else {
        OrderBoundsToCome(r, x, y);
        RunKeepsOrder(r, es, x, y);
        OrderBoundsToCome(Run(r, es), x, y);
      }
    }
  }
}
