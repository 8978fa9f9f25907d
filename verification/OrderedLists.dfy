/** Lists kept in order of a tick value, as vListInsert and uxListRemove keep them. */
module OrderedLists {
  import opened Ticks

  datatype Entry = Entry(value: Tick, id: nat)

  predicate Sorted(list: seq<Entry>) {
    forall i, j :: 0 <= i < j < |list| ==> list[i].value <= list[j].value && list[i].id != list[j].id
  }

  /** vListInsert: in order of value, behind equal values. */
  function Insert(list: seq<Entry>, e: Entry): seq<Entry> {
    if list == [] then [e]
    else if list[0].value <= e.value then [list[0]] + Insert(list[1..], e)
    else [e] + list
  }

  predicate Absent(list: seq<Entry>, id: nat) {
    forall e :: e in list ==> e.id != id
  }

  lemma HeadIsIn(list: seq<Entry>)
    requires list != []
    ensures list[0] in list
  {
  }

  lemma ConsSorted(e: Entry, list: seq<Entry>)
    requires Sorted(list) && forall x :: x in list ==> e.value <= x.value && e.id != x.id
    ensures Sorted([e] + list)
  {
    var r := [e] + list;
    forall i, j | 0 <= i < j < |r| ensures r[i].value <= r[j].value && r[i].id != r[j].id {
      assert r[j] == list[j - 1] && list[j - 1] in list;
    }
  }

  lemma SortedTail(list: seq<Entry>)
    requires Sorted(list) && list != []
    ensures Sorted(list[1..]) && list == [list[0]] + list[1..]
    ensures forall x :: x in list[1..] ==> x in list && list[0].value <= x.value && list[0].id != x.id
  {
  }

  lemma {:induction false} InsertKeepsSorted(list: seq<Entry>, e: Entry)
    requires Sorted(list) && Absent(list, e.id)
    ensures Sorted(Insert(list, e))
    ensures forall x :: x in Insert(list, e) <==> x in list || x == e
  {
    if list != [] {
      SortedTail(list);
      if list[0].value <= e.value {
        InsertKeepsSorted(list[1..], e);
        ConsSorted(list[0], Insert(list[1..], e));
      } else {
        ConsSorted(e, list);
      }
    }
  }

  function WithoutId(list: seq<Entry>, id: nat): seq<Entry> {
    if list == [] then []
    else if list[0].id == id then list[1..]
    else [list[0]] + WithoutId(list[1..], id)
  }

  lemma {:induction false} WithoutKeepsSorted(list: seq<Entry>, id: nat)
    requires Sorted(list)
    ensures Sorted(WithoutId(list, id))
    ensures forall x :: x in WithoutId(list, id) <==> x in list && x.id != id
    ensures Absent(list, id) ==> WithoutId(list, id) == list
  {
    if list != [] {
      SortedTail(list);
      if list[0].id != id {
        WithoutKeepsSorted(list[1..], id);
        ConsSorted(list[0], WithoutId(list[1..], id));
      }
    }
  }
}
