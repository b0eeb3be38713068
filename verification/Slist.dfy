/** The singly linked lists of slist.h: what the macros do to the cells, proved against sequences. */
module Slist {
  /** Anything with a `next` field. */
  class Cell<T> {
    var next: Cell?<T>
    const data: T

    constructor (data: T)
      ensures this.data == data && next == null
    {
      this.data, next := data, null;
    }
  }

  /** `s` without the first occurrence of `x`. */
  function Without<T(==)>(s: seq<T>, x: T): (r: seq<T>)
    ensures |r| <= |s|
  {
    if s == [] then [] else if s[0] == x then s[1..] else [s[0]] + Without(s[1..], x)
  }

  predicate Distinct<T(==)>(s: seq<T>) {
    s == [] || (s[0] !in s[1..] && Distinct(s[1..]))
  }

  lemma {:induction false} DistinctAt<T>(s: seq<T>, i: nat, j: nat)
    requires Distinct(s) && i < j < |s|
    ensures s[i] != s[j]
  {
    if i > 0 {
      DistinctAt(s[1..], i - 1, j - 1);
    }
  }

  lemma {:induction false} DistinctIf<T>(s: seq<T>)
    requires forall i, j :: 0 <= i < j < |s| ==> s[i] != s[j]
    ensures Distinct(s)
  {
    if s != [] {
      DistinctIf(s[1..]);
    }
  }

  /** Removal is exact: it takes away one occurrence of an item that is there, and nothing otherwise. */
  lemma {:induction false} WithoutIs<T>(s: seq<T>, x: T)
    ensures x !in s ==> Without(s, x) == s
    ensures x in s ==> multiset(Without(s, x)) + multiset{x} == multiset(s)
    ensures Distinct(s) ==> Distinct(Without(s, x)) && x !in Without(s, x)
    ensures forall y :: y in Without(s, x) ==> y in s
    ensures forall y :: y in s && y != x ==> y in Without(s, x)
  {
    if s != [] {
      assert s == [s[0]] + s[1..];
      WithoutIs(s[1..], x);
    }
  }

  lemma {:induction false} WithoutAt<T>(s: seq<T>, k: nat)
    requires Distinct(s) && k < |s|
    ensures Without(s, s[k]) == s[..k] + s[k + 1..]
  {
    if k > 0 {
      DistinctAt(s, 0, k);
      WithoutAt(s[1..], k - 1);
      assert s[..k] == [s[0]] + s[1..][..k - 1];
      assert s[k + 1..] == s[1..][k..];
    }
  }

  class SList<T> {
    var list: Cell?<T>
    ghost var items: seq<Cell<T>>

    ghost function Cells(): set<Cell<T>>
      reads this`items
    {
      set c | c in items
    }

    /** The cells from `list` on are the items, in order; none occurs twice. */
    ghost predicate Valid()
      reads this`list, this`items, Cells()`next
    {
      Distinct(items) && list == At(items, 0) && forall i {:trigger items[i].next} :: 0 <= i < |items| ==> items[i].next == At(items, i + 1)
    }

    static ghost function At(s: seq<Cell<T>>, i: nat): Cell?<T> {
      if i < |s| then s[i] else null
    }

    constructor ()
      ensures Valid() && items == []
    {
      list, items := null, [];
    }

    /** A list is not touched by what happens to other lists and other cells. */
    twostate lemma {:induction false} Kept()
      requires old(Valid()) && list == old(list) && items == old(items)
      requires forall c :: c in items ==> c.next == old(c.next)
      ensures Valid()
    {
    }

    /** The successor of an item. */
    lemma {:induction false} NextOf(before: seq<Cell<T>>, rest: seq<Cell<T>>)
      requires Valid() && items == before + rest && rest != []
      ensures rest[0].next == At(rest, 1) && rest[0] !in before && rest[0] !in rest[1..]
      ensures Without(items, rest[0]) == before + rest[1..]
    {
      var k := |before|;
      assert items[k] == rest[0] && items[k].next == At(items, k + 1);
      assert |rest| > 1 ==> items[k + 1] == rest[1];
      WithoutAt(items, k);
      assert items[..k] == before && items[k + 1..] == rest[1..];
      DistinctAll(items);
      forall i | 0 <= i < k ensures before[i] != rest[0] {
        assert items[i] == before[i];
      }
      forall i | 1 <= i < |rest| ensures rest[i] != rest[0] {
        assert items[k + i] == rest[i];
      }
    }

    /** SMB2_LIST_ADD. */
    method Add(item: Cell<T>)
      requires Valid() && item !in items
      modifies this`list, this`items, item`next
      ensures Valid() && items == [item] + old(items)
    {
      item.next := list;
      list := item;
      items := [item] + items;
    }

    /** The list pointer as its users read it. */
    method First() returns (item: Cell?<T>)
      requires Valid()
      ensures item == At(items, 0)
    {
      item := list;
    }

    /** The head is taken off without the macro. */
    method Pop() returns (item: Cell<T>)
      requires Valid() && list != null
      modifies this`list, this`items
      ensures Valid() && old(items) == [item] + items
    {
      item := list;
      list := item.next;
      items := items[1..];
    }

    /** SMB2_LIST_ADD_END: the list pointer itself walks to the last item and is put back. */
    method AddEnd(item: Cell<T>)
      requires Valid() && item !in items
      modifies this`list, this`items, Cells()`next, item`next
      ensures Valid() && items == old(items) + [item]
    {
      if list == null {
        Add(item);
      } else {
        var head := list;
        ghost var k := 0;
        while list.next != null
          invariant k < |items| && list == items[k] && items == old(items)
          invariant forall i {:trigger items[i].next} :: 0 <= i < |items| ==> items[i].next == At(items, i + 1)
          decreases |items| - k
        {
          list := list.next;
          k := k + 1;
        }
        list.next := item;
        item.next := null;
        list := head;
        AppendDistinct(items, item);
        items := items + [item];
      }
    }

    lemma {:induction false} AppendDistinct(s: seq<Cell<T>>, x: Cell<T>)
      requires Distinct(s) && x !in s
      ensures Distinct(s + [x])
    {
      if s != [] {
        AppendDistinct(s[1..], x);
        assert (s + [x])[1..] == s[1..] + [x];
      }
    }

    /** SMB2_LIST_REMOVE: the same walk, to the item's predecessor or to the end. */
    method Remove(item: Cell<T>)
      requires Valid()
      modifies this`list, this`items, Cells()`next
      ensures Valid() && items == Without(old(items), item) && Cells() <= old(Cells())
    {
      WithoutIs(items, item);
      hide Distinct;
      hide Without;
      if list == item {
        list := item.next;
        RemovedAt(items, 0);
        assert items[..0] + items[1..] == items[1..];
        items := items[1..];
      } else if list != null {
        var head := list;
        ghost var k := Walk(item);
        if list.next != null {
          RemoveNext(item, k);
        } else {
          WithoutNone(items, item);
        }
        list := head;
      } else {
        WithoutNone(items, item);
      }
    }

    /** The list pointer stops before the item, or at the last one. */
    method Walk(item: Cell<T>) returns (ghost k: nat)
      requires Valid() && list != null && list != item
      modifies this`list
      ensures k < |items| && list == items[k] && (forall i :: 0 <= i <= k ==> items[i] != item)
      ensures if k + 1 < |items| then items[k + 1] == item && list.next == item else list.next == null
    {
      hide Distinct;
      k := 0;
      while list.next != null && list.next != item
        invariant k < |items| && list == items[k]
        invariant forall i {:trigger items[i].next} :: 0 <= i < |items| ==> items[i].next == At(items, i + 1)
        invariant forall i :: 0 <= i <= k ==> items[i] != item
        decreases |items| - k
      {
        list := list.next;
        k := k + 1;
      }
    }

    /** The link over the item. */
    method RemoveNext(item: Cell<T>, ghost k: nat)
      requires k + 1 < |items| && list == items[k] && items[k + 1] == item && Distinct(items)
      requires forall i {:trigger items[i].next} :: 0 <= i < |items| ==> items[i].next == At(items, i + 1)
      modifies list`next, this`items
      ensures items == Without(old(items), item) && Distinct(items) && |items| > 0 && items[0] == old(items[0])
      ensures forall i {:trigger items[i].next} :: 0 <= i < |items| ==> items[i].next == At(items, i + 1)
    {
      hide Distinct;
      hide Without;
      RemovedAt(items, k + 1);
      ghost var s := items;
      DistinctAll(s);
      list.next := list.next.next;
      items := s[..k + 1] + s[k + 2..];
    }

    static lemma {:induction false} RemovedAt(s: seq<Cell<T>>, k: nat)
      requires Distinct(s) && k < |s|
      ensures Without(s, s[k]) == s[..k] + s[k + 1..] && Distinct(Without(s, s[k]))
    {
      WithoutAt(s, k);
      WithoutIs(s, s[k]);
    }

    static lemma {:induction false} WithoutNone(s: seq<Cell<T>>, x: Cell<T>)
      requires forall i :: 0 <= i < |s| ==> s[i] != x
      ensures Without(s, x) == s
    {
      WithoutIs(s, x);
    }
  }

  lemma {:induction false} DistinctAll<T>(s: seq<T>)
    requires Distinct(s)
    ensures forall i, j :: 0 <= i < j < |s| ==> s[i] != s[j]
  {
    forall i, j | 0 <= i < j < |s| ensures s[i] != s[j] {
      DistinctAt(s, i, j);
    }
  }
}
