/** Growing lists (src/interpreter/arraylist.c): an array that is replaced by a longer one
    when it is full, and whose elements are shifted in place. */
module ArrayLists {
  import opened Sequences
  import opened Buffers

  datatype Pointer<T> = Null | To(value: T)

  function Values<T>(slots: seq<Pointer<T>>): seq<T>
    requires forall k :: 0 <= k < |slots| ==> slots[k].To?
  {
    seq(|slots|, k requires 0 <= k < |slots| => slots[k].value)
  }

  lemma InsertedAt<T>(slots: seq<Pointer<T>>, was: seq<T>, item: T, idx: nat)
    requires idx <= |was| && |slots| == |was| + 1
    requires forall k :: 0 <= k < idx ==> slots[k] == To(was[k])
    requires slots[idx] == To(item)
    requires forall k :: idx < k < |slots| ==> slots[k] == To(was[k - 1])
    ensures (forall k :: 0 <= k < |slots| ==> slots[k].To?) && Values(slots) == was[..idx] + [item] + was[idx..]
  {}

  function GrownSize(capacity: nat): nat {
    if capacity * 2 < 10000 then capacity * 2 else capacity + 10000
  }

  class ArrayList<T> {
    var items: array<Pointer<T>>
    var count: nat

    ghost predicate Valid()
      reads this, items
    {
      count <= items.Length && forall k :: 0 <= k < count ==> items[k].To?
    }

    ghost function Contents(): (r: seq<T>)
      reads this, items
      requires Valid()
      ensures |r| == count
    {
      Values(items[..count])
    }

    /** arr_create. */
    constructor (capacity: nat)
      ensures Valid() && Contents() == [] && items.Length == capacity && fresh(items)
    {
      items := new Pointer<T>[capacity](_ => Null);
      count := 0;
    }

    /** arr_manage_size: there is room afterwards exactly when the list was not made with no
        room at all, which doubling does not change. */
    method ManageSize()
      requires Valid()
      modifies this
      ensures Valid() && Contents() == old(Contents()) && count == old(count)
      ensures count < items.Length <==> old(items.Length) > 0
      ensures items == old(items) || fresh(items)
      ensures items.Length == if old(count == items.Length) then GrownSize(old(items.Length)) else old(items.Length)
    {
      if count == items.Length {
        var grown := new Pointer<T>[GrownSize(items.Length)];
        CopyTo(grown, items[..], 0);
        assert grown[..count] == items[..count];
        forall k | 0 <= k < count
          ensures grown[k] == items[k]
        {
          assert grown[k] == grown[..count][k];
        }
        items := grown;
      }
    }

    /** arr_append. */
    method Append(item: T)
      requires Valid() && items.Length > 0
      modifies this, items
      ensures Valid() && Contents() == old(Contents()) + [item] && items.Length > 0
      ensures items == old(items) || fresh(items)
    {
      ManageSize();
      items[count] := To(item);
      count := count + 1;
    }

    /** The loop of arr_insert: everything behind the place moves up by one. */
    method MoveUp(idx: nat)
      requires idx <= count < items.Length
      modifies items
      ensures forall k :: 0 <= k <= idx ==> items[k] == old(items[k])
      ensures forall k :: idx < k <= count ==> items[k] == old(items[k - 1])
    {
      var i := count;
      while i > idx
        invariant idx <= i <= count
        invariant forall k :: 0 <= k <= i ==> items[k] == old(items[k])
        invariant forall k :: i < k <= count ==> items[k] == old(items[k - 1])
      {
        items[i] := items[i - 1];
        i := i - 1;
      }
    }

    /** arr_insert. */
    method Insert(item: T, idx: nat)
      requires Valid() && items.Length > 0 && idx <= count
      modifies this, items
      ensures Valid() && Contents() == old(Contents()[..idx] + [item] + Contents()[idx..]) && items.Length > 0
      ensures items == old(items) || fresh(items)
    {
      ghost var was := Contents();
      ManageSize();
      assert forall k :: 0 <= k < count ==> items[k] == To(was[k]);
      MoveUp(idx);
      items[idx] := To(item);
      count := count + 1;
      InsertedAt(items[..count], was, item, idx);
    }

    /** remove_at_index: everything behind the place moves down by one, and the slot that
        becomes free is cleared. */
    method RemoveAtIndex(idx: nat)
      requires Valid() && idx < count
      modifies this, items
      ensures Valid() && Contents() == Without(old(Contents()), idx)
      ensures items == old(items) && items[count] == Null
    {
      ghost var slots := items[..];
      var i := idx;
      while i < count
        invariant idx <= i <= count <= items.Length && count == old(count) && items == old(items)
        invariant forall k :: 0 <= k < idx || i <= k < count ==> items[k] == slots[k]
        invariant forall k :: idx <= k < i ==> items[k] == if k < count - 1 then slots[k + 1] else Null
      {
        items[i] := if i < count - 1 then items[i + 1] else Null;
        i := i + 1;
      }
      count := count - 1;
    }

    /** arr_get. */
    method Get(idx: nat) returns (item: T)
      requires Valid() && idx < count
      ensures item == Contents()[idx]
    {
      item := items[idx].value;
    }
  }
}
