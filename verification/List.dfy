// The fixed-capacity list: a counted prefix of an array. A front insert into a
// full list drops the last element; an insert behind the last element of a
// full list overwrites it.
module List {

  /** The list after inserting x at `index`, for a list of the given capacity. */
  function Inserted<T>(s: seq<T>, capacity: nat, index: nat, x: T): (t: seq<T>)
    requires index <= |s| <= capacity && 0 < capacity
    ensures |t| == if |s| < capacity then |s| + 1 else capacity
  {
    if |s| < capacity then s[..index] + [x] + s[index..]
    else if index == |s| then s[..|s| - 1] + [x]
    else s[..index] + [x] + s[index..|s| - 1]
  }

  lemma InsertedParts<T>(s: seq<T>, capacity: nat, index: nat, x: T, slot: nat, t: seq<T>)
    requires index <= |s| <= capacity && 0 < capacity
    requires |t| == (if |s| < capacity then |s| + 1 else capacity) && slot < |t|
    requires slot == if index == |s| == capacity then index - 1 else index
    requires t[slot] == x && (forall k :: 0 <= k < slot ==> t[k] == s[k])
    requires (forall k :: slot < k < |t| ==> t[k] == s[k - 1])
    ensures t == Inserted(s, capacity, index, x)
  {
  }

  function PushFront<T>(s: seq<T>, capacity: nat, x: T): (t: seq<T>)
    requires |s| <= capacity && 0 < capacity
    ensures |t| <= capacity && t == Inserted(s, capacity, 0, x)
    ensures t[0] == x && t[1..] == s[..|t| - 1]
  {
    if |s| < capacity then [x] + s else [x] + s[..capacity - 1]
  }

  /** The list after a front slot was taken and filled. */
  lemma FilledFront<T>(s: seq<T>, capacity: nat, t: seq<T>)
    requires |s| <= capacity && 0 < |t| == if |s| < capacity then |s| + 1 else capacity
    requires t[1..] == s[..|t| - 1]
    ensures t == PushFront(s, capacity, t[0])
  {
    assert t == [t[0]] + t[1..];
  }

  /** The list without its element at `index`; any other index changes nothing. */
  function Erased<T>(s: seq<T>, index: nat): (t: seq<T>)
    ensures index < |s| ==> |t| == |s| - 1
  {
    if index < |s| then s[..index] + s[index + 1..] else s
  }

  lemma ErasedParts<T>(s: seq<T>, index: nat, t: seq<T>)
    requires index < |s| && |t| == |s| - 1
    requires (forall k :: 0 <= k < index ==> t[k] == s[k]) && (forall k :: index <= k < |t| ==> t[k] == s[k + 1])
    ensures t == Erased(s, index)
  {
  }

  class List<T(0)> {
    const data: array<T>
    var length: nat

    ghost predicate Valid()
      reads this
    {
      length <= data.Length && 0 < data.Length
    }

    function Contents(): (s: seq<T>)
      requires Valid()
      reads this, data
    {
      data[..length]
    }

    constructor (capacity: nat)
      requires 0 < capacity
      ensures Valid() && fresh(data) && data.Length == capacity && Contents() == []
    {
      data := new T[capacity];
      length := 0;
    }

    /** memmove within the array: the ranges may overlap. */
    method Move(to: nat, from: nat, count: nat)
      requires to + count <= data.Length && from + count <= data.Length
      modifies data
      ensures forall k :: to <= k < to + count ==> data[k] == old(data[k - to + from])
      ensures forall k :: 0 <= k < data.Length && !(to <= k < to + count) ==> data[k] == old(data[k])
    {
      if from < to {
        var n := count;
        while n > 0
          invariant 0 <= n <= count
          invariant forall k :: to + n <= k < to + count ==> data[k] == old(data[k - to + from])
          invariant forall k :: 0 <= k < data.Length && !(to + n <= k < to + count) ==> data[k] == old(data[k])
        {
          n := n - 1;
          data[to + n] := data[from + n];
        }
      } else {
        for n := 0 to count
          invariant forall k :: to <= k < to + n ==> data[k] == old(data[k - to + from])
          invariant forall k :: 0 <= k < data.Length && !(to <= k < to + n) ==> data[k] == old(data[k])
        {
          data[to + n] := data[from + n];
        }
      }
    }

    /** Makes room and returns the slot to fill, which still holds an old value. */
    method InsertSlot(at: nat) returns (slot: nat)
      requires Valid() && at <= length
      modifies this`length, data
      ensures Valid() && slot < length
      ensures length == if old(length) < data.Length then old(length) + 1 else old(length)
      ensures slot == if at == old(length) == data.Length then at - 1 else at
      ensures forall k :: 0 <= k < slot ==> data[k] == old(data[k])
      ensures forall k :: slot < k < length ==> data[k] == old(data[k - 1])
    {
      slot := at;
      if length < data.Length {
        length := length + 1;
      } else if slot == length && slot > 0 {
        slot := slot - 1;
      }
      var tail := length - 1;
      if slot < tail {
        Move(slot + 1, slot, tail - slot);
      }
    }

    method Insert(at: nat, x: T)
      requires Valid() && at <= length
      modifies this`length, data
      ensures Valid() && Contents() == Inserted(old(Contents()), data.Length, at, x)
    {
      hide Inserted;
      ghost var s := Contents();
      var slot := InsertSlot(at);
      data[slot] := x;
      InsertedParts(s, data.Length, at, x, slot, Contents());
    }

    /** Storing through a pointer into the list. */
    method Put(at: nat, x: T)
      requires Valid() && at < length
      modifies data
      ensures Valid() && Contents() == old(Contents())[at := x] && data[at] == x
    {
      data[at] := x;
    }

    /** A new slot in front, which still holds an old value. */
    method InsertFrontSlot() returns (slot: nat)
      requires Valid()
      modifies this`length, data
      ensures Valid() && slot == 0 < length
      ensures length == if old(length) < data.Length then old(length) + 1 else old(length)
      ensures Contents()[1..] == old(Contents())[..length - 1]
    {
      slot := InsertSlot(0);
    }

    method InsertFront(x: T)
      requires Valid()
      modifies this`length, data
      ensures Valid() && Contents() == PushFront(old(Contents()), data.Length, x)
    {
      Insert(0, x);
    }

    method Erase(at: nat)
      requires Valid()
      modifies this`length, data
      ensures Valid() && Contents() == Erased(old(Contents()), at)
    {
      if length == 0 || at >= length {
        assert Erased(Contents(), at) == Contents();
        return;
      }
      ghost var s := Contents();
      hide Erased;
      var tail := length - 1;
      if at < tail {
        Move(at, at + 1, tail - at);
      }
      length := length - 1;
      ErasedParts(s, at, Contents());
    }
  }
}
