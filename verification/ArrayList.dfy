/** A growable array kept in one block of memory: elements are moved up and down in
    place, and the block is replaced by a larger one when it is full. */
module ArrayList {
  function Max(a: nat, b: nat): nat { if a < b then b else a }

  function Min(a: nat, b: nat): nat { if a < b then a else b }

  class List<T> {
    /** What cleared memory reads as. */
    const zero: T
    var items: array<T>
    var count: nat
    var capacity: nat

    /** One element more than the capacity is allocated. */
    ghost predicate Valid()
      reads this
    {
      count <= capacity && items.Length == capacity + 1
    }

    function Contents(): (s: seq<T>)
      requires Valid()
      reads this, items
      ensures |s| == count
    {
      items[..count]
    }

    constructor (capacity: nat, zero: T)
      ensures Valid() && Contents() == [] && fresh(items) && this.zero == zero && this.capacity == capacity
    {
      this.zero, this.capacity, this.count := zero, capacity, 0;
      items := new T[capacity + 1](_ => zero);
    }

    method Expand()
      requires Valid()
      modifies this
      ensures Valid() && fresh(items) && Contents() == old(Contents()) && count == old(count)
      ensures capacity == old(capacity) + Max(2, old(capacity) / 4)
    {
      var capacityx := Max(count, capacity);
      capacity := capacityx + Max(2, capacityx / 4);
      var tmp := items;
      items := new T[capacity + 1](_ => zero);
      forall i | 0 <= i < count {
        items[i] := tmp[i];
      }
    }

    /** Appends an element, and gives its place. */
    method Add(item: T) returns (pos: nat)
      requires Valid()
      modifies this, items
      ensures Valid() && Contents() == old(Contents()) + [item] && pos == old(count)
      ensures items == old(items) || fresh(items)
    {
      if count >= capacity {
        Expand();
      }
      ghost var before := items[..count];
      pos := count;
      items[pos] := item;
      count := count + 1;
      assert items[..count] == before + [item];
    }

    /** Moves what is at `pos` and after it one up, and puts an element there; a position
        past the end is the end. */
    method Insert(pos: nat, item: T) returns (at: nat)
      requires Valid()
      modifies this, items
      ensures Valid() && at == Min(old(count), pos)
      ensures Contents() == old(Contents())[..at] + [item] + old(Contents())[at..]
      ensures items == old(items) || fresh(items)
    {
      if count >= capacity {
        Expand();
      }
      ghost var before := items[..count];
      at := Min(count, pos);
      forall i | at <= i < count {
        items[i + 1] := items[i];
      }
      items[at] := item;
      count := count + 1;
      assert items[..count] == before[..at] + [item] + before[at..];
    }

    /** Moves what is after `pos` one down and clears the last place. */
    method Remove(pos: nat)
      requires Valid()
      modifies this, items
      ensures Valid() && items == old(items) && capacity == old(capacity)
      ensures Contents() == if pos < old(count) then old(Contents())[..pos] + old(Contents())[pos + 1..]
                            else old(Contents())
    {
      if pos < count {
        ghost var before := items[..count];
        forall i | pos <= i < count - 1 {
          items[i] := items[i + 1];
        }
        items[count - 1] := zero;
        count := count - 1;
        assert items[..count] == before[..pos] + before[pos + 1..];
      }
    }

    method Clear()
      requires Valid()
      modifies this, items
      ensures Valid() && Contents() == [] && items == old(items)
      ensures forall i :: 0 <= i < capacity ==> items[i] == zero
    {
      count := 0;
      forall i | 0 <= i < capacity {
        items[i] := zero;
      }
    }
  }
}
