/** A table kept as an array sorted by key and searched by halving, against the finite
    map it stands for. A value is a reference, absent when it is null. */
module BinaryTable {
  import opened ArrayList
  import opened Basics

  type Val = Option<nat>

  datatype Item = Item(key: int, val: Val)

  const ZERO: Item := Item(0, None)

  predicate Sorted(s: seq<Item>) { forall i, j :: 0 <= i < j < |s| ==> s[i].key < s[j].key }

  predicate At(s: seq<Item>, i: nat, key: int) { i < |s| && s[i].key == key }

  ghost predicate Present(s: seq<Item>, key: int) { exists i: nat :: At(s, i, key) }

  /** The sorted array stands for the map. */
  ghost predicate Stands(s: seq<Item>, m: map<int, Val>) {
    && Sorted(s)
    && (forall i :: 0 <= i < |s| ==> s[i].key in m && m[s[i].key] == s[i].val)
    && (forall key :: key in m ==> Present(s, key))
  }

  /** An array stands for one map only. */
  lemma StandsForOne(s: seq<Item>, m: map<int, Val>, n: map<int, Val>)
    requires Stands(s, m) && Stands(s, n)
    ensures m == n
  {
    forall key | key in m ensures key in n && m[key] == n[key] {
      assert Present(s, key);
    }
    forall key | key in n ensures key in m {
      assert Present(s, key);
    }
  }

  /** Every key before `i` is smaller, every one from `i` on is not. */
  predicate Place(s: seq<Item>, i: nat, key: int) {
    && i <= |s| && (forall k :: 0 <= k < i ==> s[k].key < key)
    && (forall k :: i <= k < |s| ==> s[k].key >= key)
  }

  lemma PlaceMeaning(s: seq<Item>, m: map<int, Val>, i: nat, key: int)
    requires Stands(s, m) && Place(s, i, key)
    ensures key in m <==> At(s, i, key)
  {
    if key in m {
      assert Present(s, key);
      var k: nat :| At(s, k, key);
      assert k >= i;
    }
  }

  function Inserted(s: seq<Item>, i: nat, item: Item): seq<Item>
    requires i <= |s|
  {
    s[..i] + [item] + s[i..]
  }

  lemma InsertedAt(s: seq<Item>, i: nat, item: Item, k: nat)
    requires i <= |s| && k <= |s|
    ensures Inserted(s, i, item)[k] == if k < i then s[k] else if k == i then item else s[k - 1]
  {
  }

  lemma InsertedSorted(s: seq<Item>, i: nat, item: Item)
    requires Sorted(s) && Place(s, i, item.key) && !At(s, i, item.key)
    ensures Sorted(Inserted(s, i, item))
  {
    forall j, k | 0 <= j < k <= |s| ensures Inserted(s, i, item)[j].key < Inserted(s, i, item)[k].key {
      InsertedAt(s, i, item, j);
      InsertedAt(s, i, item, k);
    }
  }

  lemma InsertStands(s: seq<Item>, m: map<int, Val>, i: nat, item: Item)
    requires Stands(s, m) && Place(s, i, item.key) && !At(s, i, item.key)
    ensures Stands(Inserted(s, i, item), m[item.key := item.val])
  {
    var t := Inserted(s, i, item);
    var n := m[item.key := item.val];
    PlaceMeaning(s, m, i, item.key);
    InsertedSorted(s, i, item);
    forall k | 0 <= k < |t| ensures t[k].key in n && n[t[k].key] == t[k].val {
      InsertedAt(s, i, item, k);
    }
    forall key | key in n ensures Present(t, key) {
      if key == item.key {
        InsertedAt(s, i, item, i);
        assert At(t, i, key);
      } else {
        assert Present(s, key);
        var k: nat :| At(s, k, key);
        InsertedAt(s, i, item, if k < i then k else k + 1);
        assert At(t, if k < i then k else k + 1, key);
      }
    }
  }

  lemma UpdateStands(s: seq<Item>, m: map<int, Val>, i: nat, item: Item)
    requires Stands(s, m) && At(s, i, item.key)
    ensures Stands(s[i := item], m[item.key := item.val])
  {
    var t := s[i := item];
    forall key | key in m[item.key := item.val] ensures Present(t, key) {
      assert Present(s, key);
      var k: nat :| At(s, k, key);
      assert At(t, k, key);
    }
  }

  function Removed(s: seq<Item>, i: nat): seq<Item>
    requires i < |s|
  {
    s[..i] + s[i + 1..]
  }

  lemma RemovedAt(s: seq<Item>, i: nat, k: nat)
    requires i < |s| && k < |s| - 1
    ensures Removed(s, i)[k] == if k < i then s[k] else s[k + 1]
  {
  }

  lemma RemovedSorted(s: seq<Item>, i: nat)
    requires Sorted(s) && i < |s|
    ensures Sorted(Removed(s, i))
  {
    forall j, k | 0 <= j < k < |s| - 1 ensures Removed(s, i)[j].key < Removed(s, i)[k].key {
      RemovedAt(s, i, j);
      RemovedAt(s, i, k);
    }
  }

  lemma RemoveStands(s: seq<Item>, m: map<int, Val>, i: nat)
    requires Stands(s, m) && i < |s|
    ensures Stands(Removed(s, i), m - {s[i].key})
  {
    var t := Removed(s, i);
    RemovedSorted(s, i);
    forall k | 0 <= k < |t| ensures t[k].key in m - {s[i].key} && m[t[k].key] == t[k].val {
      RemovedAt(s, i, k);
    }
    forall key | key in m - {s[i].key} ensures Present(t, key) {
      assert Present(s, key);
      var k: nat :| At(s, k, key);
      RemovedAt(s, i, if k < i then k else k - 1);
      assert At(t, if k < i then k else k - 1, key);
    }
  }

  /** What removing by a condition leaves and gives, in order. */
  function Kept(s: seq<Item>, drop: Val -> bool): seq<Item> {
    if s == [] then [] else (if drop(s[0].val) then [] else [s[0]]) + Kept(s[1..], drop)
  }

  function Dropped(s: seq<Item>, drop: Val -> bool): seq<Val> {
    if s == [] then [] else (if drop(s[0].val) then [s[0].val] else []) + Dropped(s[1..], drop)
  }

  lemma {:induction false} KeptMembers(s: seq<Item>, drop: Val -> bool)
    ensures forall x :: x in Kept(s, drop) <==> x in s && !drop(x.val)
    decreases |s|
  {
    if s != [] {
      KeptMembers(s[1..], drop);
      assert s == [s[0]] + s[1..];
    }
  }

  lemma {:induction false} KeptSorted(s: seq<Item>, drop: Val -> bool)
    requires Sorted(s)
    ensures Sorted(Kept(s, drop))
    decreases |s|
  {
    if s != [] {
      var rest := s[1..];
      KeptSorted(rest, drop);
      KeptMembers(rest, drop);
      forall x | x in rest ensures s[0].key < x.key {
        var k :| 0 <= k < |rest| && rest[k] == x;
        assert s[k + 1] == x;
      }
    }
  }

  function Without(m: map<int, Val>, drop: Val -> bool): map<int, Val> {
    map key | key in m && !drop(m[key]) :: m[key]
  }

  lemma KeptStands(s: seq<Item>, m: map<int, Val>, drop: Val -> bool)
    requires Stands(s, m)
    ensures Stands(Kept(s, drop), Without(m, drop))
  {
    var t := Kept(s, drop);
    KeptSorted(s, drop);
    KeptMembers(s, drop);
    forall k | 0 <= k < |t| ensures t[k].key in Without(m, drop) && m[t[k].key] == t[k].val {
      assert t[k] in s;
    }
    forall key | key in Without(m, drop) ensures Present(t, key) {
      assert Present(s, key);
      var k: nat :| At(s, k, key);
      assert s[k] in t;
      var j :| 0 <= j < |t| && t[j] == s[k];
      assert At(t, j, key);
    }
  }

  /** What is settled of `c`, of which the first `it` entries were looked at. */
  function Settled(c: seq<Item>, it: nat, drop: Val -> bool): seq<Item>
    requires it <= |c|
  {
    c[..it] + Kept(c[it..], drop)
  }

  lemma DropStep(c: seq<Item>, it: nat, drop: Val -> bool)
    requires it < |c| && drop(c[it].val)
    ensures Settled(Removed(c, it), it, drop) == Settled(c, it, drop)
    ensures Dropped(c[it..], drop) == [c[it].val] + Dropped(Removed(c, it)[it..], drop)
  {
    assert c[it..] == [c[it]] + c[it + 1..];
    assert Removed(c, it)[it..] == c[it + 1..] && Removed(c, it)[..it] == c[..it];
    assert [] + Kept(c[it + 1..], drop) == Kept(c[it + 1..], drop);
  }

  lemma KeepStep(c: seq<Item>, it: nat, drop: Val -> bool)
    requires it < |c| && !drop(c[it].val)
    ensures Settled(c, it + 1, drop) == Settled(c, it, drop)
    ensures Dropped(c[it..], drop) == Dropped(c[it + 1..], drop)
  {
    assert c[it..] == [c[it]] + c[it + 1..];
    assert [] + Dropped(c[it + 1..], drop) == Dropped(c[it + 1..], drop);
    assert c[..it + 1] + Kept(c[it + 1..], drop) == c[..it] + ([c[it]] + Kept(c[it + 1..], drop));
  }

  /** What is visited are the values of the matching entries, in the order of the keys. */
  lemma {:induction false} VisitsInOrder(s: seq<Item>, matches: Val -> bool, other: Val -> bool)
    requires Sorted(s) && forall v :: other(v) <==> !matches(v)
    ensures |Dropped(s, matches)| == |Kept(s, other)| && Sorted(Kept(s, other))
    ensures forall i :: 0 <= i < |Kept(s, other)| ==> Dropped(s, matches)[i] == Kept(s, other)[i].val
    ensures forall x :: x in Kept(s, other) <==> x in s && matches(x.val)
    decreases |s|
  {
    KeptSorted(s, other);
    KeptMembers(s, other);
    if s != [] {
      VisitsInOrder(s[1..], matches, other);
    }
  }

  function Both(p: Val -> bool, q: Val -> bool): Val -> bool { v => p(v) && q(v) }

  lemma Endings(c: seq<Item>, drop: Val -> bool)
    ensures Settled(c, 0, drop) == Kept(c, drop) && Settled(c, |c|, drop) == c && Dropped(c[|c|..], drop) == []
    ensures c[0..] == c
  {
    assert c[0..] == c && c[|c|..] == [] && c[..0] == [] && c[..|c|] == c;
  }

  /** The walk over `s` stands before `it`: what is left of `s` and what was visited. */
  predicate Walked(s: seq<Item>, c: seq<Item>, it: nat, drop: Val -> bool, matches: Val -> bool, seen: seq<Val>) {
    && it <= |c| && Settled(c, it, drop) == Kept(s, drop)
    && seen + Dropped(c[it..], matches) == Dropped(s, matches)
  }

  lemma VisitStep(c: seq<Item>, it: nat, matches: Val -> bool, seen: seq<Val>)
    requires it < |c|
    ensures seen + Dropped(c[it..], matches)
         == (if matches(c[it].val) then seen + [c[it].val] else seen) + Dropped(c[it + 1..], matches)
  {
    assert c[it..] == [c[it]] + c[it + 1..];
    var rest := Dropped(c[it + 1..], matches);
    assert [] + rest == rest && seen + ([c[it].val] + rest) == (seen + [c[it].val]) + rest;
  }

  lemma WalkOn(s: seq<Item>, c: seq<Item>, it: nat, drop: Val -> bool, matches: Val -> bool, seen: seq<Val>)
    requires Walked(s, c, it, drop, matches, seen) && it < |c|
    ensures var now := if matches(c[it].val) then seen + [c[it].val] else seen;
            if drop(c[it].val) then Walked(s, Removed(c, it), it, drop, matches, now)
            else Walked(s, c, it + 1, drop, matches, now)
  {
    VisitStep(c, it, matches, seen);
    if drop(c[it].val) {
      DropStep(c, it, drop);
      assert Removed(c, it)[it..] == c[it + 1..];
    } else {
      KeepStep(c, it, drop);
    }
  }

  class Table {
    const items: List<Item>
    ghost var model: map<int, Val>

    /** The array is sorted and stands for the model. */
    ghost predicate Valid()
      reads this, items, items.items
    {
      items.Valid() && items.zero == ZERO && Stands(items.Contents(), model)
    }

    constructor (capacity: nat)
      ensures Valid() && model == map[] && fresh(items) && fresh(items.items)
    {
      items := new List<Item>(capacity, ZERO);
      model := map[];
    }

    /** The search by halving: where the key is, or where it would go. */
    method Search(key: int) returns (found: bool, pos: nat)
      requires Valid()
      ensures Place(items.Contents(), pos, key)
      ensures found <==> At(items.Contents(), pos, key)
    {
      ghost var s := items.Contents();
      var l, r := 0, items.count - 1;
      while l <= r
        invariant 0 <= l <= r + 1 <= items.count
        invariant forall k :: 0 <= k < l ==> s[k].key < key
        invariant forall k :: r < k < |s| ==> s[k].key > key
      {
        var m := l + (r - l) / 2;
        if items.items[m].key == key {
          assert s[m].key == key;
          return true, m;
        } else if items.items[m].key < key {
          l := m + 1;
        } else {
          r := m - 1;
        }
      }
      return false, l;
    }

    method Get(key: int) returns (val: Val)
      requires Valid()
      ensures val == if key in model then model[key] else None
    {
      var found, pos := Search(key);
      PlaceMeaning(items.Contents(), model, pos, key);
      if found {
        val := items.items[pos].val;
      } else {
        val := None;
      }
    }

    /** Enters a value; a null one leaves the value that is there. */
    method Put(key: int, val: Val) returns (pos: nat)
      requires Valid()
      modifies this, items, items.items
      ensures Valid() && At(items.Contents(), pos, key) && fresh({items.items} - {old(items.items)})
      ensures model == if val == None && key in old(model) then old(model) else old(model)[key := val]
    {
      var found;
      found, pos := Search(key);
      PlaceMeaning(items.Contents(), model, pos, key);
      if found {
        if val != None {
          UpdateStands(items.Contents(), model, pos, Item(key, val));
          items.items[pos] := Item(key, val);
          model := model[key := val];
        }
      } else {
        InsertStands(items.Contents(), model, pos, Item(key, val));
        pos := items.Insert(pos, Item(key, val));
        model := model[key := val];
      }
    }

    /** Takes an entry out and gives a copy of it. */
    method Remove(key: int) returns (taken: Option<Item>)
      requires Valid()
      modifies this, items, items.items
      ensures Valid() && items.items == old(items.items) && model == old(model) - {key}
      ensures taken == if key in old(model) then Some(Item(key, old(model)[key])) else None
    {
      var found, pos := Search(key);
      PlaceMeaning(items.Contents(), model, pos, key);
      if !found {
        return None;
      }
      var temp := items.items[pos];
      RemoveStands(items.Contents(), model, pos);
      items.Remove(pos);
      model := model - {key};
      return Some(temp);
    }

    /** Takes out every entry whose value meets the condition, and collects the values. */
    method RemoveEx(drop: Val -> bool) returns (values: seq<Val>)
      requires Valid()
      modifies this, items, items.items
      ensures Valid() && items.items == old(items.items) && model == Without(old(model), drop)
      ensures items.Contents() == Kept(old(items.Contents()), drop)
      ensures values == Dropped(old(items.Contents()), drop)
    {
      ghost var s := items.Contents();
      KeptStands(s, model, drop);
      Endings(s, drop);
      values := [];
      var it, end := 0, items.count;
      while it < end
        invariant items.Valid() && items.items == old(items.items) && model == old(model)
        invariant it <= end == items.count
        invariant Settled(items.Contents(), it, drop) == Kept(s, drop)
        invariant values + Dropped(items.Contents()[it..], drop) == Dropped(s, drop)
        decreases end - it
      {
        ghost var c := items.Contents();
        var val := items.items[it].val;
        assert c[it].val == val;
        if drop(val) {
          DropStep(c, it, drop);
          ghost var rest := Dropped(Removed(c, it)[it..], drop);
          assert values + ([val] + rest) == (values + [val]) + rest;
          values := values + [val];
          items.Remove(it);
          assert items.Contents() == Removed(c, it);
          end := end - 1;
        } else {
          KeepStep(c, it, drop);
          it := it + 1;
        }
      }
      Endings(items.Contents(), drop);
      model := Without(model, drop);
    }

    /** Visits every matching entry once, in the order of the keys, and takes out those
        for which the action says so. */
    method ForEach(act: Val -> bool, matches: Val -> bool) returns (visited: seq<Val>)
      requires Valid()
      modifies this, items, items.items
      ensures Valid() && items.items == old(items.items)
      ensures model == Without(old(model), Both(matches, act))
      ensures items.Contents() == Kept(old(items.Contents()), Both(matches, act))
      ensures visited == Dropped(old(items.Contents()), matches)
    {
      ghost var drop := Both(matches, act);
      visited := Walk(act, matches, drop);
      KeptStands(old(items.Contents()), model, drop);
      model := Without(model, drop);
    }

    /** The walk itself, which leaves the model behind. */
    method Walk(act: Val -> bool, matches: Val -> bool, ghost drop: Val -> bool) returns (visited: seq<Val>)
      requires items.Valid() && forall v :: drop(v) <==> matches(v) && act(v)
      modifies items, items.items
      ensures items.Valid() && items.items == old(items.items)
      ensures items.Contents() == Kept(old(items.Contents()), drop)
      ensures visited == Dropped(old(items.Contents()), matches)
    {
      ghost var s := items.Contents();
      Endings(s, drop);
      visited := [];
      var it, end := 0, items.count;
      while it < end
        invariant items.Valid() && items.items == old(items.items)
        invariant it <= end == items.count
        invariant Walked(s, items.Contents(), it, drop, matches, visited)
        decreases end - it
      {
        var val := items.items[it].val;
        ghost var c := items.Contents();
        assert c[it].val == val;
        WalkOn(s, c, it, drop, matches, visited);
        var hit := matches(val);
        if hit {
          visited := visited + [val];
        }
        if hit && act(val) {
          items.Remove(it);
          assert items.Contents() == Removed(c, it);
          end := end - 1;
        } else {
          it := it + 1;
        }
      }
      Endings(items.Contents(), drop);
    }
  }
}
