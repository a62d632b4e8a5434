/** One rate bucket per address, the least recently used given up when there are too
    many: the maps and the list of the program against a plain list in order of use. */
module BucketLru {
  datatype Slot = Slot(ip: string, bucket: nat)

  /** At least one bucket is kept, whatever the configured limit. */
  function Cap(maxEntries: nat): nat { if maxEntries == 0 then 1 else maxEntries }

  predicate Distinct(list: seq<Slot>) { forall i, j :: 0 <= i < j < |list| ==> list[i].ip != list[j].ip }

  function Keys(list: seq<Slot>): set<string> { set s | s in list :: s.ip }

  /** Where an address stands, or the length. */
  function IndexOf(list: seq<Slot>, ip: string): (i: nat)
    ensures i <= |list| && (i < |list| ==> list[i].ip == ip)
    ensures forall j :: 0 <= j < i ==> list[j].ip != ip
  {
    if list == [] then 0 else if list[0].ip == ip then 0 else 1 + IndexOf(list[1..], ip)
  }

  /** Element `i` last. */
  function ToEnd<T>(s: seq<T>, i: nat): seq<T>
    requires i < |s|
  {
    s[..i] + s[i + 1..] + [s[i]]
  }

  /** The list after a use: the address last, on a new bucket unless it had one. */
  function Use(list: seq<Slot>, ip: string, made: nat, cap: nat): seq<Slot>
    requires cap > 0
  {
    var i := IndexOf(list, ip);
    if i < |list| then ToEnd(list, i)
    else (if |list| >= cap then list[1..] else list) + [Slot(ip, made)]
  }

  /** The bucket a use gives. */
  function Given(list: seq<Slot>, ip: string, made: nat): nat {
    var i := IndexOf(list, ip);
    if i < |list| then list[i].bucket else made
  }

  /** A run of uses; `made` numbers the buckets made. */
  function UseAll(list: seq<Slot>, ips: seq<string>, made: nat, cap: nat): seq<Slot>
    requires cap > 0
    decreases |ips|
  {
    if ips == [] then list
    else UseAll(Use(list, ips[0], made, cap), ips[1..], Made(list, ips[0], made), cap)
  }

  function Made(list: seq<Slot>, ip: string, made: nat): nat {
    if IndexOf(list, ip) < |list| then made else made + 1
  }

  function MadeAll(list: seq<Slot>, ips: seq<string>, made: nat, cap: nat): nat
    requires cap > 0
    decreases |ips|
  {
    if ips == [] then made
    else MadeAll(Use(list, ips[0], made, cap), ips[1..], Made(list, ips[0], made), cap)
  }

  /** No address twice, no more than the limit, every bucket one that was made. */
  predicate Inv(list: seq<Slot>, made: nat, cap: nat) {
    Distinct(list) && |list| <= cap && forall i :: 0 <= i < |list| ==> list[i].bucket < made
  }

  lemma MovedInv(list: seq<Slot>, i: nat, made: nat, cap: nat)
    requires Inv(list, made, cap) && i < |list|
    ensures Inv(list[..i] + list[i + 1..] + [list[i]], made, cap)
  {
  }

  lemma AddedInv(list: seq<Slot>, ip: string, made: nat, cap: nat)
    requires cap > 0 && Inv(list, made, cap) && IndexOf(list, ip) == |list|
    ensures Inv((if |list| >= cap then list[1..] else list) + [Slot(ip, made)], made + 1, cap)
  {
  }

  lemma UseInv(list: seq<Slot>, ip: string, made: nat, cap: nat)
    requires cap > 0 && Inv(list, made, cap)
    ensures Inv(Use(list, ip, made, cap), Made(list, ip, made), cap)
  {
    var i := IndexOf(list, ip);
    if i < |list| {
      MovedInv(list, i, made, cap);
    } else {
      AddedInv(list, ip, made, cap);
    }
  }

  lemma {:induction false} UseAllInv(list: seq<Slot>, ips: seq<string>, made: nat, cap: nat)
    requires cap > 0 && Inv(list, made, cap)
    ensures Inv(UseAll(list, ips, made, cap), MadeAll(list, ips, made, cap), cap)
    decreases |ips|
  {
    if ips != [] {
      UseInv(list, ips[0], made, cap);
      UseAllInv(Use(list, ips[0], made, cap), ips[1..], Made(list, ips[0], made), cap);
    }
  }

  lemma {:induction false} CountKeys(list: seq<Slot>)
    requires Distinct(list)
    ensures |Keys(list)| == |list|
    decreases |list|
  {
    if list != [] {
      var rest := list[1..];
      CountKeys(rest);
      assert Keys(list) == {list[0].ip} + Keys(rest) by {
        assert list == [list[0]] + rest;
      }
      assert list[0].ip !in Keys(rest) by {
        assert forall s :: s in rest ==> exists j :: 0 < j < |list| && list[j] == s;
      }
    }
  }

  /** What has become of an address since its last use, which gave it `bucket`: it stands
      before exactly the addresses seen since, or there have been too many. */
  predicate Since(list: seq<Slot>, ip: string, bucket: nat, seen: set<string>, cap: nat) {
    var i := IndexOf(list, ip);
    if i < |list| then list[i].bucket == bucket && Keys(list[i + 1..]) == seen && |seen| < cap
    else |seen| >= cap
  }

  lemma DistinctParts(a: seq<Slot>, c: seq<Slot>)
    requires Distinct(a + c)
    ensures Distinct(c)
  {
    forall p, q | 0 <= p < q < |c| ensures c[p].ip != c[q].ip {
      assert (a + c)[|a| + p] == c[p] && (a + c)[|a| + q] == c[q];
    }
  }

  lemma StandsAt(a: seq<Slot>, slot: Slot, c: seq<Slot>)
    requires Distinct(a + [slot] + c)
    ensures IndexOf(a + [slot] + c, slot.ip) == |a| && |Keys(c)| == |c|
  {
    var list := a + [slot] + c;
    assert list[|a|] == slot;
    var j := IndexOf(list, slot.ip);
    DistinctParts(a + [slot], c);
    CountKeys(c);
  }

  /** A known address moves to the end. */
  lemma UseKnown(a: seq<Slot>, x: Slot, c: seq<Slot>, made: nat, cap: nat)
    requires cap > 0 && Distinct(a + [x] + c)
    ensures Use(a + [x] + c, x.ip, made, cap) == a + c + [x]
  {
    var list := a + [x] + c;
    StandsAt(a, x, c);
    assert list[..|a|] == a && list[|a| + 1..] == c;
  }

  lemma Missing(list: seq<Slot>, ip: string)
    ensures IndexOf(list, ip) == |list| <==> ip !in Keys(list)
  {
    var i := IndexOf(list, ip);
    if i < |list| {
      assert list[i] in list;
    }
  }

  lemma KeysConcat(a: seq<Slot>, b: seq<Slot>)
    ensures Keys(a + b) == Keys(a) + Keys(b)
  {
    assert forall s :: s in a + b <==> s in a || s in b;
  }

  lemma CardinalityGrows(a: set<string>, b: set<string>)
    requires a <= b
    ensures |a| <= |b|
  {
    assert b == a + (b - a);
  }

  /** An address already given up stays so while others are used. */
  lemma GoneStays(list: seq<Slot>, ip: string, seen: set<string>, other: string, made: nat, cap: nat)
    requires cap > 0 && ip !in Keys(list) && other != ip && |seen| >= cap
    ensures ip !in Keys(Use(list, other, made, cap)) && |seen + {other}| >= cap
  {
    CardinalityGrows(seen, seen + {other});
  }

  /** The other address stands before it: one more has come after it. */
  lemma UseBefore(a: seq<Slot>, x: Slot, b: seq<Slot>, slot: Slot, c: seq<Slot>, made: nat, cap: nat)
    requires cap > 0 && Inv(a + [x] + (b + [slot] + c), made, cap)
    ensures Use(a + [x] + (b + [slot] + c), x.ip, made, cap) == (a + b) + [slot] + (c + [x])
    ensures Keys(c + [x]) == Keys(c) + {x.ip} && |Keys(c + [x])| < cap
  {
    UseInv(a + [x] + (b + [slot] + c), x.ip, made, cap);
    UseKnown(a, x, b + [slot] + c, made, cap);
    assert a + (b + [slot] + c) + [x] == (a + b) + [slot] + (c + [x]);
    StandsAt(a + b, slot, c + [x]);
    KeysConcat(c, [x]);
  }

  lemma SameKeys(b: seq<Slot>, x: Slot, c: seq<Slot>)
    ensures Keys(b + c + [x]) == Keys(b + [x] + c) == Keys(b) + {x.ip} + Keys(c)
  {
    KeysConcat(b + c, [x]);
    KeysConcat(b, c);
    KeysConcat(b + [x], c);
    KeysConcat(b, [x]);
  }

  /** The other address stands after it already. */
  lemma UseAfter(a: seq<Slot>, slot: Slot, b: seq<Slot>, x: Slot, c: seq<Slot>, made: nat, cap: nat)
    requires cap > 0 && Distinct((a + [slot] + b) + [x] + c)
    ensures Use((a + [slot] + b) + [x] + c, x.ip, made, cap) == a + [slot] + (b + c + [x])
  {
    UseKnown(a + [slot] + b, x, c, made, cap);
    assert (a + [slot] + b) + c + [x] == a + [slot] + (b + c + [x]);
  }

  /** The other address is new: it may push the first out. */
  lemma UseNew(a: seq<Slot>, slot: Slot, c: seq<Slot>, other: string, made: nat, cap: nat)
    requires cap > 0 && IndexOf(a + [slot] + c, other) == |a + [slot] + c|
    ensures var x := Slot(other, made); var list := a + [slot] + c; var after := Use(list, other, made, cap);
            if |list| < cap then after == a + [slot] + (c + [x])
            else if a != [] then after == a[1..] + [slot] + (c + [x])
            else after == c + [x]
  {
    var list := a + [slot] + c;
    assert list + [Slot(other, made)] == a + [slot] + (c + [Slot(other, made)]);
    if a != [] {
      assert list[1..] == a[1..] + [slot] + c;
      assert list[1..] + [Slot(other, made)] == a[1..] + [slot] + (c + [Slot(other, made)]);
    } else {
      assert list[1..] == c;
    }
  }

  lemma SinceOf(a: seq<Slot>, slot: Slot, c: seq<Slot>, cap: nat)
    requires Distinct(a + [slot] + c) && |Keys(c)| < cap
    ensures Since(a + [slot] + c, slot.ip, slot.bucket, Keys(c), cap)
  {
    StandsAt(a, slot, c);
    assert (a + [slot] + c)[|a| + 1..] == c;
  }

  lemma BeforeSince(a: seq<Slot>, x: Slot, b: seq<Slot>, slot: Slot, c: seq<Slot>, made: nat, cap: nat)
    requires cap > 0 && Inv(a + [x] + (b + [slot] + c), made, cap)
    ensures Since(Use(a + [x] + (b + [slot] + c), x.ip, made, cap), slot.ip, slot.bucket, Keys(c) + {x.ip}, cap)
  {
    UseInv(a + [x] + (b + [slot] + c), x.ip, made, cap);
    UseBefore(a, x, b, slot, c, made, cap);
    SinceOf(a + b, slot, c + [x], cap);
  }

  lemma AfterSince(a: seq<Slot>, slot: Slot, b: seq<Slot>, x: Slot, c: seq<Slot>, made: nat, cap: nat)
    requires cap > 0 && Inv((a + [slot] + b) + [x] + c, made, cap) && |Keys(b + [x] + c)| < cap
    ensures Since(Use((a + [slot] + b) + [x] + c, x.ip, made, cap), slot.ip, slot.bucket, Keys(b + [x] + c) + {x.ip},
                  cap)
  {
    UseInv((a + [slot] + b) + [x] + c, x.ip, made, cap);
    UseAfter(a, slot, b, x, c, made, cap);
    SameKeys(b, x, c);
    SinceOf(a, slot, b + c + [x], cap);
    assert Keys(b + [x] + c) + {x.ip} == Keys(b + [x] + c);
  }

  lemma KnownSince(list: seq<Slot>, i: nat, k: nat, made: nat, cap: nat)
    requires cap > 0 && Inv(list, made, cap) && i < |list| && k < |list| && i != k
    requires |Keys(list[i + 1..])| < cap
    ensures Since(Use(list, list[k].ip, made, cap), list[i].ip, list[i].bucket,
                  Keys(list[i + 1..]) + {list[k].ip}, cap)
  {
    if k < i {
      assert list == list[..k] + [list[k]] + (list[k + 1..i] + [list[i]] + list[i + 1..]);
      BeforeSince(list[..k], list[k], list[k + 1..i], list[i], list[i + 1..], made, cap);
    } else {
      assert list == (list[..i] + [list[i]] + list[i + 1..k]) + [list[k]] + list[k + 1..];
      assert list[i + 1..] == list[i + 1..k] + [list[k]] + list[k + 1..];
      AfterSince(list[..i], list[i], list[i + 1..k], list[k], list[k + 1..], made, cap);
    }
  }

  lemma KeysGrow(a: seq<Slot>, slot: Slot, c: seq<Slot>, x: Slot)
    requires Distinct(a + [slot] + c) && x.ip !in Keys(a + [slot] + c)
    ensures Keys(c + [x]) == Keys(c) + {x.ip} && |Keys(c + [x])| == |c| + 1
  {
    KeysConcat(c, [x]);
    DistinctParts(a + [slot], c);
    CountKeys(c);
    KeysConcat(a + [slot], c);
  }

  lemma NewSince(a: seq<Slot>, slot: Slot, c: seq<Slot>, other: string, made: nat, cap: nat)
    requires cap > 0 && Inv(a + [slot] + c, made, cap) && IndexOf(a + [slot] + c, other) == |a + [slot] + c|
    ensures Since(Use(a + [slot] + c, other, made, cap), slot.ip, slot.bucket, Keys(c) + {other}, cap)
  {
    var list, x := a + [slot] + c, Slot(other, made);
    UseInv(list, other, made, cap);
    UseNew(a, slot, c, other, made, cap);
    Missing(list, other);
    KeysGrow(a, slot, c, x);
    if |list| < cap {
      SinceOf(a, slot, c + [x], cap);
    } else if a != [] {
      SinceOf(a[1..], slot, c + [x], cap);
    } else {
      assert list == [slot] + c;
      assert slot in list;
      GoneWithFirst(slot, c, x);
    }
  }

  lemma GoneWithFirst(slot: Slot, c: seq<Slot>, x: Slot)
    requires Distinct([slot] + c) && x.ip != slot.ip
    ensures IndexOf(c + [x], slot.ip) == |c + [x]|
  {
    forall j | 0 <= j < |c| ensures c[j].ip != slot.ip {
      assert ([slot] + c)[0] == slot;
      assert ([slot] + c)[j + 1] == c[j];
    }
    assert forall j :: 0 <= j < |c + [x]| ==> (c + [x])[j].ip != slot.ip;
  }

  lemma StepSince(list: seq<Slot>, ip: string, bucket: nat, seen: set<string>, other: string, made: nat, cap: nat)
    requires cap > 0 && Inv(list, made, cap) && Since(list, ip, bucket, seen, cap) && other != ip
    ensures Since(Use(list, other, made, cap), ip, bucket, seen + {other}, cap)
  {
    var i, k := IndexOf(list, ip), IndexOf(list, other);
    if i == |list| {
      Missing(list, ip);
      GoneStays(list, ip, seen, other, made, cap);
      Missing(Use(list, other, made, cap), ip);
    } else if k < |list| {
      KnownSince(list, i, k, made, cap);
    } else {
      assert list == list[..i] + [list[i]] + list[i + 1..];
      NewSince(list[..i], list[i], list[i + 1..], other, made, cap);
    }
  }

  function Seen(ips: seq<string>): set<string> { set x | x in ips }

  lemma SeenFirst(seen: set<string>, others: seq<string>)
    requires others != []
    ensures seen + {others[0]} + Seen(others[1..]) == seen + Seen(others)
  {
    assert others == [others[0]] + others[1..];
  }

  lemma {:induction false} RunSince(list: seq<Slot>, ip: string, bucket: nat, seen: set<string>, others: seq<string>,
                                    made: nat, cap: nat)
    requires cap > 0 && Inv(list, made, cap) && Since(list, ip, bucket, seen, cap) && ip !in others
    ensures Since(UseAll(list, others, made, cap), ip, bucket, seen + Seen(others), cap)
    decreases |others|
  {
    if others == [] {
      assert seen + Seen(others) == seen;
    } else {
      var other := others[0];
      StepSince(list, ip, bucket, seen, other, made, cap);
      UseInv(list, other, made, cap);
      SeenFirst(seen, others);
      RunSince(Use(list, other, made, cap), ip, bucket, seen + {other}, others[1..], Made(list, other, made), cap);
    }
  }

  /** An address gets the same bucket back exactly when fewer than the limit of distinct
      other addresses were used since it last was. */
  lemma SameBucketIff(list: seq<Slot>, ip: string, others: seq<string>, made: nat, cap: nat)
    requires cap > 0 && Inv(list, made, cap) && ip !in others
    ensures var first := Use(list, ip, made, cap); var n := Made(list, ip, made);
            (Given(UseAll(first, others, n, cap), ip, MadeAll(first, others, n, cap)) == Given(list, ip, made))
            <==> |Seen(others)| < cap
  {
    var first, n := Use(list, ip, made, cap), Made(list, ip, made);
    var bucket := Given(list, ip, made);
    UseInv(list, ip, made, cap);
    var slot := first[|first| - 1];
    assert slot == Slot(ip, bucket) && first == first[..|first| - 1] + [slot] + [];
    assert Keys([]) == {};
    SinceOf(first[..|first| - 1], slot, [], cap);
    assert {} + Seen(others) == Seen(others);
    RunSince(first, ip, bucket, {}, others, n, cap);
    MadeGrows(first, others, n, cap);
  }

  lemma {:induction false} MadeGrows(list: seq<Slot>, ips: seq<string>, made: nat, cap: nat)
    requires cap > 0
    ensures MadeAll(list, ips, made, cap) >= made
    decreases |ips|
  {
    if ips != [] {
      MadeGrows(Use(list, ips[0], made, cap), ips[1..], Made(list, ips[0], made), cap);
    }
  }

  // ----- As the program keeps it

  /** A node of the linked list; `id` stands for its address. */
  datatype Node = Node(id: nat, ip: string)

  /** The three structures hold the same addresses, and each position is the node of its
      address. */
  predicate Agree(lru: seq<Node>, lruPos: map<string, nat>, buckets: map<string, nat>, nextId: nat) {
    && (forall i :: 0 <= i < |lru| ==> Placed(lru[i], lruPos, buckets, nextId))
    && (forall i, j :: 0 <= i < j < |lru| ==> lru[i].id != lru[j].id)
    && (forall ip :: ip in buckets ==> ip in lruPos && Node(lruPos[ip], ip) in lru)
    && (forall ip :: ip in lruPos ==> ip in buckets)
  }

  predicate Placed(n: Node, lruPos: map<string, nat>, buckets: map<string, nat>, nextId: nat) {
    n.ip in buckets && n.ip in lruPos && lruPos[n.ip] == n.id < nextId
  }

  /** The plain list that the three structures stand for. */
  function Slots(lru: seq<Node>, buckets: map<string, nat>): (r: seq<Slot>)
    requires forall i :: 0 <= i < |lru| ==> lru[i].ip in buckets
    ensures |r| == |lru| && forall i :: 0 <= i < |r| ==> r[i] == Slot(lru[i].ip, buckets[lru[i].ip])
  {
    seq(|lru|, i requires 0 <= i < |lru| => Slot(lru[i].ip, buckets[lru[i].ip]))
  }

  /** Where a node stands. */
  function Position(lru: seq<Node>, id: nat): (i: nat)
    ensures i <= |lru| && (i < |lru| ==> lru[i].id == id)
    ensures forall j :: 0 <= j < i ==> lru[j].id != id
  {
    if lru == [] then 0 else if lru[0].id == id then 0 else 1 + Position(lru[1..], id)
  }

  lemma NodeOf(lru: seq<Node>, lruPos: map<string, nat>, buckets: map<string, nat>, nextId: nat, ip: string)
    returns (k: nat)
    requires Agree(lru, lruPos, buckets, nextId) && ip in buckets
    ensures k < |lru| && lru[k] == Node(lruPos[ip], ip) && Position(lru, lruPos[ip]) == k
    ensures forall i :: 0 <= i < |lru| && lru[i].ip == ip ==> i == k
  {
    k :| 0 <= k < |lru| && lru[k] == Node(lruPos[ip], ip);
    forall i | 0 <= i < |lru| && lru[i].ip == ip ensures i == k {
      assert Placed(lru[i], lruPos, buckets, nextId);
    }
  }

  /** The position kept for an address leads to where it stands in the plain list. */
  lemma PositionIsIndex(lru: seq<Node>, lruPos: map<string, nat>, buckets: map<string, nat>, nextId: nat, ip: string)
    requires Agree(lru, lruPos, buckets, nextId)
    ensures ip in buckets ==> IndexOf(Slots(lru, buckets), ip) < |lru|
                              && Position(lru, lruPos[ip]) == IndexOf(Slots(lru, buckets), ip)
    ensures ip !in buckets ==> IndexOf(Slots(lru, buckets), ip) == |lru|
  {
    assert forall i :: 0 <= i < |lru| ==> Placed(lru[i], lruPos, buckets, nextId);
    if ip in buckets {
      var k := NodeOf(lru, lruPos, buckets, nextId, ip);
      assert Slots(lru, buckets)[k].ip == ip;
    }
  }

  lemma ToEndKeeps<T>(s: seq<T>, i: nat)
    requires i < |s|
    ensures forall x :: x in s <==> x in ToEnd(s, i)
  {
    assert s == s[..i] + [s[i]] + s[i + 1..];
  }

  /** Each node of the moved list and where it was. */
  lemma ToEndAt<T>(s: seq<T>, i: nat, k: nat)
    requires i < |s| && k < |s|
    ensures ToEnd(s, i)[k] == s[if k < i then k else if k < |s| - 1 then k + 1 else i]
  {
  }

  lemma PromoteAgrees(lru: seq<Node>, lruPos: map<string, nat>, buckets: map<string, nat>, nextId: nat, i: nat)
    requires Agree(lru, lruPos, buckets, nextId) && i < |lru|
    ensures Agree(ToEnd(lru, i), lruPos, buckets, nextId)
  {
    var after := ToEnd(lru, i);
    ToEndKeeps(lru, i);
    forall k | 0 <= k < |after| ensures Placed(after[k], lruPos, buckets, nextId) {
      ToEndAt(lru, i, k);
    }
    forall j, k | 0 <= j < k < |after| ensures after[j].id != after[k].id {
      ToEndAt(lru, i, j);
      ToEndAt(lru, i, k);
    }
  }

  lemma PromoteSlots(lru: seq<Node>, buckets: map<string, nat>, i: nat)
    requires (forall k :: 0 <= k < |lru| ==> lru[k].ip in buckets) && i < |lru|
    ensures forall k :: 0 <= k < |lru| ==> ToEnd(lru, i)[k].ip in buckets
    ensures Slots(ToEnd(lru, i), buckets) == ToEnd(Slots(lru, buckets), i)
  {
    forall k | 0 <= k < |lru|
      ensures ToEnd(lru, i)[k].ip in buckets
      ensures Slot(ToEnd(lru, i)[k].ip, buckets[ToEnd(lru, i)[k].ip]) == ToEnd(Slots(lru, buckets), i)[k]
    {
      ToEndAt(lru, i, k);
      ToEndAt(Slots(lru, buckets), i, k);
    }
  }

  lemma OthersThanFirst(lru: seq<Node>, lruPos: map<string, nat>, buckets: map<string, nat>, nextId: nat)
    requires Agree(lru, lruPos, buckets, nextId) && lru != []
    ensures forall i :: 0 < i < |lru| ==> lru[i].ip != lru[0].ip
    ensures lru[0].ip in buckets
  {
    assert Placed(lru[0], lruPos, buckets, nextId);
    forall i | 0 < i < |lru| ensures lru[i].ip != lru[0].ip {
      assert Placed(lru[i], lruPos, buckets, nextId);
    }
  }

  lemma EvictAgrees(lru: seq<Node>, lruPos: map<string, nat>, buckets: map<string, nat>, nextId: nat)
    requires Agree(lru, lruPos, buckets, nextId) && lru != []
    ensures Agree(lru[1..], lruPos - {lru[0].ip}, buckets - {lru[0].ip}, nextId)
  {
    var first, rest := lru[0], lru[1..];
    OthersThanFirst(lru, lruPos, buckets, nextId);
    forall i | 0 <= i < |rest| ensures Placed(rest[i], lruPos - {first.ip}, buckets - {first.ip}, nextId) {
      assert Placed(lru[i + 1], lruPos, buckets, nextId);
    }
    assert lru == [first] + rest;
  }

  lemma EvictSlots(lru: seq<Node>, lruPos: map<string, nat>, buckets: map<string, nat>, nextId: nat)
    requires Agree(lru, lruPos, buckets, nextId) && lru != []
    ensures forall i :: 0 <= i < |lru[1..]| ==> lru[1..][i].ip in buckets - {lru[0].ip}
    ensures (forall i :: 0 <= i < |lru| ==> lru[i].ip in buckets) && lru[0].ip in buckets
    ensures Slots(lru[1..], buckets - {lru[0].ip}) == Slots(lru, buckets)[1..]
  {
    OthersThanFirst(lru, lruPos, buckets, nextId);
    forall i | 0 <= i < |lru| ensures lru[i].ip in buckets {
      assert Placed(lru[i], lruPos, buckets, nextId);
    }
  }

  lemma OneFewer(buckets: map<string, nat>, ip: string)
    requires ip in buckets
    ensures |buckets - {ip}| == |buckets| - 1
  {
    assert (buckets - {ip}).Keys == buckets.Keys - {ip};
  }

  lemma AddAgrees(lru: seq<Node>, lruPos: map<string, nat>, buckets: map<string, nat>, nextId: nat, ip: string,
                  made: nat)
    requires Agree(lru, lruPos, buckets, nextId) && ip !in buckets
    ensures Agree(lru + [Node(nextId, ip)], lruPos[ip := nextId], buckets[ip := made], nextId + 1)
    ensures Slots(lru + [Node(nextId, ip)], buckets[ip := made]) == Slots(lru, buckets) + [Slot(ip, made)]
  {
    var after := lru + [Node(nextId, ip)];
    assert after[|lru|] == Node(nextId, ip);
    forall n | n in lru ensures n in after {
      var k :| 0 <= k < |lru| && lru[k] == n;
      assert after[k] == n;
    }
  }

  /** The three structures as one value. */
  datatype Tables = Tables(lru: seq<Node>, lruPos: map<string, nat>, buckets: map<string, nat>)

  predicate Good(t: Tables, nextId: nat) {
    Agree(t.lru, t.lruPos, t.buckets, nextId) && |t.buckets| == |t.lru|
  }

  function List(t: Tables, nextId: nat): seq<Slot>
    requires Good(t, nextId)
  {
    Slots(t.lru, t.buckets)
  }

  function WithoutFirst(t: Tables): Tables
    requires t.lru != []
  {
    Tables(t.lru[1..], t.lruPos - {t.lru[0].ip}, t.buckets - {t.lru[0].ip})
  }

  lemma WithoutFirstGood(t: Tables, nextId: nat)
    requires Good(t, nextId) && t.lru != []
    ensures Good(WithoutFirst(t), nextId) && List(WithoutFirst(t), nextId) == List(t, nextId)[1..]
    ensures t.lru[0].ip in t.buckets
  {
    EvictAgrees(t.lru, t.lruPos, t.buckets, nextId);
    EvictSlots(t.lru, t.lruPos, t.buckets, nextId);
    OneFewer(t.buckets, t.lru[0].ip);
  }

  function Promoted(t: Tables, ip: string): Tables
    requires ip in t.lruPos && Position(t.lru, t.lruPos[ip]) < |t.lru|
  {
    t.(lru := ToEnd(t.lru, Position(t.lru, t.lruPos[ip])))
  }

  lemma PromotedGood(t: Tables, nextId: nat, ip: string)
    requires Good(t, nextId) && ip in t.buckets
    ensures var v := List(t, nextId); var i := IndexOf(v, ip);
            && i < |v| && ip in t.lruPos && Position(t.lru, t.lruPos[ip]) == i
            && Good(Promoted(t, ip), nextId) && List(Promoted(t, ip), nextId) == ToEnd(v, i)
            && t.buckets[ip] == v[i].bucket
  {
    PositionIsIndex(t.lru, t.lruPos, t.buckets, nextId, ip);
    var i := IndexOf(List(t, nextId), ip);
    PromoteAgrees(t.lru, t.lruPos, t.buckets, nextId, i);
    PromoteSlots(t.lru, t.buckets, i);
  }

  function Added(t: Tables, nextId: nat, ip: string, made: nat): Tables {
    Tables(t.lru + [Node(nextId, ip)], t.lruPos[ip := nextId], t.buckets[ip := made])
  }

  lemma AddedGood(t: Tables, nextId: nat, ip: string, made: nat)
    requires Good(t, nextId) && ip !in t.buckets
    ensures Good(Added(t, nextId, ip, made), nextId + 1)
    ensures List(Added(t, nextId, ip, made), nextId + 1) == List(t, nextId) + [Slot(ip, made)]
  {
    AddAgrees(t.lru, t.lruPos, t.buckets, nextId, ip, made);
  }

  /** Room is made and the address added. */
  function Entered(t: Tables, nextId: nat, ip: string, made: nat, maxEntries: nat): Tables {
    Added(if |t.buckets| >= maxEntries && t.lru != [] then WithoutFirst(t) else t, nextId, ip, made)
  }

  lemma EnteredGood(t: Tables, nextId: nat, ip: string, made: nat, maxEntries: nat)
    requires Good(t, nextId) && ip !in t.buckets
    ensures Good(Entered(t, nextId, ip, made, maxEntries), nextId + 1)
    ensures List(Entered(t, nextId, ip, made, maxEntries), nextId + 1) == Use(List(t, nextId), ip, made, Cap(maxEntries))
  {
    PositionIsIndex(t.lru, t.lruPos, t.buckets, nextId, ip);
    if |t.buckets| >= maxEntries && t.lru != [] {
      var u := WithoutFirst(t);
      WithoutFirstGood(t, nextId);
      AddedGood(u, nextId, ip, made);
      assert Entered(t, nextId, ip, made, maxEntries) == Added(u, nextId, ip, made);
    } else {
      AddedGood(t, nextId, ip, made);
    }
  }

  lemma KnownStep(t: Tables, nextId: nat, ip: string, made: nat, cap: nat)
    requires cap > 0 && Good(t, nextId) && Inv(List(t, nextId), made, cap) && ip in t.buckets
    ensures ip in t.lruPos && Position(t.lru, t.lruPos[ip]) < |t.lru|
    ensures var u := Promoted(t, ip); var v := List(t, nextId);
            && Good(u, nextId) && List(u, nextId) == Use(v, ip, made, cap) && Inv(List(u, nextId), made, cap)
            && t.buckets[ip] == Given(v, ip, made) && Made(v, ip, made) == made
  {
    UseInv(List(t, nextId), ip, made, cap);
    PromotedGood(t, nextId, ip);
  }

  lemma NewStep(t: Tables, nextId: nat, ip: string, made: nat, maxEntries: nat)
    requires Good(t, nextId) && Inv(List(t, nextId), made, Cap(maxEntries)) && ip !in t.buckets
    ensures var u := Entered(t, nextId, ip, made, maxEntries); var v := List(t, nextId);
            && Good(u, nextId + 1) && List(u, nextId + 1) == Use(v, ip, made, Cap(maxEntries))
            && Inv(List(u, nextId + 1), made + 1, Cap(maxEntries))
            && Given(v, ip, made) == made && Made(v, ip, made) == made + 1
  {
    UseInv(List(t, nextId), ip, made, Cap(maxEntries));
    PositionIsIndex(t.lru, t.lruPos, t.buckets, nextId, ip);
    EnteredGood(t, nextId, ip, made, maxEntries);
  }

  class IpRateLimiter {
    const maxEntries: nat
    var buckets: map<string, nat>
    var lru: seq<Node>
    var lruPos: map<string, nat>
    var made: nat
    var nextId: nat

    ghost function Now(): Tables
      reads this
    {
      Tables(lru, lruPos, buckets)
    }

    ghost predicate Valid()
      reads this
    {
      Good(Now(), nextId) && Inv(List(Now(), nextId), made, Cap(maxEntries))
    }

    ghost function View(): seq<Slot>
      requires Valid()
      reads this
    {
      List(Now(), nextId)
    }

    constructor (maxEntries: nat)
      ensures Valid() && View() == [] && this.maxEntries == maxEntries
    {
      this.maxEntries := maxEntries;
      buckets, lru, lruPos, made, nextId := map[], [], map[], 0, 0;
    }

    /** Takes the least recently used out of all three; that a bucket goes with the name
        is what ends the program's loop at its first turn. */
    method RemoveFirst() returns (counted: bool)
      requires lru != []
      modifies this`lru, this`lruPos, this`buckets
      ensures Now() == WithoutFirst(old(Now())) && (counted <==> old(lru[0].ip in buckets))
    {
      var first := lru[0].ip;
      counted := first in buckets;
      lru, lruPos, buckets := lru[1..], lruPos - {first}, buckets - {first};
    }

    method Promote(ip: string) returns (bucket: nat)
      requires ip in lruPos && ip in buckets && Position(lru, lruPos[ip]) < |lru|
      modifies this`lru
      ensures bucket == buckets[ip] && Now() == Promoted(old(Now()), ip)
    {
      lru := ToEnd(lru, Position(lru, lruPos[ip]));
      bucket := buckets[ip];
    }

    method Hit(ip: string) returns (bucket: nat)
      requires Valid() && ip in buckets
      modifies this`lru
      ensures Valid() && bucket == Given(old(View()), ip, old(made))
      ensures View() == Use(old(View()), ip, old(made), Cap(maxEntries))
      ensures made == Made(old(View()), ip, old(made))
    {
      KnownStep(Now(), nextId, ip, made, Cap(maxEntries));
      bucket := Promote(ip);
    }

    method Miss(ip: string) returns (bucket: nat)
      requires Valid() && ip !in buckets
      modifies this
      ensures Valid() && bucket == Given(old(View()), ip, old(made))
      ensures View() == Use(old(View()), ip, old(made), Cap(maxEntries))
      ensures made == Made(old(View()), ip, old(made))
    {
      NewStep(Now(), nextId, ip, made, maxEntries);
      bucket := Enter(ip);
    }

    /** The bucket of an address, made at its first use. */
    method BucketFor(ip: string) returns (bucket: nat)
      requires Valid()
      modifies this
      ensures Valid() && bucket == Given(old(View()), ip, old(made))
      ensures View() == Use(old(View()), ip, old(made), Cap(maxEntries))
      ensures made == Made(old(View()), ip, old(made))
    {
      if ip in buckets {
        bucket := Hit(ip);
      } else {
        bucket := Miss(ip);
      }
    }

    method Enter(ip: string) returns (bucket: nat)
      modifies this
      ensures bucket == old(made) && made == old(made) + 1 && nextId == old(nextId) + 1
      ensures Now() == Entered(old(Now()), old(nextId), ip, bucket, maxEntries)
    {
      if |buckets| >= maxEntries && lru != [] {
        var counted := RemoveFirst();
      }
      bucket := made;
      buckets := buckets[ip := made];
      lru := lru + [Node(nextId, ip)];
      lruPos := lruPos[ip := nextId];
      made, nextId := made + 1, nextId + 1;
    }
  }
}
