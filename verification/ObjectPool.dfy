/** A pool of equal slots cut from chunks: a stack of the idle ones and the set of their
    hash keys, which is how a second release of a slot is recognised. */
module ObjectPool {
  function Pow2(n: nat): (p: nat)
    ensures p > 0
  {
    if n == 0 then 1 else 2 * Pow2(n - 1)
  }

  /** The whole part of the logarithm. */
  function Log2(n: nat): nat {
    if n < 2 then 0 else 1 + Log2(n / 2)
  }

  /** The size of a slot: that of the object rounded up to sixteen. */
  function SlotSize(objectSize: nat): nat { (objectSize + 15) / 16 * 16 }

  function Shift(objectSize: nat): nat { Log2(1 + SlotSize(objectSize)) }

  /** The address without its lowest `shift` bits. */
  function HashKey(address: nat, shift: nat): nat {
    if shift == 0 then address else HashKey(address / 2, shift - 1)
  }

  lemma {:induction false} Log2Meaning(n: nat)
    requires n > 0
    ensures Pow2(Log2(n)) <= n < 2 * Pow2(Log2(n))
    decreases n
  {
    if n >= 2 {
      Log2Meaning(n / 2);
    }
  }

  /** A key covers no more than one slot. */
  lemma ShiftFits(objectSize: nat)
    requires objectSize > 0
    ensures Pow2(Shift(objectSize)) <= SlotSize(objectSize)
  {
    var q := (objectSize + 15) / 16;
    assert SlotSize(objectSize) == 16 * q && q > 0;
    assert Shift(objectSize) == 1 + Log2(8 * q);
    Log2Meaning(8 * q);
  }

  lemma {:induction false} FartherIsLater(a: nat, b: nat, shift: nat)
    requires a + Pow2(shift) <= b
    ensures HashKey(a, shift) < HashKey(b, shift)
    decreases shift
  {
    if shift > 0 {
      FartherIsLater(a / 2, b / 2, shift - 1);
    }
  }

  /** Slots at least a slot's size apart have different keys. */
  lemma KeysDiffer(a: nat, b: nat, objectSize: nat)
    requires objectSize > 0 && a != b
    requires a + SlotSize(objectSize) <= b || b + SlotSize(objectSize) <= a
    ensures HashKey(a, Shift(objectSize)) != HashKey(b, Shift(objectSize))
  {
    ShiftFits(objectSize);
    if a < b {
      FartherIsLater(a, b, Shift(objectSize));
    } else {
      FartherIsLater(b, a, Shift(objectSize));
    }
  }

  /** With a key that covers more than a slot, two neighbours can share it. */
  lemma {:induction false} WideKeysCollide(size: nat, shift: nat)
    requires size < Pow2(shift)
    ensures HashKey(size, shift) == HashKey(0, shift) == 0
    decreases shift
  {
    if shift > 0 {
      WideKeysCollide(size / 2, shift - 1);
    }
  }

  /** The slots of a chunk, in order. */
  function SlotsFrom(base: nat, size: nat, n: nat): seq<nat>
    decreases n
  {
    if n == 0 then [] else [base] + SlotsFrom(base + size, size, n - 1)
  }

  predicate Apart(a: nat, b: nat, size: nat) { a + size <= b || b + size <= a }

  predicate Spread(slots: seq<nat>, size: nat) {
    forall i, j :: 0 <= i < j < |slots| ==> Apart(slots[i], slots[j], size)
  }

  lemma Times(n: nat, size: nat)
    requires n > 0
    ensures n * size == size + (n - 1) * size && (n - 1) * size >= 0
  {
  }

  lemma {:induction false} SlotsSpread(base: nat, size: nat, n: nat)
    ensures Spread(SlotsFrom(base, size, n), size) && |SlotsFrom(base, size, n)| == n
    ensures forall a :: a in SlotsFrom(base, size, n) ==> base <= a && a + size <= base + n * size
    decreases n
  {
    if n > 0 {
      Times(n, size);
      SlotsSpread(base + size, size, n - 1);
      var rest := SlotsFrom(base + size, size, n - 1);
      forall j | 0 <= j < |rest| ensures base + size <= rest[j] {
        assert rest[j] in rest;
      }
    }
  }

  lemma SpreadConcat(a: seq<nat>, b: seq<nat>, size: nat)
    requires Spread(a, size) && Spread(b, size)
    requires forall x, y :: x in a && y in b ==> Apart(x, y, size)
    ensures Spread(a + b, size)
  {
    forall i, j | 0 <= i < j < |a + b| ensures Apart((a + b)[i], (a + b)[j], size) {
      if i < |a| <= j {
        assert a[i] in a && b[j - |a|] in b;
      }
    }
  }

  function Keys(slots: seq<nat>, shift: nat): set<nat> { set a | a in slots :: HashKey(a, shift) }

  /** A key among those of some slots belongs to one of them. */
  lemma KeyInSlots(all: seq<nat>, idle: seq<nat>, a: nat, objectSize: nat)
    requires objectSize > 0 && Spread(all, SlotSize(objectSize)) && a in all
    requires forall x :: x in idle ==> x in all
    ensures HashKey(a, Shift(objectSize)) in Keys(idle, Shift(objectSize)) <==> a in idle
  {
    if HashKey(a, Shift(objectSize)) in Keys(idle, Shift(objectSize)) {
      var b :| b in idle && HashKey(b, Shift(objectSize)) == HashKey(a, Shift(objectSize));
      if a != b {
        ApartInSpread(all, a, b, SlotSize(objectSize));
        KeysDiffer(a, b, objectSize);
      }
    }
  }

  lemma ApartInSpread(all: seq<nat>, a: nat, b: nat, size: nat)
    requires Spread(all, size) && a in all && b in all && a != b
    ensures Apart(a, b, size)
  {
    var i :| 0 <= i < |all| && all[i] == a;
    var j :| 0 <= j < |all| && all[j] == b;
  }

  lemma KeysPush(idle: seq<nat>, a: nat, shift: nat)
    ensures Keys(idle + [a], shift) == Keys(idle, shift) + {HashKey(a, shift)}
  {
    assert forall x :: x in idle + [a] <==> x in idle || x == a;
  }

  /** Taking the top off the stack takes its key out of the set, and no other. */
  lemma KeysPop(all: seq<nat>, front: seq<nat>, a: nat, objectSize: nat)
    requires objectSize > 0 && Spread(all, SlotSize(objectSize)) && a in all && a !in front
    requires forall x :: x in front ==> x in all
    ensures Keys(front + [a], Shift(objectSize)) - {HashKey(a, Shift(objectSize))} == Keys(front, Shift(objectSize))
  {
    KeysPush(front, a, Shift(objectSize));
    KeyInSlots(all, front, a, objectSize);
  }

  lemma SpreadDistinct(slots: seq<nat>, size: nat)
    requires Spread(slots, size) && size > 0
    ensures Distinct(slots)
  {
    assert forall i, j :: 0 <= i < j < |slots| ==> Apart(slots[i], slots[j], size);
  }

  predicate Distinct(s: seq<nat>) { forall i, j :: 0 <= i < j < |s| ==> s[i] != s[j] }

  class Pool {
    const objectSize: nat
    const chunkSize: nat
    const shift: nat
    var chunks: seq<nat>
    var idles: seq<nat>
    var idleKeys: set<nat>
    /** What is in the memory of each slot; nothing but zeroes is 0. */
    var memory: map<nat, int>
    ghost var slots: seq<nat>

    /** Every idle slot is on the stack once and its key in the set, and it is cleared. */
    ghost predicate Valid()
      reads this
    {
      && objectSize > 0 && chunkSize >= 4 && shift == Shift(objectSize)
      && Spread(slots, SlotSize(objectSize)) && Distinct(idles)
      && (forall a :: a in idles ==> a in slots)
      && idleKeys == Keys(idles, shift)
      && (forall a :: a in slots <==> a in memory)
      && (forall a :: a in idles ==> memory[a] == 0)
    }

    ghost predicate Outstanding(a: nat)
      reads this
    {
      a in slots && a !in idles
    }

    constructor (objectSize: nat, chunkSize: nat)
      requires objectSize > 0
      ensures Valid() && idles == [] && slots == [] && this.objectSize == objectSize
      ensures this.chunkSize == if chunkSize < 4 then 4 else chunkSize
    {
      this.objectSize := objectSize;
      this.chunkSize := if chunkSize < 4 then 4 else chunkSize;
      shift := Shift(objectSize);
      chunks, idles, idleKeys, memory, slots := [], [], {}, map[], [];
    }

    /** Every slot of a chunk goes on the stack. */
    method PushAll(base: nat, ghost more: seq<nat>)
      requires more == SlotsFrom(base, SlotSize(objectSize), chunkSize)
      requires idles == [] && idleKeys == {}
      modifies this`idles, this`idleKeys
      ensures idles == more && idleKeys == Keys(idles, shift)
    {
      var ptr: nat := base;
      assert Keys(idles, shift) == {} && [] + more == more;
      for i := 0 to chunkSize
        invariant idles + SlotsFrom(ptr, SlotSize(objectSize), chunkSize - i) == more
        invariant idleKeys == Keys(idles, shift)
      {
        ghost var rest := SlotsFrom(ptr + SlotSize(objectSize), SlotSize(objectSize), chunkSize - i - 1);
        assert idles + ([ptr] + rest) == (idles + [ptr]) + rest;
        KeysPush(idles, ptr, shift);
        idleKeys := idleKeys + {HashKey(ptr, shift)};
        idles := idles + [ptr];
        ptr := ptr + SlotSize(objectSize);
      }
      assert idles + [] == idles;
    }

    /** A new chunk at `base`, where no chunk is, all of it cleared and idle. */
    method Grow(base: nat)
      requires Valid() && idles == []
      requires forall a :: a in slots ==>
                 a + SlotSize(objectSize) <= base || base + chunkSize * SlotSize(objectSize) <= a
      modifies this
      ensures Valid() && idles == SlotsFrom(base, SlotSize(objectSize), chunkSize)
      ensures slots == old(slots) + idles && idles != []
      ensures forall a :: a in old(slots) ==> a !in idles && memory[a] == old(memory)[a]
    {
      var size := SlotSize(objectSize);
      var more := SlotsFrom(base, size, chunkSize);
      SlotsSpread(base, size, chunkSize);
      SpreadConcat(slots, more, size);
      SpreadDistinct(more, size);
      chunks := chunks + [base];
      memory := memory + (map a | a in more :: 0);
      assert Keys([], shift) == {};
      PushAll(base, more);
      slots := slots + more;
    }

    /** A slot for the caller: idle before, outstanding after, and cleared. */
    method Apply(base: nat) returns (obj: nat)
      requires Valid()
      requires idles == [] ==> forall a :: a in slots ==>
                 a + SlotSize(objectSize) <= base || base + chunkSize * SlotSize(objectSize) <= a
      modifies this
      ensures Valid() && Outstanding(obj) && memory[obj] == 0
      ensures !old(Outstanding(obj))
      ensures forall a :: old(Outstanding(a)) ==> Outstanding(a) && memory[a] == old(memory)[a]
      ensures forall a :: Outstanding(a) ==> a == obj || old(Outstanding(a))
    {
      if idles == [] {
        Grow(base);
      }
      ghost var front, was := idles[..|idles| - 1], idles;
      obj := idles[|idles| - 1];
      idles := idles[..|idles| - 1];
      KeysPop(slots, front, obj, objectSize);
      assert was == front + [obj];
      idleKeys := idleKeys - {HashKey(obj, shift)};
    }

    /** A slot comes back and is cleared; one that is idle already stays as it is. */
    method Release(obj: nat)
      requires Valid() && obj in slots
      modifies this
      ensures Valid() && slots == old(slots) && obj in idles
      ensures !old(Outstanding(obj)) ==> idles == old(idles) && idleKeys == old(idleKeys) && memory == old(memory)
      ensures old(Outstanding(obj)) ==> idles == old(idles) + [obj] && memory == old(memory)[obj := 0]
    {
      KeyInSlots(slots, idles, obj, objectSize);
      if HashKey(obj, shift) !in idleKeys {
        KeysPush(idles, obj, shift);
        idleKeys := idleKeys + {HashKey(obj, shift)};
        memory := memory[obj := 0];
        idles := idles + [obj];
      }
    }

    /** The caller writes to a slot it holds. */
    method Write(obj: nat, content: int)
      requires Valid() && Outstanding(obj)
      modifies this
      ensures Valid() && slots == old(slots) && idles == old(idles) && memory == old(memory)[obj := content]
    {
      memory := memory[obj := content];
    }
  }
}
