/** The ring as `spsc_ring.c` keeps it: a caller's slot array and two wrapping counters, updated
    in place. The contracts are those of an uninterrupted call; `Ring` covers interleavings. */
module SpscRing {
  import opened Words
  import opened Ring

  /** The items of pushes `from` to `to`, in a ring with these slots. */
  ghost function Window(slots: seq<Ptr>, from: nat, to: nat): (q: seq<Ptr>)
    requires |slots| > 0 && from <= to
    ensures |q| == to - from
  {
    seq(to - from, i requires 0 <= i < to - from => slots[(from + i) % |slots|])
  }

  lemma WindowPush(slots: seq<Ptr>, from: nat, to: nat, item: Ptr)
    requires 0 < |slots| && from <= to < from + |slots|
    ensures Window(slots[to % |slots| := item], from, to + 1) == Window(slots, from, to) + [item]
  {
    forall i | 0 <= i < to - from
      ensures Window(slots[to % |slots| := item], from, to + 1)[i] == Window(slots, from, to)[i]
    {
      SlotsDiffer(from + i, to, |slots|);
    }
  }

  lemma WindowPop(slots: seq<Ptr>, from: nat, to: nat)
    requires 0 < |slots| && from < to
    ensures Window(slots, from, to) == [slots[from % |slots|]] + Window(slots, from + 1, to)
  {
  }

  class SpscRing {
    const slots: array<Ptr>
    const mask: Word
    var head: Word
    var tail: Word

    /** All pushes and pops so far, without wrap-around. */
    ghost var pushes: nat
    ghost var pops: nat

    ghost predicate Valid()
      reads this, slots
    {
      && slots.Length == mask + 1 < TWO64 && TWO64 % slots.Length == 0
      && (exists k: nat :: slots.Length == Pow2(k))
      && head == Wrap(pushes) && tail == Wrap(pops)
      && pops <= pushes <= pops + slots.Length
    }

    /** The items in the ring, oldest first. */
    ghost function Contents(): (q: seq<Ptr>)
      requires Valid()
      reads this, slots
      ensures |q| == pushes - pops
    {
      Window(slots[..], pops, pushes)
    }

    /** `spsc_ring_init`; its assertion is the precondition on `capacity`. */
    constructor (slots: array<Ptr>, capacity: nat)
      requires 0 < capacity == slots.Length < TWO64 && And(capacity, capacity - 1) == 0
      ensures Valid() && Contents() == [] && this.slots == slots
    {
      this.slots := slots;
      this.mask := capacity - 1;
      head, tail := 0, 0;
      pushes, pops := 0, 0;
      new;
      PowerOfTwoTest(capacity);
      PowerBelowWord(capacity);
    }

    /** Appends the item, or refuses exactly when the ring is full. */
    method Push(item: Ptr) returns (ok: bool)
      requires Valid()
      modifies this`head, this`pushes, slots
      ensures Valid()
      ensures ok <==> |old(Contents())| < slots.Length
      ensures Contents() == if ok then old(Contents()) + [item] else old(Contents())
    {
      var h, t := head, tail;
      CountersDifference(pushes, pops, slots.Length);
      if WordSub(h, t) >= mask + 1 {
        return false;
      }
      MaskCount(pushes, slots.Length);
      WindowPush(slots[..], pops, pushes, item);
      slots[And(h, mask)] := item;
      assert slots[..] == old(slots[..])[pushes % slots.Length := item];
      head := WordAdd(h, 1);
      Increment(pushes);
      pushes := pushes + 1;
      ok := true;
    }

    /** Removes and returns the oldest item, or returns NULL exactly when the ring is empty. */
    method Pop() returns (item: Ptr)
      requires Valid()
      modifies this`tail, this`pops
      ensures Valid()
      ensures old(Contents()) == [] ==> item == NULL && Contents() == []
      ensures old(Contents()) != [] ==> item == old(Contents())[0] && Contents() == old(Contents())[1..]
    {
      var t, h := tail, head;
      CountersDifference(pushes, pops, slots.Length);
      if t == h {
        return NULL;
      }
      MaskCount(pops, slots.Length);
      WindowPop(slots[..], pops, pushes);
      item := slots[And(t, mask)];
      tail := WordAdd(t, 1);
      Increment(pops);
      pops := pops + 1;
    }

    /** `spsc_ring_size` */
    method Size() returns (n: Word)
      requires Valid()
      ensures n == |Contents()|
    {
      CountersDifference(pushes, pops, slots.Length);
      n := WordSub(head, tail);
    }

    /** `spsc_ring_empty` */
    method Empty() returns (b: bool)
      requires Valid()
      ensures b <==> Contents() == []
    {
      var n := Size();
      b := n == 0;
    }
  }

  lemma PowerBelowWord(c: nat)
    requires 0 < c < TWO64 && exists k: nat :: c == Pow2(k)
    ensures TWO64 % c == 0
  {
    var k: nat :| c == Pow2(k);
    Pow2Of64();
    if k > 64 { Pow2Divides(64, k); }
    Pow2Divides(k, 64);
  }
}
