/** The submission ring of io_uring: 32-bit indices that wrap, slots that are shared with the kernel. */
module UringRing {

  const TWO32 := 0x1_0000_0000

  const FLUSH_MAX_SPIN := 64

  datatype Event = Read | Write

  datatype Poll = Poll(fd: nat, gen: nat, mask: set<Event>)

  datatype Sqe = Add(poll: Poll) | Remove(fd: nat, gen: nat)

  /** Unsigned subtraction of 32-bit numbers. */
  function Minus32(a: nat, b: nat): nat
    requires a < TWO32 && b < TWO32
  {
    if a >= b then a - b else a + TWO32 - b
  }

  /** The remainder of `k` by `d`: what is left of an index in 32 bits (d = 2^32), and its slot in a ring of d
      entries, `k & mask`, where d is a power of two and mask is d - 1. */
  function Slot(k: nat, d: nat): (s: nat)
    requires d > 0
    ensures s < d
    decreases k
  {
    if k < d then k else Slot(k - d, d)
  }

  function Times(n: nat, d: nat): nat {
    if n == 0 then 0 else Times(n - 1, d) + d
  }

  /** Unsigned subtraction of the wrapped indices gives their distance. */
  lemma {:induction false} Wrapped(h: nat, t: nat)
    requires h <= t < h + TWO32
    ensures Minus32(Slot(t, TWO32), Slot(h, TWO32)) == t - h
    decreases h
  {
    if h >= TWO32 {
      Wrapped(h - TWO32, t - TWO32);
    } else if t >= TWO32 {
      assert Slot(t, TWO32) == t - TWO32;
    }
  }

  lemma {:induction false} SlotOfSum(a: nat, b: nat, d: nat)
    requires d > 0
    ensures Slot(Slot(a, d) + b, d) == Slot(a + b, d)
    decreases a
  {
    if a >= d {
      SlotOfSum(a - d, b, d);
    }
  }

  lemma {:induction false} SlotAgain(k: nat, n: nat, d: nat)
    requires d > 0
    ensures Slot(k + Times(n, d), d) == Slot(k, d)
  {
    if n > 0 {
      SlotAgain(k, n - 1, d);
      assert k + Times(n, d) - d == k + Times(n - 1, d);
    }
  }

  /** Wrapping an index at 2^32 does not move it to another slot. */
  lemma {:induction false} SameSlot(k: nat, turns: nat, d: nat)
    requires d > 0 && Times(turns, d) == TWO32
    ensures Slot(Slot(k, TWO32), d) == Slot(k, d)
    decreases k
  {
    if k >= TWO32 {
      SameSlot(k - TWO32, turns, d);
      SlotAgain(k - TWO32, turns, d);
    }
  }

  /** Indices that are less than the size of the ring apart have different slots. */
  lemma {:induction false} OtherSlot(a: nat, b: nat, d: nat)
    requires d > 0 && a < b < a + d
    ensures Slot(a, d) != Slot(b, d)
    decreases a
  {
    if a >= d {
      OtherSlot(a - d, b - d, d);
    }
  }

  class Ring {
    var head: nat
    var tail: nat
    /** A power of two. */
    const entries: nat
    ghost const turns: nat
    const sqes: array<Sqe>
    const sqArray: array<nat>
    var toSubmit: nat
    /** What was submitted and not consumed yet, as the kernel knows it. */
    var pending: seq<Sqe>
    /** The indices without their wrapping. */
    ghost var h: nat
    ghost var t: nat

    ghost predicate Valid()
      reads this, sqes, sqArray
    {
      && 0 < entries < TWO32 && Times(turns, entries) == TWO32 && sqes.Length == sqArray.Length == entries && sqes as object != sqArray
      && head == Slot(h, TWO32) && tail == Slot(t, TWO32) && t == h + |pending| && |pending| == toSubmit <= entries
      && forall i | 0 <= i < |pending| :: Holds(h + i, pending[i])
    }

    /** The kernel finds `s` at the index `k`. */
    ghost predicate Holds(k: nat, s: Sqe)
      requires entries > 0 && sqes.Length == sqArray.Length == entries
      reads sqes, sqArray
    {
      sqArray[Slot(k, entries)] == Slot(k, entries) && sqes[Slot(k, entries)] == s
    }

    constructor (entries: nat, ghost turns: nat)
      requires 0 < entries < TWO32 && Times(turns, entries) == TWO32
      ensures Valid() && pending == [] && this.entries == entries && fresh(sqes) && fresh(sqArray)
    {
      this.entries, this.turns, head, tail, toSubmit, h, t, pending := entries, turns, 0, 0, 0, 0, 0, [];
      sqes := new Sqe[entries];
      sqArray := new nat[entries];
    }

    /** What the next sqe slot is; -1 when the ring is full. iouring_sqe_try. */
    method SqeTry() returns (slot: int)
      requires Valid()
      ensures slot == if |pending| < entries then Slot(t, entries) else -1
    {
      Wrapped(h, t);
      SameSlot(t, turns, entries);
      if Minus32(tail, head) >= entries { return -1; }
      slot := Slot(tail, entries);
    }

    /** iouring_account_consumed. */
    method AccountConsumed(consumed: nat)
      modifies this`toSubmit
      ensures toSubmit == if consumed >= old(toSubmit) then 0 else old(toSubmit) - consumed
    {
      if consumed >= toSubmit {
        toSubmit := 0;
      } else {
        toSubmit := toSubmit - consumed;
      }
    }

    /** iouring_enter_submit: the kernel consumes at least one entry, from the head on; otherwise the loop gives up. */
    method EnterSubmit() returns (r: nat)
      requires Valid() && toSubmit > 0
      modifies this`head, this`toSubmit, this`h, this`pending
      ensures Valid() && 0 < r <= |old(pending)| && pending == old(pending)[r..]
    {
      r :| 0 < r <= toSubmit;
      SlotOfSum(h, r, TWO32);
      head := Slot(head + r, TWO32);
      h, pending := h + r, pending[r..];
      forall i | 0 <= i < |pending| ensures Holds(h + i, pending[i]) {
        assert old(Holds(h + (r + i), pending[r + i]));
      }
      AccountConsumed(r);
    }

    /** iouring_sq_flush. */
    method Flush() returns (r: nat)
      requires Valid()
      modifies this`head, this`toSubmit, this`h, this`pending
      ensures Valid() && r <= |old(pending)| && pending == old(pending)[r..] && (old(pending) != [] ==> r > 0)
    {
      r := 0;
      if toSubmit != 0 {
        r := EnterSubmit();
      }
    }

    /** iouring_get_sqe: the second try succeeds, whatever was queued. */
    method GetSqe() returns (slot: nat, r: nat, tries: nat)
      requires Valid()
      modifies this`head, this`toSubmit, this`h, this`pending
      ensures Valid() && r <= |old(pending)| && pending == old(pending)[r..] && |pending| < entries
      ensures slot == Slot(t, entries) && tries <= 2 && (|old(pending)| < entries ==> r == 0 && tries == 1)
    {
      var spin := 0;
      r := 0;
      while spin < FLUSH_MAX_SPIN
        invariant 0 <= spin <= 1 && Valid() && r <= |old(pending)| && pending == old(pending)[r..]
        invariant if spin == 0 then r == 0 else |pending| < entries == |old(pending)|
      {
        var sqe := SqeTry();
        if sqe >= 0 {
          return sqe, r, spin + 1;
        }
        var more := Flush();
        r := r + more;
        spin := spin + 1;
      }
      assert false;
    }

    /** The next slot is none that the kernel has not consumed yet. */
    lemma FreeSlot()
      requires Valid() && |pending| < entries
      ensures forall k | h <= k < t :: Slot(k, entries) != Slot(t, entries)
    {
      forall k | h <= k < t ensures Slot(k, entries) != Slot(t, entries) {
        OtherSlot(k, t, entries);
      }
    }

    /** The caller fills the slot that GetSqe found. */
    method Fill(slot: nat, s: Sqe)
      requires Valid() && |pending| < entries && slot == Slot(t, entries)
      modifies sqes
      ensures Valid() && sqes[slot] == s
    {
      FreeSlot();
      sqes[slot] := s;
      forall i | 0 <= i < |pending| ensures Holds(h + i, pending[i]) {
        assert old(Holds(h + i, pending[i]));
      }
    }

    /** submit_sqe publishes the slot: what the kernel has not consumed stays intact, and one entry is added. */
    method Submit()
      requires Valid() && |pending| < entries
      modifies this`tail, this`toSubmit, this`t, this`pending, sqArray
      ensures Valid() && pending == old(pending) + [sqes[Slot(old(t), entries)]]
    {
      SameSlot(t, turns, entries);
      FreeSlot();
      var index := Slot(tail, entries);
      sqArray[index] := index;
      SlotOfSum(t, 1, TWO32);
      tail := Slot(tail + 1, TWO32);
      forall i | 0 <= i < |pending| ensures Holds(h + i, pending[i]) {
        assert old(Holds(h + i, pending[i]));
      }
      assert Holds(h + |pending|, sqes[index]);
      t, pending := t + 1, pending + [sqes[index]];
      toSubmit := toSubmit + 1;
    }
  }
}
