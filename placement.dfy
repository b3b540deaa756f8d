/*
 * Where a future goes: the fit test both `dynamic_dispatch` functions run
 * against their 64-byte stack array, and the decision built on it.
 */
module Placement {
  import opened Layouts

  /** Length of the `[0u8; 64]` array the dispatchers reserve on the stack. */
  const FUT_STACK_SIZE: nat := 64

  /** `start.wrapping_add(start.align_offset(layout.align()))`. */
  function Slot(start: Addr, l: Layout): Addr
    requires l.align > 0
  {
    WrappingAdd(start, AlignOffset(start, l.align))
  }

  /** `slot.wrapping_add(layout.size())`. */
  function SlotEnd(start: Addr, l: Layout): Addr
    requires l.align > 0
  {
    WrappingAdd(Slot(start, l), l.size)
  }

  /** `start.wrapping_add(64)`. */
  function BufferEnd(start: Addr): Addr
  {
    WrappingAdd(start, FUT_STACK_SIZE)
  }

  /** The buffer lies inside the address space: its one-past-the-end address does not wrap. */
  predicate BufferInAddressSpace(start: nat)
  {
    start + FUT_STACK_SIZE < WORD
  }

  /** The address `a` is one of the 64 bytes of the buffer at `start`. */
  predicate InBuffer(a: nat, start: nat)
  {
    start <= a < start + FUT_STACK_SIZE
  }

  /** The `n` bytes at `p` lie wholly before or wholly after the buffer at `start`. */
  predicate OutsideBuffer(p: nat, n: nat, start: nat)
  {
    p + n <= start || start + FUT_STACK_SIZE <= p
  }

  /**
   * Some address of the buffer at `start` is aligned for `l` and leaves
   * `l.size` bytes before the end of the buffer.
   */
  ghost predicate HasAlignedRoom(start: nat, l: Layout)
    requires l.align > 0
  {
    exists q :: start <= q && q + l.size <= start + FUT_STACK_SIZE && IsAligned(q, l.align)
  }

  /**
   * The fit test as both dispatchers write it: `slot >= start && slot_end <= end`.
   * It accepts everything the corrected test accepts, and accepts more only
   * where the value would run past the end of the address space, so that
   * `slot_end` wraps.
   */
  predicate FitsAsWritten(start: Addr, l: Layout): (b: bool)
    requires l.align > 0
    ensures Fits(start, l) ==> b
    ensures b && !Fits(start, l) ==> Slot(start, l) + l.size >= WORD
  {
    start <= Slot(start, l) && SlotEnd(start, l) <= BufferEnd(start)
  }

  /** The fit test with the wrap of `slot_end` past `usize::MAX` ruled out as well. */
  predicate Fits(start: Addr, l: Layout)
    requires l.align > 0
  {
    start <= Slot(start, l) <= SlotEnd(start, l) <= BufferEnd(start)
  }

  /**
   * The corrected fit test accepts exactly when some aligned offset leaves
   * room for the value, and then its slot is the least aligned address of
   * the buffer, with the whole value `[slot, slot + size)` inside it.
   */
  lemma FitsIffAlignedRoom(start: Addr, l: Layout)
    requires ValidLayout(l) && BufferInAddressSpace(start)
    ensures Fits(start, l) <==> HasAlignedRoom(start, l)
    ensures Fits(start, l) ==>
              && Slot(start, l) == start + AlignOffset(start, l.align)
              && Slot(start, l) + l.size <= start + FUT_STACK_SIZE
              && IsAligned(Slot(start, l), l.align)
              && (forall q :: start <= q < Slot(start, l) ==> !IsAligned(q, l.align))
  {
    ValidLayoutBounds(l);
    var off := AlignOffset(start, l.align);
    assert BufferEnd(start) == start + FUT_STACK_SIZE;
    if off + l.size <= FUT_STACK_SIZE {
      assert Slot(start, l) == start + off;
      assert SlotEnd(start, l) == start + off + l.size;
      assert IsAligned(start + off, l.align);
    } else {
      if start + off < WORD {
        assert Slot(start, l) == start + off;
        assert !Fits(start, l);
      } else {
        assert Slot(start, l) < start;
      }
    }
  }

  /** A value whose size exceeds the buffer never passes the corrected fit test. */
  lemma OversizedNeverFits(start: Addr, l: Layout)
    requires ValidLayout(l) && BufferInAddressSpace(start)
    requires l.size > FUT_STACK_SIZE
    ensures !Fits(start, l)
  {
    FitsIffAlignedRoom(start, l);
  }

  /**
   * A value with `size + align - 1 <= 64` passes the corrected fit test
   * wherever the buffer lies.
   */
  lemma SmallLayoutAlwaysFits(start: Addr, l: Layout)
    requires ValidLayout(l) && BufferInAddressSpace(start)
    requires l.size + l.align - 1 <= FUT_STACK_SIZE
    ensures Fits(start, l)
  {
    FitsIffAlignedRoom(start, l);
    assert IsAligned(start + AlignOffset(start, l.align), l.align);
  }

  /**
   * The as-written test of stable-pin-init.rs, which has no size check,
   * accepts a layout of 2^46 bytes (a size rustc allows for a type on
   * 64-bit targets) for a buffer in the top 2^46 bytes of the address
   * space: `slot_end` wraps to 0, below `end`.
   */
  lemma StableFitAsWrittenAcceptsOversized()
    ensures var start: Addr := 0xFFFF_C000_0000_0000;
            var l := Layout(0x4000_0000_0000, 1);
            && ValidLayout(l) && BufferInAddressSpace(start)
            && FitsAsWritten(start, l) && !HasAlignedRoom(start, l) && !Fits(start, l)
  {
    var start: Addr := 0xFFFF_C000_0000_0000;
    var l := Layout(0x4000_0000_0000, 1);
    assert AlignOffset(start, 1) == 0;
    assert SlotEnd(start, l) == 0;
  }

  /**
   * Even behind main.rs's `size > 64` check, the as-written test accepts a
   * 64-byte, 64-aligned value for a buffer that ends at `usize::MAX`: the
   * slot is one byte in, and `slot_end` wraps to 0.
   */
  lemma NightlyFitAsWrittenAcceptsWrappedEnd()
    ensures var start: Addr := WORD - 65;
            var l := Layout(64, 64);
            && ValidLayout(l) && BufferInAddressSpace(start) && l.size <= FUT_STACK_SIZE
            && FitsAsWritten(start, l) && !HasAlignedRoom(start, l) && !Fits(start, l)
  {
    var start: Addr := WORD - 65;
    var l := Layout(64, 64);
    assert IsPowerOfTwo(2) && IsPowerOfTwo(4) && IsPowerOfTwo(8) && IsPowerOfTwo(16) && IsPowerOfTwo(32);
    assert start % 64 == 63;
    assert AlignOffset(start, 64) == 1;
    assert SlotEnd(start, l) == 0;
    forall q | start <= q && q + l.size <= start + FUT_STACK_SIZE
      ensures !IsAligned(q, l.align)
    {
      assert q == start;
    }
  }

  /** How a dispatcher places a future. */
  datatype Route = TooLarge | NoAlignedFit | OnStack(slot: Addr)

  /**
   * The decision of stable-pin-init.rs's `dynamic_dispatch` (with the
   * corrected fit test): the stack slot when the value fits, the heap
   * otherwise.
   */
  function StableRoute(start: Addr, l: Layout): (r: Route)
    requires ValidLayout(l) && BufferInAddressSpace(start)
    ensures !r.TooLarge?
    ensures r.OnStack? <==> HasAlignedRoom(start, l)
    ensures r.OnStack? ==>
              && r.slot == start + AlignOffset(start, l.align)
              && r.slot + l.size <= start + FUT_STACK_SIZE
              && IsAligned(r.slot, l.align)
              && (forall q :: start <= q < r.slot ==> !IsAligned(q, l.align))
  {
    FitsIffAlignedRoom(start, l);
    if Fits(start, l) then OnStack(Slot(start, l)) else NoAlignedFit
  }

  /**
   * The three-way decision of main.rs's `dynamic_dispatch` (with the
   * corrected fit test): too large for the buffer, no aligned fit, or the
   * stack slot.
   */
  function NightlyRoute(start: Addr, l: Layout): (r: Route)
    requires ValidLayout(l) && BufferInAddressSpace(start)
    ensures r.TooLarge? <==> l.size > FUT_STACK_SIZE
    ensures r.NoAlignedFit? <==> l.size <= FUT_STACK_SIZE && !HasAlignedRoom(start, l)
    ensures r.OnStack? ==>
              && r.slot == start + AlignOffset(start, l.align)
              && r.slot + l.size <= start + FUT_STACK_SIZE
              && IsAligned(r.slot, l.align)
              && (forall q :: start <= q < r.slot ==> !IsAligned(q, l.align))
  {
    FitsIffAlignedRoom(start, l);
    if l.size > FUT_STACK_SIZE then TooLarge
    else if !Fits(start, l) then NoAlignedFit
    else OnStack(Slot(start, l))
  }

  /**
   * The two files place every future alike: the size check of main.rs
   * only names a reason for a heap placement the fit test would make
   * anyway.
   */
  lemma RoutesAgree(start: Addr, l: Layout)
    requires ValidLayout(l) && BufferInAddressSpace(start)
    ensures StableRoute(start, l).OnStack? <==> NightlyRoute(start, l).OnStack?
    ensures StableRoute(start, l).OnStack? ==> StableRoute(start, l) == NightlyRoute(start, l)
  {
    if l.size > FUT_STACK_SIZE {
      OversizedNeverFits(start, l);
    }
  }

  /** An 8-byte, 4-aligned future in a 4-aligned buffer goes at the start of the buffer. */
  lemma SmallAlignedFutureAtStart(start: Addr)
    requires BufferInAddressSpace(start) && IsAligned(start, 4)
    ensures ValidLayout(Layout(8, 4))
    ensures StableRoute(start, Layout(8, 4)) == OnStack(start)
    ensures NightlyRoute(start, Layout(8, 4)) == OnStack(start)
  {
    assert IsPowerOfTwo(2) && IsPowerOfTwo(4);
    assert AlignOffset(start, 4) == 0;
    SmallLayoutAlwaysFits(start, Layout(8, 4));
  }

  /** A 100-byte future never goes in the buffer: too large for main.rs, no fit for stable-pin-init.rs. */
  lemma HundredByteFutureOnHeap(start: Addr)
    requires BufferInAddressSpace(start)
    ensures ValidLayout(Layout(100, 8))
    ensures NightlyRoute(start, Layout(100, 8)) == TooLarge
    ensures StableRoute(start, Layout(100, 8)) == NoAlignedFit
  {
    assert IsPowerOfTwo(2) && IsPowerOfTwo(4) && IsPowerOfTwo(8);
    OversizedNeverFits(start, Layout(100, 8));
  }
}
