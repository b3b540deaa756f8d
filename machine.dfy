/*
 * The memory the futures live in: blocks handed out by the global
 * allocator, the futures constructed and not yet destroyed, and the
 * sequence of memory events, in the order they happen.
 */
module Machine {
  import opened Layouts
  import opened Placement

  /** The output of a future: the demos return `()`, a `String` or a `&str`. */
  datatype Item = Unit | Text(s: string)

  /** `std::task::Poll<Item>`. */
  datatype PollResult = Pending | Ready(item: Item)

  /** The arguments an async trait method captures: the receiver's address and the `String` argument. */
  datatype Args = Args(receiver: Addr, arg: string)

  /**
   * What a call of an async fn does when polled: it answers `Pending`
   * `pending` times, then is ready with `output`.
   */
  datatype Behaviour = Behaviour(pending: nat, output: Item)

  /**
   * A concrete future type `Fut`, the anonymous type of one async fn:
   * `Layout::new::<Fut>()`, and what a call of the fn on given arguments does.
   */
  datatype FutureType = FutureType(layout: Layout, run: Args -> Behaviour)

  /** One step of `Future::poll` on a future whose remaining behaviour is `b`: its answer. */
  function Progress(b: Behaviour): PollResult
  {
    if b.pending == 0 then Ready(b.output) else Pending
  }

  /** One step of `Future::poll` on a future whose remaining behaviour is `b`: what remains afterwards. */
  function Advance(b: Behaviour): Behaviour
  {
    if b.pending == 0 then b else b.(pending := b.pending - 1)
  }

  /**
   * The future of an async fn with layout `l` that returns `()` and is
   * ready on its first poll, whatever its arguments.
   */
  function ReadyWithUnit(l: Layout): FutureType
  {
    FutureType(l, (a: Args) => Behaviour(0, Unit))
  }

  /** What happens to memory, in order. */
  datatype Event =
    | Allocated(addr: Addr, layout: Layout)    // `std::alloc::alloc` returned `addr`
    | Constructed(addr: Addr, layout: Layout)  // a future was written at `addr`
    | Polled(addr: Addr, result: PollResult)   // the future at `addr` was polled
    | Destroyed(addr: Addr)                    // the destructor of the future at `addr` ran
    | Deallocated(addr: Addr, layout: Layout)  // `std::alloc::dealloc(addr, layout)`

  /** The layouts futures have here: valid, and not zero-sized. */
  predicate ObjectLayout(l: Layout)
  {
    ValidLayout(l) && l.size > 0
  }

  /** A value of layout `l` may live at `p`: non-null, aligned, and not running off the end of the address space. */
  predicate Placeable(p: Addr, l: Layout)
  {
    ObjectLayout(l) && p != 0 && IsAligned(p, l.align) && p + l.size < WORD
  }

  /** Every block is non-null and does not run off the end of the address space. */
  ghost predicate BlocksInAddressSpace(heap: map<Addr, Layout>)
  {
    forall p | p in heap :: p != 0 && p + heap[p].size < WORD
  }

  /** The future at `p` may live there. */
  ghost predicate PlacedAt(live: map<Addr, FutureType>, p: Addr)
    requires p in live
  {
    Placeable(p, live[p].layout)
  }

  /** The futures at `p` and `q` do not overlap. */
  ghost predicate Apart(live: map<Addr, FutureType>, p: Addr, q: Addr)
    requires p in live && q in live
  {
    p + live[p].layout.size <= q || q + live[q].layout.size <= p
  }

  /**
   * Every future may live where it lies, and no two futures overlap. The
   * triggers keep these facts out of proofs that do not ask for them.
   */
  ghost predicate WellPlaced(live: map<Addr, FutureType>)
  {
    && (forall p {:trigger PlacedAt(live, p)} | p in live :: PlacedAt(live, p))
    && (forall p, q {:trigger Apart(live, p, q)} | p in live && q in live && p != q :: Apart(live, p, q))
  }

  class Memory {
    /** Blocks of the global allocator not yet freed, with the layout each was allocated with. */
    var heap: map<Addr, Layout>
    /** Futures constructed and not yet destroyed: their address and type. */
    var live: map<Addr, FutureType>
    /** What remains of each live future's behaviour: the polls still to answer `Pending`, and its output. */
    var progress: map<Addr, Behaviour>
    /** Everything that happened to memory, in order. */
    var trace: seq<Event>

    ghost predicate Valid()
      reads this
    {
      BlocksInAddressSpace(heap) && WellPlaced(live) && progress.Keys == live.Keys
    }

    /** No live future overlaps the `n` bytes at `p`. */
    ghost predicate Vacant(p: nat, n: nat)
      reads this
    {
      forall q | q in live :: q + live[q].layout.size <= p || p + n <= q
    }

    /**
     * What the global allocator promises of a non-null answer to `alloc(l)`:
     * an aligned block that overlaps no block already handed out and no
     * live future.
     */
    ghost predicate Grantable(p: Addr, l: Layout)
      reads this
    {
      && Placeable(p, l) && p !in heap && Vacant(p, l.size)
      && (forall b | b in heap :: b + heap[b].size <= p || p + l.size <= b)
    }

    constructor ()
      ensures Valid() && heap == map[] && live == map[] && progress == map[] && trace == []
    {
      heap, live, progress, trace := map[], map[], map[], [];
    }

    /**
     * `std::alloc::alloc(l)`. `answer` is the global allocator's answer,
     * 0 standing for null; on null nothing changes.
     */
    method Allocate(l: Layout, answer: Addr) returns (p: Addr)
      requires Valid() && ObjectLayout(l)
      requires answer != 0 ==> Grantable(answer, l)
      modifies this
      ensures Valid() && p == answer && live == old(live) && progress == old(progress)
      ensures p == 0 ==> heap == old(heap) && trace == old(trace)
      ensures p != 0 ==> heap == old(heap)[p := l] && trace == old(trace) + [Allocated(p, l)]
    {
      p := answer;
      if p != 0 {
        heap := heap[p := l];
        trace := trace + [Allocated(p, l)];
      }
    }

    /**
     * `std::alloc::dealloc(p, l)`: `p` must be a block allocated with
     * exactly `l`, and no live future may remain in it.
     */
    method Deallocate(p: Addr, l: Layout)
      requires Valid() && p in heap && heap[p] == l && Vacant(p, l.size)
      modifies this
      ensures Valid() && heap == old(heap) - {p} && live == old(live) && progress == old(progress)
      ensures trace == old(trace) + [Deallocated(p, l)]
    {
      heap := heap - {p};
      trace := trace + [Deallocated(p, l)];
    }

    /** `ptr.write(val)` of a freshly created future of type `ty`, which will behave as `b`, at `p`. */
    method Emplace(p: Addr, ty: FutureType, b: Behaviour)
      requires Valid() && Placeable(p, ty.layout) && Vacant(p, ty.layout.size)
      modifies this
      ensures Valid() && heap == old(heap)
      ensures live == old(live)[p := ty] && progress == old(progress)[p := b]
      ensures trace == old(trace) + [Constructed(p, ty.layout)]
    {
      ghost var before := live;
      live := live[p := ty];
      progress := progress[p := b];
      trace := trace + [Constructed(p, ty.layout)];
      forall a | a in live
        ensures PlacedAt(live, a)
      {
        if a != p {
          assert PlacedAt(before, a);
        }
      }
      forall a, c | a in live && c in live && a != c
        ensures Apart(live, a, c)
      {
        if a != p && c != p {
          assert Apart(before, a, c);
        }
      }
    }

    /** The `poll_fn::<Fut>` of a vtable: polls the `Fut` at `p` where it lies. */
    method PollAt(p: Addr, ty: FutureType) returns (r: PollResult)
      requires Valid() && p in live && live[p] == ty
      modifies this
      ensures Valid() && heap == old(heap) && live == old(live)
      ensures r == Progress(old(progress[p]))
      ensures progress == old(progress)[p := Advance(old(progress[p]))]
      ensures trace == old(trace) + [Polled(p, r)]
    {
      r := Progress(progress[p]);
      progress := progress[p := Advance(progress[p])];
      trace := trace + [Polled(p, r)];
    }

    /** The `drop_fn::<Fut>` of a vtable (`drop_in_place`): runs the destructor of the `Fut` at `p`; no memory is freed. */
    method DropInPlace(p: Addr, ty: FutureType)
      requires Valid() && p in live && live[p] == ty
      modifies this
      ensures Valid() && heap == old(heap)
      ensures live == old(live) - {p} && progress == old(progress) - {p}
      ensures trace == old(trace) + [Destroyed(p)]
    {
      ghost var before := live;
      live := live - {p};
      progress := progress - {p};
      trace := trace + [Destroyed(p)];
      forall a | a in live
        ensures PlacedAt(live, a)
      {
        assert PlacedAt(before, a);
      }
      forall a, c | a in live && c in live && a != c
        ensures Apart(live, a, c)
      {
        assert Apart(before, a, c);
      }
    }
  }


  /** A vacant region of at least one byte holds no future at its start. */
  lemma VacantExcludes(mem: Memory, p: Addr, n: nat)
    requires mem.Valid() && mem.Vacant(p, n) && n > 0
    ensures p !in mem.live
  {
    forall q | q in mem.live
      ensures q != p
    {
      assert PlacedAt(mem.live, q);
    }
  }

  /**
   * The stack buffer `[0u8; 64]` at `start` is a region of the address space
   * no live future overlaps.
   */
  ghost predicate FreshBuffer(mem: Memory, start: Addr)
    reads mem
  {
    start != 0 && BufferInAddressSpace(start) && mem.Vacant(start, FUT_STACK_SIZE)
  }

  /** A slot the corrected fit test accepts is a place a future of that layout may be written. */
  lemma SlotIsFree(mem: Memory, start: Addr, l: Layout)
    requires mem.Valid() && FreshBuffer(mem, start) && ObjectLayout(l) && Fits(start, l)
    ensures Placeable(Slot(start, l), l) && mem.Vacant(Slot(start, l), l.size)
  {
    FitsIffAlignedRoom(start, l);
    var slot := Slot(start, l);
    forall q | q in mem.live
      ensures q + mem.live[q].layout.size <= slot || slot + l.size <= q
    {
    }
  }
}
