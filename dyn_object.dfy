/*
 * The hand-rolled trait object of stable-pin-init.rs: a data address and a
 * vtable of `layout`, `poll_fn` and `drop_fn` for one concrete future type.
 */
module DynObject {
  import opened Layouts
  import opened Machine
  import opened Traces

  /**
   * `FutureVtable`, as built by `vtable::<Fut>()`: its three entries are
   * those of the concrete type `ty` (`Layout::new::<Fut>`, `poll_fn::<Fut>`,
   * `drop_fn::<Fut>`), so the vtable is the type it was made for.
   */
  datatype FutureVtable = FutureVtable(ty: FutureType)
  {
    /** The `layout` entry: `Layout::new::<Fut>()`. */
    function Layout(): Layout
    {
      ty.layout
    }
  }

  /** `DynFuture`: where the erased future lies, and its vtable. */
  datatype DynFuture = DynFuture(data: Addr, vtable: FutureVtable)
  {
    /** `DynCompatible::layout`: what the vtable's `layout` entry reports. */
    function Layout(): Layout
    {
      vtable.Layout()
    }
  }

  /** `DynCompatible::construct::<Fut>(data)`: erases the `Fut` at `data`. */
  function Construct(data: Addr, ty: FutureType): (h: DynFuture)
    ensures h.data == data && h.vtable.ty == ty && h.Layout() == ty.layout
  {
    DynFuture(data, FutureVtable(ty))
  }

  /** A future of the vtable's type lives at the handle's address. */
  ghost predicate Live(mem: Memory, h: DynFuture)
    reads mem
  {
    h.data in mem.live && mem.live[h.data] == h.vtable.ty
  }

  /** `Future::poll` for `DynFuture`: calls the vtable's `poll_fn` on `data` and returns its answer. */
  method Poll(mem: Memory, h: DynFuture) returns (r: PollResult)
    requires mem.Valid() && Live(mem, h)
    modifies mem
    ensures mem.Valid() && mem.heap == old(mem.heap) && mem.live == old(mem.live)
    ensures r == Progress(old(mem.progress[h.data]))
    ensures mem.progress == old(mem.progress)[h.data := Advance(old(mem.progress[h.data]))]
    ensures mem.trace == old(mem.trace) + [Polled(h.data, r)]
  {
    r := mem.PollAt(h.data, h.vtable.ty);
  }

  /** `Drop` for `DynFuture`: calls the vtable's `drop_fn` on `data`; the memory is not freed. */
  method Drop(mem: Memory, h: DynFuture)
    requires mem.Valid() && Live(mem, h)
    modifies mem
    ensures mem.Valid() && mem.heap == old(mem.heap)
    ensures mem.live == old(mem.live) - {h.data} && mem.progress == old(mem.progress) - {h.data}
    ensures mem.trace == old(mem.trace) + [Destroyed(h.data)]
  {
    mem.DropInPlace(h.data, h.vtable.ty);
  }

  /**
   * `.await` on a pinned handle: polls it where it lies until it is ready,
   * and yields the value the future was created to produce.
   */
  method Await(mem: Memory, h: DynFuture) returns (item: Item)
    requires mem.Valid() && Live(mem, h)
    modifies mem
    ensures mem.Valid() && mem.heap == old(mem.heap) && mem.live == old(mem.live)
    ensures item == old(mem.progress[h.data]).output
    ensures mem.progress == old(mem.progress)[h.data := old(mem.progress[h.data]).(pending := 0)]
    ensures mem.trace == old(mem.trace) + PollRun(h.data, old(mem.progress[h.data]).pending, item)
  {
    ghost var b, progress0, trace0 := mem.progress[h.data], mem.progress, mem.trace;
    ghost var polled: nat := 0;
    var r := Pending;
    while r.Pending?
      invariant mem.Valid() && mem.heap == old(mem.heap) && mem.live == old(mem.live)
      invariant polled <= b.pending
      invariant mem.progress == progress0[h.data := b.(pending := b.pending - polled)]
      invariant r.Pending? ==> mem.trace == trace0 + Pendings(h.data, polled)
      invariant r.Ready? ==> polled == b.pending && r.item == b.output
      invariant r.Ready? ==> mem.trace == trace0 + Pendings(h.data, polled) + [Polled(h.data, r)]
      decreases if r.Pending? then b.pending - polled + 1 else 0
    {
      r := Poll(mem, h);
      if r.Pending? {
        polled := polled + 1;
      }
    }
    item := r.item;
  }
}
