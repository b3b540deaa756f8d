/*
 * `DynInit`, the one-shot plan to construct an erased future at an address
 * chosen later, and `DynBox`, the heap storage that always accepts it.
 */
module DynInitBox {
  import opened Layouts
  import opened Machine
  import opened Traces
  import opened DynObject
  import opened Placement

  datatype Option<T> = None | Some(value: T)

  /**
   * `DynInit<dyn Future<Output = Item>, Args>` as `DynAsync::foo` builds it
   * with `DynInit::new`: the captured receiver and argument, and the
   * concrete future type `ty` its two function pointers stand for: the
   * `layout` function reports `ty.layout`, and the `init` closure calls the
   * async fn on the arguments and writes the resulting `ty` value at the
   * slot it is given.
   */
  datatype DynInit = DynInit(args: Args, ty: FutureType)
  {
    /** `DynInit::layout`: what the stored `layout` function reports. */
    function Layout(): Layout
    {
      ty.layout
    }

    /** What the future the `init` closure writes does when polled. */
    function Behaviour(): Behaviour
    {
      ty.run(args)
    }
  }

  /**
   * `DynInit::new` as `DynAsync::foo` calls it: captures the arguments, and
   * the layout and behaviour of the async fn's future type.
   */
  function New(args: Args, ty: FutureType): (d: DynInit)
    ensures d.Layout() == ty.layout && d.Behaviour() == ty.run(args)
  {
    DynInit(args, ty)
  }

  /**
   * `DynInit::init(self, slot)` with `DynAsync::foo`'s `init` closure: calls
   * the async fn on the stored arguments, writes the future at exactly
   * `slot`, and erases it into a handle over that same `slot`, whose
   * vtable reports the layout the constructor reported.
   */
  method Init(mem: Memory, d: DynInit, slot: Addr) returns (h: DynFuture)
    requires mem.Valid() && Placeable(slot, d.Layout()) && mem.Vacant(slot, d.Layout().size)
    modifies mem
    ensures mem.Valid() && Live(mem, h) && mem.heap == old(mem.heap)
    ensures h.data == slot && h.Layout() == d.Layout()
    ensures mem.live == old(mem.live)[slot := d.ty]
    ensures mem.progress == old(mem.progress)[slot := d.Behaviour()]
    ensures mem.trace == old(mem.trace) + [Constructed(slot, d.Layout())]
  {
    mem.Emplace(slot, d.ty, d.ty.run(d.args));
    h := Construct(slot, d.ty);
  }

  /** `DynBox<T>(ManuallyDrop<T::Object>)`: the handle of a future that owns the heap block it lies in. */
  datatype DynBox = DynBox(obj: DynFuture)

  /** The box's future is live, and its block is allocated with the layout its vtable reports. */
  ghost predicate Owns(mem: Memory, b: DynBox)
    reads mem
  {
    Live(mem, b.obj) && b.obj.data in mem.heap && mem.heap[b.obj.data] == b.obj.Layout()
  }

  /**
   * `DynBox::init`: allocates a block of exactly `init.layout()` and
   * constructs the future at its start. `answer` is the global allocator's
   * answer; on null (0) the source calls `handle_alloc_error`, which does
   * not return: here the result is `None` and nothing has changed.
   */
  method BoxInit(mem: Memory, d: DynInit, answer: Addr) returns (r: Option<DynBox>)
    requires mem.Valid() && ObjectLayout(d.Layout())
    requires answer != 0 ==> mem.Grantable(answer, d.Layout())
    modifies mem
    ensures mem.Valid()
    ensures answer == 0 ==>
              && r == None && mem.heap == old(mem.heap) && mem.live == old(mem.live)
              && mem.progress == old(mem.progress) && mem.trace == old(mem.trace)
    ensures answer != 0 ==>
              && r.Some? && r.value.obj.data == answer && Owns(mem, r.value)
              && mem.heap == old(mem.heap)[answer := d.Layout()]
              && mem.live == old(mem.live)[answer := d.ty]
              && mem.progress == old(mem.progress)[answer := d.Behaviour()]
              && mem.trace == old(mem.trace) + [Allocated(answer, d.Layout()), Constructed(answer, d.Layout())]
  {
    var layout := d.Layout();
    var slot := mem.Allocate(layout, answer);
    if slot == 0 {
      return None;
    }
    var obj := Init(mem, d, slot);
    r := Some(DynBox(obj));
  }

  /**
   * `Drop` for `DynBox`: takes the handle out, reads its address and its
   * vtable's layout, runs the future's destructor, then frees the block
   * with that same address and layout.
   */
  method BoxDrop(mem: Memory, b: DynBox)
    requires mem.Valid() && Owns(mem, b)
    modifies mem
    ensures mem.Valid()
    ensures mem.heap == old(mem.heap) - {b.obj.data}
    ensures mem.live == old(mem.live) - {b.obj.data}
    ensures mem.progress == old(mem.progress) - {b.obj.data}
    ensures mem.trace == old(mem.trace) + [Destroyed(b.obj.data), Deallocated(b.obj.data, b.obj.Layout())]
  {
    var obj := b.obj;
    var ptr := obj.data;
    var layout := obj.Layout();
    ghost var before := mem.live;
    Drop(mem, obj);
    forall q | q in mem.live
      ensures q + mem.live[q].layout.size <= ptr || ptr + layout.size <= q
    {
      assert Apart(before, ptr, q);
    }
    mem.Deallocate(ptr, layout);
  }

  /**
   * The stack path: constructs the future at `slot` of a borrowed buffer,
   * awaits it through a handle on `slot`, then destroys it in place. The
   * buffer is not freed, and memory is left as it was found.
   */
  method AwaitInPlace(mem: Memory, d: DynInit, slot: Addr) returns (item: Item)
    requires mem.Valid() && Placeable(slot, d.Layout()) && mem.Vacant(slot, d.Layout().size)
    modifies mem
    ensures mem.Valid() && item == d.Behaviour().output
    ensures mem.heap == old(mem.heap) && mem.live == old(mem.live) && mem.progress == old(mem.progress)
    ensures mem.trace == old(mem.trace) + StackRun(slot, d.Layout(), d.Behaviour().pending, item)
  {
    VacantExcludes(mem, slot, d.Layout().size);
    var h := Init(mem, d, slot);
    item := Await(mem, h);
    Drop(mem, h);
  }

  /**
   * The heap path: boxes the future, awaits it through the box, then drops
   * the box. Memory is left as it was found; on a null answer from the
   * allocator the result is `None`.
   */
  method AwaitBoxed(mem: Memory, d: DynInit, answer: Addr) returns (r: Option<Item>)
    requires mem.Valid() && ObjectLayout(d.Layout())
    requires answer != 0 ==> mem.Grantable(answer, d.Layout())
    modifies mem
    ensures mem.Valid()
    ensures mem.heap == old(mem.heap) && mem.live == old(mem.live) && mem.progress == old(mem.progress)
    ensures answer == 0 ==> r == None && mem.trace == old(mem.trace)
    ensures answer != 0 ==>
              && r == Some(d.Behaviour().output)
              && mem.trace == old(mem.trace) + HeapRun(answer, d.Layout(), d.Behaviour().pending, r.value)
  {
    if answer != 0 {
      VacantExcludes(mem, answer, d.Layout().size);
    }
    var boxed := BoxInit(mem, d, answer);
    if boxed.None? {
      return None;
    }
    var item := Await(mem, boxed.value.obj);
    BoxDrop(mem, boxed.value);
    r := Some(item);
  }

  /** The events of a stack run at a slot inside the buffer at `start` are all inside it. */
  lemma StackEventsInside(t0: seq<Event>, d: DynInit, slot: Addr, start: Addr)
    requires InBuffer(slot, start)
    ensures var t := t0 + StackRun(slot, d.Layout(), d.Behaviour().pending, d.Behaviour().output);
            forall i :: |t0| <= i < |t| ==> InBuffer(t[i].addr, start)
  {
    StackRunLifecycle(slot, d.Layout(), d.Behaviour().pending, d.Behaviour().output);
    AppendedEventsAt(t0, StackRun(slot, d.Layout(), d.Behaviour().pending, d.Behaviour().output), slot);
  }

  /** The events of a heap run in a block outside the buffer at `start` are all outside it. */
  lemma HeapEventsOutside(t0: seq<Event>, d: DynInit, answer: Addr, start: Addr)
    requires answer != 0 ==> ObjectLayout(d.Layout()) && OutsideBuffer(answer, d.Layout().size, start)
    ensures answer != 0 ==>
              var t := t0 + HeapRun(answer, d.Layout(), d.Behaviour().pending, d.Behaviour().output);
              forall i :: |t0| <= i < |t| ==> !InBuffer(t[i].addr, start)
  {
    if answer != 0 {
      HeapRunLifecycle(answer, d.Layout(), d.Behaviour().pending, d.Behaviour().output);
      AppendedEventsAt(t0, HeapRun(answer, d.Layout(), d.Behaviour().pending, d.Behaviour().output), answer);
    }
  }
}
