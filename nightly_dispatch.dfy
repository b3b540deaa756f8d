/*
 * `dynamic_dispatch` and `run` of src/main.rs: a future larger than the
 * 64-byte stack buffer goes straight to the heap, a smaller one goes to
 * the buffer's first aligned address when it fits there, and to the heap
 * otherwise.
 */
module NightlyDispatch {
  import opened Layouts
  import opened Placement
  import opened Machine
  import opened Traces
  import opened DynInitBox

  /**
   * `dynamic_dispatch(ref_a)`, with `d` the `DynInit` that `ref_a.dyn_foo()`
   * returns, `start` the address of the pinned stack buffer and `answer`
   * the global allocator's answer should `Box::dyn_init` be used. `route`
   * is the path taken, which the source prints: too large, no aligned fit,
   * or the stack slot. Either way the future is awaited to completion and
   * memory is left as it was; `None` stands for `handle_alloc_error`.
   * Every event of the stack path is inside the buffer, and no event of
   * either heap path is.
   */
  method DynamicDispatch(mem: Memory, d: DynInit, start: Addr, answer: Addr) returns (route: Route, r: Option<Item>)
    requires mem.Valid() && ObjectLayout(d.Layout()) && FreshBuffer(mem, start)
    requires answer != 0 ==> mem.Grantable(answer, d.Layout()) && OutsideBuffer(answer, d.Layout().size, start)
    modifies mem
    ensures mem.Valid()
    ensures mem.heap == old(mem.heap) && mem.live == old(mem.live) && mem.progress == old(mem.progress)
    ensures route == NightlyRoute(start, d.Layout())
    ensures forall i :: |old(mem.trace)| <= i < |mem.trace| ==> (InBuffer(mem.trace[i].addr, start) <==> route.OnStack?)
    ensures && (route.OnStack? ==>
                  && r == Some(d.Behaviour().output)
                  && mem.trace == old(mem.trace) + StackRun(route.slot, d.Layout(), d.Behaviour().pending, d.Behaviour().output))
            && (!route.OnStack? && answer != 0 ==>
                  && r == Some(d.Behaviour().output)
                  && mem.trace == old(mem.trace) + HeapRun(answer, d.Layout(), d.Behaviour().pending, d.Behaviour().output))
            && (!route.OnStack? && answer == 0 ==> r == None && mem.trace == old(mem.trace))
  {
    var layout := d.Layout();
    var futSize := layout.size;
    if futSize > FUT_STACK_SIZE {
      route := TooLarge;
      r := AwaitBoxed(mem, d, answer);
      HeapEventsOutside(old(mem.trace), d, answer, start);
      return;
    }
    var end := WrappingAdd(start, FUT_STACK_SIZE);
    var slot := WrappingAdd(start, AlignOffset(start, layout.align));
    var slotEnd := WrappingAdd(slot, futSize);
    if !(start <= slot <= slotEnd <= end) {
      route := NoAlignedFit;
      r := AwaitBoxed(mem, d, answer);
      HeapEventsOutside(old(mem.trace), d, answer, start);
      return;
    }
    SlotIsFree(mem, start, layout);
    route := OnStack(slot);
    var item := AwaitInPlace(mem, d, slot);
    r := Some(item);
    StackEventsInside(old(mem.trace), d, slot, start);
  }

  /**
   * `run` after its static call: dispatches `A` and then `B`. `A::foo`
   * only prints, and `B::foo` awaits an inner future that is ready at once,
   * keeping `[0; 100]` alive across that await to grow its future: both
   * futures are `ReadyWithUnit`. Whatever their exact layouts, a future of
   * `A` with `size + align - 1 <= 64` is awaited in the stack buffer, and
   * one of `B` larger than the buffer is boxed because it is too large:
   * the output the source records below `run`.
   */
  method Run(mem: Memory, start: Addr, refA: Addr, refB: Addr,
             aLayout: Layout, bLayout: Layout, bAnswer: Addr)
    returns (aRoute: Route, bRoute: Route, bDone: bool)
    requires mem.Valid() && FreshBuffer(mem, start)
    requires ObjectLayout(aLayout) && aLayout.size + aLayout.align - 1 <= FUT_STACK_SIZE
    requires ObjectLayout(bLayout) && bLayout.size > FUT_STACK_SIZE
    requires bAnswer != 0 ==> mem.Grantable(bAnswer, bLayout) && OutsideBuffer(bAnswer, bLayout.size, start)
    modifies mem
    ensures mem.Valid()
    ensures mem.heap == old(mem.heap) && mem.live == old(mem.live) && mem.progress == old(mem.progress)
    ensures aRoute.OnStack? && aRoute.slot == start + AlignOffset(start, aLayout.align)
    ensures bRoute == TooLarge
    ensures bDone <==> bAnswer != 0
    ensures bDone ==> mem.trace == old(mem.trace) + StackRun(aRoute.slot, aLayout, 0, Unit) + HeapRun(bAnswer, bLayout, 0, Unit)
    ensures !bDone ==> mem.trace == old(mem.trace) + StackRun(aRoute.slot, aLayout, 0, Unit)
  {
    SmallLayoutAlwaysFits(start, aLayout);
    var a, b;
    aRoute, a := DynamicDispatch(mem, New(Args(refA, ""), ReadyWithUnit(aLayout)), start, 0);
    bRoute, b := DynamicDispatch(mem, New(Args(refB, ""), ReadyWithUnit(bLayout)), start, bAnswer);
    bDone := b.Some?;
  }
}
