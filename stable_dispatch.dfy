/*
 * `dynamic_dispatch` and `run` of examples/stable-pin-init.rs: the future
 * an erased async trait method returns goes into a 64-byte stack buffer
 * when it fits there, and into a `DynBox` otherwise.
 */
module StableDispatch {
  import opened Layouts
  import opened Placement
  import opened Machine
  import opened Traces
  import opened DynInitBox

  /**
   * `dynamic_dispatch(imp, arg)`, with `d` the `DynInit` that `imp.foo(arg)`
   * returns, `start` the address of the stack buffer and `answer` the
   * global allocator's answer should the heap be used. When the value
   * fits, it is constructed at the buffer's first aligned address, awaited
   * there and dropped in place; otherwise it is boxed, awaited and freed.
   * Either way the result is the value the future was made to produce and
   * memory is left as it was; `None` stands for `handle_alloc_error`.
   * `route` is the path taken, which the source prints. Every event of the
   * stack path is inside the buffer, and no event of the heap path is.
   */
  method DynamicDispatch(mem: Memory, d: DynInit, start: Addr, answer: Addr) returns (route: Route, r: Option<Item>)
    requires mem.Valid() && ObjectLayout(d.Layout()) && FreshBuffer(mem, start)
    requires answer != 0 ==> mem.Grantable(answer, d.Layout()) && OutsideBuffer(answer, d.Layout().size, start)
    modifies mem
    ensures mem.Valid()
    ensures mem.heap == old(mem.heap) && mem.live == old(mem.live) && mem.progress == old(mem.progress)
    ensures route == StableRoute(start, d.Layout())
    ensures forall i :: |old(mem.trace)| <= i < |mem.trace| ==> (InBuffer(mem.trace[i].addr, start) <==> route.OnStack?)
    ensures && (route.OnStack? ==>
                  && r == Some(d.Behaviour().output)
                  && mem.trace == old(mem.trace) + StackRun(route.slot, d.Layout(), d.Behaviour().pending, d.Behaviour().output))
            && (!route.OnStack? && answer != 0 ==>
                  && r == Some(d.Behaviour().output)
                  && mem.trace == old(mem.trace) + HeapRun(answer, d.Layout(), d.Behaviour().pending, d.Behaviour().output))
            && (!route.OnStack? && answer == 0 ==> r == None && mem.trace == old(mem.trace))
    ensures mem.trace == old(mem.trace) + DispatchRun(start, d.Layout(), answer, d.Behaviour())
  {
    var layout := d.Layout();
    var end := WrappingAdd(start, FUT_STACK_SIZE);
    var slot := WrappingAdd(start, AlignOffset(start, layout.align));
    var slotEnd := WrappingAdd(slot, layout.size);
    if start <= slot <= slotEnd <= end {
      SlotIsFree(mem, start, layout);
      route := OnStack(slot);
      var item := AwaitInPlace(mem, d, slot);
      r := Some(item);
      StackEventsInside(old(mem.trace), d, slot, start);
    } else {
      route := NoAlignedFit;
      r := AwaitBoxed(mem, d, answer);
      HeapEventsOutside(old(mem.trace), d, answer, start);
    }
  }

  /**
   * The events a dispatch of a future of layout `l` that behaves as `b`
   * adds to the trace, by the path `StableRoute` names: a stack run at the
   * slot, a heap run at the allocator's answer, or nothing when the
   * allocator answers null.
   */
  function DispatchRun(start: Addr, l: Layout, answer: Addr, b: Behaviour): seq<Event>
    requires ValidLayout(l) && BufferInAddressSpace(start)
  {
    var route := StableRoute(start, l);
    if route.OnStack? then StackRun(route.slot, l, b.pending, b.output)
    else if answer != 0 then HeapRun(answer, l, b.pending, b.output)
    else []
  }

  /** `AppendYay::foo`: is ready with its argument followed by `", yay!"` on the first poll. */
  function AppendYay(l: Layout): FutureType
  {
    FutureType(l, (a: Args) => Behaviour(0, Text(a.arg + ", yay!")))
  }

  /** `BorrowIt(s)::foo`: is ready with the borrowed `s` on the first poll. */
  function BorrowIt(l: Layout, s: string): FutureType
  {
    FutureType(l, (a: Args) => Behaviour(0, Text(s)))
  }

  /**
   * `run`: dispatches `PrintYay` and `AppendYay` with `"foo"` and
   * `BorrowIt(":)")` with the empty string, one after the other;
   * `PrintYay::foo` only prints, so its future is `ReadyWithUnit`. The
   * layouts are those the compiler gives the three futures, the receivers
   * their addresses, and the answers what the allocator would return.
   * Each dispatch that does not fail to allocate yields what the source's
   * `assert_eq!`s expect, the three dispatches leave their events in order,
   * and memory ends as it began.
   */
  method Run(mem: Memory, start: Addr, recv: Addr,
             printLayout: Layout, appendLayout: Layout, borrowLayout: Layout,
             printAnswer: Addr, appendAnswer: Addr, borrowAnswer: Addr)
    returns (printed: Option<Item>, appended: Option<Item>, borrowed: Option<Item>)
    requires mem.Valid() && FreshBuffer(mem, start)
    requires ObjectLayout(printLayout) && ObjectLayout(appendLayout) && ObjectLayout(borrowLayout)
    requires printAnswer != 0 ==> mem.Grantable(printAnswer, printLayout) && OutsideBuffer(printAnswer, printLayout.size, start)
    requires appendAnswer != 0 ==> mem.Grantable(appendAnswer, appendLayout) && OutsideBuffer(appendAnswer, appendLayout.size, start)
    requires borrowAnswer != 0 ==> mem.Grantable(borrowAnswer, borrowLayout) && OutsideBuffer(borrowAnswer, borrowLayout.size, start)
    modifies mem
    ensures mem.Valid()
    ensures mem.heap == old(mem.heap) && mem.live == old(mem.live) && mem.progress == old(mem.progress)
    ensures printed == (if StableRoute(start, printLayout).OnStack? || printAnswer != 0 then Some(Unit) else None)
    ensures appended == (if StableRoute(start, appendLayout).OnStack? || appendAnswer != 0 then Some(Text("foo, yay!")) else None)
    ensures borrowed == (if StableRoute(start, borrowLayout).OnStack? || borrowAnswer != 0 then Some(Text(":)")) else None)
    ensures mem.trace == old(mem.trace)
                         + DispatchRun(start, printLayout, printAnswer, Behaviour(0, Unit))
                         + DispatchRun(start, appendLayout, appendAnswer, Behaviour(0, Text("foo, yay!")))
                         + DispatchRun(start, borrowLayout, borrowAnswer, Behaviour(0, Text(":)")))
  {
    var printInit, appendInit, borrowInit := New(Args(recv, "foo"), ReadyWithUnit(printLayout)),
                                                New(Args(recv, "foo"), AppendYay(appendLayout)),
                                                New(Args(recv, ""), BorrowIt(borrowLayout, ":)"));
    assert printInit.Behaviour() == Behaviour(0, Unit);
    assert "foo" + ", yay!" == "foo, yay!";
    assert appendInit.Behaviour() == Behaviour(0, Text("foo, yay!"));
    assert borrowInit.Behaviour() == Behaviour(0, Text(":)"));
    ghost var t0 := mem.trace;
    var route;
    route, printed := DynamicDispatch(mem, printInit, start, printAnswer);
    ghost var t1 := mem.trace;
    route, appended := DynamicDispatch(mem, appendInit, start, appendAnswer);
    ghost var t2 := mem.trace;
    route, borrowed := DynamicDispatch(mem, borrowInit, start, borrowAnswer);
    assert t1 == t0 + DispatchRun(start, printLayout, printAnswer, Behaviour(0, Unit));
    assert t2 == t1 + DispatchRun(start, appendLayout, appendAnswer, Behaviour(0, Text("foo, yay!")));
  }
}
