# In-place construction of type-erased futures (afidt-pin-init)

The project models the core of afidt-pin-init. The problem is calling an async
trait method through `dyn` without boxing every future: the call yields a
one-shot constructor (`DynInit`). It can report the layout of the future it
will make, and it writes that future at an address chosen afterwards.
`dynamic_dispatch` reserves a 64-byte array on the stack. It computes the first
address in that array aligned for the layout and tests whether the future fits
there:

- If it fits, the future is constructed there, awaited through a hand-rolled
  trait object (`DynFuture`: a data address and a vtable of `layout`, `poll_fn`
  and `drop_fn`), and destroyed in place. No memory is freed.
- Otherwise it is constructed in a fresh heap block (`DynBox`), awaited, and
  destroyed. The block is then freed with the layout the vtable reports.

`examples/stable-pin-init.rs` makes this decision with the fit test alone.
`src/main.rs` checks `size > 64` first, so its decision has three ways.

Modules, in dependency order:

- `Layouts`:
  - addresses as `usize` values below 2^64, with `wrapping_add` written out modulo 2^64
  - `std::alloc::Layout` and its validity rules
  - the runtime `align_offset` of a byte pointer; `AlignOffset` is proved to give the least aligned address at or after the pointer
- `Placement`:
  - the fit test as both files write it (`FitsAsWritten`) and the corrected test (`Fits`)
  - the two decisions, `StableRoute` and `NightlyRoute`
  - the findings below
- `Machine`:
  - the memory every operation acts on: a `Memory` class
  - its fields: the allocator's live blocks (`heap`), the futures constructed and not yet destroyed (`live`), what remains of each future's behaviour (`progress`), and the ordered `trace` of memory events
  - its methods are the primitive operations the source calls: `alloc`, `dealloc`, `ptr.write`, a vtable's `poll_fn` and `drop_fn`
- `Traces`: the event sequences of the two paths, and lemmas about what they guarantee:
  - one construction and one destruction
  - on the heap, one allocation and one release with the same address and layout
  - the same output either way
- `DynObject`: `FutureVtable`, `DynFuture`, `DynCompatible::construct`, `poll`, `drop`, and `.await` as a polling loop.
- `DynInitBox`:
  - `DynInit::new`, `layout` and `init`
  - `DynBox::init` and its `Drop`
  - awaiting in place and awaiting boxed
- `StableDispatch`, `NightlyDispatch`: the two `dynamic_dispatch` functions and their `run` demos.

Every dispatch method is proved against `StableRoute`/`NightlyRoute` and the
trace functions. Each one promises three things:

- the path it takes is the route function's answer
- its result is the output of the future it was handed
- memory ends as it began

Its trace equals `StackRun` or `HeapRun`, and the `Traces` lemmas prove what
those sequences guarantee.

The source's allocator, its stack address and its future layouts are not
visible to a model. They become parameters:

- `start`: the address of the stack array
- `answer`: what `std::alloc::alloc` returns, with 0 standing for null. A non-null answer overlaps no allocated block and no live future, and lies outside the stack array, which is not heap memory
- the `Layout` the compiler gives each future

Polling is abstract. A future answers `Pending` a given number of times, then
`Ready` with its output; the demo futures are ready on their first poll.

`dynamic_dispatch` writes the fit test inline: there is no separate buffer
container that hands a rejected constructor back. The `slot >= start` test
does not guard the wrap of `slot_end` (see Findings): `FitsAsWritten`
follows the code, and the rest of the model uses the corrected `Fits`.

## Model

| member | source | states |
|---|---|---|
| `Layouts.WrappingAdd` | afidt-pin-init/examples/stable-pin-init.rs:303-306 | `wrapping_add` on `usize`: below 2^64 the sum is exact; past it, it wraps once to `a + n - 2^64` |
| `Layouts.AlignOffset` | afidt-pin-init/examples/stable-pin-init.rs:305 | `start.align_offset(align)` (also main.rs:66) of a byte address is below `align`, moves the address onto a multiple of `align`, and no address in between is aligned |
| `Placement.FitsIffAlignedRoom` | afidt-pin-init/examples/stable-pin-init.rs:302-310 | The corrected fit test holds iff some aligned address of the 64-byte array leaves `size` bytes before its end. When it holds, the slot is the least such address and the whole value lies inside the array |
| `Placement.FitsAsWritten` | afidt-pin-init/examples/stable-pin-init.rs:306-310 | The test as written (also main.rs:67-70) accepts everything the corrected test accepts. It accepts more only when `slot + size` passes 2^64 |
| `Placement.OversizedNeverFits` | afidt-pin-init/src/main.rs:57-60 | A future larger than the 64-byte array never passes the corrected fit test |
| `Placement.SmallLayoutAlwaysFits` | afidt-pin-init/src/main.rs:61-70 | A future with `size + align - 1 <= 64` passes the corrected fit test wherever the array lies |
| `Placement.StableFitAsWrittenAcceptsOversized` | afidt-pin-init/examples/stable-pin-init.rs:302-310 | Counterexample: an array at 0xFFFF_C000_0000_0000 and a layout of 2^46 bytes pass the written test, though there is no room |
| `Placement.NightlyFitAsWrittenAcceptsWrappedEnd` | afidt-pin-init/src/main.rs:57-70 | Counterexample: an array ending at `usize::MAX` and a 64-byte, 64-aligned layout pass the size check and the written test, though there is no room |
| `Placement.StableRoute` | afidt-pin-init/examples/stable-pin-init.rs:310-316 | The corrected stable decision is never "too large". It is the stack exactly when there is aligned room, and then the slot is the least aligned address, with the value inside the array |
| `Placement.NightlyRoute` | afidt-pin-init/src/main.rs:57-74 | Heap because too large iff `size > 64`. Heap because there is no aligned fit iff `size <= 64` and no aligned room. Otherwise the stack, at the least aligned address with the value inside the array |
| `Placement.RoutesAgree` | afidt-pin-init/src/main.rs:57-60 | The size check of main.rs never changes where a future goes: both decisions choose the stack for the same layouts and at the same slot |
| `Placement.SmallAlignedFutureAtStart` | afidt-pin-init/src/main.rs:61-70 | An 8-byte, 4-aligned future in a 4-aligned array goes at the array's start in both files |
| `Placement.HundredByteFutureOnHeap` | afidt-pin-init/src/main.rs:57-59 | A 100-byte future is "too large" for main.rs and has no fit in stable-pin-init.rs |
| `Machine.Memory.Allocate` | afidt-pin-init/examples/stable-pin-init.rs:204-206 | `alloc(layout)`: a non-null answer, which overlaps no block and no live future, becomes a block with that layout and an `Allocated` event. On null nothing changes. Placement invariants are kept |
| `Machine.Memory.Deallocate` | afidt-pin-init/examples/stable-pin-init.rs:231 | `dealloc(ptr, layout)` requires a block allocated with exactly `layout` and holding no live future. It removes the block and logs `Deallocated` |
| `Machine.Memory.Emplace` | afidt-pin-init/examples/stable-pin-init.rs:278 | `ptr.write(val)` at an aligned, vacant place. The future becomes live there without overlapping another, and `Constructed` is logged |
| `Machine.Memory.PollAt` | afidt-pin-init/examples/stable-pin-init.rs:124-126 | `poll_fn::<Fut>` polls the future where it lies. It answers `Pending` while polls remain, then `Ready(output)`. Nothing moves, and `Polled` is logged |
| `Machine.Memory.DropInPlace` | afidt-pin-init/examples/stable-pin-init.rs:127-129 | `drop_fn::<Fut>` runs the destructor. The future stops being live, no block is freed, and `Destroyed` is logged |
| `Traces.PollRunOnlyPolls` | afidt-pin-init/examples/stable-pin-init.rs:151-158 | Awaiting a future only polls, only at its own address, and yields its output exactly once |
| `Traces.StackRunLifecycle` | afidt-pin-init/src/main.rs:76-88 | On the stack path: one construction first and one destruction last, only polls in between, all at the slot, and nothing allocated or freed |
| `Traces.HeapRunLifecycle` | afidt-pin-init/examples/stable-pin-init.rs:202-233 | On the heap path: one allocation first and one release last, with the same address and layout. One construction second and one destruction right before the release, only polls in between, all at the same address |
| `Traces.SameOutputEitherWay` | afidt-pin-init/examples/stable-pin-init.rs:310-316 | The stack path and the heap path hand out the same single output |
| `DynObject.Construct` | afidt-pin-init/examples/stable-pin-init.rs:119-142 | `construct::<Fut>(data)` erases the future at `data`. The handle keeps `data`, and its vtable is the one for `Fut`, whose `layout` entry reports `Layout::new::<Fut>()` |
| `DynObject.Poll` | afidt-pin-init/examples/stable-pin-init.rs:151-158 | `DynFuture::poll` answers what the concrete future's poll answers, at the handle's address, and changes only that future's progress |
| `DynObject.Drop` | afidt-pin-init/examples/stable-pin-init.rs:160-165 | `DynFuture::drop` destroys the future at the handle's address and frees nothing |
| `DynObject.Await` | afidt-pin-init/src/main.rs:84 | `.await` polls until ready, yields the future's output, and logs exactly `PollRun` |
| `DynInitBox.New` | afidt-pin-init/examples/stable-pin-init.rs:182-188 | `DynInit::new`: the constructor reports the future type's layout, and the future it makes behaves as the async fn on the captured arguments |
| `DynInitBox.Init` | afidt-pin-init/examples/stable-pin-init.rs:194-196 | `DynInit::init(slot)` writes the future at exactly `slot` and returns a handle on `slot`. The handle's layout is the one `DynInit::layout` reported |
| `DynInitBox.BoxInit` | afidt-pin-init/examples/stable-pin-init.rs:202-210 | `DynBox::init` allocates exactly `init.layout()` and constructs the future at the block's start. On a null allocation it yields nothing and changes nothing |
| `DynInitBox.BoxDrop` | afidt-pin-init/examples/stable-pin-init.rs:224-233 | `Drop` for `DynBox` destroys the future and then frees its block with the vtable's layout |
| `DynInitBox.AwaitInPlace` | afidt-pin-init/src/main.rs:76-88 | Construct at the slot, await, then `drop_in_place`. The output is the future's, memory ends as it began, and the trace is `StackRun` |
| `DynInitBox.AwaitBoxed` | afidt-pin-init/examples/stable-pin-init.rs:315 | Box, await, then drop the box. The output is the future's, memory ends as it began, and the trace is `HeapRun` (or nothing, on a null allocation) |
| `Machine.SlotIsFree` | afidt-pin-init/examples/stable-pin-init.rs:302-312 | A slot the corrected fit test accepts in an unused array is a non-null, aligned place no live future overlaps |
| `StableDispatch.DynamicDispatch` | afidt-pin-init/examples/stable-pin-init.rs:298-317 | Takes the path `StableRoute` names and yields the future's output either way. The trace is `StackRun` at the route's slot or `HeapRun` at the allocator's block, or nothing on a null answer. Every new event lies inside the stack array on the stack path and outside it otherwise, and memory ends as it began |
| `StableDispatch.Run` | afidt-pin-init/examples/stable-pin-init.rs:346-359 | Each of the three dispatches yields its value (`()`, `"foo, yay!"`, `":)"`, the values the source's `assert_eq!`s check) unless it takes the heap path and the allocator answers null. The trace is the three dispatches' runs in order, and memory ends as it began |
| `NightlyDispatch.DynamicDispatch` | afidt-pin-init/src/main.rs:52-90 | Takes the path `NightlyRoute` names (too large, no aligned fit, or the stack) and awaits the future to completion. The trace is `StackRun` or `HeapRun`, or nothing on a null answer. Every new event lies inside the stack array on the stack path and outside it on both heap paths, and memory ends as it began |
| `NightlyDispatch.Run` | afidt-pin-init/src/main.rs:38-48 | A's small future is awaited in the array at its first aligned address. B's future, larger than 64 bytes, is boxed as too large. The trace is A's `StackRun` followed by B's `HeapRun` |

## Left out

- Return-type layout machinery. `Function`, `return_type_layout`, `return_type_cast_ptr` and `test_return_type_layout` compute a future's `Layout` and a typed pointer from a function signature at compile time. The model takes each future's `Layout` as given. `return_type_object` is not left out: it calls `DynCompatible::construct` at run time, which is `DynObject.Construct` inside `DynInitBox.Init`.
- `DynCompatible::data` reads the handle's `data` field; it is the `data` field of `DynFuture`. `DynCompatible::layout` and `DynInit::layout` call a stored function pointer that returns `Layout::new::<Fut>()`; they are the `Layout()` functions of `DynFuture` and `DynInit`.
- Executors and wakers. `pollster::block_on`, `Context` and wakers are not modelled. A future's behaviour is an abstract count of `Pending` answers followed by its output.
- Pinning and the type system. `Pin`, `PhantomPinned`, `ManuallyDrop`, `Deref`/`DerefMut` and lifetimes are not modelled. Their guarantees appear as preconditions: a future is used only while live, and it never moves. The one-shot use of a `DynInit` is not modelled: nothing stops one `DynInit` value from being passed to `Init` twice. Each dispatch path hands its `d` to exactly one of `Init` or `BoxInit`.
- pin_init internals. `Box::dyn_init`, `dyn_foo` and `ptr::from_raw_parts_mut` belong to the `pin_init` crate and to pointer-metadata APIs, which are not part of this model. main.rs's heap path is modelled with the same `DynBox` steps as stable-pin-init.rs. Its `init(...).unwrap()` is modelled as a call that succeeds.
- Zero-sized futures. Every layout here has `size > 0` (`ObjectLayout`): an async fn's future holds its state tag. `alloc` with a zero size is undefined behaviour, so the heap path would need a special case.
- Allocation failure. `handle_alloc_error` aborts the process; here it is the result `None` with memory unchanged.
- `align_offset`'s permission to return `usize::MAX`. The model uses the exact runtime answer for byte pointers.
- `println!` and `dbg!` output. The message printed is the returned `Route`.
- The other example files of the repository are not part of this model, and neither is the static call `a.foo().await` in main.rs's `run`.
- `NightlyDispatch.Run` does not fix the exact layouts of the two futures. It assumes that A's future is small, with `size + align - 1 <= 64`. It assumes that B's future is larger than 64 bytes, which is what the `[0; 100]` held across an await is there to ensure.

## Findings

| source | as written | input that shows it | evidently intended | confidence | as-written member | corrected member |
|---|---|---|---|---|---|---|
| afidt-pin-init/examples/stable-pin-init.rs:306-310 | `slot >= start && slot_end <= end`, with `slot_end = slot.wrapping_add(size)` allowed to wrap past `usize::MAX` | array at 0xFFFF_C000_0000_0000 and `Layout(2^46, 1)`, a size rustc allows for a type on 64-bit targets: `slot_end` wraps to 0, below `end` | accept only when `[slot, slot + size)` lies inside the array | low: needs an array in the top 2^46 bytes of the address space; not executed | `Placement.StableFitAsWrittenAcceptsOversized` | `Placement.FitsIffAlignedRoom` |
| afidt-pin-init/src/main.rs:67-70 | `start <= slot && slot_end <= end` behind `size > 64`, with `slot_end` allowed to wrap | array at 2^64 - 65 and `Layout(64, 64)`: the slot is one byte in and `slot_end` wraps to 0 | accept only when `[slot, slot + size)` lies inside the array | low: needs an array in the last 128 bytes of the address space; not executed | `Placement.NightlyFitAsWrittenAcceptsWrappedEnd` | `Placement.NightlyRoute` |
