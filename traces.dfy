/*
 * The event sequences a placed future goes through, and what they
 * guarantee: one construction, polls on the same address, one
 * destruction, and on the heap an allocation and a release that pair up.
 */
module Traces {
  import opened Layouts
  import opened Machine

  /** `n` polls of the future at `p` that answer `Pending`. */
  function Pendings(p: Addr, n: nat): seq<Event>
  {
    if n == 0 then [] else Pendings(p, n - 1) + [Polled(p, Pending)]
  }

  /** Awaiting the future at `p`: `n` pending polls, then the one that yields `out`. */
  function PollRun(p: Addr, n: nat, out: Item): seq<Event>
  {
    Pendings(p, n) + [Polled(p, Ready(out))]
  }

  /** A future of layout `l` placed in a borrowed buffer at `slot`, awaited, then dropped in place. */
  function StackRun(slot: Addr, l: Layout, n: nat, out: Item): seq<Event>
  {
    [Constructed(slot, l)] + PollRun(slot, n, out) + [Destroyed(slot)]
  }

  /** A future of layout `l` boxed at `p`, awaited, then dropped with its box. */
  function HeapRun(p: Addr, l: Layout, n: nat, out: Item): seq<Event>
  {
    [Allocated(p, l), Constructed(p, l)] + PollRun(p, n, out) + [Destroyed(p), Deallocated(p, l)]
  }

  /** How often `e` occurs in `t`. */
  function Count(t: seq<Event>, e: Event): nat
  {
    if t == [] then 0 else (if t[0] == e then 1 else 0) + Count(t[1..], e)
  }

  /** The values handed out by ready polls, in order. */
  function Outputs(t: seq<Event>): seq<Item>
  {
    if t == [] then []
    else (if t[0].Polled? && t[0].result.Ready? then [t[0].result.item] else []) + Outputs(t[1..])
  }

  lemma {:induction false} CountAppend(t: seq<Event>, u: seq<Event>, e: Event)
    ensures Count(t + u, e) == Count(t, e) + Count(u, e)
    decreases |t|
  {
    if t == [] {
      assert t + u == u;
    } else {
      assert (t + u)[0] == t[0] && (t + u)[1..] == t[1..] + u;
      CountAppend(t[1..], u, e);
    }
  }

  lemma {:induction false} OutputsAppend(t: seq<Event>, u: seq<Event>)
    ensures Outputs(t + u) == Outputs(t) + Outputs(u)
    decreases |t|
  {
    if t == [] {
      assert t + u == u;
    } else {
      assert (t + u)[0] == t[0] && (t + u)[1..] == t[1..] + u;
      OutputsAppend(t[1..], u);
    }
  }

  lemma CountPair(a: Event, b: Event, e: Event)
    requires !a.Polled? && !b.Polled?
    ensures Count([a, b], e) == (if a == e then 1 else 0) + (if b == e then 1 else 0)
    ensures Outputs([a, b]) == []
  {
    assert [a, b][1..] == [b] && [b][1..] == [];
    assert Count([b], e) == (if b == e then 1 else 0) + Count([], e);
    assert Outputs([b]) == [] + Outputs([]);
  }

  /** Pending polls of `p` are all about `p`, hold nothing but pending polls, and yield no value. */
  lemma {:induction false} PendingsAreIdle(p: Addr, n: nat)
    ensures |Pendings(p, n)| == n
    ensures forall i :: 0 <= i < n ==> Pendings(p, n)[i] == Polled(p, Pending)
    ensures forall e :: e != Polled(p, Pending) ==> Count(Pendings(p, n), e) == 0
    ensures Outputs(Pendings(p, n)) == []
  {
    if n > 0 {
      PendingsAreIdle(p, n - 1);
      forall e | e != Polled(p, Pending)
        ensures Count(Pendings(p, n), e) == 0
      {
        CountAppend(Pendings(p, n - 1), [Polled(p, Pending)], e);
      }
      OutputsAppend(Pendings(p, n - 1), [Polled(p, Pending)]);
    }
  }

  /**
   * Awaiting a future touches only its own address, neither allocates,
   * constructs, destroys nor frees anything, and yields `out` once.
   */
  lemma PollRunOnlyPolls(p: Addr, n: nat, out: Item)
    ensures forall i :: 0 <= i < |PollRun(p, n, out)| ==> PollRun(p, n, out)[i].addr == p
    ensures forall i :: 0 <= i < |PollRun(p, n, out)| ==> PollRun(p, n, out)[i].Polled?
    ensures forall e: Event :: !e.Polled? ==> Count(PollRun(p, n, out), e) == 0
    ensures Outputs(PollRun(p, n, out)) == [out]
  {
    PendingsAreIdle(p, n);
    forall e: Event | !e.Polled?
      ensures Count(PollRun(p, n, out), e) == 0
    {
      CountAppend(Pendings(p, n), [Polled(p, Ready(out))], e);
    }
    OutputsAppend(Pendings(p, n), [Polled(p, Ready(out))]);
  }

  /**
   * On the stack path the future is constructed once as the first event
   * and destroyed once as the last, everything in between is a poll, every
   * event is at `slot`, and no memory is allocated or freed.
   */
  lemma StackRunLifecycle(slot: Addr, l: Layout, n: nat, out: Item)
    ensures var t := StackRun(slot, l, n, out);
            && t[0] == Constructed(slot, l) && t[|t| - 1] == Destroyed(slot)
            && Count(t, Constructed(slot, l)) == 1
            && Count(t, Destroyed(slot)) == 1
            && (forall i :: 0 <= i < |t| ==> t[i].addr == slot)
            && (forall i :: 0 <= i < |t| ==> !t[i].Allocated? && !t[i].Deallocated?)
            && (forall i :: 0 < i < |t| - 1 ==> t[i].Polled?)
  {
    var run := PollRun(slot, n, out);
    PollRunOnlyPolls(slot, n, out);
    CountAppend([Constructed(slot, l)], run, Constructed(slot, l));
    CountAppend([Constructed(slot, l)] + run, [Destroyed(slot)], Constructed(slot, l));
    CountAppend([Constructed(slot, l)], run, Destroyed(slot));
    CountAppend([Constructed(slot, l)] + run, [Destroyed(slot)], Destroyed(slot));
  }

  /**
   * On the heap path the block is allocated first and freed last with the
   * same address and layout, each exactly once; the future is constructed
   * once and destroyed once, right before the block is freed; everything
   * in between is a poll, and every event is at `p`.
   */
  lemma HeapRunLifecycle(p: Addr, l: Layout, n: nat, out: Item)
    ensures var t := HeapRun(p, l, n, out);
            && t[0] == Allocated(p, l) && t[1] == Constructed(p, l)
            && t[|t| - 2] == Destroyed(p) && t[|t| - 1] == Deallocated(p, l)
            && Count(t, Allocated(p, l)) == 1 && Count(t, Deallocated(p, l)) == 1
            && Count(t, Constructed(p, l)) == 1 && Count(t, Destroyed(p)) == 1
            && (forall i :: 0 <= i < |t| ==> t[i].addr == p)
            && (forall i :: 2 <= i < |t| - 2 ==> t[i].Polled?)
  {
    var run := PollRun(p, n, out);
    var head: seq<Event> := [Allocated(p, l), Constructed(p, l)];
    var tail: seq<Event> := [Destroyed(p), Deallocated(p, l)];
    PollRunOnlyPolls(p, n, out);
    forall e: Event | !e.Polled?
      ensures Count(HeapRun(p, l, n, out), e) ==
                (if Allocated(p, l) == e then 1 else 0) + (if Constructed(p, l) == e then 1 else 0) +
                (if Destroyed(p) == e then 1 else 0) + (if Deallocated(p, l) == e then 1 else 0)
    {
      CountAppend(head, run, e);
      CountAppend(head + run, tail, e);
      CountPair(Allocated(p, l), Constructed(p, l), e);
      CountPair(Destroyed(p), Deallocated(p, l), e);
    }
  }

  /** Appending a run whose events are all at `p` adds only events at `p`. */
  lemma AppendedEventsAt(t0: seq<Event>, run: seq<Event>, p: Addr)
    requires forall i :: 0 <= i < |run| ==> run[i].addr == p
    ensures forall i :: |t0| <= i < |t0 + run| ==> (t0 + run)[i].addr == p
  {
    forall i | |t0| <= i < |t0 + run|
      ensures (t0 + run)[i].addr == p
    {
      assert (t0 + run)[i] == run[i - |t0|];
    }
  }

  /** Where the future is placed does not change the value awaiting it yields. */
  lemma SameOutputEitherWay(slot: Addr, p: Addr, l: Layout, n: nat, out: Item)
    ensures Outputs(StackRun(slot, l, n, out)) == [out]
    ensures Outputs(HeapRun(p, l, n, out)) == [out]
  {
    PollRunOnlyPolls(slot, n, out);
    PollRunOnlyPolls(p, n, out);
    OutputsAppend([Constructed(slot, l)], PollRun(slot, n, out));
    OutputsAppend([Constructed(slot, l)] + PollRun(slot, n, out), [Destroyed(slot)]);
    var head: seq<Event> := [Allocated(p, l), Constructed(p, l)];
    var tail: seq<Event> := [Destroyed(p), Deallocated(p, l)];
    CountPair(Allocated(p, l), Constructed(p, l), Destroyed(p));
    CountPair(Destroyed(p), Deallocated(p, l), Destroyed(p));
    OutputsAppend(head, PollRun(p, n, out));
    OutputsAppend(head + PollRun(p, n, out), tail);
  }
}
