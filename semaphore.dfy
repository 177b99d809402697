/** `AsyncSemaphore`, the counter that throttles concurrent jobs. The actor
    runs one call at a time, so the model is a sequential state machine: a
    count of free slots and a first-in first-out queue of suspended callers.
    A suspended caller is an abstract waiter id standing for its
    continuation. */
module Semaphore {
  import opened Wrappers

  type Waiter = nat

  /** The actor's two stored properties. */
  datatype Counter = Counter(value: int, waitQueue: seq<Waiter>)

  /** The shape the counter keeps when it starts from a non-negative value:
      never negative, and nobody waits while a slot is free. */
  predicate Healthy(c: Counter) {
    c.value >= 0 && (c.waitQueue != [] ==> c.value == 0)
  }

  /** `wait()`: with a free slot the caller takes it and goes on (`true`);
      otherwise it is suspended at the back of the queue (`false`). */
  function WaitStep(c: Counter, w: Waiter): (r: (Counter, bool))
    ensures r.1 <==> c.value > 0
    ensures Healthy(c) ==> Healthy(r.0)
  {
    if c.value > 0 then (Counter(c.value - 1, c.waitQueue), true)
    else (Counter(c.value, c.waitQueue + [w]), false)
  }

  /** `signal()`: the oldest suspended caller is resumed when there is one;
      otherwise one more slot becomes free. */
  function SignalStep(c: Counter): (r: (Counter, Option<Waiter>))
    ensures r.1.Some? <==> c.waitQueue != []
    ensures Healthy(c) ==> Healthy(r.0)
  {
    if c.waitQueue != [] then (Counter(c.value, c.waitQueue[1..]), Some(c.waitQueue[0]))
    else (Counter(c.value + 1, c.waitQueue), None)
  }

  /** One call on the actor. */
  datatype Call = Wait(waiter: Waiter) | Signal

  /** What a sequence of calls did: the final counter, the callers that took
      a slot at once, those that were suspended and those that were resumed,
      each in the order it happened, and how many signals were sent. */
  datatype Trace = Trace(
    counter: Counter,
    acquired: seq<Waiter>,
    suspended: seq<Waiter>,
    resumed: seq<Waiter>,
    signals: nat)

  function Record(t: Trace, call: Call): Trace {
    match call
    case Wait(w) =>
      var (c, ok) := WaitStep(t.counter, w);
      if ok then t.(counter := c, acquired := t.acquired + [w])
      else t.(counter := c, suspended := t.suspended + [w])
    case Signal =>
      var (c, r) := SignalStep(t.counter);
      t.(counter := c, resumed := t.resumed + (if r.Some? then [r.value] else []), signals := t.signals + 1)
  }

  /** The calls applied in order to a counter. */
  function Run(c: Counter, calls: seq<Call>): (t: Trace)
    ensures t.signals <= |calls|
  {
    if calls == [] then Trace(c, [], [], [], 0)
    else Record(Run(c, calls[..|calls| - 1]), calls[|calls| - 1])
  }

  /** The queue is first in, first out: the callers resumed so far, followed
      by those still waiting, are exactly the callers that waited before,
      followed by those suspended since, in the same order. */
  lemma {:induction false} RunFifo(c: Counter, calls: seq<Call>)
    ensures Run(c, calls).resumed + Run(c, calls).counter.waitQueue == c.waitQueue + Run(c, calls).suspended
  {
    if calls != [] {
      var before := Run(c, calls[..|calls| - 1]);
      RunFifo(c, calls[..|calls| - 1]);
      var q := before.counter.waitQueue;
      match calls[|calls| - 1]
      case Wait(w) =>
        if before.counter.value <= 0 {
          assert before.resumed + (q + [w]) == (before.resumed + q) + [w];
        }
      case Signal =>
        if q != [] {
          assert q == [q[0]] + q[1..];
          assert (before.resumed + [q[0]]) + q[1..] == before.resumed + q;
        }
    }
  }

  /** From a healthy counter every sequence of calls leaves a healthy one. */
  lemma {:induction false} RunHealthy(c: Counter, calls: seq<Call>)
    requires Healthy(c)
    ensures Healthy(Run(c, calls).counter)
  {
    if calls != [] {
      RunHealthy(c, calls[..|calls| - 1]);
    }
  }

  /** Slots are conserved: the free slots at the end plus every slot handed
      out (taken at once or passed to a resumed caller) equal the free slots
      at the start plus the slots given back by signals. */
  lemma {:induction false} RunConserves(c: Counter, calls: seq<Call>)
    ensures Run(c, calls).counter.value + |Run(c, calls).acquired| + |Run(c, calls).resumed|
      == c.value + Run(c, calls).signals
  {
    if calls != [] {
      RunConserves(c, calls[..|calls| - 1]);
    }
  }

  /** Resumptions are bounded twice over: by the callers that were ever
      queued, and by the signals sent (each signal resumes at most one). */
  lemma {:induction false} RunResumedBounded(c: Counter, calls: seq<Call>)
    ensures |Run(c, calls).resumed| <= |c.waitQueue| + |Run(c, calls).suspended|
    ensures |Run(c, calls).resumed| <= Run(c, calls).signals
  {
    RunFifo(c, calls);
    if calls != [] {
      RunResumedBounded(c, calls[..|calls| - 1]);
    }
  }

  /** The actor itself. `holders` counts the slots currently handed out:
      one more for each caller that takes a slot or is resumed, one less for
      each signal. */
  class AsyncSemaphore {
    var value: int
    var waitQueue: seq<Waiter>
    ghost var holders: int
    ghost const initial: int

    function State(): Counter
      reads this
    {
      Counter(value, waitQueue)
    }

    /** Every slot is either free or held. */
    ghost predicate Conserved()
      reads this
    {
      value + holders == initial
    }

    constructor (value: int)
      ensures State() == Counter(value, []) && holders == 0 && initial == value
      ensures Conserved()
      ensures value >= 0 ==> Healthy(State())
    {
      this.value := value;
      waitQueue := [];
      holders := 0;
      initial := value;
    }

    method Wait(w: Waiter) returns (acquired: bool)
      requires Conserved()
      modifies this
      ensures Conserved()
      ensures (State(), acquired) == WaitStep(old(State()), w)
      ensures holders == old(holders) + (if acquired then 1 else 0)
    {
      if value > 0 {
        value := value - 1;
        holders := holders + 1;
        return true;
      }
      waitQueue := waitQueue + [w];
      return false;
    }

    method Signal() returns (resumed: Option<Waiter>)
      requires Conserved()
      modifies this
      ensures Conserved()
      ensures (State(), resumed) == SignalStep(old(State()))
      ensures holders == old(holders) - (if resumed.Some? then 0 else 1)
    {
      if waitQueue != [] {
        resumed := Some(waitQueue[0]);
        waitQueue := waitQueue[1..];
      } else {
        resumed := None;
        value := value + 1;
        holders := holders - 1;
      }
    }
  }
}
