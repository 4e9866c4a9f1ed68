/** Mapping over a list with a bounded number of workers that share one counter. A worker's claim of the next index
    is one step, since nothing is awaited between reading and advancing the counter; its result arrives in another. */
module WorkerPool {
  import opened Options

  /** A busy worker awaits the call on `item` and will store its value at `index`. */
  datatype Worker<T> = Ready | Busy(index: nat, item: T) | Finished

  /** `results[i]` is filled in once the call on item i has returned. */
  datatype Pool<T, R> = Pool(items: seq<T>, next: nat, workers: seq<Worker<T>>, results: seq<Option<R>>)

  datatype Event = Claim(w: nat) | Arrive(w: nat)

  function Start<T, R>(items: seq<T>, concurrency: nat): Pool<T, R> {
    Pool(items, 0, seq(if concurrency < |items| then concurrency else |items|, i => Ready), seq(|items|, i => None))
  }

  function Step<T, R>(fn: T -> R, p: Pool<T, R>, e: Event): (q: Pool<T, R>)
    requires |p.results| == |p.items|
    ensures q.items == p.items && |q.results| == |p.results|
  {
    match e
    case Claim(w) =>
      if !(w < |p.workers| && p.workers[w].Ready?) then p
      else if p.next < |p.items| then p.(workers := p.workers[w := Busy(p.next, p.items[p.next])], next := p.next + 1)
      else p.(workers := p.workers[w := Finished])
    case Arrive(w) =>
      if !(w < |p.workers| && p.workers[w].Busy? && p.workers[w].index < |p.results|) then p
      else p.(workers := p.workers[w := Ready], results := p.results[p.workers[w].index := Some(fn(p.workers[w].item))])
  }

  predicate Held<T, R>(p: Pool<T, R>, i: nat) {
    exists w :: 0 <= w < |p.workers| && p.workers[w].Busy? && p.workers[w].index == i
  }

  /** An index is in the hands of at most one worker, and only until its result is there; no worker stops early. */
  predicate Exclusive<T, R(==)>(p: Pool<T, R>) {
    && |p.results| == |p.items| && p.next <= |p.items|
    && (forall w :: 0 <= w < |p.workers| && p.workers[w].Busy? ==>
      p.workers[w].index < p.next && p.results[p.workers[w].index].None?)
    && (forall v, w :: 0 <= v < w < |p.workers| && p.workers[v].Busy? && p.workers[w].Busy? ==>
      p.workers[v].index != p.workers[w].index)
    && (forall i :: p.next <= i < |p.items| ==> p.results[i].None?)
    && (forall w :: 0 <= w < |p.workers| && p.workers[w].Finished? ==> p.next == |p.items|)
  }

  /** Every claimed index is answered or held. */
  predicate Covered<T, R>(p: Pool<T, R>)
    requires |p.results| == |p.items| && p.next <= |p.items|
  {
    forall i :: 0 <= i < p.next && p.results[i].None? ==> Held(p, i)
  }

  /** A call is made on the item of its index, and a result is the value of that call. */
  ghost predicate Matched<T, R>(fn: T -> R, p: Pool<T, R>) {
    && |p.results| == |p.items|
    && (forall w :: 0 <= w < |p.workers| && p.workers[w].Busy? ==>
          p.workers[w].index < |p.items| && p.workers[w].item == p.items[p.workers[w].index])
    && (forall i :: 0 <= i < |p.items| && p.results[i].Some? ==> p.results[i].value == fn(p.items[i]))
  }

  ghost predicate Inv<T, R>(fn: T -> R, p: Pool<T, R>) { Exclusive(p) && Covered(p) && Matched(fn, p) }

  lemma ExclusiveStep<T, R>(fn: T -> R, p: Pool<T, R>, e: Event)
    requires Exclusive(p)
    ensures Exclusive(Step(fn, p, e))
  {}

  lemma MatchedStep<T, R>(fn: T -> R, p: Pool<T, R>, e: Event)
    requires Matched(fn, p)
    ensures Matched(fn, Step(fn, p, e))
  {}

  lemma HeldStep<T, R>(fn: T -> R, p: Pool<T, R>, e: Event, i: nat)
    requires Exclusive(p) && Covered(p) && i < Step(fn, p, e).next && Step(fn, p, e).results[i].None?
    ensures Held(Step(fn, p, e), i)
  {
    var q := Step(fn, p, e);
    if e.Claim? && i == p.next {
      assert q.workers[e.w] == Busy(i, p.items[i]);
    } else {
      assert Held(p, i);
      var w :| 0 <= w < |p.workers| && p.workers[w].Busy? && p.workers[w].index == i;
      assert q.workers[w] == p.workers[w];
    }
  }

  lemma StepInv<T, R>(fn: T -> R, p: Pool<T, R>, e: Event)
    requires Inv(fn, p)
    ensures Inv(fn, Step(fn, p, e))
  {
    ExclusiveStep(fn, p, e);
    MatchedStep(fn, p, e);
    hide Step, Held, Matched;
    forall i | 0 <= i < Step(fn, p, e).next && Step(fn, p, e).results[i].None?
      ensures Held(Step(fn, p, e), i)
    {
      HeldStep(fn, p, e, i);
    }
  }

  function Run<T, R>(fn: T -> R, p: Pool<T, R>, events: seq<Event>): (q: Pool<T, R>)
    requires |p.results| == |p.items|
    ensures |q.results| == |q.items| && q.items == p.items
  {
    if events == [] then p else Step(fn, Run(fn, p, events[..|events| - 1]), events[|events| - 1])
  }

  lemma {:induction false} RunInv<T, R>(fn: T -> R, items: seq<T>, concurrency: nat, events: seq<Event>)
    ensures Inv(fn, Run(fn, Start(items, concurrency), events))
    ensures |Run(fn, Start(items, concurrency), events).workers| == if concurrency < |items| then concurrency
      else |items|
  {
    if events != [] {
      RunInv(fn, items, concurrency, events[..|events| - 1]);
      StepInv(fn, Run(fn, Start(items, concurrency), events[..|events| - 1]), events[|events| - 1]);
    }
  }

  /** The indices whose call was started, in order. */
  function Started<T, R>(fn: T -> R, items: seq<T>, concurrency: nat, events: seq<Event>): seq<nat> {
    if events == [] then []
    else
      var init := events[..|events| - 1];
      var p, e := Run(fn, Start(items, concurrency), init), events[|events| - 1];
      if e.Claim? && e.w < |p.workers| && p.workers[e.w].Ready? && p.next < |items|
      then Started(fn, items, concurrency, init) + [p.next]
      else Started(fn, items, concurrency, init)
  }

  /** Calls start in list order, each item once. */
  lemma {:induction false} EachItemStartsOnce<T, R>(fn: T -> R, items: seq<T>, concurrency: nat, events: seq<Event>)
    ensures var p := Run(fn, Start(items, concurrency), events); var started := Started(fn, items, concurrency, events);
      |started| == p.next <= |items| && forall i :: 0 <= i < p.next ==> started[i] == i
  {
    if events != [] {
      EachItemStartsOnce(fn, items, concurrency, events[..|events| - 1]);
      RunInv(fn, items, concurrency, events[..|events| - 1]);
    }
  }

  /** However the calls interleave, when every worker has stopped, and there is at least one if there are items, every
      item was started exactly once and the list of results is the list of the values of the calls, in the order of
      the items. */
  lemma AllDone<T, R>(fn: T -> R, items: seq<T>, concurrency: nat, events: seq<Event>)
    requires concurrency > 0
    requires var p := Run(fn, Start(items, concurrency), events);
      forall w :: 0 <= w < |p.workers| ==> p.workers[w].Finished?
    ensures var p := Run(fn, Start(items, concurrency), events);
      p.next == |items| && p.results == seq(|items|, i requires 0 <= i < |items| => Some(fn(items[i])))
  {
    RunInv(fn, items, concurrency, events);
    var p := Run(fn, Start(items, concurrency), events);
    if |items| > 0 { assert p.workers[0].Finished?; }
    forall i | 0 <= i < |items|
      ensures p.results[i].Some?
    {
      assert p.results[i].None? ==> Held(p, i);
    }
  }
}
