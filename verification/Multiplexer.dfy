/** The event multiplexer of the streaming chat endpoint.

    A generator races two tasks: one that fetches the next event of the parent
    agent's stream, one that fetches the next child event from a shared queue.
    Other tasks run only while the generator is suspended, that is at an `await`
    or at a `yield`.  What they do there is not under the generator's control, so
    it is an input: a script of bursts, one burst for each suspension.  A run that
    reaches the end of its script is observed as still suspended there; every
    prefix of every interleaving is therefore the run of some script. */
module Multiplexer {

  /** What the generator yields: a parent event, or a child event it wrapped. */
  datatype Output<P, C> = FromParent(parent: P) | FromChild(child: C)

  /** The task around the parent iterator: still running, holding the event it
      fetched, holding the end-of-stream sentinel, or holding an exception. */
  datatype ParentTask<P> = Fetching | Fetched(event: P) | Ended | Failed

  /** The task around `queue.get` with its timeout. */
  datatype ChildTask<C> = Getting | Took(event: C) | TimedOut

  /** How the parent's stream ends once its events are used up. */
  datatype Ending = Stops | Raises

  /** What another task may do while the generator is suspended. */
  datatype Action<C> =
    | Put(event: C)        // a producer puts an event on the queue
    | ParentCompletes      // the parent task finishes, if it is still running
    | ChildTakes           // the child task takes the head of the queue, if it can
    | ChildTimesOut        // the child task gives up waiting, if it is still running

  /** One suspension: what happens during it, and in which order the `done` set
      is iterated if this suspension is the wait that produces one. */
  datatype Burst<C> = Burst(actions: seq<Action<C>>, childFirst: bool)

  datatype Outcome = Running | Suspended | Raised | Returned

  /** What one pass of the loop yields: the events of the tasks that had finished when the
      wait resumed, in the order of the done set. */
  function Yields<P, C>(childFirst: bool, parent: ParentTask<P>, child: ChildTask<C>): seq<Output<P, C>> {
    if childFirst then ChildPart(child) + ParentPart(parent) else ParentPart(parent) + ChildPart(child)
  }

  function ParentPart<P, C>(parent: ParentTask<P>): seq<Output<P, C>> {
    if parent.Fetched? then [FromParent(parent.event)] else []
  }

  function ChildPart<P, C>(child: ChildTask<C>): seq<Output<P, C>> {
    if child.Took? then [FromChild(child.event)] else []
  }

  /** A wait of the loop: how many events of each kind had been yielded when it began, and
      how many the tasks had taken when it resumed. */
  datatype Wait = Wait(parentsOut: nat, childrenOut: nat, fetched: nat, taken: nat)

  /** At every wait, all that was taken before the previous one resumed has been yielded. */
  predicate Prompt(waits: seq<Wait>) {
    forall i :: 0 < i < |waits| ==>
      waits[i - 1].fetched <= waits[i].parentsOut && waits[i - 1].taken <= waits[i].childrenOut
  }

  predicate CaughtUp(waits: seq<Wait>, parentsOut: nat, childrenOut: nat) {
    waits != [] ==> waits[|waits| - 1].fetched <= parentsOut && waits[|waits| - 1].taken <= childrenOut
  }

  lemma PromptMore(waits: seq<Wait>, w: Wait)
    requires Prompt(waits) && CaughtUp(waits, w.parentsOut, w.childrenOut)
    ensures Prompt(waits + [w])
  {
  }

  /** The parent events among the first `n` outputs, in order. */
  function ParentsIn<P, C>(out: seq<Output<P, C>>, n: nat): seq<P>
    requires n <= |out|
  {
    if n == 0 then []
    else if out[n - 1].FromParent? then ParentsIn(out, n - 1) + [out[n - 1].parent]
    else ParentsIn(out, n - 1)
  }

  /** The child events among the first `n` outputs, in order. */
  function ChildrenIn<P, C>(out: seq<Output<P, C>>, n: nat): seq<C>
    requires n <= |out|
  {
    if n == 0 then []
    else if out[n - 1].FromChild? then ChildrenIn(out, n - 1) + [out[n - 1].child]
    else ChildrenIn(out, n - 1)
  }

  function ParentEvents<P, C>(out: seq<Output<P, C>>): seq<P> {
    ParentsIn(out, |out|)
  }

  function ChildEvents<P, C>(out: seq<Output<P, C>>): seq<C> {
    ChildrenIn(out, |out|)
  }

  /** Yielding one more event does not change what was yielded before. */
  lemma {:induction false} PrefixKept<P, C>(out: seq<Output<P, C>>, x: Output<P, C>, n: nat)
    requires n <= |out|
    ensures ParentsIn(out + [x], n) == ParentsIn(out, n) && ChildrenIn(out + [x], n) == ChildrenIn(out, n)
  {
    if n > 0 {
      PrefixKept(out, x, n - 1);
    }
  }

  lemma YieldedParent<P, C>(out: seq<Output<P, C>>, p: P)
    ensures ParentEvents(out + [FromParent(p)]) == ParentEvents(out) + [p]
    ensures ChildEvents(out + [FromParent(p)]) == ChildEvents(out)
  {
    PrefixKept(out, FromParent(p), |out|);
  }

  lemma YieldedChild<P, C>(out: seq<Output<P, C>>, c: C)
    ensures ParentEvents(out + [FromChild(c)]) == ParentEvents(out)
    ensures ChildEvents(out + [FromChild(c)]) == ChildEvents(out) + [c]
  {
    PrefixKept(out, FromChild(c), |out|);
  }

  lemma YieldsCount<P, C>(out: seq<Output<P, C>>, childFirst: bool, parent: ParentTask<P>, child: ChildTask<C>)
    ensures var after := out + Yields(childFirst, parent, child);
            && |ParentEvents(after)| == |ParentEvents(out)| + (if parent.Fetched? then 1 else 0)
            && |ChildEvents(after)| == |ChildEvents(out)| + (if child.Took? then 1 else 0)
  {
    var p: seq<Output<P, C>>, c: seq<Output<P, C>> := ParentPart(parent), ChildPart(child);
    if parent.Fetched? { YieldedParent<P, C>([], parent.event); }
    if child.Took? { YieldedChild<P, C>([], child.event); }
    assert [] + p == p && [] + c == c;
    if childFirst {
      CountTwo(out, c, p);
    } else {
      CountTwo(out, p, c);
    }
  }

  lemma CountTwo<P, C>(out: seq<Output<P, C>>, a: seq<Output<P, C>>, b: seq<Output<P, C>>)
    requires |a| <= 1 && |b| <= 1
    ensures var after := out + (a + b);
            && |ParentEvents(after)| == |ParentEvents(out)| + |ParentEvents(a)| + |ParentEvents(b)|
            && |ChildEvents(after)| == |ChildEvents(out)| + |ChildEvents(a)| + |ChildEvents(b)|
  {
    assert out + (a + b) == out + a + b && [] + a == a && [] + b == b;
    CountOne(out, a);
    CountOne(out + a, b);
  }

  lemma CountOne<P, C>(out: seq<Output<P, C>>, a: seq<Output<P, C>>)
    requires |a| <= 1
    ensures |ParentEvents(out + a)| == |ParentEvents(out)| + |ParentEvents(a)|
    ensures |ChildEvents(out + a)| == |ChildEvents(out)| + |ChildEvents(a)|
  {
    if a == [] {
      assert out + a == out;
    } else {
      assert a == [a[0]];
      PrefixKept(out, a[0], |out|);
      assert ParentsIn(a, 0) == [] && ChildrenIn(a, 0) == [];
    }
  }

  /** What the producers put during the first `n` actions, in order. */
  function PutsOf<C>(actions: seq<Action<C>>, n: nat): seq<C>
    requires n <= |actions|
  {
    if n == 0 then []
    else PutsOf(actions, n - 1) + if actions[n - 1].Put? then [actions[n - 1].event] else []
  }

  lemma PutsGrow<C>(put: seq<C>, actions: seq<Action<C>>, n: nat)
    requires n < |actions|
    ensures put + PutsOf(actions, n + 1) ==
            put + PutsOf(actions, n) + if actions[n].Put? then [actions[n].event] else []
  {
  }

  /** What the producers put during the first `n` suspensions, in order. */
  function PutsDuring<C>(script: seq<Burst<C>>, n: nat): seq<C>
    requires n <= |script|
  {
    if n == 0 then []
    else PutsDuring(script, n - 1) + PutsOf(script[n - 1].actions, |script[n - 1].actions|)
  }

  lemma PutsDuringMore<C>(script: seq<Burst<C>>, n: nat)
    requires n < |script|
    ensures PutsDuring(script, n + 1) == PutsDuring(script, n) + PutsOf(script[n].actions, |script[n].actions|)
  {
  }

  /** One of the first `n` actions lets the parent task finish. */
  predicate LetsParentFinish<C>(actions: seq<Action<C>>, n: nat)
    requires n <= |actions|
  {
    n > 0 && (actions[n - 1].ParentCompletes? || LetsParentFinish(actions, n - 1))
  }

  /** The parent task gets to finish during every suspension. */
  predicate Fair<C>(script: seq<Burst<C>>) {
    forall i :: 0 <= i < |script| ==> LetsParentFinish(script[i].actions, |script[i].actions|)
  }

  /** `all` consists of what was yielded, what is held and what waits, in that order. */
  ghost predicate Whole<T>(yielded: seq<T>, held: seq<T>, waiting: seq<T>, all: seq<T>) {
    && |all| == |yielded| + |held| + |waiting|
    && (forall i :: 0 <= i < |yielded| ==> yielded[i] == all[i])
    && (forall i :: 0 <= i < |held| ==> held[i] == all[|yielded| + i])
    && (forall i :: 0 <= i < |waiting| ==> waiting[i] == all[|yielded| + |held| + i])
  }

  lemma WholeIsConcat<T>(yielded: seq<T>, held: seq<T>, waiting: seq<T>, all: seq<T>)
    ensures Whole(yielded, held, waiting, all) <==> yielded + held + waiting == all
  {
    var whole := yielded + held + waiting;
    if Whole(yielded, held, waiting, all) {
      assert forall i :: 0 <= i < |all| ==> whole[i] == all[i];
    }
    if whole == all {
      assert forall i :: 0 <= i < |held| ==> held[i] == whole[|yielded| + i];
      assert forall i :: 0 <= i < |waiting| ==> waiting[i] == whole[|yielded| + |held| + i];
    }
  }

  lemma WholeAfterPut<T>(yielded: seq<T>, held: seq<T>, waiting: seq<T>, all: seq<T>, x: T)
    requires Whole(yielded, held, waiting, all)
    ensures Whole(yielded, held, waiting + [x], all + [x])
  {
  }

  lemma WholeAfterTake<T>(yielded: seq<T>, waiting: seq<T>, all: seq<T>)
    requires Whole(yielded, [], waiting, all) && waiting != []
    ensures Whole(yielded, [waiting[0]], waiting[1..], all)
    ensures Whole(yielded + [waiting[0]], [], waiting[1..], all)
  {
  }

  lemma WholeAfterYield<T>(yielded: seq<T>, x: T, waiting: seq<T>, all: seq<T>)
    requires Whole(yielded, [x], waiting, all)
    ensures Whole(yielded + [x], [], waiting, all)
  {
  }

  /** The generator's locals together with the tasks, the queue and the iterator. */
  class Multiplexer<P, C> {
    const stream: seq<P>          // the parent's whole stream
    const ending: Ending
    const script: seq<Burst<C>>   // what the other tasks will do
    var tick: nat                 // suspensions so far
    var unread: seq<P>            // parent events the iterator still has
    var queue: seq<C>
    var pendingParent: ParentTask<P>
    var pendingChild: ChildTask<C>
    var parentDone: bool
    var out: seq<Output<P, C>>    // what has been yielded
    ghost var put: seq<C>         // what the producers have put so far
    ghost var parentSpent: bool   // the result of the pending task was yielded already
    ghost var childSpent: bool
    ghost var waits: seq<Wait>    // the waits that have resumed
    ghost var fetches: nat        // how often each task was scheduled
    ghost var gets: nat

    ghost function HeldByParent(): seq<P>
      reads this`pendingParent, this`parentSpent
    {
      if pendingParent.Fetched? && !parentSpent then [pendingParent.event] else []
    }

    ghost function HeldByChild(): seq<C>
      reads this`pendingChild, this`childSpent
    {
      if pendingChild.Took? && !childSpent then [pendingChild.event] else []
    }

    /** Nothing lost, duplicated or reordered: on each side, what was yielded, what
        the pending task holds and what is still waiting make up the whole. */
    ghost predicate Conserved()
      reads this
    {
      && Whole(ParentEvents(out), HeldByParent(), unread, stream)
      && Whole(ChildEvents(out), HeldByChild(), queue, put)
      && (parentSpent ==> pendingParent.Fetched?) && (childSpent ==> pendingChild.Took?)
      && (pendingParent.Ended? ==> unread == [] && ending == Stops)
      && (pendingParent.Failed? ==> unread == [] && ending == Raises)
    }

    /** Holds at every suspension, hence whenever another task can look. */
    ghost predicate Valid()
      reads this
    {
      tick <= |script| && put == PutsDuring(script, tick) && Conserved()
    }

    /** Both tasks are armed or hold a result that was not yielded yet. */
    ghost predicate Armed()
      reads this
    {
      Valid() && !parentSpent && !childSpent
    }

    constructor (stream: seq<P>, ending: Ending, script: seq<Burst<C>>)
      ensures Armed() && !parentDone && tick == 0 && waits == []
      ensures this.stream == stream && this.ending == ending && this.script == script
    {
      this.stream, this.ending, this.script := stream, ending, script;
      tick, unread, queue, out, put := 0, stream, [], [], [];
      pendingParent, pendingChild, parentDone := Fetching, Getting, false;
      parentSpent, childSpent := false, false;
      waits, fetches, gets := [], 1, 1;
    }

    /** A producer puts an event on the queue. */
    method Produce(c: C)
      requires Conserved()
      modifies this`queue, this`put
      ensures Conserved() && put == old(put) + [c] && queue == old(queue) + [c]
    {
      WholeAfterPut(ChildEvents(out), HeldByChild(), queue, put, c);
      queue, put := queue + [c], put + [c];
    }

    /** The running parent task fetches an event, or finds the stream at its end. */
    method CompleteParent()
      requires Conserved() && pendingParent.Fetching?
      modifies this`unread, this`pendingParent
      ensures Conserved() && !pendingParent.Fetching?
    {
      if unread != [] {
        WholeAfterTake(ParentEvents(out), unread, stream);
        pendingParent, unread := Fetched(unread[0]), unread[1..];
      } else {
        pendingParent := if ending == Stops then Ended else Failed;
      }
    }

    /** The running child task takes the head of the queue. */
    method CompleteChild()
      requires Conserved() && pendingChild.Getting? && queue != []
      modifies this`queue, this`pendingChild
      ensures Conserved() && pendingChild == Took(old(queue[0])) && queue == old(queue[1..])
    {
      WholeAfterTake(ChildEvents(out), queue, put);
      pendingChild, queue := Took(queue[0]), queue[1..];
    }

    /** One step of another task.  A finished task never changes again.  With
        `cancelled` the child task is being cancelled: it completes no `get` any more,
        and an unfinished `get` leaves the queue alone. */
    method Perform(a: Action<C>, cancelled: bool)
      requires Conserved()
      modifies this`unread, this`queue, this`pendingParent, this`pendingChild, this`put
      ensures Conserved() && put == old(put) + if a.Put? then [a.event] else []
      ensures old(!pendingParent.Fetching?) ==> pendingParent == old(pendingParent)
      ensures old(!pendingChild.Getting?) || cancelled ==> pendingChild == old(pendingChild)
      ensures a.ParentCompletes? ==> !pendingParent.Fetching?
    {
      match a {
        case Put(c) =>
          Produce(c);
        case ParentCompletes =>
          if pendingParent.Fetching? { CompleteParent(); }
        case ChildTakes =>
          if pendingChild.Getting? && queue != [] && !cancelled { CompleteChild(); }
        case ChildTimesOut =>
          if pendingChild.Getting? && !cancelled { pendingChild := TimedOut; }
      }
    }

    /** What the other tasks do during one suspension. */
    method PerformAll(actions: seq<Action<C>>, cancelled: bool)
      requires Conserved()
      modifies this`unread, this`queue, this`pendingParent, this`pendingChild, this`put
      ensures Conserved() && put == old(put) + PutsOf(actions, |actions|)
      ensures old(!pendingParent.Fetching?) ==> pendingParent == old(pendingParent)
      ensures old(!pendingChild.Getting?) || cancelled ==> pendingChild == old(pendingChild)
      ensures LetsParentFinish(actions, |actions|) ==> !pendingParent.Fetching?
    {
      var i := 0;
      while i < |actions|
        invariant i <= |actions|
        invariant Conserved() && put == old(put) + PutsOf(actions, i)
        invariant old(!pendingParent.Fetching?) ==> pendingParent == old(pendingParent)
        invariant old(!pendingChild.Getting?) || cancelled ==> pendingChild == old(pendingChild)
        invariant LetsParentFinish(actions, i) ==> !pendingParent.Fetching?
      {
        Perform(actions[i], cancelled);
        PutsGrow(old(put), actions, i);
        i := i + 1;
      }
    }

    /** One suspension; `alive` is false at the end of the script. */
    method Suspend(cancelled: bool) returns (alive: bool)
      requires Valid()
      modifies this`tick, this`unread, this`queue, this`pendingParent, this`pendingChild, this`put
      ensures Valid()
      ensures alive == (old(tick) < |script|) && tick == old(tick) + if alive then 1 else 0
      ensures old(!pendingParent.Fetching?) ==> pendingParent == old(pendingParent)
      ensures old(!pendingChild.Getting?) || cancelled ==> pendingChild == old(pendingChild)
      ensures alive && LetsParentFinish(script[old(tick)].actions, |script[old(tick)].actions|) ==>
              !pendingParent.Fetching?
    {
      if tick == |script| { return false; }
      PerformAll(script[tick].actions, cancelled);
      PutsDuringMore(script, tick);
      tick := tick + 1;
      return true;
    }

    ghost function Resumed(): Wait
      reads this`out, this`pendingParent, this`parentSpent, this`pendingChild, this`childSpent
    {
      Wait(|ParentEvents(out)|, |ChildEvents(out)|, |ParentEvents(out)| + |HeldByParent()|,
           |ChildEvents(out)| + |HeldByChild()|)
    }

    /** `asyncio.wait(..., FIRST_COMPLETED)`: suspended until a task has finished. */
    method AwaitFirst() returns (alive: bool)
      requires Armed()
      modifies this`tick, this`unread, this`queue, this`pendingParent, this`pendingChild, this`put
      ensures Armed() && tick >= old(tick)
      ensures alive ==> tick > old(tick)
      ensures Fair(script) ==> tick <= old(tick) + 1 && (alive ==> !pendingParent.Fetching?)
      ensures !alive ==> tick == |script|
      ensures alive ==> !pendingParent.Fetching? || !pendingChild.Getting?
    {
      alive := Suspend(false);
      while alive && pendingParent.Fetching? && pendingChild.Getting?
        invariant Armed() && tick >= old(tick)
        invariant if alive then tick > old(tick) else tick == |script|
        invariant Fair(script) ==> tick <= old(tick) + 1 && (alive ==> !pendingParent.Fetching?)
        decreases |script| - tick, alive
      {
        alive := Suspend(false);
      }
    }

    ghost method NoteWait()
      requires Armed()
      modifies this`waits
      ensures Armed() && waits == old(waits) + [Resumed()]
    {
      waits := waits + [Resumed()];
    }

    /** Hand the parent task's event to the consumer. */
    method EmitParent()
      requires Valid() && pendingParent.Fetched? && !parentSpent
      modifies this`out, this`parentSpent
      ensures Valid() && parentSpent && out == old(out) + [FromParent(pendingParent.event)]
      ensures |ParentEvents(out)| == old(|ParentEvents(out)|) + 1
    {
      YieldedParent(out, pendingParent.event);
      WholeAfterYield(ParentEvents(out), pendingParent.event, unread, stream);
      out, parentSpent := out + [FromParent(pendingParent.event)], true;
    }

    /** Hand the child task's event to the consumer. */
    method EmitChild()
      requires Valid() && pendingChild.Took? && !childSpent
      modifies this`out, this`childSpent
      ensures Valid() && childSpent && out == old(out) + [FromChild(pendingChild.event)]
      ensures ParentEvents(out) == old(ParentEvents(out))
    {
      YieldedChild(out, pendingChild.event);
      WholeAfterYield(ChildEvents(out), pendingChild.event, queue, put);
      out, childSpent := out + [FromChild(pendingChild.event)], true;
    }

    /** Schedule the next parent event. */
    method RearmParent()
      requires Valid() && pendingParent.Fetched? && parentSpent
      modifies this`pendingParent, this`parentSpent, this`fetches
      ensures Valid() && pendingParent == Fetching && !parentSpent && fetches == old(fetches) + 1
    {
      pendingParent, parentSpent, fetches := Fetching, false, fetches + 1;
    }

    /** Yield the parent task's event, and fetch the next one when resumed. */
    method ForwardParent() returns (alive: bool)
      requires Armed() && pendingParent.Fetched?
      modifies this`out, this`parentSpent, this`tick, this`unread, this`queue, this`fetches
      modifies this`pendingParent, this`pendingChild, this`put
      ensures Valid() && old(tick) <= tick <= old(tick) + 1
      ensures if alive then Armed() && pendingParent == Fetching && fetches == old(fetches) + 1 else tick == |script|
      ensures out == old(out + [FromParent(pendingParent.event)])
      ensures |ParentEvents(out)| == old(|ParentEvents(out)|) + 1
      ensures old(!pendingChild.Getting?) ==> pendingChild == old(pendingChild)
    {
      EmitParent();
      alive := Suspend(false);
      if alive { RearmParent(); }
    }

    /** Schedule the next child event, after a timeout as well. */
    method RearmChild()
      requires Valid() && (pendingChild.TimedOut? || (pendingChild.Took? && childSpent))
      modifies this`pendingChild, this`childSpent, this`gets
      ensures Valid() && pendingChild == Getting && !childSpent && gets == old(gets) + 1
    {
      pendingChild, childSpent, gets := Getting, false, gets + 1;
    }

    /** Yield the child task's event; its replacement is scheduled by the caller. */
    method ForwardChild() returns (alive: bool)
      requires Armed() && pendingChild.Took?
      modifies this`out, this`childSpent, this`tick, this`unread, this`queue
      modifies this`pendingParent, this`pendingChild, this`put
      ensures Valid() && !parentSpent && old(tick) <= tick <= old(tick) + 1
      ensures out == old(out + [FromChild(pendingChild.event)])
      ensures if alive then pendingChild.Took? && childSpent else tick == |script|
      ensures ParentEvents(out) == old(ParentEvents(out))
      ensures old(!pendingParent.Fetching?) ==> pendingParent == old(pendingParent)
    {
      EmitChild();
      alive := Suspend(false);
    }

    /** The branch of the loop for a finished parent task. */
    method HandleParent() returns (outcome: Outcome)
      requires Armed() && !pendingParent.Fetching? && !parentDone
      modifies this
      ensures Valid() && old(tick) <= tick <= old(tick) + 1 && waits == old(waits) && gets == old(gets)
      ensures out == old(out) + ParentPart(old(pendingParent))
      ensures outcome == Suspended ==> old(pendingParent.Fetched?)
      ensures outcome == Running ==> fetches == old(fetches) + if old(pendingParent).Fetched? then 1 else 0
      ensures outcome == Running ==> parentDone == old(pendingParent.Ended?)
      ensures outcome == Raised <==> old(pendingParent.Failed?)
      ensures outcome == Suspended ==> tick == |script|
      ensures outcome == Running ==> Armed() && (parentDone <==> pendingParent.Ended?)
      ensures outcome == Running && parentDone ==> pendingChild == old(pendingChild)
      ensures outcome == Raised ==> ending == Raises && unread == [] && pendingParent.Failed?
      ensures outcome != Returned
      ensures old(!pendingChild.Getting?) ==> pendingChild == old(pendingChild)
    {
      match pendingParent {
        case Failed =>
          return Raised;
        case Ended =>
          parentDone := true;
        case Fetched(_) =>
          var alive := ForwardParent();
          if !alive { return Suspended; }
      }
      return Running;
    }

    /** The branch of the loop for a finished child task. */
    method HandleChild() returns (outcome: Outcome)
      requires Armed() && !pendingChild.Getting?
      modifies this
      ensures Valid() && old(tick) <= tick <= old(tick) + 1 && parentDone == old(parentDone)
      ensures waits == old(waits) && fetches == old(fetches)
      ensures out == old(out) + ChildPart(old(pendingChild))
      ensures outcome == Suspended ==> old(pendingChild.Took?)
      ensures outcome == Running ==> gets == old(gets) + 1
      ensures outcome == Suspended ==> tick == |script|
      ensures outcome == Running ==> Armed() && pendingChild == Getting
      ensures outcome == Running || outcome == Suspended
      ensures old(!pendingParent.Fetching?) ==> pendingParent == old(pendingParent)
    {
      if pendingChild.Took? {
        var alive := ForwardChild();
        if !alive { return Suspended; }
      }
      RearmChild();
      return Running;
    }

    /** What a pass has done with what was finished at its start, if it was not cut short. */
    twostate predicate Passed(childFirst: bool)
      reads this
    {
      && Armed() && out == old(out) + Yields(childFirst, old(pendingParent), old(pendingChild))
      && parentDone == old(pendingParent.Ended?)
      && fetches == old(fetches) + (if old(pendingParent).Fetched? then 1 else 0)
      && gets == old(gets) + (if old(pendingChild).Getting? then 0 else 1)
      && (!childFirst && old(!pendingChild.Getting?) ==> pendingChild == Getting)
      && (parentDone && old(!pendingChild.Getting?) ==> pendingChild == Getting)
      && (parentDone ==> pendingParent.Ended? && (old(pendingChild.Getting?) ==> pendingChild == Getting))
    }

    /** `for task in done`: the tasks that had finished when the wait resumed, in
        either order, even if another one finishes in the meantime. */
    method HandleDone(childFirst: bool) returns (outcome: Outcome)
      requires Armed() && !parentDone
      modifies this
      ensures Valid() && old(tick) <= tick <= old(tick) + 2 && waits == old(waits) && outcome != Returned
      ensures outcome == Running ==> Passed(childFirst)
      ensures outcome == Suspended ==>
                && tick == |script|
                && old(out) < out <= old(out) + Yields(childFirst, old(pendingParent), old(pendingChild))
      ensures outcome == Raised <==> old(pendingParent.Failed?) && outcome != Suspended
      ensures outcome == Raised ==>
                && ending == Raises && unread == [] && pendingParent.Failed?
                && out == old(out) + if childFirst then ChildPart(old(pendingChild)) else []
    {
      if childFirst { outcome := ChildThenParent(); } else { outcome := ParentThenChild(); }
    }

    method ChildThenParent() returns (outcome: Outcome)
      requires Armed() && !parentDone
      modifies this
      ensures Valid() && old(tick) <= tick <= old(tick) + 2 && waits == old(waits) && outcome != Returned
      ensures outcome == Running ==> Passed(true)
      ensures outcome == Suspended ==>
                && tick == |script|
                && old(out) < out <= old(out) + Yields(true, old(pendingParent), old(pendingChild))
      ensures outcome == Raised <==> old(pendingParent.Failed?) && outcome != Suspended
      ensures outcome == Raised ==>
                && ending == Raises && unread == [] && pendingParent.Failed?
                && out == old(out) + ChildPart(old(pendingChild))
    {
      var parentReady, childReady := !pendingParent.Fetching?, !pendingChild.Getting?;
      ghost var start, parent, child := out, pendingParent, pendingChild;
      outcome := Running;
      if childReady { outcome := HandleChild(); }
      assert out == start + ChildPart(child);
      if outcome == Running && parentReady { outcome := HandleParent(); }
      assert start + ChildPart(child) + ParentPart(parent) == start + Yields(true, parent, child);
    }

    method ParentThenChild() returns (outcome: Outcome)
      requires Armed() && !parentDone
      modifies this
      ensures Valid() && old(tick) <= tick <= old(tick) + 2 && waits == old(waits) && outcome != Returned
      ensures outcome == Running ==> Passed(false)
      ensures outcome == Suspended ==>
                && tick == |script|
                && old(out) < out <= old(out) + Yields(false, old(pendingParent), old(pendingChild))
      ensures outcome == Raised <==> old(pendingParent.Failed?)
      ensures outcome == Raised ==>
                && ending == Raises && unread == [] && pendingParent.Failed? && out == old(out)
    {
      var parentReady, childReady := !pendingParent.Fetching?, !pendingChild.Getting?;
      ghost var start, parent, child := out, pendingParent, pendingChild;
      outcome := Running;
      if parentReady { outcome := HandleParent(); }
      assert out == start + ParentPart(parent);
      if outcome == Running && childReady { outcome := HandleChild(); }
      assert start + ParentPart(parent) + ChildPart(child) == start + Yields(false, parent, child);
    }

    /** Hand the head of the queue to the consumer. */
    method EmitNext()
      requires Armed() && pendingChild == Getting && queue != []
      modifies this`out, this`queue
      ensures Armed() && out == old(out + [FromChild(queue[0])]) && queue == old(queue[1..])
      ensures |ChildEvents(out)| == old(|ChildEvents(out)|) + 1
    {
      YieldedChild(out, queue[0]);
      WholeAfterTake(ChildEvents(out), queue, put);
      out, queue := out + [FromChild(queue[0])], queue[1..];
    }

    /** Yield what is left on the queue, including what arrives meanwhile. */
    method Drain() returns (outcome: Outcome)
      requires Armed() && pendingParent.Ended? && pendingChild == Getting
      modifies this
      ensures Valid() && pendingParent.Ended? && waits == old(waits)
      ensures outcome == Suspended || outcome == Returned
      ensures outcome == Returned ==> HeldByChild() == queue == []
      ensures outcome == Suspended ==> tick == |script| <= old(tick) + |put|
    {
      ghost var already := |ChildEvents(out)|;
      while queue != []
        invariant |ChildEvents(out)| - already == tick - old(tick) && waits == old(waits)
        invariant Armed() && pendingParent.Ended? && pendingChild == Getting
        decreases |script| - tick
      {
        EmitNext();
        var alive := Suspend(true);
        if !alive { return Suspended; }
      }
      return Returned;
    }

    /** Nothing that was taken before the last wait resumed is held back. */
    ghost predicate UpToDate()
      reads this
    {
      Armed() && Prompt(waits) && CaughtUp(waits, |ParentEvents(out)|, |ChildEvents(out)|)
    }

    ghost method BeginPass(childFirst: bool)
      requires UpToDate()
      modifies this`waits
      ensures Armed() && Prompt(waits)
      ensures var after := out + Yields(childFirst, pendingParent, pendingChild);
              CaughtUp(waits, |ParentEvents(after)|, |ChildEvents(after)|) &&
              |ParentEvents(after)| == |ParentEvents(out)| + if pendingParent.Fetched? then 1 else 0
    {
      PromptMore(waits, Resumed());
      NoteWait();
      YieldsCount(out, childFirst, pendingParent, pendingChild);
    }

    /** A pass with what had finished when the wait resumed; `ready` says whether the parent had. */
    method HandleWait(childFirst: bool, ghost ready: bool) returns (outcome: Outcome)
      requires UpToDate() && !parentDone && ready == !pendingParent.Fetching?
      modifies this
      ensures Valid() && old(tick) <= tick <= old(tick) + 2 && Prompt(waits) && outcome != Returned
      ensures outcome == Suspended ==> tick == |script|
      ensures outcome == Running ==>
                && UpToDate() && (parentDone ==> pendingChild == Getting && pendingParent.Ended?)
                && |ParentEvents(out)| == old(|ParentEvents(out)|) + (if old(pendingParent.Fetched?) then 1 else 0)
                && (ready && !parentDone ==> old(pendingParent.Fetched?))
      ensures outcome == Raised ==> ending == Raises && unread == [] && pendingParent.Failed?
    {
      ghost var after := out + Yields(childFirst, pendingParent, pendingChild);
      BeginPass(childFirst);
      outcome := HandleDone(childFirst);
      if outcome == Running { assert out == after; }
    }

    /** One turn of the loop. */
    method Pass() returns (outcome: Outcome)
      requires UpToDate() && !parentDone
      modifies this
      ensures Valid() && tick >= old(tick) && Prompt(waits) && outcome != Returned
      ensures outcome == Suspended ==> tick == |script|
      ensures Fair(script) ==> tick <= old(tick) + 3
      ensures outcome == Running ==>
                && UpToDate() && tick > old(tick) && (parentDone ==> pendingChild == Getting && pendingParent.Ended?)
                && |ParentEvents(out)| >= old(|ParentEvents(out)|)
                && (Fair(script) && !parentDone ==> |ParentEvents(out)| == old(|ParentEvents(out)|) + 1)
      ensures outcome == Raised ==> ending == Raises && unread == [] && pendingParent.Failed?
    {
      var alive := AwaitFirst();
      if !alive { return Suspended; }
      outcome := HandleWait(script[tick - 1].childFirst, !pendingParent.Fetching?);
    }

    /** The generator's body, from its first statement to wherever the script ends. */
    method Run() returns (outcome: Outcome)
      requires Armed() && !parentDone && tick == 0 && waits == []
      modifies this
      ensures Valid() && outcome != Running && Prompt(waits)
      ensures outcome == Returned ==> pendingParent.Ended? && HeldByChild() == queue == []
      ensures outcome == Raised ==> ending == Raises && unread == [] && pendingParent.Failed?
      ensures outcome == Suspended ==> tick == |script|
      ensures outcome == Suspended && Fair(script) ==> |script| <= 3 * |stream| + 4 + |put|
    {
      while !parentDone
        invariant Fair(script) ==> tick <= 3 * |ParentEvents(out)| + if parentDone then 3 else 0
        invariant UpToDate() && (parentDone ==> pendingChild == Getting && pendingParent.Ended?)
        decreases |script| - tick, !parentDone
      {
        outcome := Pass();
        if outcome != Running { return; }
      }
      // pending_child.cancel(); await pending_child: the task holds no event here
      assert !pendingChild.Took?;
      var alive := Suspend(true);
      if !alive { return Suspended; }
      outcome := Drain();
    }
  }

  /** `_merged_event_stream` over every stream and every script.  `n` is the number
      of suspensions the run has been through. */
  method MergedEventStream<P, C>(stream: seq<P>, ending: Ending, script: seq<Burst<C>>)
    returns (out: seq<Output<P, C>>, outcome: Outcome, n: nat, ghost waits: seq<Wait>)
    ensures Prompt(waits)
    ensures n <= |script| && outcome != Running
    ensures ParentEvents(out) <= stream && ChildEvents(out) <= PutsDuring(script, n)
    ensures outcome == Returned ==>
              ending == Stops && ParentEvents(out) == stream && ChildEvents(out) == PutsDuring(script, n)
    ensures outcome == Raised ==> ending == Raises && ParentEvents(out) == stream
    ensures outcome == Suspended ==> n == |script|
    ensures Fair(script) && outcome == Suspended ==>
              |script| <= 3 * |stream| + 4 + |PutsDuring(script, |script|)|
  {
    var m := new Multiplexer(stream, ending, script);
    outcome := m.Run();
    out, n, waits := m.out, m.tick, m.waits;
  }
}
