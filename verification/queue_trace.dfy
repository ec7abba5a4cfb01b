/** What the queue must hand out, read off the events of a run alone. */
module QueueTrace {
  import opened UnsignedInt
  import opened QueueModel
  import opened QueueProofs

  // ----- what the events say -----

  /** The producers whose attempts found room, in order. */
  ghost function Produced(capacity: nat, es: seq<Event>): seq<nat>
    decreases |es|, 0
  {
    if es == [] then [] else
    var n := |es| - 1;
    var before := Produced(capacity, es[..n]);
    if es[n].Produce? && |before| < |Consumed(capacity, es[..n])| + capacity then before + [es[n].p] else before
  }

  predicate IsTest(e: Event)
  {
    e.Test? || e.Return?
  }

  /** The consumers whose tests found an item, in order. */
  ghost function Consumed(capacity: nat, es: seq<Event>): seq<nat>
    decreases |es|, 0
  {
    if es == [] then [] else
    var n := |es| - 1;
    var before := Consumed(capacity, es[..n]);
    if IsTest(es[n]) && |before| < |Produced(capacity, es[..n])| then before + [es[n].c] else before
  }

  ghost predicate Empty(capacity: nat, es: seq<Event>)
  {
    |Consumed(capacity, es)| == |Produced(capacity, es)|
  }

  /** Some test of the consumer found stop raised: at the top of its loop, or with the queue empty. */
  ghost predicate Leaves(capacity: nat, es: seq<Event>, c: nat)
  {
    es != [] &&
    var n := |es| - 1;
    || Leaves(capacity, es[..n], c)
    || (es[n] == ReadStop(c) && Stop in es[..n])
    || (IsTest(es[n]) && es[n].c == c && Stop in es[..n] && Empty(capacity, es[..n]))
  }

  // ----- the state follows -----

  ghost predicate Follows(s: State, es: seq<Event>)
  {
    && (s.stop <==> Stop in es)
    && s.pushed == Produced(s.capacity, es)
    && |s.popped| == |Consumed(s.capacity, es)|
    && (forall i :: 0 <= i < |s.popped| ==> s.popped[i].consumer == Consumed(s.capacity, es)[i])
    && (forall c :: 0 <= c < |s.consumers| ==> (s.consumers[c].Exited? <==> Leaves(s.capacity, es, c)))
  }

  lemma FollowsStep(s: State, es: seq<Event>, e: Event)
    requires Inv(s) && Follows(s, es) && Enabled(s, e)
    ensures Follows(Step(s, e), es + [e])
  {
    hide Wrap;
    assert (es + [e])[..|es + [e]| - 1] == es;
  }

  lemma {:induction false} RunLast(s: State, es: seq<Event>)
    requires Feasible(s, es) && es != []
    ensures var n := |es| - 1;
            Feasible(s, es[..n]) && Enabled(Run(s, es[..n]), es[n]) && Run(s, es) == Step(Run(s, es[..n]), es[n])
    decreases |es|
  {
    var n := |es| - 1;
    if n > 0 {
      RunLast(Step(s, es[0]), es[1..]);
      assert es[1..][..n - 1] == es[..n][1..];
    }
  }

  lemma FreshFollows(capacity: nat, consumers: nat)
    ensures Follows(Init(capacity, consumers), [])
  {
  }

  lemma ConsumersStay(s: State, e: Event)
    requires Enabled(s, e)
    ensures |Step(s, e).consumers| == |s.consumers|
  {
  }

  lemma {:induction false} StateFollows(capacity: nat, consumers: nat, es: seq<Event>)
    requires Feasible(Init(capacity, consumers), es)
    ensures var s := Run(Init(capacity, consumers), es);
            Inv(s) && Follows(s, es) && s.capacity == capacity && |s.consumers| == consumers
    decreases |es|
  {
    hide Follows, Inv;
    InvInit(capacity, consumers);
    InvRun(Init(capacity, consumers), es);
    if es == [] {
      FreshFollows(capacity, consumers);
    } else {
      hide Step, Enabled;
      var n := |es| - 1;
      RunLast(Init(capacity, consumers), es);
      StateFollows(capacity, consumers, es[..n]);
      FollowsStep(Run(Init(capacity, consumers), es[..n]), es[..n], es[n]);
      ConsumersStay(Run(Init(capacity, consumers), es[..n]), es[n]);
      assert es[..n] + [es[n]] == es;
    }
  }

  // ----- what producers and consumers see -----

  /** The i-th successful test gets the item of the i-th successful attempt, numbered i modulo 2^32. */
  lemma ItemsFollowCalls(capacity: nat, consumers: nat, es: seq<Event>)
    requires Feasible(Init(capacity, consumers), es)
    ensures var s := Run(Init(capacity, consumers), es);
            var from, to := Produced(capacity, es), Consumed(capacity, es);
            && |s.popped| == |to| <= |from| && |s.queue| == |from| - |to| <= capacity
            && (forall i :: 0 <= i < |to| ==> s.popped[i] == Pop(to[i], WorkItem(from[i], i % 0x1_0000_0000)))
            && (forall i :: 0 <= i < |s.queue| ==>
                  s.queue[i] == WorkItem(from[|to| + i], (|to| + i) % 0x1_0000_0000))
  {
    StateFollows(capacity, consumers, es);
  }

  ghost function PopsBy(popped: seq<Pop>, c: nat): nat
  {
    if popped == [] then 0 else
    PopsBy(popped[..|popped| - 1], c) + if popped[|popped| - 1].consumer == c then 1 else 0
  }

  /** Pops a consumer can still make after a stop. */
  ghost function PopsLeft(consumer: Consumer): nat
  {
    if consumer.Testing? || consumer.Waiting? then 1 else 0
  }

  lemma StopBoundsPopsStep(s: State, e: Event, c: nat)
    requires s.stop && Enabled(s, e) && c < |s.consumers|
    ensures var s' := Step(s, e);
            && s'.stop && c < |s'.consumers|
            && PopsBy(s'.popped, c) + PopsLeft(s'.consumers[c]) <= PopsBy(s.popped, c) + PopsLeft(s.consumers[c])
  {
    var s' := Step(s, e);
    if s'.popped != s.popped {
      assert s'.popped[..|s'.popped| - 1] == s.popped;
    }
  }

  /** Once stop is raised a consumer pops at most once more, and only if it was past reading the flag. */
  lemma {:induction false} StopBoundsPops(s: State, es: seq<Event>, c: nat)
    requires s.stop && Feasible(s, es) && c < |s.consumers|
    ensures PopsBy(Run(s, es).popped, c) <= PopsBy(s.popped, c) + PopsLeft(s.consumers[c]) <= PopsBy(s.popped, c) + 1
    decreases |es|
  {
    hide PopsBy;
    if es != [] {
      StopBoundsPopsStep(s, es[0], c);
      StopBoundsPops(Step(s, es[0]), es[1..], c);
    }
  }

  /** Before stop a consumer that finds nothing blocks; only the test at a time-out sends it round its loop. */
  lemma ConsumerBlocks(s: State, c: nat)
    requires !s.stop && s.queue == []
    ensures Enabled(s, Test(c)) ==> Step(s, Test(c)).consumers[c] == Waiting
    ensures Enabled(s, Return(c, false)) ==> Step(s, Return(c, false)).consumers[c] == Waiting
    ensures Enabled(s, Return(c, true)) ==> Step(s, Return(c, true)).consumers[c] == LoopTop
  {
  }

  /** A consumer has left exactly if a test of its own found stop raised, at the loop's top or with nothing queued. */
  lemma ConsumerLeavesIff(capacity: nat, consumers: nat, es: seq<Event>, c: nat)
    requires Feasible(Init(capacity, consumers), es) && c < consumers
    ensures var s := Run(Init(capacity, consumers), es);
            c < |s.consumers| && (s.consumers[c].Exited? <==> Leaves(capacity, es, c))
  {
    StateFollows(capacity, consumers, es);
  }
}
