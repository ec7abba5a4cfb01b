/** Order, uniqueness and capacity, for every schedule. */
module QueueProofs {
  import opened UnsignedInt
  import opened QueueModel

  /** The i-th accepted item, counting from 0. */
  ghost function Item(s: State, i: nat): WorkItem
    requires i < |s.pushed|
  {
    WorkItem(s.pushed[i], Wrap(i))
  }

  ghost predicate Inv(s: State)
  {
    && s.latest == Wrap(|s.pushed|)
    && |s.pushed| == |s.popped| + |s.queue|
    && |s.queue| <= s.capacity
    && (forall i :: 0 <= i < |s.popped| ==> s.popped[i].item == Item(s, i))
    && (forall i :: 0 <= i < |s.queue| ==> s.queue[i] == Item(s, |s.popped| + i))
  }

  lemma InvProduce(s: State, p: nat)
    requires Inv(s)
    ensures Inv(Step(s, Produce(p)))
  {
    hide Wrap;
    WrapSum(|s.pushed|, 1);
  }

  lemma InvTest(s: State, c: nat, timedOut: bool)
    requires Inv(s) && c < |s.consumers|
    ensures Inv(AfterTest(s, c, timedOut))
  {
    hide Wrap;
  }

  lemma InvStep(s: State, e: Event)
    requires Inv(s) && Enabled(s, e)
    ensures Inv(Step(s, e))
  {
    hide Wrap;
    match e
    case Produce(p) => InvProduce(s, p);
    case Test(c) => InvTest(s, c, false);
    case Return(c, timedOut) => InvTest(s, c, timedOut);
    case _ =>
  }

  lemma InvInit(capacity: nat, consumers: nat)
    ensures Inv(Init(capacity, consumers))
  {
    WrapSmall(0);
  }

  lemma {:induction false} InvRun(s: State, es: seq<Event>)
    requires Inv(s) && Feasible(s, es)
    ensures Inv(Run(s, es)) && Run(s, es).capacity == s.capacity
    decreases |es|
  {
    hide Inv;
    if es != [] {
      InvStep(s, es[0]);
      InvRun(Step(s, es[0]), es[1..]);
    }
  }

  /** Popped followed by queued are the accepted items in order, numbered from 0 modulo 2^32, each item in one place. */
  lemma FifoNumbering(capacity: nat, consumers: nat, es: seq<Event>)
    requires Feasible(Init(capacity, consumers), es)
    ensures var s := Run(Init(capacity, consumers), es);
            && |s.queue| <= capacity
            && |s.popped| + |s.queue| == |s.pushed|
            && (forall i :: 0 <= i < |s.popped| ==> s.popped[i].item == WorkItem(s.pushed[i], Wrap(i)))
            && (forall i :: |s.popped| <= i < |s.pushed| ==> s.queue[i - |s.popped|] == WorkItem(s.pushed[i], Wrap(i)))
  {
    hide Inv, Wrap;
    InvInit(capacity, consumers);
    InvRun(Init(capacity, consumers), es);
    Numbered(Run(Init(capacity, consumers), es));
  }

  lemma Numbered(s: State)
    requires Inv(s)
    ensures |s.queue| <= s.capacity && |s.popped| + |s.queue| == |s.pushed|
    ensures forall i :: 0 <= i < |s.popped| ==> s.popped[i].item == WorkItem(s.pushed[i], Wrap(i))
    ensures forall i :: |s.popped| <= i < |s.pushed| ==> s.queue[i - |s.popped|] == WorkItem(s.pushed[i], Wrap(i))
  {
    hide Wrap;
    forall i | |s.popped| <= i < |s.pushed| ensures s.queue[i - |s.popped|] == WorkItem(s.pushed[i], Wrap(i)) {
      var j := i - |s.popped|;
      assert s.queue[j] == Item(s, |s.popped| + j);
    }
  }

  /** The sequence numbers of all accepted items. */
  ghost function Numbers(s: State): seq<Unsigned>
  {
    seq(|s.popped|, i requires 0 <= i < |s.popped| => s.popped[i].item.sequenceId)
    + seq(|s.queue|, i requires 0 <= i < |s.queue| => s.queue[i].sequenceId)
  }

  /** No two items ever share a sequence number, exactly as long as at most 2^32 have been accepted. */
  lemma NumbersDistinctIff(capacity: nat, consumers: nat, es: seq<Event>)
    requires Feasible(Init(capacity, consumers), es)
    ensures var s := Run(Init(capacity, consumers), es);
            var ns := Numbers(s);
            (forall i, j :: 0 <= i < j < |ns| ==> ns[i] != ns[j]) <==> |s.pushed| <= U32
  {
    FifoNumbering(capacity, consumers, es);
    var s := Run(Init(capacity, consumers), es);
    var ns := Numbers(s);
    forall i | 0 <= i < |ns| ensures ns[i] == Wrap(i) {
      if i >= |s.popped| {
        assert ns[i] == s.queue[i - |s.popped|].sequenceId;
      }
    }
    if |s.pushed| > U32 {
      assert ns[0] == ns[U32];
    }
  }

  /** The numbers a consumer has popped, in the order it popped them. */
  ghost function PopsOf(popped: seq<Pop>, c: nat): seq<Unsigned>
  {
    if popped == [] then [] else
    var last := popped[|popped| - 1];
    PopsOf(popped[..|popped| - 1], c) + if last.consumer == c then [last.item.sequenceId] else []
  }

  ghost predicate Ascending(ns: seq<Unsigned>, bound: nat)
  {
    (forall i :: 0 <= i < |ns| ==> ns[i] < bound) && (forall i, j :: 0 <= i < j < |ns| ==> ns[i] < ns[j])
  }

  lemma {:induction false} PopsAscend(popped: seq<Pop>, c: nat)
    requires |popped| <= U32 && forall i :: 0 <= i < |popped| ==> popped[i].item.sequenceId == i
    ensures Ascending(PopsOf(popped, c), |popped|)
  {
    if popped != [] {
      PopsAscend(popped[..|popped| - 1], c);
    }
  }

  /** Each consumer sees strictly increasing sequence numbers, until the counter wraps. */
  lemma ConsumerSeesIncreasing(capacity: nat, consumers: nat, es: seq<Event>, c: nat)
    requires Feasible(Init(capacity, consumers), es)
    requires |Run(Init(capacity, consumers), es).popped| <= U32
    ensures var s := Run(Init(capacity, consumers), es); Ascending(PopsOf(s.popped, c), |s.popped|)
  {
    FifoNumbering(capacity, consumers, es);
    PopsAscend(Run(Init(capacity, consumers), es).popped, c);
  }

  // ----- when the queue is full -----

  ghost function Burst(ps: seq<nat>): seq<Event>
  {
    seq(|ps|, i requires 0 <= i < |ps| => Produce(ps[i]))
  }

  ghost function Min(a: nat, b: nat): nat
  {
    if a <= b then a else b
  }

  /**
   However many producers try between two pops, exactly those for which there is room
   add an item, the first ones, and only they use up sequence numbers.
   */
  lemma {:induction false} FullQueueRefuses(s: State, ps: seq<nat>)
    requires Inv(s)
    ensures Feasible(s, Burst(ps))
    ensures var t := Run(s, Burst(ps));
            var room := Min(|ps|, s.capacity - |s.queue|);
            && t.pushed == s.pushed + ps[..room] && t.latest == Wrap(|s.pushed| + room)
            && |t.queue| == |s.queue| + room && t.queue[..|s.queue|] == s.queue && t.popped == s.popped
    decreases |ps|
  {
    hide Wrap;
    if ps != [] {
      var s' := Step(s, Produce(ps[0]));
      InvProduce(s, ps[0]);
      assert Burst(ps)[0] == Produce(ps[0]) && Burst(ps)[1..] == Burst(ps[1..]);
      FullQueueRefuses(s', ps[1..]);
      if |s.queue| < s.capacity {
        var room := Min(|ps|, s.capacity - |s.queue|);
        assert ps[..room] == [ps[0]] + ps[1..][..room - 1];
        var t := Run(s, Burst(ps));
        assert t.queue[..|s.queue|] == t.queue[..|s'.queue|][..|s.queue|];
      }
    }
  }

  // ----- leaving -----

  ghost predicate LeaversStopped(s: State)
  {
    forall c :: 0 <= c < |s.consumers| && s.consumers[c].Exited? ==> s.stop
  }

  lemma {:induction false} LeaversStoppedRun(s: State, es: seq<Event>)
    requires LeaversStopped(s) && Feasible(s, es)
    ensures LeaversStopped(Run(s, es))
    decreases |es|
  {
    if es != [] {
      LeaversStoppedRun(Step(s, es[0]), es[1..]);
    }
  }

  /** A consumer leaves only on stop. */
  lemma ConsumersLeaveOnStop(capacity: nat, consumers: nat, es: seq<Event>, c: nat)
    requires Feasible(Init(capacity, consumers), es)
    ensures var s := Run(Init(capacity, consumers), es); c < |s.consumers| && s.consumers[c].Exited? ==> s.stop
  {
    LeaversStoppedRun(Init(capacity, consumers), es);
  }
}
