/** What the shared metrics must summarise, read off the actions of a run alone. */
module MetricsTrace {
  import opened Common
  import opened MetricsEvent
  import opened UnsignedInt
  import opened MetricsModel
  import opened MetricsProofs

  // ----- what the actions say -----

  /** The events a worker has created since its last flush. */
  ghost function Batch(acts: seq<Action>, w: nat): seq<Event>
  {
    if acts == [] then [] else
    var n := |acts| - 1;
    if acts[n].Generate? && acts[n].w == w then Batch(acts[..n], w) + [acts[n].event]
    else if acts[n] == Flush(w) then []
    else Batch(acts[..n], w)
  }

  ghost function Generated(acts: seq<Action>): seq<Event>
  {
    if acts == [] then [] else
    var n := |acts| - 1;
    Generated(acts[..n]) + if acts[n].Generate? then [acts[n].event] else []
  }

  ghost function Flushed(acts: seq<Action>): seq<Event>
  {
    if acts == [] then [] else
    var n := |acts| - 1;
    Flushed(acts[..n]) + if acts[n].Flush? then Batch(acts[..n], acts[n].w) else []
  }

  /** What had been flushed at each report. */
  ghost function ReportedOn(acts: seq<Action>): seq<seq<Event>>
  {
    if acts == [] then [] else
    var n := |acts| - 1;
    ReportedOn(acts[..n]) + if acts[n].Report? then [Flushed(acts[..n])] else []
  }

  // ----- the state follows -----

  ghost predicate EventsFollow(s: State, acts: seq<Action>)
  {
    && s.generated == Generated(acts) && s.flushed == Flushed(acts)
    && forall w :: 0 <= w < |s.workers| ==> Held(s.workers[w]) == Batch(acts, w)
  }

  ghost predicate ReportsFollow(s: State, acts: seq<Action>)
  {
    && |s.reports| == |ReportedOn(acts)|
    && forall i :: 0 <= i < |s.reports| ==> Aggregates(s.reports[i], ReportedOn(acts)[i])
  }

  /** A worker flushes 64 events at a time, and fewer only when it leaves. */
  ghost predicate FullBatches(s: State)
  {
    forall w :: 0 <= w < |s.workers| ==>
      && (s.workers[w].Collecting? ==> |s.workers[w].batch| < 64)
      && (s.workers[w].Flushing? ==>
            if s.workers[w].last then |s.workers[w].batch| < 64 else |s.workers[w].batch| == 64)
  }

  ghost predicate Follows(s: State, acts: seq<Action>)
  {
    Inv(s) && EventsFollow(s, acts) && ReportsFollow(s, acts) && FullBatches(s)
  }

  lemma OneMore(acts: seq<Action>, a: Action)
    ensures Generated(acts + [a]) == Generated(acts) + if a.Generate? then [a.event] else []
    ensures Flushed(acts + [a]) == Flushed(acts) + if a.Flush? then Batch(acts, a.w) else []
    ensures ReportedOn(acts + [a]) == ReportedOn(acts) + if a.Report? then [Flushed(acts)] else []
  {
    assert (acts + [a])[..|acts + [a]| - 1] == acts;
  }

  lemma OneMoreBatch(acts: seq<Action>, a: Action, w: nat)
    ensures Batch(acts + [a], w) ==
            if a.Generate? && a.w == w then Batch(acts, w) + [a.event]
            else if a == Flush(w) then []
            else Batch(acts, w)
  {
    assert (acts + [a])[..|acts + [a]| - 1] == acts;
  }

  lemma EventsFollowStep(s: State, acts: seq<Action>, a: Action)
    requires EventsFollow(s, acts) && Enabled(s, a)
    ensures EventsFollow(Step(s, a), acts + [a])
  {
    OneMore(acts, a);
    hide Generated, Flushed, ReportedOn, Batch, Merged, MergeLost;
    forall w | 0 <= w < |Step(s, a).workers| ensures Held(Step(s, a).workers[w]) == Batch(acts + [a], w) {
      OneMoreBatch(acts, a, w);
    }
  }

  lemma ReportsFollowStep(s: State, acts: seq<Action>, a: Action)
    requires Aggregated(s) && s.flushed == Flushed(acts) && ReportsFollow(s, acts) && Enabled(s, a)
    ensures ReportsFollow(Step(s, a), acts + [a])
  {
    OneMore(acts, a);
    hide Generated, Flushed, ReportedOn, Batch, Merged, MergeLost, Aggregates;
  }

  lemma FullBatchesStep(s: State, a: Action)
    requires FullBatches(s) && Enabled(s, a)
    ensures FullBatches(Step(s, a))
  {
  }

  lemma FollowsStep(s: State, acts: seq<Action>, a: Action)
    requires Follows(s, acts) && Enabled(s, a)
    ensures Follows(Step(s, a), acts + [a])
  {
    InvStep(s, a);
    EventsFollowStep(s, acts, a);
    ReportsFollowStep(s, acts, a);
    FullBatchesStep(s, a);
    hide Step, Enabled, EventsFollow, ReportsFollow, FullBatches, Conserved, Aggregated, Accounted, Batched, Coherent;
  }

  lemma {:induction false} RunLast(s: State, acts: seq<Action>)
    requires Feasible(s, acts) && acts != []
    ensures var n := |acts| - 1;
            Feasible(s, acts[..n]) && Enabled(Run(s, acts[..n]), acts[n])
            && Run(s, acts) == Step(Run(s, acts[..n]), acts[n])
    decreases |acts|
  {
    var n := |acts| - 1;
    if n > 0 {
      RunLast(Step(s, acts[0]), acts[1..]);
      assert acts[1..][..n - 1] == acts[..n][1..];
    }
  }

  lemma FreshFollows(workers: nat)
    ensures Follows(Init(workers), [])
  {
    InvInit(workers);
  }

  lemma {:induction false} StateFollows(workers: nat, acts: seq<Action>)
    requires Feasible(Init(workers), acts)
    ensures Follows(Run(Init(workers), acts), acts)
    decreases |acts|
  {
    hide Follows;
    if acts == [] {
      FreshFollows(workers);
    } else {
      var n := |acts| - 1;
      RunLast(Init(workers), acts);
      StateFollows(workers, acts[..n]);
      FollowsStep(Run(Init(workers), acts[..n]), acts[..n], acts[n]);
      assert acts[..n] + [acts[n]] == acts;
    }
  }

  // ----- stopping -----

  predicate Stopping(a: Action)
  {
    a.Stop? || a.Fail?
  }

  lemma {:induction false} NothingGeneratedAfter(s: State, acts: seq<Action>)
    requires (s.stop || s.internalStop) && Feasible(s, acts)
    ensures forall i :: 0 <= i < |acts| ==> !acts[i].Generate?
    decreases |acts|
  {
    if acts != [] {
      NothingGeneratedAfter(Step(s, acts[0]), acts[1..]);
    }
  }

  /** A worker that tests the flags after the stop, or after a worker has failed, creates no further event. */
  lemma {:induction false} StopEndsCreation(s: State, acts: seq<Action>, i: nat, j: nat)
    requires Feasible(s, acts) && i < j < |acts| && Stopping(acts[i])
    ensures !acts[j].Generate?
    decreases |acts|
  {
    var rest := acts[1..];
    if i == 0 {
      NothingGeneratedAfter(Step(s, acts[0]), rest);
      assert acts[j] == rest[j - 1];
    } else {
      StopEndsCreation(Step(s, acts[0]), rest, i - 1, j - 1);
    }
  }

  // ----- what readers see -----

  /**
   After every run the shared data aggregates exactly the batches of the flushes, in
   flush order, and each report what had been flushed when it was taken. What a worker
   has created since its last flush it still holds.
   */
  lemma AggregateFollowsActions(workers: nat, acts: seq<Action>)
    requires Feasible(Init(workers), acts)
    ensures var s := Run(Init(workers), acts);
            && Aggregates(s.shared, Flushed(acts))
            && |s.reports| == |ReportedOn(acts)|
            && (forall i :: 0 <= i < |s.reports| ==> Aggregates(s.reports[i], ReportedOn(acts)[i]))
            && multiset(Generated(acts)) == multiset(Flushed(acts)) + AllHeld(s.workers)
            && (forall w :: 0 <= w < |s.workers| ==> Held(s.workers[w]) == Batch(acts, w))
  {
    StateFollows(workers, acts);
    hide Aggregates, Generated, Flushed, ReportedOn, Batch, AllHeld, Accounted, Batched, Coherent;
  }

  /** Workers collect until they have 64 events, then flush; only the last flush of a worker is smaller. */
  lemma BatchesAreFull(workers: nat, acts: seq<Action>)
    requires Feasible(Init(workers), acts)
    ensures FullBatches(Run(Init(workers), acts))
  {
    StateFollows(workers, acts);
  }
}
