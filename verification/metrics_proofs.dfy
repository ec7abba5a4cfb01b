/** Conservation and coherence of the aggregate, for every schedule. */
module MetricsProofs {
  import opened Common
  import opened MetricsEvent
  import opened UnsignedInt
  import opened MetricsModel

  /**
   What a reader finds for these events: nothing if there are none; otherwise their
   counts modulo 2^32 and last message, and their mean latency if the count fits.
   */
  ghost predicate Aggregates(shared: Option<Event>, es: seq<Event>)
  {
    match shared
    case None => es == []
    case Some(e) =>
      && es != []
      && e.processed == Wrap(Processed(es)) && e.failed == Wrap(Failures(es)) && e.message == LastMessage(es)
      && (Processed(es) < U32 ==> e == Summary(es) && Weight(e) == TotalWeight(es))
  }

  /** The events a worker still holds, or lost. */
  ghost function Held(w: Worker): seq<Event>
  {
    match w
    case Collecting(batch) => batch
    case Flushing(batch, _) => batch
    case Exited => []
    case Failed(lost) => lost
  }

  ghost function AllHeld(ws: seq<Worker>): multiset<Event>
  {
    if ws == [] then multiset{} else AllHeld(ws[..|ws| - 1]) + multiset(Held(ws[|ws| - 1]))
  }

  lemma {:induction false} HeldUpdate(ws: seq<Worker>, w: nat, v: Worker)
    requires w < |ws|
    ensures AllHeld(ws[w := v]) + multiset(Held(ws[w])) == AllHeld(ws) + multiset(Held(v))
  {
    var n := |ws| - 1;
    var front := AllHeld(ws[..n]);
    if w == n {
      assert ws[w := v][..n] == ws[..n];
    } else {
      assert ws[w := v][..n] == ws[..n][w := v];
      HeldUpdate(ws[..n], w, v);
      Shuffle(AllHeld(ws[..n][w := v]), multiset(Held(ws[w])), front, multiset(Held(v)), multiset(Held(ws[n])));
    }
  }

  /** Every event created is flushed, held or lost, and exactly once. */
  ghost predicate Conserved(s: State)
  {
    multiset(s.generated) == multiset(s.flushed) + AllHeld(s.workers)
  }

  /** The aggregate is that of exactly what was flushed. */
  ghost predicate Aggregated(s: State)
  {
    Aggregates(s.shared, s.flushed)
  }

  /** Average × processed of an aggregate; nothing weighs nothing. */
  ghost function SharedWeight(shared: Option<Event>): real
  {
    if shared.Some? then Weight(shared.value) else 0.0
  }

  /** The aggregate's weight and what was lost on the way make up everything flushed, whatever the counts. */
  ghost predicate Accounted(s: State)
  {
    SharedWeight(s.shared) + s.lost == TotalWeight(s.flushed)
  }

  ghost predicate Batched(s: State)
  {
    forall w :: 0 <= w < |s.workers| ==>
      (s.workers[w].Collecting? ==> |s.workers[w].batch| < BATCH_SIZE)
      && (s.workers[w].Flushing? ==> |s.workers[w].batch| <= BATCH_SIZE)
      && (s.workers[w].Failed? ==> s.internalStop)
  }

  /** Every report is the aggregate of what had been flushed at some moment. */
  ghost predicate Coherent(s: State)
  {
    forall i :: 0 <= i < |s.reports| ==> IsReport(s, s.reports[i])
  }

  ghost predicate IsReport(s: State, r: Option<Event>)
  {
    exists n :: 0 <= n <= |s.flushed| && Aggregates(r, s.flushed[..n])
  }

  ghost predicate Inv(s: State)
  {
    Conserved(s) && Aggregated(s) && Accounted(s) && Batched(s) && Coherent(s)
  }

  lemma Cancel<T>(g: multiset<T>, f: multiset<T>, h: multiset<T>, h': multiset<T>, b: multiset<T>, e: multiset<T>)
    requires g == f + h && h' + b == h + (b + e)
    ensures g + e == f + h'
  {
    assert h' == h' + b - b;
    assert h + (b + e) - b == h + e;
  }

  lemma CancelRight<T>(x: multiset<T>, y: multiset<T>, h: multiset<T>)
    requires x + h == y + h
    ensures x == y
  {
    assert x == x + h - h;
    assert y == y + h - h;
  }

  lemma ConservedGenerate(s: State, w: nat, event: Event)
    requires Conserved(s) && Enabled(s, Generate(w, event))
    ensures Conserved(Step(s, Generate(w, event)))
  {
    var s' := Step(s, Generate(w, event));
    var before := multiset(Held(s.workers[w]));
    HeldUpdate(s.workers, w, s'.workers[w]);
    assert multiset(Held(s'.workers[w])) == before + multiset{event};
    Cancel(multiset(s.generated), multiset(s.flushed), AllHeld(s.workers), AllHeld(s'.workers), before,
           multiset{event});
  }

  lemma ConservedFlush(s: State, w: nat)
    requires Conserved(s) && Enabled(s, Flush(w))
    ensures Conserved(Step(s, Flush(w)))
  {
    var s' := Step(s, Flush(w));
    var batch := Held(s.workers[w]);
    HeldUpdate(s.workers, w, s'.workers[w]);
    assert s'.flushed == s.flushed + batch;
    Regroup(multiset(s.generated), multiset(s.flushed), AllHeld(s.workers), AllHeld(s'.workers), multiset(batch));
  }

  lemma Regroup<T>(g: multiset<T>, f: multiset<T>, h: multiset<T>, h': multiset<T>, b: multiset<T>)
    requires g == f + h && h' + b == h + multiset{}
    ensures g == (f + b) + h'
  {
    assert h == h' + b;
  }

  lemma ConservedMove(s: State, w: nat, v: Worker)
    requires Conserved(s) && w < |s.workers| && Held(v) == Held(s.workers[w])
    ensures AllHeld(s.workers[w := v]) == AllHeld(s.workers)
  {
    HeldUpdate(s.workers, w, v);
    CancelRight(AllHeld(s.workers[w := v]), AllHeld(s.workers), multiset(Held(v)));
  }

  lemma ConservedStep(s: State, a: Action)
    requires Conserved(s) && Enabled(s, a)
    ensures Conserved(Step(s, a))
  {
    match a
    case Generate(w, event) => ConservedGenerate(s, w, event);
    case Flush(w) => ConservedFlush(s, w);
    case Quit(w) => ConservedMove(s, w, Flushing(s.workers[w].batch, true));
    case Fail(w) => ConservedMove(s, w, Failed(s.workers[w].batch));
    case _ =>
  }

  lemma FoldedAggregates(batch: seq<Event>)
    requires batch != []
    ensures Aggregates(Some(Folded(batch)), batch)
  {
    FoldedCounts(batch);
    if Processed(batch) < U32 {
      FoldedIsSummary(batch);
      SummaryWeight(batch);
    }
  }

  /** Merging a batch into the aggregate of the earlier events aggregates all of them. */
  lemma MergedAggregates(shared: Option<Event>, flushed: seq<Event>, batch: seq<Event>)
    requires Aggregates(shared, flushed)
    ensures Aggregates(Merged(shared, batch), flushed + batch)
  {
    if batch == [] {
      assert flushed + batch == flushed;
    } else {
      FoldedAggregates(batch);
      if flushed == [] {
        assert flushed + batch == batch;
      } else {
        EnvelopeAggregates(shared.value, Folded(batch), flushed, batch);
      }
    }
  }

  lemma EnvelopeAggregates(a: Event, b: Event, xs: seq<Event>, ys: seq<Event>)
    requires Aggregates(Some(a), xs) && Aggregates(Some(b), ys)
    ensures Aggregates(Some(Envelope(a, b)), xs + ys)
  {
    hide Envelope, Wrap, Processed, Failures, TotalWeight, LastMessage, Weight, Summary;
    EnvelopeCounts(a, b, xs, ys);
    Concat(xs, ys);
    if Processed(xs) + Processed(ys) < U32 {
      EnvelopeSummaries(xs, ys);
      SummaryWeight(xs + ys);
    }
  }

  lemma AggregatedStep(s: State, a: Action)
    requires Aggregated(s) && Enabled(s, a)
    ensures Aggregated(Step(s, a))
  {
    if a.Flush? {
      MergedAggregates(s.shared, s.flushed, s.workers[a.w].batch);
    }
  }

  lemma MergeAccounts(shared: Option<Event>, batch: seq<Event>)
    ensures SharedWeight(Merged(shared, batch)) + MergeLost(shared, batch) == SharedWeight(shared) + TotalWeight(batch)
  {
    hide Weight, Lost, Envelope, Folded;
    if batch != [] {
      FoldLoses(batch);
      if shared.Some? {
        EnvelopeLoses(shared.value, Folded(batch));
      }
    }
  }

  lemma AccountedStep(s: State, a: Action)
    requires Accounted(s) && Enabled(s, a)
    ensures Accounted(Step(s, a))
  {
    if a.Flush? {
      var batch := s.workers[a.w].batch;
      MergeAccounts(s.shared, batch);
      Concat(s.flushed, batch);
    }
  }

  lemma ReportsStay(s: State, batch: seq<Event>, r: Option<Event>)
    requires IsReport(s, r)
    ensures IsReport(s.(flushed := s.flushed + batch), r)
  {
    var n :| 0 <= n <= |s.flushed| && Aggregates(r, s.flushed[..n]);
    assert (s.flushed + batch)[..n] == s.flushed[..n];
  }

  lemma CoherentStep(s: State, a: Action)
    requires Coherent(s) && Aggregated(s) && Enabled(s, a)
    ensures Coherent(Step(s, a))
  {
    var s' := Step(s, a);
    forall i | 0 <= i < |s'.reports| ensures IsReport(s', s'.reports[i]) {
      if a.Flush? {
        ReportsStay(s, s.workers[a.w].batch, s.reports[i]);
      } else if a.Report? && i == |s.reports| {
        assert s.flushed[..|s.flushed|] == s.flushed;
      } else {
        assert IsReport(s, s.reports[i]);
      }
    }
  }

  lemma {:induction false} NobodyHolds(ws: seq<Worker>)
    requires forall w :: 0 <= w < |ws| ==> Held(ws[w]) == []
    ensures AllHeld(ws) == multiset{}
  {
    if ws != [] {
      NobodyHolds(ws[..|ws| - 1]);
    }
  }

  lemma InvInit(workers: nat)
    ensures Inv(Init(workers))
  {
    NobodyHolds(Init(workers).workers);
  }

  lemma BatchedStep(s: State, a: Action)
    requires Batched(s) && Enabled(s, a)
    ensures Batched(Step(s, a))
  {
  }

  lemma InvStep(s: State, a: Action)
    requires Inv(s) && Enabled(s, a)
    ensures Inv(Step(s, a))
  {
    ConservedStep(s, a);
    AggregatedStep(s, a);
    AccountedStep(s, a);
    BatchedStep(s, a);
    CoherentStep(s, a);
    hide Step, Enabled, Conserved, Aggregated, Accounted, Batched, Coherent;
  }

  lemma {:induction false} InvRun(s: State, acts: seq<Action>)
    requires Inv(s) && Feasible(s, acts)
    ensures Inv(Run(s, acts))
    decreases |acts|
  {
    hide Inv;
    if acts != [] {
      InvStep(s, acts[0]);
      InvRun(Step(s, acts[0]), acts[1..]);
    }
  }

  /**
   Under every interleaving the shared data aggregates all flushed events: their counts
   and last message, and, while the count fits, their mean latency, with average ×
   processed the weighted sum. Every report aggregates what had been flushed at some
   moment, and every event is flushed, held or lost, once.
   */
  lemma AggregateIsSummary(workers: nat, acts: seq<Action>)
    requires Feasible(Init(workers), acts)
    ensures var s := Run(Init(workers), acts);
            && multiset(s.generated) == multiset(s.flushed) + AllHeld(s.workers)
            && Aggregates(s.shared, s.flushed)
            && forall i :: 0 <= i < |s.reports| ==>
                 exists n :: 0 <= n <= |s.flushed| && Aggregates(s.reports[i], s.flushed[..n])
  {
    InvInit(workers);
    InvRun(Init(workers), acts);
    var s := Run(Init(workers), acts);
    assert forall i :: 0 <= i < |s.reports| ==> IsReport(s, s.reports[i]);
  }

  /**
   Average × processed, with no bound on the counts: the flushed events' weighted sum,
   less exactly what flushes lost. Nothing is lost while the count fits.
   */
  lemma WeightAccounted(workers: nat, acts: seq<Action>)
    requires Feasible(Init(workers), acts)
    ensures var s := Run(Init(workers), acts);
            && SharedWeight(s.shared) + s.lost == TotalWeight(s.flushed)
            && (Processed(s.flushed) < U32 ==> s.lost == 0.0)
            && (s.shared.Some? && s.shared.value.processed > 0 ==>
                  s.shared.value.latency == (TotalWeight(s.flushed) - s.lost) / s.shared.value.processed as real)
  {
    hide Inv;
    InvInit(workers);
    InvRun(Init(workers), acts);
    Weighed(Run(Init(workers), acts));
  }

  lemma Weighed(s: State)
    requires Inv(s)
    ensures SharedWeight(s.shared) + s.lost == TotalWeight(s.flushed)
    ensures Processed(s.flushed) < U32 ==> s.lost == 0.0
    ensures s.shared.Some? && s.shared.value.processed > 0 ==>
              s.shared.value.latency == (TotalWeight(s.flushed) - s.lost) / s.shared.value.processed as real
  {
    hide Processed, Wrap, Conserved, Batched, Coherent;
    if s.shared.Some? && s.shared.value.processed > 0 {
      QuotientIff(TotalWeight(s.flushed) - s.lost, s.shared.value.processed as real, s.shared.value.latency);
    }
  }

  ghost predicate AllExited(s: State)
  {
    forall w :: 0 <= w < |s.workers| ==> s.workers[w].Exited?
  }

  /** When all workers have exited normally, what was flushed is what was generated, and so is the aggregate. */
  lemma FinalCounts(workers: nat, acts: seq<Action>)
    requires Feasible(Init(workers), acts) && AllExited(Run(Init(workers), acts))
    ensures var s := Run(Init(workers), acts);
            && multiset(s.flushed) == multiset(s.generated)
            && (s.shared.None? <==> s.generated == [])
            && (s.shared.Some? ==>
                  && s.shared.value.processed == Wrap(Processed(s.generated))
                  && s.shared.value.failed == Wrap(Failures(s.generated))
                  && (Processed(s.generated) < U32 ==> s.shared.value.latency == Mean(s.generated)))
  {
    hide Wrap;
    InvInit(workers);
    InvRun(Init(workers), acts);
    var s := Run(Init(workers), acts);
    NobodyHolds(s.workers);
    OrderIndependent(s.generated, s.flushed);
    assert |multiset(s.flushed)| == |s.flushed|;
  }

  /** Two schedules that create the same events and end normally have the same counts, and mean if they fit. */
  lemma ScheduleIndependent(workers: nat, acts: seq<Action>, acts': seq<Action>)
    requires Feasible(Init(workers), acts) && Feasible(Init(workers), acts')
    requires AllExited(Run(Init(workers), acts)) && AllExited(Run(Init(workers), acts'))
    requires multiset(Run(Init(workers), acts).generated) == multiset(Run(Init(workers), acts').generated)
    ensures var x, y := Run(Init(workers), acts).shared, Run(Init(workers), acts').shared;
            && (x.Some? <==> y.Some?)
            && (x.Some? ==>
                  && x.value.processed == y.value.processed && x.value.failed == y.value.failed
                  && (Processed(Run(Init(workers), acts).generated) < U32 ==> x.value.latency == y.value.latency))
  {
    hide Wrap, AllExited;
    var g, g' := Run(Init(workers), acts).generated, Run(Init(workers), acts').generated;
    OrderIndependent(g, g');
    assert |multiset(g)| == |multiset(g')|;
    FinalCounts(workers, acts);
    FinalCounts(workers, acts');
  }
}
