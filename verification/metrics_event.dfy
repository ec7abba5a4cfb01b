/**
 Metric events and their aggregation. Counts are C++ unsigned and wrap; latencies are
 reals; an error message is 128 characters, absent when the first one is NUL.
 */
module MetricsEvent {
  import opened UnsignedInt

  /** The first character tells whether there is a message; the other 127 only travel with it. */
  datatype Message = Message(first: char, rest: seq<char>)

  function Zeros(n: nat): seq<char>
  {
    if n == 0 then [] else Zeros(n - 1) + ['\0']
  }

  const NO_MESSAGE: Message := Message('\0', Zeros(127))

  datatype Event = Event(processed: Unsigned, failed: Unsigned, latency: real, message: Message)

  const DEFAULT_EVENT: Event := Event(0, 0, 0.0, NO_MESSAGE)

  predicate HasMessage(e: Event)
  {
    e.message.first != '\0'
  }

  /** Latency times count, as a real. */
  function Weight(e: Event): real
  {
    e.latency * e.processed as real
  }

  /** What envelopeWith makes of a and an incoming b. */
  function Envelope(a: Event, b: Event): Event
  {
    var combined := Wrap(a.processed + b.processed);
    Event(combined,
          Wrap(a.failed + b.failed),
          if combined > 0
          then (Weight(a) + Weight(b)) / combined as real
          else a.latency,
          if HasMessage(b) then b.message else a.message)
  }

  /** The left fold of envelopeWith over a batch, starting from the default event. */
  ghost function Folded(es: seq<Event>): Event
  {
    if es == [] then DEFAULT_EVENT else Envelope(Folded(es[..|es| - 1]), es[|es| - 1])
  }

  // ----- the reference: totals, mean, last message -----

  ghost function Processed(es: seq<Event>): nat
  {
    if es == [] then 0 else Processed(es[..|es| - 1]) + es[|es| - 1].processed
  }

  ghost function Failures(es: seq<Event>): nat
  {
    if es == [] then 0 else Failures(es[..|es| - 1]) + es[|es| - 1].failed
  }

  ghost function TotalWeight(es: seq<Event>): real
  {
    if es == [] then 0.0 else TotalWeight(es[..|es| - 1]) + Weight(es[|es| - 1])
  }

  ghost function LastMessage(es: seq<Event>): Message
  {
    if es == [] then NO_MESSAGE
    else if HasMessage(es[|es| - 1]) then es[|es| - 1].message
    else LastMessage(es[..|es| - 1])
  }

  ghost function Mean(es: seq<Event>): real
  {
    if Processed(es) > 0 then TotalWeight(es) / Processed(es) as real else 0.0
  }

  /** What an aggregate of these events should say. */
  ghost function Summary(es: seq<Event>): Event
  {
    Event(Wrap(Processed(es)), Wrap(Failures(es)), Mean(es), LastMessage(es))
  }

  // ----- arithmetic -----

  lemma DivMul(w: real, c: real)
    requires c != 0.0
    ensures w / c * c == w
  {
  }

  lemma MulDiv(x: real, c: real)
    requires c != 0.0
    ensures x * c / c == x
  {
  }

  lemma Weightless(e: Event)
    requires e.processed == 0
    ensures Weight(e) == 0.0
  {
  }

  /** An event with this weight, count and mean. */
  lemma WeightOfMean(e: Event, w: real)
    requires e.processed > 0 && e.latency == w / e.processed as real
    ensures Weight(e) == w
  {
    DivMul(w, e.processed as real);
  }

  /** The mean of an event with one that has no count is its own. */
  lemma MeanAlone(e: Event)
    requires e.processed > 0
    ensures (Weight(e) + 0.0) / e.processed as real == e.latency
  {
    MulDiv(e.latency, e.processed as real);
    assert Weight(e) + 0.0 == e.latency * e.processed as real;
  }

  lemma {:induction false} NothingWeighsNothing(es: seq<Event>)
    requires Processed(es) == 0
    ensures TotalWeight(es) == 0.0
  {
    if es != [] {
      NothingWeighsNothing(es[..|es| - 1]);
    }
  }

  lemma SummaryWeight(es: seq<Event>)
    requires Processed(es) < U32
    ensures Weight(Summary(es)) == TotalWeight(es)
  {
    hide Weight, TotalWeight;
    if Processed(es) > 0 {
      WeightOfMean(Summary(es), TotalWeight(es));
    } else {
      Weightless(Summary(es));
      NothingWeighsNothing(es);
    }
  }

  lemma {:induction false} Concat(xs: seq<Event>, ys: seq<Event>)
    ensures Processed(xs + ys) == Processed(xs) + Processed(ys)
    ensures Failures(xs + ys) == Failures(xs) + Failures(ys)
    ensures TotalWeight(xs + ys) == TotalWeight(xs) + TotalWeight(ys)
    ensures LastMessage(xs + ys) == if LastMessage(ys).first != '\0' then LastMessage(ys) else LastMessage(xs)
  {
    if ys == [] {
      assert xs + ys == xs;
    } else {
      var n := |ys| - 1;
      assert (xs + ys)[..|xs + ys| - 1] == xs + ys[..n];
      Concat(xs, ys[..n]);
    }
  }

  // ----- batching -----

  /** Enveloping two summaries summarises both batches. */
  lemma EnvelopeSummaries(xs: seq<Event>, ys: seq<Event>)
    requires Processed(xs) + Processed(ys) < U32
    ensures Envelope(Summary(xs), Summary(ys)) == Summary(xs + ys)
  {
    hide Weight, Wrap, Processed, Failures, TotalWeight, LastMessage;
    Concat(xs, ys);
    SummaryWeight(xs);
    SummaryWeight(ys);
    WrapSmall(Processed(xs));
    WrapSmall(Processed(ys));
    WrapSmall(Processed(xs) + Processed(ys));
    WrapSum(Failures(xs), Wrap(Failures(ys)));
    WrapSum(Failures(xs), Failures(ys));
  }

  /** Enveloping one more event summarises it too, even one whose own summary would differ from it. */
  lemma EnvelopeOne(xs: seq<Event>, e: Event)
    requires Processed(xs) + e.processed < U32
    ensures Envelope(Summary(xs), e) == Summary(xs + [e])
  {
    AddOne(xs, e);
    hide Weight, Wrap, Processed, Failures, TotalWeight, LastMessage;
    SummaryWeight(xs);
    WrapSmall(Processed(xs));
    WrapSmall(Processed(xs) + e.processed);
    WrapSum(Failures(xs), e.failed);
  }

  lemma AddOne(xs: seq<Event>, e: Event)
    ensures Processed(xs + [e]) == Processed(xs) + e.processed
    ensures Failures(xs + [e]) == Failures(xs) + e.failed
    ensures TotalWeight(xs + [e]) == TotalWeight(xs) + Weight(e)
    ensures LastMessage(xs + [e]) == if HasMessage(e) then e.message else LastMessage(xs)
  {
    assert (xs + [e])[..|xs|] == xs;
  }

  /** The fold of envelopeWith computes totals, mean latency and last message. */
  lemma {:induction false} FoldedIsSummary(es: seq<Event>)
    requires Processed(es) < U32
    ensures Folded(es) == Summary(es)
  {
    if es != [] {
      var n := |es| - 1;
      FoldedIsSummary(es[..n]);
      EnvelopeOne(es[..n], es[n]);
      assert es[..n] + [es[n]] == es;
    }
  }

  /** Batching does not matter: folding in two batches and enveloping the results is folding everything. */
  lemma BatchingIndependent(xs: seq<Event>, ys: seq<Event>)
    requires Processed(xs) + Processed(ys) < U32
    ensures Envelope(Folded(xs), Folded(ys)) == Folded(xs + ys)
  {
    Concat(xs, ys);
    FoldedIsSummary(xs);
    FoldedIsSummary(ys);
    FoldedIsSummary(xs + ys);
    EnvelopeSummaries(xs, ys);
  }

  // ----- envelopeWith itself -----

  /** The weight an envelope loses: everything, when the counts add up to exactly 2^32. */
  ghost function Lost(a: Event, b: Event): real
  {
    if a.processed + b.processed == U32 then Weight(a) + Weight(b) else 0.0
  }

  lemma EnvelopeLoses(a: Event, b: Event)
    ensures Weight(Envelope(a, b)) == Weight(a) + Weight(b) - Lost(a, b)
  {
    hide Weight;
    if Envelope(a, b).processed > 0 {
      WeightOfMean(Envelope(a, b), Weight(a) + Weight(b));
    } else {
      Weightless(Envelope(a, b));
      if a.processed + b.processed == 0 {
        Weightless(a);
        Weightless(b);
      }
    }
  }

  /** The weight lost in folding a batch. */
  ghost function FoldLost(es: seq<Event>): real
  {
    if es == [] then 0.0 else FoldLost(es[..|es| - 1]) + Lost(Folded(es[..|es| - 1]), es[|es| - 1])
  }

  lemma {:induction false} FoldLoses(es: seq<Event>)
    ensures Weight(Folded(es)) + FoldLost(es) == TotalWeight(es)
  {
    hide Weight, Lost, Envelope;
    if es == [] {
      Weightless(DEFAULT_EVENT);
    } else {
      var n := |es| - 1;
      FoldLoses(es[..n]);
      EnvelopeLoses(Folded(es[..n]), es[n]);
    }
  }

  lemma EnvelopeWeight(a: Event, b: Event)
    requires a.processed + b.processed < U32
    ensures Weight(Envelope(a, b)) == Weight(a) + Weight(b)
  {
    EnvelopeLoses(a, b);
  }

  lemma QuotientsEqualIff(x: real, y: real, c: real)
    requires c != 0.0
    ensures x / c == y / c <==> x == y
  {
    DivMul(x, c);
    DivMul(y, c);
  }

  lemma QuotientIff(x: real, c: real, q: real)
    requires c != 0.0
    ensures x / c == q <==> x == q * c
  {
    DivMul(x, c);
    MulDiv(q, c);
  }

  /** Counts and message associate always. */
  lemma CountsAssociate(a: Event, b: Event, c: Event)
    ensures var l, r := Envelope(Envelope(a, b), c), Envelope(a, Envelope(b, c));
            && l.processed == r.processed == Wrap(a.processed + b.processed + c.processed)
            && l.failed == r.failed && l.message == r.message
  {
    hide Weight, Wrap;
    WrapSum(a.processed + b.processed, c.processed);
    WrapSum(a.processed, b.processed + c.processed);
    WrapSum(a.failed + b.failed, c.failed);
    WrapSum(a.failed, b.failed + c.failed);
  }

  /**
   envelopeWith associates exactly when both ways of bracketing lose the same weight to
   counts of 2^32, or, if the three counts wrap to zero together, when the first two do
   so as well, or have the first one's latency as their mean.
   */
  lemma EnvelopeAssociativeIff(a: Event, b: Event, c: Event)
    ensures Envelope(Envelope(a, b), c) == Envelope(a, Envelope(b, c)) <==>
            if Wrap(a.processed + b.processed + c.processed) > 0 then Lost(a, b) == Lost(b, c)
            else
              var n := Wrap(a.processed + b.processed);
              n == 0 || Weight(a) + Weight(b) == a.latency * n as real
  {
    CountsAssociate(a, b, c);
    EnvelopeLoses(a, b);
    EnvelopeLoses(b, c);
    hide Weight, Wrap, Lost;
    var l, r := Envelope(Envelope(a, b), c), Envelope(a, Envelope(b, c));
    if l.processed > 0 {
      assert l.latency == (Weight(Envelope(a, b)) + Weight(c)) / l.processed as real;
      assert r.latency == (Weight(a) + Weight(Envelope(b, c))) / l.processed as real;
      QuotientsEqualIff(Weight(Envelope(a, b)) + Weight(c), Weight(a) + Weight(Envelope(b, c)), l.processed as real);
    } else if Wrap(a.processed + b.processed) > 0 {
      QuotientIff(Weight(a) + Weight(b), Wrap(a.processed + b.processed) as real, a.latency);
    }
  }

  /** In particular wherever no pair of counts adds up to 2^32 and the three do not wrap to zero, overflow or not. */
  lemma EnvelopeAssociative(a: Event, b: Event, c: Event)
    requires a.processed + b.processed != U32 && b.processed + c.processed != U32
    requires a.processed + b.processed + c.processed == 0 || Wrap(a.processed + b.processed + c.processed) > 0
    ensures Envelope(Envelope(a, b), c) == Envelope(a, Envelope(b, c))
  {
    EnvelopeAssociativeIff(a, b, c);
  }

  lemma EnvelopeRightIdentity(a: Event)
    ensures Envelope(a, DEFAULT_EVENT) == a
  {
    hide Weight;
    Weightless(DEFAULT_EVENT);
    if a.processed > 0 {
      MeanAlone(a);
    }
  }

  /** The default event is a left identity exactly for events whose latency and message count for something. */
  lemma EnvelopeLeftIdentityIff(b: Event)
    ensures Envelope(DEFAULT_EVENT, b) == b <==>
            (b.processed > 0 || b.latency == 0.0) && (HasMessage(b) || b.message == NO_MESSAGE)
  {
    hide Weight;
    Weightless(DEFAULT_EVENT);
    if b.processed > 0 {
      MeanAlone(b);
    }
  }

  /** The weighted latency survives an envelope exactly unless the counts sum to 2^32 while carrying weight. */
  lemma WeightConservedIff(a: Event, b: Event)
    ensures Weight(Envelope(a, b)) == Weight(a) + Weight(b) <==>
            a.processed + b.processed != U32 || Weight(a) + Weight(b) == 0.0
  {
    EnvelopeLoses(a, b);
  }

  /** A pair of counts that adds up to 2^32, with a third event to show the difference. */
  lemma OverflowBreaksAssociativity(a: Event, b: Event, c: Event)
    requires a.processed + b.processed == U32 && 0 < c.processed && b.processed + c.processed != U32
    ensures Envelope(Envelope(a, b), c) != Envelope(a, Envelope(b, c)) <==> Weight(a) + Weight(b) != 0.0
  {
    EnvelopeAssociativeIff(a, b, c);
    WrapMultiple(c.processed, 1);
    WrapSmall(c.processed);
  }

  /** An envelope in plain terms: counts modulo 2^32, the weights added up while there is a count, the later message. */
  lemma EnvelopeSays(a: Event, b: Event)
    ensures var e := Envelope(a, b);
            && e.processed == (a.processed + b.processed) % 0x1_0000_0000
            && e.failed == (a.failed + b.failed) % 0x1_0000_0000
            && (e.processed > 0 ==>
                  e.latency * e.processed as real == a.latency * a.processed as real + b.latency * b.processed as real)
            && (e.processed == 0 ==> e.latency == a.latency)
            && e.message == if b.message.first != '\0' then b.message else a.message
  {
    var e := Envelope(a, b);
    if e.processed > 0 {
      DivMul(Weight(a) + Weight(b), e.processed as real);
    }
  }

  /** A fold's message is that of the last event that has one, number i, and none (i is -1) if no event has. */
  lemma {:induction false} FoldedMessage(es: seq<Event>, i: int)
    requires -1 <= i < |es| && (i >= 0 ==> es[i].message.first != '\0')
    requires forall j :: i < j < |es| ==> es[j].message.first == '\0'
    ensures Folded(es).message == if i < 0 then NO_MESSAGE else es[i].message
  {
    if es != [] {
      var n := |es| - 1;
      EnvelopeSays(Folded(es[..n]), es[n]);
      hide Envelope;
      if i < n {
        FoldedMessage(es[..n], i);
      }
    }
  }

  // ----- counts, whatever their size -----

  /** The counts and the message of a fold, with no bound on the totals. */
  lemma {:induction false} FoldedCounts(es: seq<Event>)
    ensures Folded(es).processed == Wrap(Processed(es)) && Folded(es).failed == Wrap(Failures(es))
    ensures Folded(es).message == LastMessage(es)
  {
    hide Weight, Wrap;
    WrapSmall(0);
    if es != [] {
      var n := |es| - 1;
      FoldedCounts(es[..n]);
      WrapSum(Processed(es[..n]), es[n].processed);
      WrapSum(Failures(es[..n]), es[n].failed);
    }
  }

  /** Consolidating counts a batch exactly if and only if the batch's total fits. */
  lemma {:induction false} CountExactIff(es: seq<Event>)
    ensures Folded(es).processed == Processed(es) <==> Processed(es) < U32
    ensures Folded(es).failed == Failures(es) <==> Failures(es) < U32
  {
    hide Wrap, Folded, Processed, Failures;
    FoldedCounts(es);
    WrapSmall(Processed(es));
    WrapSmall(Failures(es));
  }

  lemma EnvelopeCounts(a: Event, b: Event, xs: seq<Event>, ys: seq<Event>)
    requires a.processed == Wrap(Processed(xs)) && a.failed == Wrap(Failures(xs)) && a.message == LastMessage(xs)
    requires b.processed == Wrap(Processed(ys)) && b.failed == Wrap(Failures(ys)) && b.message == LastMessage(ys)
    ensures var e := Envelope(a, b);
            && e.processed == Wrap(Processed(xs + ys)) && e.failed == Wrap(Failures(xs + ys))
            && e.message == LastMessage(xs + ys)
  {
    hide Weight, Wrap, Processed, Failures, TotalWeight, LastMessage;
    Concat(xs, ys);
    WrapSum(Processed(xs), Wrap(Processed(ys)));
    WrapSum(Processed(xs), Processed(ys));
    WrapSum(Failures(xs), Wrap(Failures(ys)));
    WrapSum(Failures(xs), Failures(ys));
  }

  // ----- order of flushes -----

  function Drop(es: seq<Event>, i: nat): seq<Event>
    requires i < |es|
  {
    es[..i] + es[i + 1..]
  }

  lemma {:induction false} DropTotals(es: seq<Event>, i: nat)
    requires i < |es|
    ensures Processed(es) == Processed(Drop(es, i)) + es[i].processed
    ensures Failures(es) == Failures(Drop(es, i)) + es[i].failed
    ensures TotalWeight(es) == TotalWeight(Drop(es, i)) + Weight(es[i])
  {
    assert es == es[..i] + ([es[i]] + es[i + 1..]);
    Concat(es[..i], [es[i]] + es[i + 1..]);
    Concat([es[i]], es[i + 1..]);
    Concat(es[..i], es[i + 1..]);
    assert [es[i]][..0] == [];
  }

  lemma DropMultiset(es: seq<Event>, i: nat)
    requires i < |es|
    ensures multiset(Drop(es, i)) == multiset(es) - multiset{es[i]}
  {
    assert es == es[..i] + ([es[i]] + es[i + 1..]);
  }

  /** Counts and mean latency depend on which events there are, not on their order. */
  lemma {:induction false} OrderIndependent(xs: seq<Event>, ys: seq<Event>)
    requires multiset(xs) == multiset(ys)
    ensures Processed(xs) == Processed(ys) && Failures(xs) == Failures(ys)
    ensures TotalWeight(xs) == TotalWeight(ys) && Mean(xs) == Mean(ys)
    decreases |xs|
  {
    if xs == [] {
      assert |multiset(xs)| == |multiset(ys)|;
    } else {
      hide Processed, Failures, TotalWeight, Weight, Drop;
      var n := |xs| - 1;
      assert xs[n] in multiset(ys);
      var i :| 0 <= i < |ys| && ys[i] == xs[n];
      DropMultiset(xs, n);
      DropMultiset(ys, i);
      DropTotals(xs, n);
      DropTotals(ys, i);
      assert |Drop(xs, n)| < |xs| by {
        assert |multiset(Drop(xs, n))| == |multiset(xs)| - 1;
      }
      OrderIndependent(Drop(xs, n), Drop(ys, i));
    }
  }
}
