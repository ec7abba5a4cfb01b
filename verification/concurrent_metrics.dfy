/** The metrics code that updates in place: envelopeWith, consolidate, and the flush. */
module Metrics {
  import opened Common
  import opened UnsignedInt
  import opened MetricsEvent
  import opened MetricsModel
  import MetricsProofs

  /** An event as the mutable object that envelopeWith works on. */
  class Aggregate {
    var processedCount: Unsigned
    var failedCount: Unsigned
    var averageLatencyUs: real
    var lastErrorMessage: Message

    function Value(): Event
      reads this
    {
      Event(processedCount, failedCount, averageLatencyUs, lastErrorMessage)
    }

    constructor (e: Event)
      ensures Value() == e
    {
      processedCount, failedCount, averageLatencyUs, lastErrorMessage := e.processed, e.failed, e.latency, e.message;
    }

    method EnvelopeWith(event: Event)
      modifies this
      ensures Value() == Envelope(old(Value()), event)
      ensures old(processedCount) + event.processed < U32 ==>
                processedCount == old(processedCount) + event.processed
                && Weight(Value()) == Weight(old(Value())) + Weight(event)
      ensures processedCount == (old(processedCount) + event.processed) % 0x1_0000_0000
      ensures failedCount == (old(failedCount) + event.failed) % 0x1_0000_0000
      ensures processedCount > 0 ==>
                averageLatencyUs * processedCount as real
                == old(averageLatencyUs * processedCount as real) + event.latency * event.processed as real
      ensures processedCount == 0 ==> averageLatencyUs == old(averageLatencyUs)
      ensures lastErrorMessage == if event.message.first != '\0' then event.message else old(lastErrorMessage)
    {
      EnvelopeSays(Value(), event);
      if processedCount + event.processed < U32 {
        EnvelopeWeight(Value(), event);
      }
      hide Weight, HasMessage;
      var combined := Wrap(processedCount + event.processed);
      if combined > 0 {
        var weight := Weight(Value()) + Weight(event);
        averageLatencyUs := weight / combined as real;
      }
      processedCount := Wrap(processedCount + event.processed);
      failedCount := Wrap(failedCount + event.failed);
      if HasMessage(event) {
        lastErrorMessage := event.message;
      }
    }
  }

  /** Nothing for an empty batch; otherwise totals, mean latency and last message of the batch. */
  method Consolidate(events: seq<Event>) returns (r: Option<Event>)
    ensures r == Consolidated(events)
    ensures events == [] <==> r.None?
    ensures events != [] && Processed(events) < U32 ==> r == Some(Summary(events))
  {
    if events == [] {
      return None;
    }
    var result := new Aggregate(DEFAULT_EVENT);
    var i := 0;
    while i < |events|
      invariant 0 <= i <= |events|
      invariant fresh(result)
      invariant result.Value() == Folded(events[..i])
    {
      assert events[..i + 1][..i] == events[..i];
      result.EnvelopeWith(events[i]);
      i := i + 1;
    }
    assert events[..i] == events;
    if Processed(events) < U32 {
      FoldedIsSummary(events);
    }
    r := Some(result.Value());
  }

  class SharedData {
    var data: Option<Event>

    constructor ()
      ensures data == None
    {
      data := None;
    }

    /** flushLambda: consolidate a batch, then merge it into the shared data. */
    method Flush(batch: seq<Event>, ghost flushed: seq<Event>)
      modifies this
      ensures data == Merged(old(data), batch)
      ensures old(MetricsProofs.Aggregates(data, flushed)) ==> MetricsProofs.Aggregates(data, flushed + batch)
      ensures MetricsProofs.SharedWeight(data) + MergeLost(old(data), batch)
              == MetricsProofs.SharedWeight(old(data)) + TotalWeight(batch)
    {
      MetricsProofs.MergeAccounts(data, batch);
      if MetricsProofs.Aggregates(data, flushed) {
        MetricsProofs.MergedAggregates(data, flushed, batch);
      }
      var consolidated := Consolidate(batch);
      if consolidated.Some? {
        if data.None? {
          data := consolidated;
        } else {
          var shared := new Aggregate(data.value);
          shared.EnvelopeWith(consolidated.value);
          data := Some(shared.Value());
        }
      }
    }
  }
}
