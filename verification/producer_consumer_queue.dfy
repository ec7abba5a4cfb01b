/** The queue as an object. */
module WorkQueue {
  import opened UnsignedInt
  import opened QueueModel
  import opened QueueProofs

  class BoundedQueue {
    const maxQueueSize: nat
    var workItems: seq<WorkItem>
    var latestSequenceId: Unsigned

    ghost var stop: bool
    ghost var consumers: seq<Consumer>
    ghost var pushed: seq<nat>
    ghost var popped: seq<Pop>

    ghost function Model(): State
      reads this
    {
      State(maxQueueSize, stop, workItems, latestSequenceId, consumers, pushed, popped)
    }

    ghost predicate Valid()
      reads this
    {
      Inv(Model())
    }

    constructor (maxQueueSize: nat, ghost consumerCount: nat)
      ensures Valid() && Model() == Init(maxQueueSize, consumerCount)
    {
      InvInit(maxQueueSize, consumerCount);
      this.maxQueueSize := maxQueueSize;
      workItems, latestSequenceId := [], 0;
      stop, consumers, pushed, popped := false, Init(maxQueueSize, consumerCount).consumers, [], [];
    }

    /** A producer's critical section. */
    method TryProduce(producerId: nat) returns (shouldNotify: bool)
      requires Valid()
      modifies this`workItems, this`latestSequenceId, this`pushed
      ensures Valid() && Model() == Step(old(Model()), Produce(producerId))
      ensures shouldNotify <==> old(|workItems|) < maxQueueSize
      ensures shouldNotify <==> |pushed| == |old(pushed)| + 1
    {
      InvStep(Model(), Produce(producerId));
      shouldNotify := false;
      if |workItems| < maxQueueSize {
        workItems := workItems + [WorkItem(producerId, latestSequenceId)];
        latestSequenceId := Wrap(latestSequenceId + 1);
        pushed := pushed + [producerId];
        shouldNotify := true;
      }
    }

    /** What a consumer does when its wait has tested the predicate: sleep on, leave, loop, or pop the oldest item. */
    method Take(ghost c: nat, timedOut: bool, stopped: bool) returns (item: seq<WorkItem>)
      requires Valid() && c < |consumers| && stopped == stop
      modifies this`workItems, this`consumers, this`popped
      ensures Valid() && Model() == AfterTest(old(Model()), c, timedOut)
      ensures item == if old(workItems) == [] then [] else [Item(Model(), old(|popped|))]
    {
      hide Wrap;
      InvTest(Model(), c, timedOut);
      if !timedOut && !stopped && workItems == [] {
        consumers := consumers[c := Waiting];
        return [];
      }
      if workItems == [] {
        consumers := consumers[c := if stopped then Exited else LoopTop];
        return [];
      }
      var head := workItems[0];
      workItems := workItems[1..];
      consumers := consumers[c := Logging(head)];
      popped := popped + [Pop(c, head)];
      return [head];
    }

    /** The test with which a wait begins. */
    method TakeBeforeWait(ghost c: nat, stopped: bool) returns (item: seq<WorkItem>)
      requires Valid() && Enabled(Model(), Test(c)) && stopped == stop
      modifies this`workItems, this`consumers, this`popped
      ensures Valid() && Model() == Step(old(Model()), Test(c))
      ensures item == if old(workItems) == [] then [] else [Item(Model(), old(|popped|))]
    {
      item := Take(c, false, stopped);
    }

    /** The test after a wake-up or a time-out. */
    method TakeAfterWait(ghost c: nat, timedOut: bool, stopped: bool) returns (item: seq<WorkItem>)
      requires Valid() && Enabled(Model(), Return(c, timedOut)) && stopped == stop
      modifies this`workItems, this`consumers, this`popped
      ensures Valid() && Model() == Step(old(Model()), Return(c, timedOut))
      ensures item == if old(workItems) == [] then [] else [Item(Model(), old(|popped|))]
    {
      item := Take(c, timedOut, stopped);
    }

    /** Steps that touch no field: the stop flag and the consumers' loops. */
    ghost method Schedule(e: Event)
      requires Valid() && Enabled(Model(), e)
      requires e.Stop? || e.ReadStop? || e.Logged?
      modifies this`stop, this`consumers
      ensures Valid() && Model() == Step(old(Model()), e)
    {
      InvStep(Model(), e);
      var next := Step(Model(), e);
      stop, consumers := next.stop, next.consumers;
    }
  }
}
