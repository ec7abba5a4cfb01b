/**
 What the cache must answer, read off the calls of a run and the ticks of its clock
 alone, without the state the steps leave behind or the log they keep.
 */
module CacheTrace {
  import opened Common
  import opened CacheModel
  import opened CacheProofs

  // ----- what the events say -----

  ghost function Now(start: Time, es: seq<Event>): Time
  {
    if es == [] then start else
    var n := |es| - 1;
    Now(start, es[..n]) + if es[n].Tick? then es[n].dt else 0
  }

  datatype Entry = Entry(value: Value, deadline: Time)

  /** What the last call that named the key, among those before the stop, put there. */
  ghost function LastPut(start: Time, es: seq<Event>, key: Key): Option<Entry>
  {
    if es == [] then None else
    var n := |es| - 1;
    var before := LastPut(start, es[..n], key);
    if SetStop in es[..n] then before else
    match es[n]
    case Put(k, value, ttl, _) => if k == key then Some(Entry(value, Now(start, es[..n]) + ttl)) else before
    case Remove(k, _) => if k == key then None else before
    case _ => before
  }

  ghost function AcceptedPuts(es: seq<Event>): nat
  {
    if es == [] then 0 else
    var n := |es| - 1;
    AcceptedPuts(es[..n]) + if es[n].Put? && SetStop !in es[..n] then 1 else 0
  }

  ghost function Sweeps(es: seq<Event>): nat
  {
    if es == [] then 0 else
    var n := |es| - 1;
    Sweeps(es[..n]) + if es[n].Sweep? then 1 else 0
  }

  // ----- the state follows -----

  ghost function EntryOf(w: Option<Write>): Option<Entry>
  {
    match w
    case Some(Stored(_, value, at, ttl)) => Some(Entry(value, at + ttl))
    case _ => None
  }

  ghost predicate Follows(s: State, start: Time, es: seq<Event>)
  {
    && s.clock == Now(start, es) && (s.isStopping <==> SetStop in es)
    && s.generation == AcceptedPuts(es) && s.passes == Sweeps(es)
    && forall k: Key :: EntryOf(LastWrite(s.writes, k)) == LastPut(start, es, k)
  }

  lemma LastWriteOne(writes: seq<Write>, w: Write, key: Key)
    ensures LastWrite(writes + [w], key) == if w.key == key then Some(w) else LastWrite(writes, key)
  {
    assert (writes + [w])[..|writes|] == writes;
  }

  lemma OneMore(start: Time, es: seq<Event>, e: Event)
    ensures Now(start, es + [e]) == Now(start, es) + if e.Tick? then e.dt else 0
    ensures AcceptedPuts(es + [e]) == AcceptedPuts(es) + if e.Put? && SetStop !in es then 1 else 0
    ensures Sweeps(es + [e]) == Sweeps(es) + if e.Sweep? then 1 else 0
  {
    assert (es + [e])[..|es + [e]| - 1] == es;
  }

  lemma OneMorePut(start: Time, es: seq<Event>, e: Event, key: Key)
    ensures LastPut(start, es + [e], key) ==
            if SetStop !in es && e.Put? && e.key == key then Some(Entry(e.value, Now(start, es) + e.ttl))
            else if SetStop !in es && e.Remove? && e.key == key then None
            else LastPut(start, es, key)
  {
    assert (es + [e])[..|es + [e]| - 1] == es;
  }

  lemma EntryStep(s: State, e: Event, key: Key)
    requires Enabled(s, e)
    ensures EntryOf(LastWrite(Step(s, e).writes, key)) ==
            if !s.isStopping && e.Put? && e.key == key then Some(Entry(e.value, s.clock + e.ttl))
            else if !s.isStopping && e.Remove? && e.key == key then None
            else EntryOf(LastWrite(s.writes, key))
  {
    hide LastWrite;
    var s' := Step(s, e);
    if s'.writes != s.writes {
      LastWriteOne(s.writes, s'.writes[|s.writes|], key);
    }
  }

  lemma FollowsStep(s: State, start: Time, es: seq<Event>, e: Event)
    requires Follows(s, start, es) && Enabled(s, e)
    ensures Follows(Step(s, e), start, es + [e])
  {
    OneMore(start, es, e);
    hide Now, AcceptedPuts, Sweeps, LastPut, LastWrite, EntryOf;
    forall k: Key ensures EntryOf(LastWrite(Step(s, e).writes, k)) == LastPut(start, es + [e], k) {
      OneMorePut(start, es, e, k);
      EntryStep(s, e, k);
    }
  }

  lemma {:induction false} RunEnds(s: State, es: seq<Event>)
    requires Feasible(s, es) && es != []
    ensures var n := |es| - 1;
            Feasible(s, es[..n]) && Enabled(Run(s, es[..n]), es[n]) && Run(s, es) == Step(Run(s, es[..n]), es[n])
    decreases |es|
  {
    var n := |es| - 1;
    if n > 0 {
      RunEnds(Step(s, es[0]), es[1..]);
      assert es[1..][..n - 1] == es[..n][1..];
    }
  }

  lemma {:induction false} StateFollows(start: Time, es: seq<Event>)
    requires Feasible(Init(start), es)
    ensures Follows(Run(Init(start), es), start, es)
    decreases |es|
  {
    if es != [] {
      hide Follows;
      var n := |es| - 1;
      RunEnds(Init(start), es);
      StateFollows(start, es[..n]);
      FollowsStep(Run(Init(start), es[..n]), start, es[..n], es[n]);
      assert es[..n] + [es[n]] == es;
    }
  }

  // ----- what callers see -----

  /**
   After any run get returns v exactly if nobody has called stop and the last call that
   named the key is a put of v whose deadline lies ahead, whatever was swept when.
   */
  lemma GetFollowsCalls(start: Time, es: seq<Event>, key: Key)
    requires Feasible(Init(start), es)
    ensures Get(Run(Init(start), es), key) ==
            if SetStop in es then None
            else match LastPut(start, es, key)
                 case Some(Entry(value, deadline)) => (if deadline > Now(start, es) then Some(value) else None)
                 case None => None
  {
    StateFollows(start, es);
    var s := Run(Init(start), es);
    InvInit(start);
    InvRun(Init(start), es);
    assert AgreesOn(s, key);
    assert EntryOf(LastWrite(s.writes, key)) == LastPut(start, es, key);
  }

  /** What is physically there was put by the last call that named its key, and nothing that is due later is missing. */
  lemma MapFollowsCalls(start: Time, es: seq<Event>, key: Key)
    requires Feasible(Init(start), es)
    ensures var s := Run(Init(start), es);
            match LastPut(start, es, key)
            case None => key !in s.lookup
            case Some(Entry(value, deadline)) =>
              && (key in s.lookup ==> s.lookup[key].value == value && s.lookup[key].expiration == deadline)
              && (key !in s.lookup ==> deadline <= Now(start, es))
  {
    StateFollows(start, es);
    var s := Run(Init(start), es);
    InvInit(start);
    InvRun(Init(start), es);
    assert AgreesOn(s, key);
    assert EntryOf(LastWrite(s.writes, key)) == LastPut(start, es, key);
  }

  /** A spurious wake-up leads to a re-test, after which the sweeper sweeps what is due or waits on as before. */
  lemma SpuriousIsHarmless(s: State)
    requires s.sweeper.Asleep? && !s.isStopping
    ensures Feasible(s, [Spurious, Recheck])
    ensures Run(s, [Spurious, Recheck]) == if Due(s.heap, s.clock) then s.(sweeper := Sweeping) else s
  {
    assert [Spurious, Recheck][1..] == [Recheck];
    assert [Recheck][1..] == [];
  }

  /** The sweeper never passes more often than there were puts, less those still in the heap. */
  lemma SweepsAtMostPuts(start: Time, es: seq<Event>)
    requires Feasible(Init(start), es)
    ensures Sweeps(es) + |Run(Init(start), es).heap| <= AcceptedPuts(es)
  {
    StateFollows(start, es);
    InvInit(start);
    InvRun(Init(start), es);
  }
}
