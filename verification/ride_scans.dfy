/**
 Objects may die while a list is being scanned: every visit locks the weak pointers anew.
 A scan therefore takes the dead as it finds them at each visit. What it leaves differs
 from one atomic step at most in dead pairs, and those nobody can ever see.
 */
module RideScans {
  import opened RideModel
  import opened RideProofs
  import opened RideTheorems

  predicate MoreDead(a: Dead, b: Dead)
  {
    a.dispatchers <= b.dispatchers && a.observers <= b.observers
  }

  /** expired[k] are the dead at the visit of the k-th pair, the last ones those after the scan. */
  predicate Deaths(dead: Dead, expired: seq<Dead>)
  {
    && expired != []
    && (forall k :: 0 <= k < |expired| ==> MoreDead(dead, expired[k]))
    && (forall k :: 0 <= k < |expired| ==> MoreDead(expired[k], expired[|expired| - 1]))
  }

  function Last(expired: seq<Dead>): Dead
    requires expired != []
  {
    expired[|expired| - 1]
  }

  /** Nobody dies during the scan. */
  predicate NoDeaths(dead: Dead, expired: seq<Dead>)
  {
    forall k :: 0 <= k < |expired| ==> expired[k] == dead
  }

  /** The pairs whose objects were alive when visited, in order. */
  function LivingAtVisit(ps: seq<Pair>, expired: seq<Dead>): seq<Pair>
    requires |ps| <= |expired|
  {
    if ps == [] then [] else
    var n := |ps| - 1;
    LivingAtVisit(ps[..n], expired) + if Living(ps[n], expired[n]) then [ps[n]] else []
  }

  function OthersAtVisit(ps: seq<Pair>, expired: seq<Dead>, o: nat): seq<Pair>
    requires |ps| <= |expired|
  {
    if ps == [] then [] else
    var n := |ps| - 1;
    OthersAtVisit(ps[..n], expired, o)
    + if ps[n].observer !in expired[n].observers && ps[n].observer != o then [ps[n]] else []
  }

  function SubscribedAtVisit(ps: seq<Pair>, expired: seq<Dead>, p: Pair): seq<Pair>
    requires |ps| <= |expired|
  {
    var i := IndexOf(ps, p);
    LivingAtVisit(ps[..i], expired) + if i < |ps| then ps[i..] else [p]
  }

  // ----- without deaths these are the model's filters -----

  lemma {:induction false} LivingWithoutDeaths(ps: seq<Pair>, dead: Dead, expired: seq<Dead>)
    requires |ps| <= |expired| && NoDeaths(dead, expired)
    ensures LivingAtVisit(ps, expired) == LivingOnly(ps, dead)
  {
    if ps != [] {
      LivingWithoutDeaths(ps[..|ps| - 1], dead, expired);
    }
  }

  lemma {:induction false} OthersWithoutDeaths(ps: seq<Pair>, dead: Dead, expired: seq<Dead>, o: nat)
    requires |ps| <= |expired| && NoDeaths(dead, expired)
    ensures OthersAtVisit(ps, expired, o) == WithoutObserver(ps, dead, o)
  {
    if ps != [] {
      OthersWithoutDeaths(ps[..|ps| - 1], dead, expired, o);
    }
  }

  // ----- with deaths they agree on who lives in the end -----

  /** Pairs that are alive when visited are locked, and so alive in the end. */
  predicate KeptAlive(ps: seq<Pair>, expired: seq<Dead>)
    requires |expired| == |ps| + 1
  {
    forall k :: 0 <= k < |ps| && Living(ps[k], expired[k]) ==> Living(ps[k], Last(expired))
  }

  /** Then the scan, whoever dies during it, is the filter of its end. */
  lemma {:induction false} LivingKept(ps: seq<Pair>, expired: seq<Dead>, last: Dead)
    requires |ps| <= |expired|
    requires forall k :: 0 <= k < |ps| ==> MoreDead(expired[k], last)
    requires forall k :: 0 <= k < |ps| && Living(ps[k], expired[k]) ==> Living(ps[k], last)
    ensures LivingAtVisit(ps, expired) == LivingOnly(ps, last)
  {
    if ps != [] {
      LivingKept(ps[..|ps| - 1], expired, last);
    }
  }

  lemma LivingOne(p: Pair, dead: Dead)
    ensures LivingOnly([p], dead) == if Living(p, dead) then [p] else []
  {
    assert [p][..0] == [];
  }

  lemma VisitLast(ps: seq<Pair>, expired: seq<Dead>)
    requires 0 < |ps| <= |expired|
    ensures var n := |ps| - 1;
            LivingAtVisit(ps, expired) == if Living(ps[n], expired[n]) then LivingAtVisit(ps[..n], expired) + [ps[n]]
                                          else LivingAtVisit(ps[..n], expired)
  {
  }

  lemma {:induction false} LivingInTheEnd(ps: seq<Pair>, expired: seq<Dead>, last: Dead)
    requires |ps| <= |expired| && forall k :: 0 <= k < |ps| ==> MoreDead(expired[k], last)
    ensures LivingOnly(LivingAtVisit(ps, expired), last) == LivingOnly(ps, last)
  {
    if ps != [] {
      var n := |ps| - 1;
      LivingInTheEnd(ps[..n], expired, last);
      VisitLast(ps, expired);
      LivingLast(ps, last);
      hide LivingOnly, LivingAtVisit;
      if Living(ps[n], expired[n]) {
        LivingAppend(LivingAtVisit(ps[..n], expired), [ps[n]], last);
        LivingOne(ps[n], last);
      }
    }
  }

  lemma LivingLater(ps: seq<Pair>, dead: Dead, last: Dead)
    requires MoreDead(dead, last)
    ensures LivingOnly(LivingOnly(ps, dead), last) == LivingOnly(ps, last)
  {
    var expired := seq(|ps|, _ => dead);
    LivingWithoutDeaths(ps, dead, expired);
    LivingInTheEnd(ps, expired, last);
  }

  lemma {:induction false} OthersInTheEnd(ps: seq<Pair>, expired: seq<Dead>, last: Dead, o: nat)
    requires |ps| <= |expired| && forall k :: 0 <= k < |ps| ==> MoreDead(expired[k], last)
    ensures LivingOnly(OthersAtVisit(ps, expired, o), last) == WithoutObserver(LivingOnly(ps, last), last, o)
  {
    if ps != [] {
      var n := |ps| - 1;
      var p := ps[n];
      OthersInTheEnd(ps[..n], expired, last, o);
      LivingAppend(OthersAtVisit(ps[..n], expired, o),
                   if p.observer !in expired[n].observers && p.observer != o then [p] else [], last);
      LivingOne(p, last);
      OthersAppend(LivingOnly(ps[..n], last), if Living(p, last) then [p] else [], last, o);
      assert [p][..0] == [];
    }
  }

  lemma OthersLater(ps: seq<Pair>, dead: Dead, last: Dead, o: nat)
    requires MoreDead(dead, last)
    ensures LivingOnly(WithoutObserver(ps, dead, o), last) == WithoutObserver(LivingOnly(ps, last), last, o)
  {
    var expired := seq(|ps|, _ => dead);
    OthersWithoutDeaths(ps, dead, expired, o);
    OthersInTheEnd(ps, expired, last, o);
  }

  lemma SubscribedInTheEnd(ps: seq<Pair>, dead: Dead, expired: seq<Dead>, p: Pair)
    requires Deaths(dead, expired) && |ps| <= |expired|
    ensures LivingOnly(SubscribedAtVisit(ps, expired, p), Last(expired))
            == LivingOnly(Subscribed(ps, dead, p), Last(expired))
  {
    hide LivingOnly, LivingAtVisit;
    var i, last := IndexOf(ps, p), Last(expired);
    var back := if i < |ps| then ps[i..] else [p];
    LivingInTheEnd(ps[..i], expired, last);
    LivingLater(ps[..i], dead, last);
    LivingAppend(LivingAtVisit(ps[..i], expired), back, last);
    LivingAppend(LivingOnly(ps[..i], dead), back, last);
  }

  // ----- the scans keep the pairs distinct -----

  lemma {:induction false} LivingAtVisitMember(ps: seq<Pair>, expired: seq<Dead>, p: Pair)
    requires |ps| <= |expired|
    ensures p in LivingAtVisit(ps, expired) ==> p in ps
  {
    if ps != [] {
      var n := |ps| - 1;
      LivingAtVisitMember(ps[..n], expired, p);
      assert ps == ps[..n] + [ps[n]];
    }
  }

  lemma {:induction false} LivingAtVisitDistinct(ps: seq<Pair>, expired: seq<Dead>)
    requires |ps| <= |expired| && Distinct(ps)
    ensures Distinct(LivingAtVisit(ps, expired))
  {
    if ps != [] {
      var n := |ps| - 1;
      LivingAtVisitDistinct(ps[..n], expired);
      LivingAtVisitMember(ps[..n], expired, ps[n]);
      if Living(ps[n], expired[n]) {
        DistinctAppend(LivingAtVisit(ps[..n], expired), ps[n]);
      }
    }
  }

  lemma {:induction false} OthersAtVisitDistinct(ps: seq<Pair>, expired: seq<Dead>, o: nat)
    requires |ps| <= |expired| && Distinct(ps)
    ensures Distinct(OthersAtVisit(ps, expired, o))
    ensures forall p :: p in OthersAtVisit(ps, expired, o) ==> p in ps
  {
    if ps != [] {
      var n := |ps| - 1;
      OthersAtVisitDistinct(ps[..n], expired, o);
      assert ps == ps[..n] + [ps[n]];
      if ps[n].observer !in expired[n].observers && ps[n].observer != o {
        DistinctAppend(OthersAtVisit(ps[..n], expired, o), ps[n]);
      }
    }
  }

  lemma SubscribedAtVisitDistinct(ps: seq<Pair>, expired: seq<Dead>, p: Pair)
    requires |ps| <= |expired| && Distinct(ps)
    ensures Distinct(SubscribedAtVisit(ps, expired, p))
  {
    var i := IndexOf(ps, p);
    var front := LivingAtVisit(ps[..i], expired);
    var back := if i < |ps| then ps[i..] else [p];
    LivingAtVisitDistinct(ps[..i], expired);
    forall a, b | 0 <= a < |front| && 0 <= b < |back| ensures front[a] != back[b] {
      LivingAtVisitMember(ps[..i], expired, front[a]);
      assert front[a] in front;
    }
  }

  // ----- who is on the list after a scan -----

  lemma {:induction false} LivingAtVisitKeeps(ps: seq<Pair>, dead: Dead, expired: seq<Dead>, p: Pair)
    requires |ps| < |expired| && Deaths(dead, expired) && p in ps && Living(p, Last(expired))
    ensures p in LivingAtVisit(ps, expired)
  {
    var n := |ps| - 1;
    if ps[n] != p {
      assert p in ps[..n];
      LivingAtVisitKeeps(ps[..n], dead, expired, p);
    }
  }

  /** The pair itself, and of the old ones at least those that live in the end. */
  lemma SubscribedAtVisitMembers(ps: seq<Pair>, dead: Dead, expired: seq<Dead>, p: Pair)
    requires |ps| < |expired| && Deaths(dead, expired)
    ensures p in SubscribedAtVisit(ps, expired, p)
    ensures forall q :: q in ps && Living(q, Last(expired)) ==> q in SubscribedAtVisit(ps, expired, p)
    ensures forall q :: q in SubscribedAtVisit(ps, expired, p) ==> q in ps || q == p
  {
    var i := IndexOf(ps, p);
    assert ps == ps[..i] + ps[i..];
    forall q | q in ps && Living(q, Last(expired)) ensures q in SubscribedAtVisit(ps, expired, p) {
      if q in ps[..i] {
        LivingAtVisitKeeps(ps[..i], dead, expired, q);
      }
    }
    forall q | q in SubscribedAtVisit(ps, expired, p) ensures q in ps || q == p {
      LivingAtVisitMember(ps[..i], expired, q);
    }
  }

  lemma {:induction false} OthersAtVisitMembers(ps: seq<Pair>, dead: Dead, expired: seq<Dead>, o: nat)
    requires |ps| < |expired| && Deaths(dead, expired)
    ensures forall p :: p in OthersAtVisit(ps, expired, o) ==> p in ps && p.observer != o
    ensures forall p :: p in ps && Living(p, Last(expired)) && p.observer != o ==> p in OthersAtVisit(ps, expired, o)
  {
    if ps != [] {
      var n := |ps| - 1;
      OthersAtVisitMembers(ps[..n], dead, expired, o);
      assert ps == ps[..n] + [ps[n]];
    }
  }

  lemma InvObservers(s: State, observers: seq<Pair>, dead: Dead)
    requires Inv(s) && Distinct(observers)
    ensures Inv(s.(observers := observers, dead := dead))
  {
  }

  // ----- dead pairs are invisible -----

  /** The same state but for dead pairs on the observer list. */
  ghost predicate Alike(s: State, t: State)
  {
    t == s.(observers := t.observers) && LivingOnly(s.observers, s.dead) == LivingOnly(t.observers, s.dead)
  }

  lemma AlikeSubscribe(s: State, t: State, p: Pair)
    requires Alike(s, t) && Enabled(s, Subscribe(p))
    ensures Alike(Step(s, Subscribe(p)), Step(t, Subscribe(p)))
  {
    hide LivingOnly, Subscribed;
    LivingMember(s.observers, s.dead, p);
    LivingMember(t.observers, s.dead, p);
    SubscribeOutcome(s.observers, s.dead, p);
    SubscribeOutcome(t.observers, s.dead, p);
  }

  lemma AlikeStep(s: State, t: State, e: Event)
    requires Alike(s, t) && Enabled(s, e)
    ensures Enabled(t, e) && Alike(Step(s, e), Step(t, e))
  {
    hide LivingOnly, Subscribed, WithoutObserver;
    match e
    case Subscribe(p) =>
      AlikeSubscribe(s, t, p);
    case Unsubscribe(o) =>
      OthersLater(s.observers, s.dead, s.dead, o);
      OthersLater(t.observers, s.dead, s.dead, o);
    case DispatcherDies(_) => AlikeDeaths(s, t, Step(s, e).dead);
    case ObserverDies(_) => AlikeDeaths(s, t, Step(s, e).dead);
    case _ =>
  }

  lemma AlikeDeaths(s: State, t: State, last: Dead)
    requires Alike(s, t) && MoreDead(s.dead, last)
    ensures Alike(s.(dead := last), t.(dead := last))
  {
    hide LivingOnly;
    LivingLater(s.observers, s.dead, last);
    LivingLater(t.observers, s.dead, last);
  }

  /**
   What can happen from a state can happen from one that is alike, with the same
   outcome: every call, every snapshot and every transition is the same, for ever.
   */
  lemma {:induction false} DeadPairsAreInvisible(s: State, t: State, es: seq<Event>)
    requires Alike(s, t) && Feasible(s, es)
    ensures Feasible(t, es) && Alike(Run(s, es), Run(t, es))
    decreases |es|
  {
    hide Alike;
    if es != [] {
      AlikeStep(s, t, es[0]);
      DeadPairsAreInvisible(Step(s, es[0]), Step(t, es[0]), es[1..]);
    }
  }

  // ----- the deaths of a scan as events -----

  predicate Death(e: Event)
  {
    e.DispatcherDies? || e.ObserverDies?
  }

  ghost predicate HeldOutside(d: Dispatcher, dispatchers: set<nat>, observers: set<nat>)
  {
    forall p :: Held(d, p) ==> p.dispatcher !in dispatchers && p.observer !in observers
  }

  lemma FirstDeath(s: State, e: Event, rest: seq<Event>, dead: Dead, last: Dead)
    requires Death(e) && Enabled(s, e) && Step(s, e) == s.(dead := dead)
    requires Feasible(s.(dead := dead), rest) && Run(s.(dead := dead), rest) == s.(dead := last)
    ensures Feasible(s, [e] + rest) && Run(s, [e] + rest) == s.(dead := last)
  {
    assert ([e] + rest)[1..] == rest;
  }

  /** What no dispatch under way holds may die: the dead of a later moment come about by events. */
  lemma {:induction false} DeathsAreARun(s: State, dispatchers: set<nat>, observers: set<nat>) returns (es: seq<Event>)
    requires HeldOutside(s.dispatcher, dispatchers, observers)
    ensures (forall i :: 0 <= i < |es| ==> Death(es[i])) && Feasible(s, es)
    ensures Run(s, es) == s.(dead := Dead(s.dead.dispatchers + dispatchers, s.dead.observers + observers))
    decreases |dispatchers| + |observers|
  {
    var last := Dead(s.dead.dispatchers + dispatchers, s.dead.observers + observers);
    if dispatchers == {} && observers == {} {
      es := [];
      assert last == s.dead;
    } else {
      var e, dead, dispatchers', observers' := SomeDeath(s, dispatchers, observers);
      hide Step, Enabled, HeldOutside, Feasible, Run;
      var rest := DeathsAreARun(s.(dead := dead), dispatchers', observers');
      FirstDeath(s, e, rest, dead, last);
      es := [e] + rest;
    }
  }

  lemma SomeDeath(s: State, dispatchers: set<nat>, observers: set<nat>)
    returns (e: Event, dead: Dead, dispatchers': set<nat>, observers': set<nat>)
    requires HeldOutside(s.dispatcher, dispatchers, observers) && (dispatchers != {} || observers != {})
    ensures Death(e) && Enabled(s, e) && Step(s, e) == s.(dead := dead)
    ensures HeldOutside(s.dispatcher, dispatchers', observers')
    ensures |dispatchers'| + |observers'| < |dispatchers| + |observers|
    ensures dead.dispatchers + dispatchers' == s.dead.dispatchers + dispatchers
    ensures dead.observers + observers' == s.dead.observers + observers
  {
    dispatchers', observers' := dispatchers, observers;
    if dispatchers != {} {
      var d :| d in dispatchers;
      e, dead, dispatchers' := DispatcherDies(d), s.dead.(dispatchers := s.dead.dispatchers + {d}), dispatchers - {d};
    } else {
      var o :| o in observers;
      e, dead, observers' := ObserverDies(o), s.dead.(observers := s.dead.observers + {o}), observers - {o};
    }
  }
}
