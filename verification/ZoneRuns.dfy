/** Theorems about whole runs of the zone machine: transactions with an atomic commit, what the
    two-step commit lets through, and what a rejected commit leaves behind. */
module ZoneRuns {
  import opened Options
  import opened Zones
  import opened Transactions
  import opened ZoneMachine

  // ----- runs in which the database answers at once -----

  /** The events of a run with an atomic commit. */
  datatype Event = Arrive(zone: Zone) | Do(call: nat, write: Write) | End(call: nat, ok: bool)

  /** An event is a few steps in a row; those that do not apply change nothing. */
  function NextEvent(s: Sys, e: Event): Sys {
    match e
    case Arrive(zone) => Next(s, Call(zone))
    case Do(c, w) => Next(Next(s, Store(c, w)), StoreDone(c, true))
    case End(c, ok) => Next(Next(Next(s, Settle(c, ok)), CommitDone(c, true)), Exit(c))
  }

  function AfterEvents(s: Sys, es: seq<Event>): Sys
    decreases |es|
  {
    if es == [] then s else AfterEvents(NextEvent(s, es[0]), es[1..])
  }

  /** Between events: every body inside is running, nothing has leaked, the database and the
      caches agree, and nothing is pending once the zone is free. */
  predicate AtomicInv(s: Sys) {
    && Inv(s)
    && s.leaked == 0
    && (forall c :: c in s.active ==> s.active[c].phase.Running?)
    && (s.lock.depth == 0 ==> s.txn.pending == NOTHING)
    && Synced(s.txn)
  }

  predicate Synced(t: Txn) {
    && t.cache == t.db.(unprocessed := map[])
  }

  lemma ApplySynced(t: Txn, snapshot: Batch)
    requires Synced(t)
    ensures Synced(Apply(t, snapshot))
  {
    var none: Table := map[];
    assert none + none == none;
  }

  /** The transaction state after the outermost body ends. */
  function Outcome(t: Txn, ok: bool): Txn {
    if ok then Apply(Clear(t), t.pending) else Clear(t)
  }

  /** A body's end with an atomic commit, in closed form: the outermost one commits or reverts,
      an inner one does neither; then it leaves. */
  lemma EndSpec(s: Sys, c: nat, ok: bool)
    requires AtomicInv(s) && c in s.active
    ensures NextEvent(s, End(c, ok)) ==
              LeaveNow(if s.lock.depth == 1 then s.(txn := Outcome(s.txn, ok)) else s, c)
  {
    var s1 := Next(s, Settle(c, ok));
    var s2 := Next(s1, CommitDone(c, true));
    if s.lock.depth != 1 {
      assert Woken(s.lock) == [];
      assert s1 == LeaveNow(s, c) && c !in s1.active;
    } else {
      OverlayNothing(s.txn.db);
      OverlayNothing(s.txn.cache);
      var m := s.active[c := Body(s.active[c].zone, Leaving)];
      assert m - {c} == s.active - {c};
      assert s2.active - {c} == s.active - {c};
    }
  }

  lemma DoSpec(s: Sys, c: nat, w: Write)
    requires AtomicInv(s) && c in s.active
    ensures var t := Put(s.txn, w);
            NextEvent(s, Do(c, w)) ==
              s.(txn := if Supports(s.active[c].zone, w) then t else Apply(Clear(t), t.pending))
  {
    var t := Put(s.txn, w);
    var s1 := Next(s, Store(c, w));
    var s2 := Next(s1, StoreDone(c, true));
    OverlayNothing(s.txn.db);
    OverlayNothing(s.txn.cache);
    assert s.active[c := Body(s.active[c].zone, Running)] == s.active;
    assert s2.active == s.active;
  }

  lemma AtomicStep(s: Sys, e: Event)
    requires AtomicInv(s)
    ensures AtomicInv(NextEvent(s, e))
  {
    EventInv(s, e);
    match e
    case Arrive(zone) =>
    case Do(c, w) =>
      if c in s.active {
        DoSpec(s, c, w);
        ApplySynced(Clear(Put(s.txn, w)), Put(s.txn, w).pending);
        assert |s.active| > 0;
      }
    case End(c, ok) =>
      if c in s.active {
        EndSpec(s, c, ok);
        ApplySynced(Clear(s.txn), s.txn.pending);
        var t := NextEvent(s, e);
        if s.lock.depth == 1 {
          LastInside(s.(txn := Outcome(s.txn, ok)), c);
        } else {
          assert t.lock.depth == s.lock.depth - 1 > 0 by { assert |s.active| > 0; }
        }
      }
  }

  lemma EventInv(s: Sys, e: Event)
    requires Inv(s)
    ensures Inv(NextEvent(s, e))
  {
    match e
    case Arrive(zone) =>
      StepInv(s, Call(zone));
    case Do(c, w) =>
      StepInv(s, Store(c, w));
      StepInv(Next(s, Store(c, w)), StoreDone(c, true));
    case End(c, ok) =>
      StepInv(s, Settle(c, ok));
      StepInv(Next(s, Settle(c, ok)), CommitDone(c, true));
      StepInv(Next(Next(s, Settle(c, ok)), CommitDone(c, true)), Exit(c));
  }

  /** After the last body of a zone leaves, whoever is inside is running. */
  lemma LastInside(s: Sys, c: nat)
    requires Inv(s) && c in s.active && s.lock.depth == 1
    ensures forall d :: d in LeaveNow(s, c).active ==> LeaveNow(s, c).active[d].phase.Running?
  {
    var ws := Woken(s.lock);
    WithoutOne(s.active, c);
    assert s.active - {c} == map[];
    LeaveHandsOver(s.lock);
    QueueFresh(s);
    assert s.lock.queue == ws + Leave(s.lock).queue;
    if ws != [] {
      SplitFresh(ws, Leave(s.lock).queue, s.next);
      AddBodiesSpec(map[], ws, s.lock.queue[0].zone);
    }
  }

  lemma {:induction false} AtomicRun(s: Sys, es: seq<Event>)
    requires AtomicInv(s)
    ensures AtomicInv(AfterEvents(s, es))
    decreases |es|
  {
    if es != [] {
      AtomicStep(s, es[0]);
      AtomicRun(NextEvent(s, es[0]), es[1..]);
    }
  }

  /** With an atomic commit, in every reachable state: a free zone has nothing pending, and what
      is readable with nothing pending is what the database holds. */
  lemma AtomicSafety(db: Batch, es: seq<Event>)
    ensures var s := AfterEvents(Init(db), es);
            && (s.lock.depth == 0 ==> s.txn.pending == NOTHING)
            && s.lock.depth == |s.active|
            && s.txn.cache == s.txn.db.(unprocessed := map[])
            && (s.lock.depth == 0 ==> View(s.txn) == s.txn.db.(unprocessed := map[]))
  {
    assert AtomicInv(Init(db)) by { OverlayNothing(db.(unprocessed := map[])); }
    AtomicRun(Init(db), es);
    OverlayNothing(AfterEvents(Init(db), es).txn.cache);
  }

  /** The outermost end: a commit keeps what can be read and makes it the committed state and
      the database; a revert restores the committed state; an inner end does neither. */
  lemma CommitOrRevert(s: Sys, c: nat, ok: bool)
    requires AtomicInv(s) && c in s.active
    ensures var t, t' := s.txn, NextEvent(s, End(c, ok)).txn;
            if s.lock.depth > 1 then t' == t
            else
              && t'.pending == NOTHING
              && View(t') == (if ok then View(t) else t.cache)
              && t'.cache == View(t')
              && t'.db == (if ok then Overlay(t.db, t.pending) else t.db)
  {
    EndSpec(s, c, ok);
    assert s.lock.depth >= 1 by { assert |s.active| > 0; }
    OverlayNothing(s.txn.cache);
    OverlayNothing(Outcome(s.txn, ok).cache);
  }

  function StepsOf(es: seq<Event>): seq<Step>
    decreases |es|
  {
    if es == [] then [] else
    (match es[0]
     case Arrive(zone) => [Call(zone)]
     case Do(c, w) => [Store(c, w), StoreDone(c, true)]
     case End(c, ok) => [Settle(c, ok), CommitDone(c, true), Exit(c)])
    + StepsOf(es[1..])
  }

  lemma {:induction false} AfterAppend(s: Sys, a: seq<Step>, b: seq<Step>)
    ensures After(s, a + b) == After(After(s, a), b)
    decreases |a|
  {
    if a == [] {
      assert a + b == b;
    } else {
      assert (a + b)[1..] == a[1..] + b;
      AfterAppend(Next(s, a[0]), a[1..], b);
    }
  }

  lemma AfterThree(s: Sys, a: Step, b: Step, c: Step)
    ensures After(s, [a]) == Next(s, a)
    ensures After(s, [a, b]) == Next(Next(s, a), b)
    ensures After(s, [a, b, c]) == Next(Next(Next(s, a), b), c)
  {
    assert [a][1..] == [] && [a, b][1..] == [b] && [b][1..] == [] && [a, b, c][1..] == [b, c];
    assert [b, c][1..] == [c] && [c][1..] == [];
    assert After(Next(s, a), [b]) == After(Next(Next(s, a), b), []);
    assert After(Next(s, a), [b, c]) == After(Next(Next(s, a), b), [c]);
  }

  /** Runs with an atomic commit are runs of the machine. */
  lemma {:induction false} EventsAreSteps(s: Sys, es: seq<Event>)
    ensures AfterEvents(s, es) == After(s, StepsOf(es))
    decreases |es|
  {
    if es != [] {
      var first := StepsOf(es)[..|StepsOf(es)| - |StepsOf(es[1..])|];
      assert StepsOf(es) == first + StepsOf(es[1..]);
      AfterAppend(s, first, StepsOf(es[1..]));
      EventsAreSteps(NextEvent(s, es[0]), es[1..]);
      match es[0]
      case Arrive(zone) =>
        AfterThree(s, Call(zone), Call(zone), Call(zone));
        assert first == [Call(zone)];
      case Do(c, w) =>
        AfterThree(s, Store(c, w), StoreDone(c, true), Exit(c));
        assert first == [Store(c, w), StoreDone(c, true)];
      case End(c, ok) =>
        AfterThree(s, Settle(c, ok), CommitDone(c, true), Exit(c));
        assert first == [Settle(c, ok), CommitDone(c, true), Exit(c)];
    }
  }

  // ----- one tenure of a zone is one transaction -----

  /** The writes that the events carry out, in order. */
  function Performed(s: Sys, es: seq<Event>): seq<Write>
    decreases |es|
  {
    if es == [] then []
    else (if es[0].Do? && es[0].call in s.active then [es[0].write] else [])
         + Performed(NextEvent(s, es[0]), es[1..])
  }

  /** The zone is never given up during `es`, and its zone may hold back every write. */
  predicate WithinTenure(s: Sys, es: seq<Event>)
    decreases |es|
  {
    if es == [] then true else
    && (match es[0]
        case Arrive(_) => true
        case Do(c, w) => c in s.active ==> Supports(s.active[c].zone, w)
        case End(c, _) => c in s.active ==> s.lock.depth > 1)
    && WithinTenure(NextEvent(s, es[0]), es[1..])
  }

  /** All of `ws` on top of `b`, later writes winning. */
  function Written(b: Batch, ws: seq<Write>): Batch
    decreases |ws|
  {
    if ws == [] then b else Written(Overlay(b, AsBatch(ws[0])), ws[1..])
  }

  lemma {:induction false} WrittenOverlay(b: Batch, p: Batch, ws: seq<Write>)
    ensures Overlay(b, Written(p, ws)) == Written(Overlay(b, p), ws)
    decreases |ws|
  {
    if ws != [] {
      WrittenOverlay(b, Overlay(p, AsBatch(ws[0])), ws[1..]);
      OverlayAssoc(b, p, AsBatch(ws[0]));
    }
  }

  lemma {:induction false} TenurePending(s: Sys, es: seq<Event>)
    requires AtomicInv(s) && WithinTenure(s, es)
    ensures AfterEvents(s, es).txn == s.txn.(pending := Written(s.txn.pending, Performed(s, es)))
    decreases |es|
  {
    if es != [] {
      AtomicStep(s, es[0]);
      TenurePending(NextEvent(s, es[0]), es[1..]);
      TenureEvent(s, es[0], es);
      var ws, rest := Performed(s, es), Performed(NextEvent(s, es[0]), es[1..]);
      if es[0].Do? && es[0].call in s.active {
        assert ws == [es[0].write] + rest && ws[1..] == rest;
      } else {
        assert ws == [] + rest == rest;
      }
    }
  }

  lemma TenureEvent(s: Sys, e: Event, es: seq<Event>)
    requires AtomicInv(s) && es != [] && es[0] == e && WithinTenure(s, es)
    ensures NextEvent(s, e).txn == if e.Do? && e.call in s.active then Put(s.txn, e.write) else s.txn
  {
    if e.Do? && e.call in s.active {
      DoSpec(s, e.call, e.write);
    } else if e.End? && e.call in s.active {
      EndSpec(s, e.call, e.ok);
    }
  }

  /** All or nothing: over one tenure of a zone, if the last body out succeeds the database gets
      every write of every body that was inside, failed inner bodies included; if it fails the
      database gets none of them. */
  lemma AllOrNothing(s: Sys, es: seq<Event>, c: nat, ok: bool)
    requires AtomicInv(s) && s.txn.pending == NOTHING && WithinTenure(s, es)
    requires c in AfterEvents(s, es).active && AfterEvents(s, es).lock.depth == 1
    ensures var t := AfterEvents(s, es + [End(c, ok)]).txn;
            && t.db == (if ok then Written(s.txn.db, Performed(s, es)) else s.txn.db)
            && t.pending == NOTHING
            && View(t) == t.db.(unprocessed := map[])
  {
    var m := AfterEvents(s, es);
    AfterEventsSnoc(s, es, End(c, ok));
    AtomicRun(s, es);
    TenurePending(s, es);
    CommitOrRevert(m, c, ok);
    AtomicStep(m, End(c, ok));
    WrittenOverlay(s.txn.db, NOTHING, Performed(s, es));
    OverlayNothing(s.txn.db);
  }

  lemma {:induction false} AfterEventsSnoc(s: Sys, es: seq<Event>, e: Event)
    ensures AfterEvents(s, es + [e]) == NextEvent(AfterEvents(s, es), e)
    decreases |es|
  {
    if es == [] {
      assert es + [e] == [e] && [e][1..] == [];
    } else {
      assert (es + [e])[1..] == es[1..] + [e];
      AfterEventsSnoc(NextEvent(s, es[0]), es[1..], e);
    }
  }

  // ----- draining -----

  function Load(s: Sys): nat {
    |s.active| + |s.lock.queue|
  }

  /** Every event of `es` is the end of a body that is inside at that point. */
  predicate OnlyEnds(s: Sys, es: seq<Event>)
    decreases |es|
  {
    es == [] || (es[0].End? && es[0].call in s.active && OnlyEnds(NextEvent(s, es[0]), es[1..]))
  }

  /** If no call arrives and no commit rejects, each end of a body lowers the load by one, in
      whatever order bodies end and whether or not they succeed, and while there is any load
      some body is inside: the queue cannot deadlock, and it drains in exactly `Load` ends. */
  lemma {:induction false} Drains(s: Sys, es: seq<Event>)
    requires AtomicInv(s) && OnlyEnds(s, es)
    ensures AtomicInv(AfterEvents(s, es))
    ensures Load(AfterEvents(s, es)) == Load(s) - |es|
    ensures Load(AfterEvents(s, es)) > 0 ==> AfterEvents(s, es).active != map[]
    ensures |es| == Load(s) ==> AfterEvents(s, es).lock == Lock(None, 0, [])
    decreases |es|
  {
    if es != [] {
      AtomicStep(s, es[0]);
      OneEndOneLess(s, es[0].call, es[0].ok);
      Drains(NextEvent(s, es[0]), es[1..]);
    }
  }

  lemma OneEndOneLess(s: Sys, c: nat, ok: bool)
    requires AtomicInv(s) && c in s.active
    ensures Load(NextEvent(s, End(c, ok))) == Load(s) - 1
  {
    EndSpec(s, c, ok);
    if s.lock.depth == 1 {
      var s' := s.(txn := Outcome(s.txn, ok));
      LastLeaves(s', c);
      LeaveHandsOver(s.lock);
    } else {
      WithoutOne(s.active, c);
    }
  }

  // ----- what a rejected outermost commit leaves behind -----

  predicate Finishing(p: Phase) {
    p.Committing? || p.Leaving?
  }

  /** At most one body is finishing, and none once a commit has leaked. */
  predicate OneFinisher(s: Sys) {
    && (forall c, d ::
          c in s.active && d in s.active && Finishing(s.active[c].phase) && Finishing(s.active[d].phase) ==>
          c == d)
    && (s.leaked > 0 ==> forall c :: c in s.active ==> !Finishing(s.active[c].phase))
  }

  lemma OnlyOneInside(s: Sys, c: nat)
    requires Inv(s) && c in s.active && s.lock.depth == 1
    ensures s.leaked == 0 && s.active.Keys == {c}
  {
    WithoutOne(s.active, c);
    assert s.active - {c} == map[];
    assert forall d :: d in s.active && d != c ==> d in s.active - {c};
  }

  lemma FinisherStep(s: Sys, st: Step)
    requires Inv(s) && OneFinisher(s)
    ensures OneFinisher(Next(s, st))
  {
    if Enabled(s, st) && (st.Settle? || st.Exit?) && s.lock.depth == 1 {
      OnlyOneInside(s, st.call);
      LastInside(s, st.call);
    }
  }

  lemma {:induction false} FinisherRun(s: Sys, steps: seq<Step>)
    requires Inv(s) && OneFinisher(s)
    ensures OneFinisher(After(s, steps))
    decreases |steps|
  {
    if steps != [] {
      StepInv(s, steps[0]);
      FinisherStep(s, steps[0]);
      FinisherRun(Next(s, steps[0]), steps[1..]);
    }
  }

  predicate HoldsBackAll(z: Zone) {
    z.pendingSenderKeys && z.pendingSessions && z.pendingUnprocessed
  }

  /** Only a zone that cannot hold everything back commits while a body is still running. */
  predicate StoringOnlyIfNeeded(s: Sys) {
    forall c :: c in s.active && s.active[c].phase.Storing? ==> !HoldsBackAll(s.active[c].zone)
  }

  lemma StoringStep(s: Sys, st: Step)
    requires Inv(s) && StoringOnlyIfNeeded(s)
    ensures StoringOnlyIfNeeded(Next(s, st))
  {
    if Enabled(s, st) && (st.Settle? || st.Exit?) && s.lock.depth == 1 {
      LastInside(s, st.call);
    }
  }

  lemma {:induction false} Reachable(s: Sys, steps: seq<Step>)
    requires Inv(s) && OneFinisher(s) && StoringOnlyIfNeeded(s)
    ensures Inv(After(s, steps)) && OneFinisher(After(s, steps)) && StoringOnlyIfNeeded(After(s, steps))
    decreases |steps|
  {
    hide Next, Inv, OneFinisher, StoringOnlyIfNeeded;
    if steps != [] {
      StepInv(s, steps[0]);
      FinisherStep(s, steps[0]);
      StoringStep(s, steps[0]);
      Reachable(Next(s, steps[0]), steps[1..]);
    }
  }

  /** `t` still has the zone that `s` had, woke nobody since, and, if that zone holds all its
      writes back, wrote nothing since. */
  predicate StuckLike(s: Sys, t: Sys) {
    && t.leaked == s.leaked > 0
    && s.lock.current.Some? && t.lock.current == s.lock.current && t.lock.depth >= 1
    && t.woken == s.woken
    && s.lock.queue <= t.lock.queue
    && (HoldsBackAll(s.lock.current.value) ==> t.txn.db == s.txn.db && t.txn.cache == s.txn.cache)
  }

  lemma StuckStep(s: Sys, t: Sys, st: Step)
    requires Inv(t) && OneFinisher(t) && StoringOnlyIfNeeded(t) && StuckLike(s, t)
    ensures StuckLike(s, Next(t, st))
  {
    if Enabled(t, st) && st.Settle? {
      assert t.lock.depth > 1 by { WithoutOne(t.active, st.call); }
      assert Woken(t.lock) == [];
    }
  }

  lemma {:induction false} StuckRun(s: Sys, t: Sys, steps: seq<Step>)
    requires Inv(t) && OneFinisher(t) && StoringOnlyIfNeeded(t) && StuckLike(s, t)
    ensures StuckLike(s, After(t, steps))
    decreases |steps|
  {
    hide Next, Inv, OneFinisher, StoringOnlyIfNeeded, StuckLike;
    if steps != [] {
      StepInv(t, steps[0]);
      FinisherStep(t, steps[0]);
      StoringStep(t, steps[0]);
      StuckStep(s, t, steps[0]);
      StuckRun(s, Next(t, steps[0]), steps[1..]);
    }
  }

  /** One rejected outermost commit is final: in every continuation the zone is never released,
      no waiter is ever woken, and, if the zone holds its writes back, nothing is ever written
      to the database or the caches again. */
  lemma RejectedCommitIsFinal(db: Batch, before: seq<Step>, later: seq<Step>)
    requires After(Init(db), before).leaked > 0
    ensures StuckLike(After(Init(db), before), After(After(Init(db), before), later))
  {
    Reachable(Init(db), before);
    StuckRun(After(Init(db), before), After(Init(db), before), later);
  }

  /** From a reachable state in which a zone is held, some continuation releases it exactly when
      no outermost commit has rejected. */
  lemma ReleasableIff(db: Batch, before: seq<Step>)
    requires After(Init(db), before).lock.current.Some?
    ensures var s := After(Init(db), before);
            s.leaked == 0 <==> exists steps :: After(s, steps).woken != s.woken || After(s, steps).lock.depth == 0
  {
    var s := After(Init(db), before);
    if s.leaked > 0 {
      forall steps ensures After(s, steps).woken == s.woken && After(s, steps).lock.depth != 0 {
        RejectedCommitIsFinal(db, before, steps);
      }
    } else {
      RunInv(Init(db), before);
      var steps := CanRelease(s);
    }
  }

  /** Whatever body `c` is doing, these steps take it out; the others do not apply. */
  function Departure(c: nat): seq<Step> {
    [StoreDone(c, false), Settle(c, false), CommitDone(c, true), Exit(c)]
  }

  predicate HasLeft(s: Sys, t: Sys) {
    t.lock == Leave(s.lock) && t.woken == s.woken + Woken(s.lock) && t.leaked == s.leaked
  }

  lemma AfterFour(s: Sys, a: Step, b: Step, c: Step, d: Step)
    ensures After(s, [a, b, c, d]) == Next(Next(Next(Next(s, a), b), c), d)
  {
    hide Next;
    assert [a, b, c, d][1..] == [b, c, d];
    AfterThree(Next(s, a), b, c, d);
  }

  lemma Departs(s: Sys, c: nat)
    requires Inv(s) && c in s.active
    ensures Inv(After(s, Departure(c))) && HasLeft(s, After(s, Departure(c)))
  {
    RunInv(s, Departure(c));
    AfterFour(s, StoreDone(c, false), Settle(c, false), CommitDone(c, true), Exit(c));
    hide After, Inv;
    if s.active[c].phase.Running? {
      RunningDeparts(s, c);
    } else if s.active[c].phase.Storing? {
      StoringDeparts(s, c);
    }
  }

  lemma StoringDeparts(s: Sys, c: nat)
    requires Inv(s) && c in s.active && s.active[c].phase.Storing?
    ensures HasLeft(s, Next(Next(Next(Next(s, StoreDone(c, false)), Settle(c, false)), CommitDone(c, true)), Exit(c)))
  {
    StepInv(s, StoreDone(c, false));
    var s1 := Next(s, StoreDone(c, false));
    assert s1.lock == s.lock && s1.woken == s.woken && s1.leaked == s.leaked;
    RunningDeparts(s1, c);
    hide Next;
  }

  lemma RunningDeparts(s: Sys, c: nat)
    requires Inv(s) && c in s.active && s.active[c].phase.Running?
    ensures HasLeft(s, Next(Next(Next(s, Settle(c, false)), CommitDone(c, true)), Exit(c)))
  {
    var s1 := Next(s, Settle(c, false));
    if s.lock.depth == 1 {
      assert s1 == SetPhase(s.(txn := Clear(s.txn)), c, Leaving);
      assert Next(s1, CommitDone(c, true)) == s1;
    } else {
      assert Woken(s.lock) == [];
      assert s1.active == s.active - {c};
    }
  }

  lemma {:induction false} CanRelease(s: Sys) returns (steps: seq<Step>)
    requires Inv(s) && s.leaked == 0 && s.lock.current.Some?
    ensures After(s, steps).woken != s.woken || After(s, steps).lock.depth == 0
    decreases s.lock.depth
  {
    assert s.active != map[] by { assert |s.active| > 0; }
    var c :| c in s.active;
    Departs(s, c);
    steps := Departure(c);
    if s.lock.depth == 1 {
      LeaveHandsOver(s.lock);
    } else {
      var rest := CanRelease(After(s, steps));
      AfterAppend(s, steps, rest);
      steps := steps + rest;
    }
  }

  // ----- what the two-step commit lets through -----

  /** While the outermost commit is in flight its writes are in neither table that readers look
      in: an id reads as before the commit exactly when it was not being committed or the cache
      already had that value. Once the database answers, reads are as before. */
  lemma CommitHidesWrites(s: Sys, c: nat, id: string)
    requires Inv(s) && c in s.active && s.active[c].phase.Running?
    requires s.lock.depth == 1 && s.txn.pending != NOTHING
    ensures var s1 := Next(s, Settle(c, true));
            var s2 := Next(s1, CommitDone(c, true));
            && (Lookup(View(s1.txn).sessions, id) == Lookup(View(s.txn).sessions, id)
                <==> id !in s.txn.pending.sessions
                     || Lookup(s.txn.cache.sessions, id) == Lookup(s.txn.pending.sessions, id))
            && View(s2.txn) == View(s.txn)
  {
    var s1 := Next(s, Settle(c, true));
    var s2 := Next(s1, CommitDone(c, true));
    OverlayNothing(s.txn.cache);
    OverlayNothing(s2.txn.cache);
  }

  /** No body stores while another is finishing. */
  predicate Quiet(s: Sys, steps: seq<Step>)
    decreases |steps|
  {
    steps == [] ||
    ((steps[0].Store? ==> forall c :: c in s.active ==> !Finishing(s.active[c].phase))
     && Quiet(Next(s, steps[0]), steps[1..]))
  }

  predicate NothingLate(s: Sys) {
    && (s.lock.depth == 0 ==> s.txn.pending == NOTHING)
    && ((exists c :: c in s.active && Finishing(s.active[c].phase)) ==> s.txn.pending == NOTHING)
  }

  lemma QuietStep(s: Sys, st: Step)
    requires Inv(s) && OneFinisher(s) && NothingLate(s)
    requires st.Store? ==> forall c :: c in s.active ==> !Finishing(s.active[c].phase)
    ensures NothingLate(Next(s, st))
  {
    var t := Next(s, st);
    if Enabled(s, st) {
      match st
      case Call(_) =>
        if exists c :: c in t.active && Finishing(t.active[c].phase) {
          var c :| c in t.active && Finishing(t.active[c].phase);
          assert c in s.active && Finishing(s.active[c].phase);
        }
      case Store(c, w) => assert |s.active| > 0;
      case StoreDone(c, ok) =>
        assert |s.active| > 0;
        if exists d :: d in t.active && Finishing(t.active[d].phase) {
          var d :| d in t.active && Finishing(t.active[d].phase);
          assert d in s.active && Finishing(s.active[d].phase);
        }
      case Settle(c, ok) =>
        if s.lock.depth != 1 {
          QuietLeave(s, c);
        }
      case CommitDone(c, ok) =>
        assert Finishing(s.active[c].phase);
      case Exit(c) =>
        assert Finishing(s.active[c].phase);
    }
  }

  lemma QuietLeave(s: Sys, c: nat)
    requires Inv(s) && OneFinisher(s) && NothingLate(s) && c in s.active && s.lock.depth != 1
    ensures NothingLate(LeaveNow(s, c))
  {
    var t := LeaveNow(s, c);
    WithoutOne(s.active, c);
    assert Woken(s.lock) == [];
    if exists d :: d in t.active && Finishing(t.active[d].phase) {
      var d :| d in t.active && Finishing(t.active[d].phase);
      assert d in s.active && Finishing(s.active[d].phase);
    }
  }

  /** With the two-step commit a free zone still has nothing pending, in every run in which no
      body stores while the outermost one is finishing. */
  lemma {:induction false} QuietRunsAreClean(s: Sys, steps: seq<Step>)
    requires Inv(s) && OneFinisher(s) && NothingLate(s) && Quiet(s, steps)
    ensures After(s, steps).lock.depth == 0 ==> After(s, steps).txn.pending == NOTHING
    decreases |steps|
  {
    if steps != [] {
      StepInv(s, steps[0]);
      FinisherStep(s, steps[0]);
      QuietStep(s, steps[0]);
      QuietRunsAreClean(Next(s, steps[0]), steps[1..]);
    }
  }

  /** The run that loses a write: while `c` waits for its commit, a second body of the same zone
      enters, stores a session and ends; `c` then leaves, and the next user of any other zone
      fails. */
  function LosingRun(c: nat, d: nat, z: Zone, id: string, record: string): seq<Step> {
    [Call(z), Store(d, Session(id, record)), Settle(d, true)] + [CommitDone(c, true), Exit(c)]
  }

  /** A store that slips in while the outermost commit is in flight outlives its zone: from every
      such state the zone becomes free with the session still pending, although the body that
      stored it succeeded, and the next user of another zone discards it by failing. */
  lemma LateStoreIsLost(s: Sys, c: nat, y: Zone, id: string, record: string)
    requires Inv(s) && s.lock.depth == 1 && s.lock.queue == [] && s.txn.pending == NOTHING
    requires c in s.active && s.active[c].phase.Committing? && s.active[c].zone.pendingSessions
    ensures var z, d := s.active[c].zone, s.next;
            var t := After(s, LosingRun(c, d, z, id, record));
            var u := After(t, [Call(y), Settle(d + 1, false), Exit(d + 1)]);
            && t.lock == Lock(None, 0, []) && t.active == map[]
            && t.txn.pending == AsBatch(Session(id, record))
            && u.lock == Lock(None, 0, []) && u.txn.pending == NOTHING
            && u.txn.db == Overlay(s.txn.db, s.active[c].phase.snapshot)
  {
    var z, d := s.active[c].zone, s.next;
    var stored := Session(id, record);
    var s3 := SlipIn(s, c, id, record);
    AfterAppend(s, [Call(z), Store(d, stored), Settle(d, true)], [CommitDone(c, true), Exit(c)]);
    AfterThree(s3, CommitDone(c, true), Exit(c), Exit(c));
    OnlyOneInside(s, c);
    var t := Next(Next(s3, CommitDone(c, true)), Exit(c));
    assert t.active == map[] by { assert Next(s3, CommitDone(c, true)).active - {c} == map[]; }
    NextUserFails(t, y);
  }

  /** A same-zone body enters, stores and ends while `c` waits: only its write is left. */
  lemma SlipIn(s: Sys, c: nat, id: string, record: string) returns (s3: Sys)
    requires Inv(s) && s.lock.depth == 1 && s.txn.pending == NOTHING
    requires c in s.active && s.active[c].phase.Committing? && s.active[c].zone.pendingSessions
    ensures s3 == After(s, [Call(s.active[c].zone), Store(s.next, Session(id, record)), Settle(s.next, true)])
    ensures s3.lock == s.lock && s3.active == s.active && s3.next == s.next + 1
    ensures s3.txn == s.txn.(pending := AsBatch(Session(id, record)))
  {
    var z, d, stored := s.active[c].zone, s.next, Session(id, record);
    var s1 := Next(s, Call(z));
    var s2 := Next(s1, Store(d, stored));
    s3 := Next(s2, Settle(d, true));
    AfterThree(s, Call(z), Store(d, stored), Settle(d, true));
    OverlayNothing(AsBatch(stored));
    assert s2.active - {d} == s.active;
  }

  lemma NextUserFails(t: Sys, y: Zone)
    requires t.lock == Lock(None, 0, []) && t.active == map[]
    ensures var u := After(t, [Call(y), Settle(t.next, false), Exit(t.next)]);
            u.lock == Lock(None, 0, []) && u.txn == Clear(t.txn)
  {
    AfterThree(t, Call(y), Settle(t.next, false), Exit(t.next));
  }
}
