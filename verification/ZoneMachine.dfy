/** Every run of the session-zone lock: calls, writes, database replies and departures in any
    order. Each step is what the event loop runs between two awaits, so a commit is two steps
    (the snapshot is taken; the database answers) and other calls may come in between. */
module ZoneMachine {
  import opened Options
  import opened Zones
  import opened Transactions

  // ----- the machine -----

  /** Where a `withZone` call that has entered stands. */
  datatype Phase =
    | Running                     // its body is running
    | Storing(snapshot: Batch)    // its body awaits an immediate commit
    | Committing(snapshot: Batch) // its body is done and it awaits the outermost commit
    | Leaving                     // it has committed or reverted and is about to leave

  datatype Body = Body(zone: Zone, phase: Phase)

  /** `leaked` counts outermost commits that rejected; `arrivals` and `woken` are the calls that
      ever queued and that were ever woken. */
  datatype Sys = Sys(lock: Lock, txn: Txn, active: map<nat, Body>, leaked: nat, next: nat,
                     arrivals: seq<Waiter>, woken: seq<Waiter>)

  datatype Step =
    | Call(zone: Zone)
    | Store(call: nat, write: Write)
    | StoreDone(call: nat, ok: bool)
    | Settle(call: nat, ok: bool)
    | CommitDone(call: nat, ok: bool)
    | Exit(call: nat)

  function Init(db: Batch): Sys {
    Sys(Lock(None, 0, []), Txn(NOTHING, db.(unprocessed := map[]), db), map[], 0, 0, [], [])
  }

  predicate Enabled(s: Sys, st: Step) {
    match st
    case Call(_) => true
    case Store(c, _) => c in s.active && s.active[c].phase.Running?
    case StoreDone(c, _) => c in s.active && s.active[c].phase.Storing?
    case Settle(c, _) => c in s.active && s.active[c].phase.Running?
    case CommitDone(c, _) => c in s.active && s.active[c].phase.Committing?
    case Exit(c) => c in s.active && s.active[c].phase.Leaving?
  }

  function SetPhase(s: Sys, c: nat, p: Phase): Sys
    requires c in s.active
  {
    s.(active := s.active[c := Body(s.active[c].zone, p)])
  }

  function AddBodies(m: map<nat, Body>, ws: seq<Waiter>): map<nat, Body>
    decreases |ws|
  {
    if ws == [] then m else AddBodies(m[ws[0].call := Body(ws[0].zone, Running)], ws[1..])
  }

  function LeaveNow(s: Sys, c: nat): Sys {
    var ws := Woken(s.lock);
    s.(lock := Leave(s.lock), active := AddBodies(s.active - {c}, ws), woken := s.woken + ws)
  }

  function DoCall(s: Sys, zone: Zone): Sys {
    if Blocked(s.lock, zone) then
      var w := Waiter(zone, s.next);
      s.(lock := s.lock.(queue := s.lock.queue + [w]), arrivals := s.arrivals + [w], next := s.next + 1)
    else
      s.(lock := Enter(s.lock, zone), active := s.active[s.next := Body(zone, Running)], next := s.next + 1)
  }

  function DoStore(s: Sys, c: nat, w: Write): Sys
    requires c in s.active
  {
    var t := Put(s.txn, w);
    if Supports(s.active[c].zone, w) || t.pending == NOTHING then s.(txn := t)
    else SetPhase(s.(txn := Clear(t)), c, Storing(t.pending))
  }

  function DoSettle(s: Sys, c: nat, ok: bool): Sys
    requires c in s.active
  {
    if s.lock.depth != 1 then LeaveNow(s, c)
    else if ok && s.txn.pending != NOTHING then
      SetPhase(s.(txn := Clear(s.txn)), c, Committing(s.txn.pending))
    else SetPhase(s.(txn := Clear(s.txn)), c, Leaving)
  }

  /** One step; a step that is not enabled changes nothing. */
  function Next(s: Sys, st: Step): Sys {
    if !Enabled(s, st) then s else
    match st
    case Call(zone) => DoCall(s, zone)
    case Store(c, w) => DoStore(s, c, w)
    case StoreDone(c, ok) =>
      SetPhase(if ok then s.(txn := Apply(s.txn, s.active[c].phase.snapshot)) else s, c, Running)
    case Settle(c, ok) => DoSettle(s, c, ok)
    case CommitDone(c, ok) =>
      if ok then SetPhase(s.(txn := Apply(s.txn, s.active[c].phase.snapshot)), c, Leaving)
      else s.(active := s.active - {c}, leaked := s.leaked + 1)
    case Exit(c) => LeaveNow(s, c)
  }

  function After(s: Sys, steps: seq<Step>): Sys
    decreases |steps|
  {
    if steps == [] then s else After(Next(s, steps[0]), steps[1..])
  }

  lemma {:induction false} AfterSnoc(s: Sys, steps: seq<Step>, st: Step)
    ensures After(s, steps + [st]) == Next(After(s, steps), st)
    decreases |steps|
  {
    hide Next;
    if steps == [] {
      assert [] + [st] == [st] && [st][1..] == [];
      assert After(s, [st]) == After(Next(s, st), []);
    } else {
      assert (steps + [st])[1..] == steps[1..] + [st];
      AfterSnoc(Next(s, steps[0]), steps[1..], st);
    }
  }

  // ----- the invariant -----

  predicate Increasing(ws: seq<Waiter>) {
    forall i, j :: 0 <= i < j < |ws| ==> ws[i].call < ws[j].call
  }

  /** All entered bodies share the current zone; the depth is the number of entered bodies plus
      the number of leaks; queued calls are fresh and in arrival order; every call that ever
      queued was woken, in order, or still waits. */
  predicate Inv(s: Sys) {
    && LockInv(s.lock)
    && s.lock.depth == |s.active| + s.leaked
    && OneZone(s.active, s.lock.current, s.next)
    && Fresh(s.arrivals, s.next)
    && s.arrivals == s.woken + s.lock.queue
    && NotInside(s.lock.queue, s.active)
  }

  predicate OneZone(m: map<nat, Body>, current: Option<Zone>, next: nat) {
    forall c :: c in m ==> current == Some(m[c].zone) && c < next
  }

  predicate Fresh(ws: seq<Waiter>, next: nat) {
    Increasing(ws) && forall i :: 0 <= i < |ws| ==> ws[i].call < next
  }

  predicate NotInside(q: seq<Waiter>, m: map<nat, Body>) {
    forall i :: 0 <= i < |q| ==> q[i].call !in m
  }

  predicate IsCall(ws: seq<Waiter>, c: nat) {
    exists i :: 0 <= i < |ws| && ws[i].call == c
  }

  /** Waking adds one running body for each waiter. */
  lemma {:induction false} AddBodiesSpec(m: map<nat, Body>, ws: seq<Waiter>, zone: Zone)
    requires Increasing(ws) && NotInside(ws, m)
    requires forall i :: 0 <= i < |ws| ==> ws[i].zone == zone
    ensures |AddBodies(m, ws)| == |m| + |ws|
    ensures forall c :: c in AddBodies(m, ws) <==> c in m || IsCall(ws, c)
    ensures forall c :: c in AddBodies(m, ws) ==> AddBodies(m, ws)[c] == if c in m then m[c] else Body(zone, Running)
    decreases |ws|
  {
    if ws != [] {
      var m' := m[ws[0].call := Body(ws[0].zone, Running)];
      assert m'.Keys == m.Keys + {ws[0].call};
      assert |m'| == |m'.Keys| && |m| == |m.Keys|;
      AddBodiesSpec(m', ws[1..], zone);
      forall c ensures IsCall(ws, c) <==> c == ws[0].call || IsCall(ws[1..], c) {
        if IsCall(ws, c) && c != ws[0].call {
          var i :| 0 <= i < |ws| && ws[i].call == c;
          assert ws[1..][i - 1].call == c;
        }
        if IsCall(ws[1..], c) {
          var i :| 0 <= i < |ws[1..]| && ws[1..][i].call == c;
          assert ws[i + 1].call == c;
        }
      }
    }
  }

  lemma WithoutOne(m: map<nat, Body>, c: nat)
    requires c in m
    ensures |m - {c}| == |m| - 1
  {
    assert (m - {c}).Keys == m.Keys - {c};
    assert |m - {c}| == |(m - {c}).Keys| && |m| == |m.Keys|;
  }

  /** The queue is a suffix of the arrivals, hence in arrival order. */
  lemma QueueFresh(s: Sys)
    requires Inv(s)
    ensures Fresh(s.lock.queue, s.next)
  {
    assert forall i :: 0 <= i < |s.lock.queue| ==> s.lock.queue[i] == s.arrivals[|s.woken| + i];
  }

  lemma SplitFresh(ws: seq<Waiter>, rest: seq<Waiter>, next: nat)
    requires Fresh(ws + rest, next)
    ensures Fresh(ws, next) && Fresh(rest, next)
    ensures forall c, j :: IsCall(ws, c) && 0 <= j < |rest| ==> rest[j].call != c
  {
    var q := ws + rest;
    assert forall i :: 0 <= i < |ws| ==> ws[i] == q[i];
    assert forall i :: 0 <= i < |rest| ==> rest[i] == q[|ws| + i];
  }

  /** Those inside are exactly the calls `ws`, each in its zone with its body running. */
  ghost predicate JustEntered(m: map<nat, Body>, ws: seq<Waiter>) {
    && (forall c :: c in m <==> IsCall(ws, c))
    && (forall i :: 0 <= i < |ws| ==> ws[i].call in m && m[ws[i].call] == Body(ws[i].zone, Running))
  }

  /** The bodies inside after the last one of a zone has left: exactly the woken run. */
  lemma WokenInside(ws: seq<Waiter>, rest: seq<Waiter>, zone: Zone, next: nat)
    requires Fresh(ws + rest, next)
    requires forall i :: 0 <= i < |ws| ==> ws[i].zone == zone
    ensures var m := AddBodies(map[], ws);
            |m| == |ws| && OneZone(m, Some(zone), next) && NotInside(rest, m) && JustEntered(m, ws)
  {
    SplitFresh(ws, rest, next);
    AddBodiesSpec(map[], ws, zone);
    assert forall i :: 0 <= i < |ws| ==> IsCall(ws, ws[i].call);
  }

  /** The last body of a zone leaves: what is then inside is exactly the woken run. */
  lemma LastLeaves(s: Sys, c: nat)
    requires Inv(s) && c in s.active && s.lock.depth == 1
    ensures Inv(LeaveNow(s, c))
    ensures |LeaveNow(s, c).active| == |Woken(s.lock)| && JustEntered(LeaveNow(s, c).active, Woken(s.lock))
  {
    var ws, l := Woken(s.lock), Leave(s.lock);
    assert |s.active - {c}| == 0 by { WithoutOne(s.active, c); }
    assert s.active - {c} == map[];
    LeaveHandsOver(s.lock);
    if ws != [] {
      QueueFresh(s);
      WokenInside(ws, l.queue, s.lock.queue[0].zone, s.next);
    }
    assert s.woken + s.lock.queue == (s.woken + ws) + l.queue;
  }

  lemma LeaveNowInv(s: Sys, c: nat)
    requires Inv(s) && c in s.active
    ensures Inv(LeaveNow(s, c))
  {
    if s.lock.depth == 1 {
      LastLeaves(s, c);
    } else {
      WithoutOne(s.active, c);
    }
  }

  lemma CallInv(s: Sys, zone: Zone)
    requires Inv(s)
    ensures Inv(DoCall(s, zone))
  {
    var t := DoCall(s, zone);
    QueueFresh(s);
    if Blocked(s.lock, zone) {
      assert t.arrivals == t.woken + t.lock.queue;
      assert Fresh(t.arrivals, t.next) by { hide LockInv, OneZone, NotInside; }
      assert NotInside(t.lock.queue, t.active);
    } else {
      assert t.active.Keys == s.active.Keys + {s.next};
      assert |t.active| == |t.active.Keys| && |s.active| == |s.active.Keys|;
    }
  }

  lemma SetPhaseInv(s: Sys, c: nat, p: Phase)
    requires Inv(s) && c in s.active
    ensures Inv(SetPhase(s, c, p))
  {
    assert SetPhase(s, c, p).active.Keys == s.active.Keys;
    assert |SetPhase(s, c, p).active| == |s.active.Keys| == |s.active|;
  }

  lemma StepInv(s: Sys, st: Step)
    requires Inv(s)
    ensures Inv(Next(s, st))
  {
    if Enabled(s, st) {
      match st
      case Call(zone) => CallInv(s, zone);
      case Store(c, w) =>
        var t := Put(s.txn, w);
        SetPhaseInv(s.(txn := Clear(t)), c, Storing(t.pending));
      case StoreDone(c, ok) =>
        SetPhaseInv(s, c, Running);
        SetPhaseInv(s.(txn := Apply(s.txn, s.active[c].phase.snapshot)), c, Running);
      case Settle(c, ok) =>
        LeaveNowInv(s, c);
        SetPhaseInv(s.(txn := Clear(s.txn)), c, Committing(s.txn.pending));
        SetPhaseInv(s.(txn := Clear(s.txn)), c, Leaving);
      case CommitDone(c, ok) =>
        SetPhaseInv(s.(txn := Apply(s.txn, s.active[c].phase.snapshot)), c, Leaving);
        var m := s.active - {c};
        assert m.Keys == s.active.Keys - {c} && |m| == |m.Keys| && |s.active| == |s.active.Keys|;
      case Exit(c) => LeaveNowInv(s, c);
    }
  }

  lemma {:induction false} RunInv(s: Sys, steps: seq<Step>)
    requires Inv(s)
    ensures Inv(After(s, steps))
    decreases |steps|
  {
    if steps != [] {
      StepInv(s, steps[0]);
      RunInv(Next(s, steps[0]), steps[1..]);
    }
  }

  /** Safety over whole runs, database failures included: bodies inside share one zone, the depth
      counts them plus one for each outermost commit that rejected, the zone is free exactly at
      depth 0, and nobody waits for a free zone. */
  lemma MutualExclusion(db: Batch, steps: seq<Step>)
    ensures var s := After(Init(db), steps);
            && (forall c, d :: c in s.active && d in s.active ==> s.active[c].zone == s.active[d].zone)
            && (forall c :: c in s.active ==> s.lock.current == Some(s.active[c].zone))
            && s.lock.depth == |s.active| + s.leaked
            && (s.lock.current.None? <==> s.active == map[] && s.leaked == 0)
            && (s.lock.current.None? ==> s.lock.queue == [])
  {
    RunInv(Init(db), steps);
    var s := After(Init(db), steps);
    assert |s.active| == 0 <==> s.active == map[];
  }

  /** At some point of the run the call is inside, in the zone that it waited for. */
  ghost predicate Entered(s: Sys, steps: seq<Step>, w: Waiter) {
    exists k :: 0 <= k <= |steps| && w.call in After(s, steps[..k]).active
                && After(s, steps[..k]).active[w.call].zone == w.zone
  }

  /** What a step wakes is inside right after it. */
  lemma WokenByStep(s: Sys, st: Step, i: nat)
    requires Inv(s) && |s.woken| <= i < |Next(s, st).woken|
    ensures var t := Next(s, st); t.woken[i].call in t.active && t.active[t.woken[i].call].zone == t.woken[i].zone
  {
    if Enabled(s, st) && (st.Settle? || st.Exit?) {
      if s.lock.depth == 1 {
        LastLeaves(s, st.call);
        assert Next(s, st).woken[i] == Woken(s.lock)[i - |s.woken|];
      }
    }
  }

  lemma {:induction false} WokenEntered(s: Sys, steps: seq<Step>, i: nat)
    requires Inv(s) && |s.woken| <= i < |After(s, steps).woken|
    ensures Entered(s, steps, After(s, steps).woken[i])
    decreases |steps|
  {
    if steps == [] {
      assert false;
    }
    var n := |steps| - 1;
    var before := steps[..n];
    assert steps == before + [steps[n]] && steps[..|steps|] == steps;
    AfterSnoc(s, before, steps[n]);
    RunInv(s, before);
    WokenKept(After(s, before), steps[n]);
    hide Inv, Next;
    if i < |After(s, before).woken| {
      WokenEntered(s, before, i);
      var w := After(s, before).woken[i];
      var k :| 0 <= k <= n && w.call in After(s, before[..k]).active
               && After(s, before[..k]).active[w.call].zone == w.zone;
      assert before[..k] == steps[..k];
    } else {
      WokenByStep(After(s, before), steps[n], i);
    }
  }

  lemma WokenKept(s: Sys, st: Step)
    ensures s.woken <= Next(s, st).woken
  {
  }

  /** Queued calls are woken in the order they arrived, each once; none is lost, and each call that was
      woken has entered its zone. */
  lemma FirstComeFirstServed(db: Batch, steps: seq<Step>)
    ensures var s := After(Init(db), steps);
            && s.arrivals == s.woken + s.lock.queue
            && (forall i, j :: 0 <= i < j < |s.arrivals| ==> s.arrivals[i].call < s.arrivals[j].call)
            && (forall i :: 0 <= i < |s.lock.queue| ==> s.lock.queue[i].call !in s.active)
            && (forall i :: 0 <= i < |s.woken| ==> Entered(Init(db), steps, s.woken[i]))
  {
    RunInv(Init(db), steps);
    forall i | 0 <= i < |After(Init(db), steps).woken|
      ensures Entered(Init(db), steps, After(Init(db), steps).woken[i])
    {
      WokenEntered(Init(db), steps, i);
    }
  }
}
