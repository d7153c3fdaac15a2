/** What is pending in any state of any run, and exactly when a free zone has something pending. */
module ZoneLate {
  import opened Options
  import opened Zones
  import opened Transactions
  import opened ZoneMachine
  import opened ZoneRuns

  /** A write that was stored, and whether the zone of its body holds it back. */
  datatype Stored = Stored(held: bool, write: Write)

  /** What stores leave pending: a write that is held back adds to it, another one commits all of it. */
  function Held(ws: seq<Stored>): Batch {
    if ws == [] then NOTHING
    else if ws[|ws| - 1].held then Overlay(Held(ws[..|ws| - 1]), AsBatch(ws[|ws| - 1].write))
    else NOTHING
  }

  /** Some write that is not empty was held back, and all after it were held back as well. */
  predicate LeavesBehind(ws: seq<Stored>) {
    exists i :: 0 <= i < |ws| && ws[i].held && AsBatch(ws[i].write) != NOTHING
                && forall j :: i < j < |ws| ==> ws[j].held
  }

  lemma OverlayIsNothing(a: Batch, b: Batch)
    ensures Overlay(a, b) == NOTHING <==> a == NOTHING && b == NOTHING
  {
    forall x: Table, y: Table ensures x + y == map[] <==> x == map[] && y == map[] {
      assert (x + y).Keys == x.Keys + y.Keys;
      assert forall m: Table :: m == map[] <==> m.Keys == {};
    }
  }

  lemma LeavesBehindSnoc(before: seq<Stored>, l: Stored)
    ensures LeavesBehind(before + [l]) <==> l.held && (LeavesBehind(before) || AsBatch(l.write) != NOTHING)
  {
    hide AsBatch;
    var ws, n := before + [l], |before|;
    assert ws[n] == l && forall j :: 0 <= j < n ==> ws[j] == before[j];
    if l.held && LeavesBehind(before) {
      var i :| 0 <= i < n && before[i].held && AsBatch(before[i].write) != NOTHING
               && forall j :: i < j < n ==> before[j].held;
      assert ws[i].held && AsBatch(ws[i].write) != NOTHING;
      assert LeavesBehind(ws);
    } else if l.held && AsBatch(l.write) != NOTHING {
      assert ws[n].held;
      assert LeavesBehind(ws);
    }
  }

  lemma {:induction false} HeldIff(ws: seq<Stored>)
    ensures Held(ws) != NOTHING <==> LeavesBehind(ws)
  {
    hide AsBatch, Overlay, LeavesBehind;
    if ws == [] {
      assert !LeavesBehind([]) by { NothingLeft(); }
    } else {
      var before, l := ws[..|ws| - 1], ws[|ws| - 1];
      HeldIff(before);
      OverlayIsNothing(Held(before), AsBatch(l.write));
      LeavesBehindSnoc(before, l);
      assert ws == before + [l];
    }
  }

  lemma NothingLeft()
    ensures !LeavesBehind([])
  {
  }

  // ----- stores since the last outermost body was done -----

  predicate SomeFinishing(s: Sys) {
    exists c :: c in s.active && Finishing(s.active[c].phase)
  }

  /** The stores since an outermost body was last done; with `late`, only those made while some body
      that is done still awaits its commit or its leave. */
  function Seen(s: Sys, st: Step, late: bool, seen: seq<Stored>): seq<Stored> {
    if !Enabled(s, st) then seen
    else if st.Store? && (late ==> SomeFinishing(s)) then
      seen + [Stored(Supports(s.active[st.call].zone, st.write), st.write)]
    else if st.Settle? && s.lock.depth == 1 then []
    else seen
  }

  function SinceSettled(s: Sys, steps: seq<Step>, late: bool, seen: seq<Stored>): seq<Stored>
    decreases |steps|
  {
    if steps == [] then seen
    else SinceSettled(Next(s, steps[0]), steps[1..], late, Seen(s, steps[0], late, seen))
  }

  lemma StepPending(s: Sys, st: Step, seen: seq<Stored>)
    requires s.txn.pending == Held(seen)
    ensures Next(s, st).txn.pending == Held(Seen(s, st, false, seen))
  {
    if Enabled(s, st) && st.Store? {
      var l := Stored(Supports(s.active[st.call].zone, st.write), st.write);
      assert (seen + [l])[..|seen|] == seen;
    }
    hide Overlay;
  }

  lemma {:induction false} RunPending(s: Sys, steps: seq<Step>, seen: seq<Stored>)
    requires s.txn.pending == Held(seen)
    ensures After(s, steps).txn.pending == Held(SinceSettled(s, steps, false, seen))
    decreases |steps|
  {
    hide Next, Seen, Held;
    if steps != [] {
      StepPending(s, steps[0], seen);
      RunPending(Next(s, steps[0]), steps[1..], Seen(s, steps[0], false, seen));
    }
  }

  /** In every state of every run, what is pending is exactly what was stored since an outermost body
      was last done and held back; nothing, exactly if no write that is not empty was held back with
      only held back writes after it. */
  lemma PendingIff(db: Batch, steps: seq<Step>)
    ensures var pending := After(Init(db), steps).txn.pending;
            var stored := SinceSettled(Init(db), steps, false, []);
            pending == Held(stored) && (pending != NOTHING <==> LeavesBehind(stored))
  {
    RunPending(Init(db), steps, []);
    HeldIff(SinceSettled(Init(db), steps, false, []));
  }

  // ----- a free zone -----

  /** Nobody is inside, or somebody inside is done. */
  predicate Done(s: Sys) {
    s.lock.depth == 0 || SomeFinishing(s)
  }

  /** A step that leads to such a state starts in one, or is the outermost body being done. */
  lemma DoneBefore(s: Sys, st: Step)
    requires Inv(s) && Done(Next(s, st))
    ensures Done(s) || (Enabled(s, st) && st.Settle? && s.lock.depth == 1)
  {
    var t := Next(s, st);
    if Enabled(s, st) && !(st.Settle? && s.lock.depth == 1) {
      if t.lock.depth == 0 {
        FreedBefore(s, st);
      } else {
        var c :| c in t.active && Finishing(t.active[c].phase);
        FinishingBefore(s, st, c);
      }
    }
  }

  lemma FreedBefore(s: Sys, st: Step)
    requires Inv(s) && Enabled(s, st) && !(st.Settle? && s.lock.depth == 1) && Next(s, st).lock.depth == 0
    ensures Done(s)
  {
    if st.Exit? || st.CommitDone? {
      assert Finishing(s.active[st.call].phase);
    } else if !st.Call? {
      assert |s.active| > 0;
    }
  }

  lemma FinishingBefore(s: Sys, st: Step, c: nat)
    requires Inv(s) && Enabled(s, st) && !(st.Settle? && s.lock.depth == 1)
    requires c in Next(s, st).active && Finishing(Next(s, st).active[c].phase)
    ensures SomeFinishing(s)
  {
    if st.Exit? || st.CommitDone? {
      assert Finishing(s.active[st.call].phase);
    } else {
      if st.Settle? {
        WithoutOne(s.active, st.call);
        assert Woken(s.lock) == [];
      }
      assert c in s.active && s.active[c].phase == Next(s, st).active[c].phase;
    }
  }

  lemma {:induction false} LateIsAll(s: Sys, steps: seq<Step>, all: seq<Stored>, late: seq<Stored>)
    requires Inv(s) && (Done(s) ==> all == late)
    ensures Done(After(s, steps)) ==> SinceSettled(s, steps, false, all) == SinceSettled(s, steps, true, late)
    decreases |steps|
  {
    if steps != [] {
      var st := steps[0];
      StepInv(s, st);
      if Done(Next(s, st)) {
        DoneBefore(s, st);
        assert Seen(s, st, false, all) == Seen(s, st, true, late) by {
          if Enabled(s, st) && st.Store? {
            StoreNotDone(s, st);
          }
        }
      }
      hide Inv, Next, Seen, Done;
      LateIsAll(Next(s, st), steps[1..], Seen(s, st, false, all), Seen(s, st, true, late));
    }
  }

  lemma StoreNotDone(s: Sys, st: Step)
    requires Inv(s) && Enabled(s, st) && st.Store? && Done(s)
    ensures SomeFinishing(s)
  {
    assert |s.active| > 0;
  }

  /** With the two-step commit, in every reachable state in which the zone is free or about to be
      freed, what is pending is exactly what was stored, while a body that was done awaited its commit
      or its leave, since the last outermost body was done. So a free zone has nothing pending exactly
      when no such store of a write that is not empty was held back with only held back ones after. */
  lemma FreeZoneIsCleanIff(db: Batch, steps: seq<Step>)
    requires Done(After(Init(db), steps))
    ensures var pending := After(Init(db), steps).txn.pending;
            var late := SinceSettled(Init(db), steps, true, []);
            pending == Held(late) && (pending != NOTHING <==> LeavesBehind(late))
  {
    PendingIff(db, steps);
    assert Inv(Init(db));
    hide Inv, Held, LeavesBehind;
    LateIsAll(Init(db), steps, [], []);
  }

  /** Freeing the zone keeps what is pending: whoever enters next finds it. */
  lemma NextUserFinds(s: Sys, c: nat)
    requires c in s.active && s.active[c].phase.Leaving? && s.lock.depth == 1
    ensures Done(s) && Next(s, Exit(c)).txn == s.txn
  {
    assert Finishing(s.active[c].phase);
  }
}
