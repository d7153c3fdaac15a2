/** What integrating a log guarantees: revisions do not go back, and a log can be replayed. */
module GroupReplay {
  import opened Options
  import opened ServiceIds
  import opened Dicts
  import opened GroupApply
  import opened GroupRuns
  import opened GroupDiff
  import opened GroupDiffMessages
  import opened GroupLog

  // ----- one item -----

  /** An item that neither changes the group nor is told about. */
  predicate NoOp(g: Group, item: Item, ctx: Context) {
    match IntegrateOne(g, item, ctx)
    case None => true
    case Some(r) => r == Integrated(g, [])
  }

  predicate ChangeOnly(item: Item) {
    item.change.Some? && item.state.None? && Version(item.change.value) > 0
  }

  predicate StateAtSameVersion(item: Item) {
    && item.change.Some? && Version(item.change.value) > 0
    && (item.state.Some? ==> item.state.value.version == Version(item.change.value))
  }

  lemma TryChangeRevision(g: Group, c: LogChange, ctx: Context)
    ensures TryChange(g, c, ctx).Some? ==> TryChange(g, c, ctx).value.group.revision == Some(Version(c))
  {
    hide ApplyChange, DiffOf;
    if TryChange(g, c, ctx).Some? {
      AppliedIsTidy(g, c.actions, c.source, ctx.us.aci, ctx.known);
    }
  }

  /** The revision of the group after an item that was neither skipped nor thrown out. */
  function NextRevision(item: Item): nat
    requires item.change.Some? || item.state.Some?
  {
    if item.state.Some? then item.state.value.version else Version(item.change.value)
  }

  predicate Skipped(g: Group, item: Item, ctx: Context) {
    item.change.Some? && (TooNew(item.change.value, ctx.newRevision) || Stale(g, item.change.value))
  }

  /** After an item the group is as it was, or at the version of the item. */
  lemma IntegratedRevision(g: Group, item: Item, ctx: Context)
    ensures IntegrateOne(g, item, ctx).Some? ==>
              && (item.change.Some? || item.state.Some?)
              && var r := IntegrateOne(g, item, ctx).value;
                 if Skipped(g, item, ctx) then r == Integrated(g, []) else r.group.revision == Some(NextRevision(item))
  {
    hide TryChange, DiffOf;
    if item.change.Some? && !Skipped(g, item, ctx) && CanApply(g, item.change.value, ctx.us) {
      TryChangeRevision(g, item.change.value, ctx);
    }
  }

  predicate NotBelow(now: Option<nat>, before: Option<nat>) {
    before.Some? ==> now.Some? && now.value >= before.value
  }

  /** An item that takes effect lowers the revision exactly when it comes with an older state, or is
      a change without a version. */
  lemma LowersRevisionIff(g: Group, item: Item, ctx: Context)
    requires g.revision.Some?
    ensures IntegrateOne(g, item, ctx).Some? ==>
              (!NotBelow(IntegrateOne(g, item, ctx).value.group.revision, g.revision) <==>
                 !Skipped(g, item, ctx)
                 && if item.state.Some? then item.state.value.version < g.revision.value
                    else item.change.Some? && Version(item.change.value) == 0 && g.revision.value > 0)
  {
    hide IntegrateOne;
    IntegratedRevision(g, item, ctx);
  }

  /** A change that is not newer than the group does nothing to it. */
  lemma NotNewerIsNoOp(g: Group, item: Item, ctx: Context)
    requires ChangeOnly(item) && g.revision.Some? && Version(item.change.value) <= g.revision.value
    ensures NoOp(g, item, ctx)
  {
    hide TryChange, TryState, ThenState;
  }

  /** A change that does something brings the group to its version. */
  lemma OtherwiseAtItsVersion(g: Group, item: Item, ctx: Context)
    requires ChangeOnly(item) && !NoOp(g, item, ctx)
    ensures IntegrateOne(g, item, ctx).Some?
    ensures IntegrateOne(g, item, ctx).value.group.revision == Some(Version(item.change.value))
  {
    IntegratedRevision(g, item, ctx);
    hide IntegrateOne;
  }

  // ----- replay -----

  predicate Ascending(items: seq<Item>) {
    && (forall i :: 0 <= i < |items| ==> ChangeOnly(items[i]))
    && (forall i, j :: 0 <= i < j < |items| ==> Version(items[i].change.value) <= Version(items[j].change.value))
  }

  predicate AllNoOps(g: Group, items: seq<Item>, ctx: Context) {
    forall i :: 0 <= i < |items| ==> NoOp(g, items[i], ctx)
  }

  /** Once part of an ascending log is in, none of that part does anything any more. */
  lemma {:induction false} PartIsDone(p: Progress, done: seq<Item>, todo: seq<Item>, ctx: Context)
    requires Ascending(done + todo) && AllNoOps(p.group, done, ctx)
    ensures AllNoOps(AdvanceAll(p, todo, ctx).group, done + todo, ctx)
    decreases |todo|
  {
    hide IntegrateOne, Version;
    if todo == [] {
      assert done + todo == done;
    } else {
      var item, p' := todo[0], Advance(p, todo[0], ctx);
      assert item == (done + todo)[|done|];
      if NoOp(p.group, item, ctx) {
        assert p'.group == p.group;
      } else {
        OtherwiseAtItsVersion(p.group, item, ctx);
        forall i | 0 <= i < |done| ensures NoOp(p'.group, done[i], ctx) {
          assert done[i] == (done + todo)[i];
          NotNewerIsNoOp(p'.group, done[i], ctx);
        }
        NotNewerIsNoOp(p'.group, item, ctx);
      }
      assert (done + [item]) + todo[1..] == done + todo;
      PartIsDone(p', done + [item], todo[1..], ctx);
    }
  }

  lemma {:induction false} NoOpsDoNothing(p: Progress, items: seq<Item>, ctx: Context)
    requires AllNoOps(p.group, items, ctx) && (forall m :: m in p.messages ==> m == [])
    ensures AdvanceAll(p, items, ctx).group == p.group
    ensures forall m :: m in AdvanceAll(p, items, ctx).messages ==> m == []
    decreases |items|
  {
    hide IntegrateOne;
    if items != [] {
      assert NoOp(p.group, items[0], ctx);
      NoOpsDoNothing(Advance(p, items[0], ctx), items[1..], ctx);
    }
  }

  /** Replay is harmless: a log of changes alone, in ascending nonzero versions, integrated a second
      time leaves the group as it is and tells nothing, whatever was stale, gapped, undecryptable or
      failed the first time. */
  lemma ReplayIsHarmless(g: Group, items: seq<Item>, ctx: Context)
    requires Ascending(items)
    ensures var once := AdvanceAll(Progress(g, []), items, ctx).group;
            var twice := AdvanceAll(Progress(once, []), items, ctx);
            twice.group == once && forall m :: m in twice.messages ==> m == []
  {
    hide IntegrateOne, Version, AdvanceAll, NoOp;
    assert [] + items == items;
    PartIsDone(Progress(g, []), [], items, ctx);
    NoOpsDoNothing(Progress(AdvanceAll(Progress(g, []), items, ctx).group, []), items, ctx);
  }

  lemma {:induction false} NothingToTell<T>(ss: seq<seq<T>>)
    requires forall s :: s in ss ==> s == []
    ensures Concat(ss) == []
  {
    if ss != [] {
      assert ss[0] in ss && forall s :: s in ss[1..] ==> s in ss;
      NothingToTell(ss[1..]);
    }
  }

  /** The same for the whole operation on a group that is known once the log is in. */
  lemma ReplayOfPages(g: Group, pages: seq<seq<Item>>, ctx: Context)
    requires Ascending(Concat(pages)) && g.revision.Some?
    ensures var once := Integrate(g, pages, ctx);
            && once.Some? && once.value.group.revision.Some?
            && Integrate(once.value.group, pages, ctx) == Some(Integrated(once.value.group, []))
  {
    hide AdvanceAll, IntegrateOne, Concat, Version;
    var items := Concat(pages);
    var once := AdvanceAll(Progress(g, []), items, ctx).group;
    ReplayIsHarmless(g, items, ctx);
    StaysKnown(Progress(g, []), items, ctx);
    NothingToTell(AdvanceAll(Progress(once, []), items, ctx).messages);
  }

  lemma {:induction false} StaysKnown(p: Progress, items: seq<Item>, ctx: Context)
    requires p.group.revision.Some?
    ensures AdvanceAll(p, items, ctx).group.revision.Some?
    decreases |items|
  {
    hide IntegrateOne;
    if items != [] {
      if IntegrateOne(p.group, items[0], ctx).Some? {
        IntegratedRevision(p.group, items[0], ctx);
      }
      StaysKnown(Advance(p, items[0], ctx), items[1..], ctx);
    }
  }

  // ----- bounds on the revision -----

  predicate Within(revision: Option<nat>, bound: Option<nat>) {
    revision.Some? && bound.Some? ==> revision.value <= bound.value
  }

  /** When every item has a change with a version, and any state is at that version, the revision
      never goes down and never passes the one asked for. */
  lemma {:induction false} RevisionBounds(p: Progress, items: seq<Item>, ctx: Context)
    requires forall i :: 0 <= i < |items| ==> StateAtSameVersion(items[i])
    ensures var r := AdvanceAll(p, items, ctx).group.revision;
            && NotBelow(r, p.group.revision)
            && (Within(p.group.revision, ctx.newRevision) ==> Within(r, ctx.newRevision))
    decreases |items|
  {
    hide IntegrateOne;
    if items != [] {
      if IntegrateOne(p.group, items[0], ctx).Some? {
        IntegratedRevision(p.group, items[0], ctx);
      }
      RevisionBounds(Advance(p, items[0], ctx), items[1..], ctx);
    }
  }

  // ----- a log without gaps -----

  /** Supported, readable changes whose versions follow the group's one by one, up to the revision
      asked for, each of which applies in turn. */
  predicate InStep(g: Group, items: seq<Item>, ctx: Context)
    decreases |items|
  {
    items == [] ||
    (&& ChangeOnly(items[0]) && items[0].change.value.decrypts && items[0].change.value.supported
     && g.revision.Some? && Version(items[0].change.value) == g.revision.value + 1
     && !TooNew(items[0].change.value, ctx.newRevision)
     && Applied(g, items[0], ctx).Some?
     && InStep(Applied(g, items[0], ctx).value.group, items[1..], ctx))
  }

  function Applied(g: Group, item: Item, ctx: Context): Option<Applied>
    requires item.change.Some?
  {
    var c := item.change.value;
    ApplyChange(g, c.actions, c.source, ctx.us.aci, ctx.known)
  }

  function Incomings(items: seq<Item>, ctx: Context): seq<Incoming>
    requires forall i :: 0 <= i < |items| ==> items[i].change.Some?
  {
    seq(|items|, i requires 0 <= i < |items| =>
          Incoming(items[i].change.value.actions, items[i].change.value.source, ctx.known))
  }

  /** The group of an applied change can be told about: the assertion on self-adds holds. */
  lemma AppliedIsTold(g: Group, c: LogChange, ctx: Context)
    requires g.revision.Some? && ApplyChange(g, c.actions, c.source, ctx.us.aci, ctx.known).Some?
    ensures TryChange(g, c, ctx).Some?
    ensures TryChange(g, c, ctx).value.group == ApplyChange(g, c.actions, c.source, ctx.us.aci, ctx.known).value.group
  {
    hide ApplyChange, DiffOf;
    var r := ApplyChange(g, c.actions, c.source, ctx.us.aci, ctx.known).value;
    AppliedIsTidy(g, c.actions, c.source, ctx.us.aci, ctx.known);
    ThrowsIff(g, r.group, ctx.us, Some(c.source), false, r.promoted);
  }

  /** Such a log has the same effect as applying its changes one after the other. */
  lemma {:induction false} InStepApplies(p: Progress, items: seq<Item>, ctx: Context)
    requires p.group.hasSecretParams && InStep(p.group, items, ctx)
    requires forall i :: 0 <= i < |items| ==> items[i].change.Some?
    ensures AdvanceAll(p, items, ctx).group == AfterChanges(p.group, ctx.us.aci, Incomings(items, ctx))
    ensures items != [] ==> AdvanceAll(p, items, ctx).group.revision == Some(p.group.revision.value + |items|)
    decreases |items|
  {
    hide ApplyChange, TryChange, TryState, DiffOf;
    if items != [] {
      var c := items[0].change.value;
      AppliedIsTold(p.group, c, ctx);
      AppliedIsTidy(p.group, c.actions, c.source, ctx.us.aci, ctx.known);
      assert Incomings(items, ctx)[1..] == Incomings(items[1..], ctx);
      InStepApplies(Advance(p, items[0], ctx), items[1..], ctx);
    }
  }

  /** What is told about such a log: each change in turn, from its author. */
  function ToldInTurn(g: Group, items: seq<Item>, ctx: Context): seq<Notice>
    requires InStep(g, items, ctx)
    decreases |items|
  {
    if items == [] then [] else
    var c, r := items[0].change.value, Applied(g, items[0], ctx).value;
    var d := DiffOf(g, r.group, ctx.us, Some(c.source), false, r.promoted);
    (if d.None? then []
     else (match d.value.note case None => [] case Some(n) => [NoteOf(n)])
          + (match d.value.timer case None => [] case Some(t) => [TimerOf(t)]))
    + ToldInTurn(r.group, items[1..], ctx)
  }

  lemma {:induction false} ConcatAppend<T>(ss: seq<seq<T>>, ts: seq<seq<T>>)
    ensures Concat(ss + ts) == Concat(ss) + Concat(ts)
  {
    if ss == [] {
      assert ss + ts == ts;
    } else {
      assert (ss + ts)[1..] == ss[1..] + ts;
      ConcatAppend(ss[1..], ts);
    }
  }

  lemma {:induction false} InStepTells(p: Progress, items: seq<Item>, ctx: Context)
    requires p.group.hasSecretParams && InStep(p.group, items, ctx)
    ensures Concat(AdvanceAll(p, items, ctx).messages) == Concat(p.messages) + ToldInTurn(p.group, items, ctx)
    decreases |items|
  {
    hide ApplyChange, TryState, DiffOf;
    if items != [] {
      var c, r := items[0].change.value, Applied(p.group, items[0], ctx).value;
      AppliedIsTold(p.group, c, ctx);
      AppliedIsTidy(p.group, c.actions, c.source, ctx.us.aci, ctx.known);
      var p' := Advance(p, items[0], ctx);
      var told := p'.messages[|p'.messages| - 1];
      assert p'.messages == p.messages + [told];
      ConcatAppend(p.messages, [told]);
      assert [told][1..] == [] && Concat([told]) == told + Concat([]);
      InStepTells(p', items[1..], ctx);
      assert ToldInTurn(p.group, items, ctx) == told + ToldInTurn(r.group, items[1..], ctx);
      hide *;
      assert Concat(p.messages) + told + ToldInTurn(r.group, items[1..], ctx)
          == Concat(p.messages) + (told + ToldInTurn(r.group, items[1..], ctx));
    }
  }

  /** The whole operation on a known group with such a log: the group with all changes applied, and all
      of them told, in turn. */
  lemma InStepIntegrates(g: Group, pages: seq<seq<Item>>, ctx: Context)
    requires g.hasSecretParams && InStep(g, Concat(pages), ctx) && g.revision.Some?
    requires forall i :: 0 <= i < |Concat(pages)| ==> Concat(pages)[i].change.Some?
    ensures Integrate(g, pages, ctx) ==
              Some(Integrated(AfterChanges(g, ctx.us.aci, Incomings(Concat(pages), ctx)),
                              ToldInTurn(g, Concat(pages), ctx)))
  {
    hide AdvanceAll, InStep, AfterChanges, ToldInTurn;
    InStepApplies(Progress(g, []), Concat(pages), ctx);
    InStepTells(Progress(g, []), Concat(pages), ctx);
    var none: seq<Notice> := Concat([]);
    assert none + ToldInTurn(g, Concat(pages), ctx) == ToldInTurn(g, Concat(pages), ctx);
  }

  // ----- when a change takes effect -----

  /** A change alone takes effect on a known group exactly when it can be read, is supported and applies,
      is not beyond the revision asked for, and is the next one, or, while we wait for approval, any later
      one. */
  lemma ChangeTakesEffectIff(g: Group, item: Item, ctx: Context)
    requires ChangeOnly(item) && g.hasSecretParams && g.revision.Some?
    ensures var c := item.change.value;
            var version, applied := c.actions.version.value, Applied(g, item, ctx);
            var r := IntegrateOne(g, item, ctx);
            && (!NoOp(g, item, ctx) <==>
                  && c.decrypts && c.supported && applied.Some?
                  && (ctx.newRevision.Some? ==> version <= ctx.newRevision.value)
                  && (version == g.revision.value + 1
                      || (version > g.revision.value && ctx.us.aci in Keys(g.approvals))))
            && (!NoOp(g, item, ctx) ==> r.Some? && r.value.group == applied.value.group)
  {
    hide ApplyChange, DiffOf, TryState, ThenState, TryChange, Keys, Get;
    TryChangeIff(g, item.change.value, ctx);
    OnlyTheChange(g, item, ctx);
    hide IntegrateOne;
  }

  /** Without a state, an item does what its change does, or nothing. */
  lemma OnlyTheChange(g: Group, item: Item, ctx: Context)
    requires ChangeOnly(item) && g.hasSecretParams
    ensures var c := item.change.value;
            var tried := !TooNew(c, ctx.newRevision) && c.decrypts && !Stale(g, c) && CanApply(g, c, ctx.us);
            && (tried ==> IntegrateOne(g, item, ctx) == TryChange(g, c, ctx))
            && (!tried ==> NoOp(g, item, ctx))
  {
    hide TryChange, TooNew, Stale, CanApply;
  }

  lemma TryChangeIff(g: Group, c: LogChange, ctx: Context)
    requires g.revision.Some?
    ensures var r := ApplyChange(g, c.actions, c.source, ctx.us.aci, ctx.known);
            && (TryChange(g, c, ctx).Some? <==> r.Some?)
            && (r.Some? ==>
                  TryChange(g, c, ctx).value.group == r.value.group && r.value.group.revision == Some(Version(c)))
  {
    hide ApplyChange, DiffOf;
    if ApplyChange(g, c.actions, c.source, ctx.us.aci, ctx.known).Some? {
      AppliedIsTold(g, c, ctx);
      AppliedIsTidy(g, c.actions, c.source, ctx.us.aci, ctx.known);
    }
  }

  // ----- full states -----

  /** A state tells rightly whether we have left exactly when it lists the members or we were not
      known as one: a state without a list counts as having left but leaves the members as they are. */
  lemma StateLeftIff(g: Group, s: State, us: Us, source: Option<ServiceId>)
    ensures var r := ApplyState(g, s, us, source);
            r.Some? ==>
              && ((r.value.left <==> us.aci !in Keys(r.value.members)) <==>
                    s.members.Some? || us.aci !in Keys(g.members))
              && (r.value.left ==> r.value.addedBy == None)
  {
    if s.members.Some? {
      StateMembersKeys(s.members.value, us.aci);
    }
    hide Keys;
  }

  lemma {:induction false} StateMembersKeys(ms: seq<StateMember>, aci: Aci)
    ensures aci in Keys(StateMembers(ms)) <==> exists m :: m in ms && m.aci == aci
  {
    if ms != [] {
      assert StateMembers(ms)[1..] == StateMembers(ms[1..]);
      StateMembersKeys(ms[1..], aci);
      assert ms == [ms[0]] + ms[1..];
    }
  }

  /** The state lists us as a member since its own version. */
  predicate JoinedNow(s: State, us: Us) {
    s.members.Some? && exists m :: m in s.members.value && m.aci == us.aci && m.joinedAtVersion == s.version
  }

  lemma {:induction false} KeyIff(d: Dict<Aci, Member>, aci: Aci)
    ensures aci in Keys(d) <==> exists e :: e in d && e.key == aci
  {
    if d != [] {
      KeyIff(d[1..], aci);
      assert d == [d[0]] + d[1..];
    }
  }

  /** Who added us, when a state says that we joined with it: the author if we were no member before,
      and otherwise whoever it was. The source gets this right exactly when we were a member just if
      somebody else was, or the author is on record already: it looks for another member where it
      should look for us. */
  lemma RecordsAdderIff(g: Group, s: State, us: Us, source: ServiceId)
    requires ApplyState(g, s, us, Some(source)).Some? && JoinedNow(s, us)
    ensures var addedBy := ApplyState(g, s, us, Some(source)).value.addedBy;
            addedBy == (if us.aci in Keys(g.members) then g.addedBy else Some(source)) <==>
              || (us.aci in Keys(g.members) <==> exists e :: e in g.members && e.key != us.aci)
              || g.addedBy == Some(source)
  {
    KeyIff(g.members, us.aci);
    hide Keys;
  }

  /** Without an author, or unless the state says that we joined with it, who added us stays on record
      while we are listed, and nobody is on record otherwise. */
  lemma AdderStays(g: Group, s: State, us: Us, source: Option<ServiceId>)
    requires ApplyState(g, s, us, source).Some? && (source == None || !JoinedNow(s, us))
    ensures var r := ApplyState(g, s, us, source).value; r.addedBy == if r.left then None else g.addedBy
  {
  }

  /** The author is missed in any group in which somebody else but not us was known as a member. */
  lemma AdderIsMissed(g: Group, s: State, us: Us, source: ServiceId, other: Aci)
    requires ApplyState(g, s, us, Some(source)).Some? && JoinedNow(s, us)
    requires us.aci !in Keys(g.members) && other in Keys(g.members) && g.addedBy == None
    ensures ApplyState(g, s, us, Some(source)).value.addedBy == None
  {
    KeyIff(g.members, other);
    RecordsAdderIff(g, s, us, source);
    hide Keys;
  }

  /** There are such groups and states. */
  lemma AdderCanBeMissed()
    ensures exists g: Group, s: State ::
              && ApplyState(g, s, Us(0, None), Some(OfAci(1))).Some? && JoinedNow(s, Us(0, None))
              && 0 !in Keys(g.members) && ApplyState(g, s, Us(0, None), Some(OfAci(1))).value.addedBy != Some(OfAci(1))
  {
    var g := Group(None, true, [Entry(1, Member(2, 0, false, false))], [], [], [], true, None,
                   None, None, None, None, None, None, false);
    var s := State(1, true, Some([StateMember(0, 1, 1)]), None, None, [], None, None, None, None,
                   AccessControl(2, 2, 4), None, false);
    assert s.members.value[0] in s.members.value;
    assert g.members[1..] == [] && Keys(g.members) == {1};
    assert JoinedNow(s, Us(0, None));
    AdderIsMissed(g, s, Us(0, None), OfAci(1), 1);
  }

  // ----- a change without a version -----

  function NoActions(version: Option<nat>): Actions {
    Actions(version, [], [], [], [], [], [], [], [], [], [], [], [], [],
            None, None, None, None, None, None, None, None, None)
  }

  lemma NoActionsApply(g: Group, version: Option<nat>, source: ServiceId, us: Aci, known: set<Aci>)
    ensures ApplyChange(g, NoActions(version), source, us, known).Some?
  {
    hide Assemble, StartWork;
  }

  /** Any known group is taken back to revision 0 by a change that does nothing and has no version. */
  lemma VersionlessChangeRewinds(g: Group, source: ServiceId, ctx: Context)
    requires g.hasSecretParams && g.revision.Some?
    ensures var item := Item(Some(LogChange(NoActions(None), true, source, true)), None);
            IntegrateOne(g, item, ctx).Some? && IntegrateOne(g, item, ctx).value.group.revision == Some(0)
  {
    hide ApplyChange, TryChange;
    var c := LogChange(NoActions(None), true, source, true);
    NoActionsApply(g, None, source, ctx.us.aci, ctx.known);
    AppliedIsTold(g, c, ctx);
    TryChangeRevision(g, c, ctx);
  }
}
