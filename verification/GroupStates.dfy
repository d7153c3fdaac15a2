/** What a full group state leaves of the group it is applied to, and of the log that it ends. */
module GroupStates {
  import opened Options
  import opened ServiceIds
  import opened Dicts
  import opened GroupApply
  import opened GroupDiff
  import opened GroupDiffMessages
  import opened GroupTold
  import opened GroupLog
  import opened GroupReplay

  // ----- what the state says -----

  /** The members are those of the state, in its order, with its roles and versions and no record of how
      they joined. */
  predicate SameMembers(members: Dict<Aci, Member>, listed: seq<StateMember>) {
    |members| == |listed| && forall i :: 0 <= i < |listed| ==>
      members[i].key == listed[i].aci && members[i].value.role == listed[i].role
      && members[i].value.joinedAtVersion == listed[i].joinedAtVersion
      && !members[i].value.joinedFromLink && !members[i].value.approvedByAdmin
  }

  /** The same of the invitations, with inviters and timestamps. */
  predicate SameInvites(pending: Dict<ServiceId, PendingMember>, listed: seq<StatePending>) {
    |pending| == |listed| && forall i :: 0 <= i < |listed| ==>
      Some(pending[i].key) == listed[i].serviceId && pending[i].value.addedBy == listed[i].addedBy
      && pending[i].value.timestamp == listed[i].timestamp && pending[i].value.role == listed[i].role
  }

  /** Whoever a state lists is one of its members. */
  predicate Lists(s: State, aci: Aci) {
    s.members.Some? && exists m :: m in s.members.value && m.aci == aci
  }

  /** Everything that a state carries is in the group, and a list that it does not carry is as it was. */
  predicate AsStated(before: Group, g: Group, s: State, us: Us) {
    && g.revision == Some(s.version)
    && (match s.members
        case None => g.members == before.members
        case Some(listed) => SameMembers(g.members, listed))
    && (match s.pending
        case None => g.pending == before.pending
        case Some(listed) => SameInvites(g.pending, listed))
    && (match s.approvals
        case None => g.approvals == before.approvals
        case Some(listed) => g.approvals == listed)
    && g.banned == s.banned
    && (g.left <==> !Lists(s, us.aci))
    && g.name == s.name && g.avatar == s.avatar && g.description == s.description && g.expireTimer == s.expireTimer
    && g.accessControl == Some(s.accessControl) && g.password == s.password
    && g.announcementsOnly == s.announcementsOnly
  }

  /** A state is rejected exactly when it does not decrypt, when a role in it is none, or when an
      invitation in it lacks its id or its inviter. */
  lemma StateApplies(g: Group, s: State, us: Us, source: Option<ServiceId>)
    ensures ApplyState(g, s, us, source).Some? <==>
              && s.decrypts
              && (s.members.Some? ==> forall m :: m in s.members.value ==> m.role == 1 || m.role == 2)
              && (s.pending.Some? ==> forall p :: p in s.pending.value ==>
                    p.serviceId.Some? && p.addedBy.Some? && (p.role == 1 || p.role == 2))
    ensures ApplyState(g, s, us, source).Some? ==>
              AsStated(g, ApplyState(g, s, us, source).value, s, us)
              && ApplyState(g, s, us, source).value.hasSecretParams == g.hasSecretParams
  {
  }

  lemma {:induction false} RecordOfMember(members: Dict<Aci, Member>, listed: seq<StateMember>, aci: Aci)
    requires SameMembers(members, listed)
    ensures Get(members, aci).Some? <==> exists m :: m in listed && m.aci == aci
    ensures Get(members, aci).Some? ==>
              exists m :: m in listed && m.aci == aci
                          && Get(members, aci).value == Member(m.role, m.joinedAtVersion, false, false)
  {
    if listed != [] {
      RecordOfMember(members[1..], listed[1..], aci);
      assert listed == [listed[0]] + listed[1..];
      hide Get;
    }
  }

  // ----- convergence -----

  predicate Complete(s: State) {
    s.members.Some? && s.pending.Some? && s.approvals.Some?
  }

  /** The two groups agree in everything but who added us and what states do not carry. */
  predicate Agree(g: Group, h: Group) {
    g == h.(hasSecretParams := g.hasSecretParams, addedBy := g.addedBy)
  }

  lemma StatedAlike(g: Group, h: Group, before: Group, before': Group, s: State, us: Us)
    requires Complete(s) && AsStated(before, g, s, us) && AsStated(before', h, s, us)
    ensures Agree(g, h)
  {
    assert g.members == h.members && g.pending == h.pending;
  }

  /** Whatever two groups were before, and whoever the state came from: once the same state with all its
      lists applies to both, they agree. */
  lemma StatesConverge(g: Group, h: Group, s: State, us: Us, source: Option<ServiceId>, source': Option<ServiceId>)
    requires Complete(s) && ApplyState(g, s, us, source).Some?
    ensures ApplyState(h, s, us, source').Some?
    ensures Agree(ApplyState(g, s, us, source).value, ApplyState(h, s, us, source').value)
  {
    StateApplies(g, s, us, source);
    StateApplies(h, s, us, source');
    StatedAlike(ApplyState(g, s, us, source).value, ApplyState(h, s, us, source').value, g, h, s, us);
  }

  // ----- logs -----

  /** The item is neither skipped nor rejected, and brings a state. */
  predicate TakesEffect(g: Group, item: Item, ctx: Context) {
    item.state.Some? && !Skipped(g, item, ctx) && IntegrateOne(g, item, ctx).Some?
  }

  /** The group that the state of an item is applied to: the change of the item goes first if it can. */
  function Underneath(g: Group, item: Item, ctx: Context): Group {
    if item.change.Some? && CanApply(g, item.change.value, ctx.us) && TryChange(g, item.change.value, ctx).Some?
    then TryChange(g, item.change.value, ctx).value.group
    else g
  }

  /** An item with a state that takes effect leaves the group as the state says, whether or not its
      change applied first; the lists that the state lacks are those of the group then. */
  lemma ItemAsStated(g: Group, item: Item, ctx: Context)
    requires TakesEffect(g, item, ctx)
    ensures AsStated(Underneath(g, item, ctx), IntegrateOne(g, item, ctx).value.group, item.state.value, ctx.us)
  {
    hide ApplyState, TryChange, DiffOf, AsStated;
    var s := item.state.value;
    if item.change.None? {
      StateApplies(g, s, ctx.us, None);
    } else if CanApply(g, item.change.value, ctx.us) {
      var first := TryChange(g, item.change.value, ctx).value;
      StateApplies(first.group, s, ctx.us, None);
    } else {
      StateApplies(g, s, ctx.us, FirstFetchSource(g, item));
    }
  }

  /** After a log whose last item takes effect with a state, the group is what that state says. */
  lemma LogEndsAsStated(p: Progress, items: seq<Item>, ctx: Context)
    requires items != []
    requires TakesEffect(AdvanceAll(p, items[..|items| - 1], ctx).group, items[|items| - 1], ctx)
    ensures var mid, last := AdvanceAll(p, items[..|items| - 1], ctx).group, items[|items| - 1];
            AsStated(Underneath(mid, last, ctx), AdvanceAll(p, items, ctx).group, last.state.value, ctx.us)
  {
    hide IntegrateOne, AsStated, Underneath, AdvanceAll, TakesEffect, Advance;
    var front, last := items[..|items| - 1], items[|items| - 1];
    assert items == front + [last];
    AdvanceAppend(p, front, [last], ctx);
    AdvancedByLast(AdvanceAll(p, front, ctx), last, ctx);
    ItemAsStated(AdvanceAll(p, front, ctx).group, last, ctx);
  }

  lemma AdvancedByLast(p: Progress, item: Item, ctx: Context)
    ensures AdvanceAll(p, [item], ctx) == Advance(p, item, ctx)
    ensures TakesEffect(p.group, item, ctx) ==>
              Advance(p, item, ctx).group == IntegrateOne(p.group, item, ctx).value.group
  {
    hide IntegrateOne;
    assert [item][1..] == [];
  }

  /** Two logs, each over any group and with any items before: if both end with the same state with all
      its lists, and it takes effect in both, the two groups agree. */
  lemma LogsConverge(p: Progress, q: Progress, items: seq<Item>, items': seq<Item>, ctx: Context, ctx': Context)
    requires items != [] && items' != [] && ctx.us == ctx'.us
    requires TakesEffect(AdvanceAll(p, items[..|items| - 1], ctx).group, items[|items| - 1], ctx)
    requires TakesEffect(AdvanceAll(q, items'[..|items'| - 1], ctx').group, items'[|items'| - 1], ctx')
    requires items[|items| - 1].state == items'[|items'| - 1].state && Complete(items[|items| - 1].state.value)
    ensures Agree(AdvanceAll(p, items, ctx).group, AdvanceAll(q, items', ctx').group)
  {
    LogEndsAsStated(p, items, ctx);
    LogEndsAsStated(q, items', ctx');
    hide TakesEffect, AdvanceAll, AsStated, Agree, Underneath;
    var last, last' := items[|items| - 1], items'[|items'| - 1];
    var mid, mid' := AdvanceAll(p, items[..|items| - 1], ctx).group, AdvanceAll(q, items'[..|items'| - 1], ctx').group;
    StatedAlike(AdvanceAll(p, items, ctx).group, AdvanceAll(q, items', ctx').group,
                Underneath(mid, last, ctx), Underneath(mid', last', ctx'), last.state.value, ctx.us);
  }

  // ----- when a state takes effect, and what is told of it -----

  /** The author shown for a state: that of the change beside it, on a first fetch only. */
  function StateSource(g: Group, item: Item): Option<ServiceId> {
    match (g.revision, item.change)
    case (None, Some(c)) => Some(c.source)
    case _ => None
  }

  /** The version of the change beside a state does not stand in its way: there is none, or it is neither
      beyond the revision asked for nor before that of the group. */
  predicate VersionFits(g: Group, item: Item, ctx: Context) {
    match item.change
    case None => true
    case Some(c) =>
      match c.actions.version
      case None => true
      case Some(v) => v == 0 || ((ctx.newRevision.Some? ==> v <= ctx.newRevision.value)
                                 && (g.revision.Some? ==> g.revision.value <= v))
  }

  /** What the change beside a state tells, if it applies first. */
  function ToldOfChange(g: Group, item: Item, ctx: Context): seq<Notice> {
    if item.change.Some? && CanApply(g, item.change.value, ctx.us) && TryChange(g, item.change.value, ctx).Some?
    then TryChange(g, item.change.value, ctx).value.messages
    else []
  }

  /** A state takes effect exactly when the version of the change beside it does not stand in its way, that
      change can be read and, if it can apply, applies first, and the state applies and can be told about.
      What is told is what the change told, and then the difference that the state makes. */
  lemma StateTakesEffectIff(g: Group, item: Item, ctx: Context)
    requires item.state.Some?
    ensures var under, source := Underneath(g, item, ctx), StateSource(g, item);
            var after := ApplyState(under, item.state.value, ctx.us, source);
            var diff := if after.None? then None else DiffOf(under, after.value, ctx.us, source, false, []);
            && (TakesEffect(g, item, ctx) <==>
                  && g.hasSecretParams && VersionFits(g, item, ctx)
                  && (item.change.Some? ==>
                        && item.change.value.decrypts
                        && (CanApply(g, item.change.value, ctx.us) ==> TryChange(g, item.change.value, ctx).Some?))
                  && diff.Some?)
            && (TakesEffect(g, item, ctx) ==>
                  IntegrateOne(g, item, ctx).value ==
                    Integrated(after.value,
                               ToldOfChange(g, item, ctx)
                               + (match diff.value.note case None => [] case Some(n) => [NoteOf(n)])
                               + (match diff.value.timer case None => [] case Some(t) => [TimerOf(t)])))
  {
    hide ApplyState, TryChange, DiffOf, CanApply;
    var under, source := Underneath(g, item, ctx), StateSource(g, item);
    StateTold(under, item.state.value, ctx, source, ToldOfChange(g, item, ctx));
    if item.change.Some? {
      Skips(g, item, ctx);
    }
    SourceIs(g, item, ctx);
    if item.change.Some? && CanApply(g, item.change.value, ctx.us)
       && TryChange(g, item.change.value, ctx).Some? {
      assert TryChange(g, item.change.value, ctx).value == Integrated(under, ToldOfChange(g, item, ctx));
    } else {
      assert under == g && ToldOfChange(g, item, ctx) == [];
    }
    hide TryState, Underneath, ToldOfChange, StateSource, VersionFits, Skipped, TooNew, Stale;
  }

  lemma Skips(g: Group, item: Item, ctx: Context)
    requires item.change.Some?
    ensures Skipped(g, item, ctx) <==> !VersionFits(g, item, ctx)
  {
  }

  /** An item whose version stands in the way is passed over, which is no failure: it counts as an item
      that tells nothing. One beyond the revision asked for need not even be readable. */
  lemma PassedOver(g: Group, item: Item, ctx: Context)
    requires g.hasSecretParams && item.change.Some? && !VersionFits(g, item, ctx)
    ensures IntegrateOne(g, item, ctx) ==
              if item.change.value.decrypts
                 || (ctx.newRevision.Some? && item.change.value.actions.version.value > ctx.newRevision.value)
              then Some(Integrated(g, [])) else None
  {
  }

  lemma StateTold(under: Group, s: State, ctx: Context, source: Option<ServiceId>, before: seq<Notice>)
    ensures var after := ApplyState(under, s, ctx.us, source);
            var diff := if after.None? then None else DiffOf(under, after.value, ctx.us, source, false, []);
            && (TryState(under, s, ctx, source).Some? <==> diff.Some?)
            && (diff.Some? ==>
                  && TryState(under, s, ctx, source).value.group == after.value
                  && before + TryState(under, s, ctx, source).value.messages ==
                       before + (match diff.value.note case None => [] case Some(n) => [NoteOf(n)])
                       + (match diff.value.timer case None => [] case Some(t) => [TimerOf(t)]))
  {
    hide ApplyState, DiffOf;
  }

  lemma SourceIs(g: Group, item: Item, ctx: Context)
    ensures StateSource(g, item) == FirstFetchSource(g, item)
    ensures item.change.None? || CanApply(g, item.change.value, ctx.us) ==> StateSource(g, item) == None
  {
  }

  // ----- the first fetch -----

  /** The first fetch of a group leaves it as the log does, and tells at most three things: the first
      that its first item told; a first message about the whole difference, which after such a first
      thing can only be that we are invited or asked to join; and a timer, if there is one now. */
  lemma FirstFetchTells(g: Group, pages: seq<seq<Item>>, ctx: Context)
    requires g.revision.None? && UniqueLists(g) && Integrate(g, pages, ctx).Some?
    requires UniqueLists(AdvanceAll(Progress(g, []), Concat(pages), ctx).group)
    ensures var p, r := AdvanceAll(Progress(g, []), Concat(pages), ctx), Integrate(g, pages, ctx).value;
            var joined := p.messages != [] && p.messages[0] != [];
            var rest := if joined && r.messages != [] then r.messages[1..] else r.messages;
            && r.group == p.group && |rest| <= 2
            && (joined ==> r.messages != [] && r.messages[0] == p.messages[0][0])
            && (forall t :: TimerOf(t) in rest <==> Seconds(g) != Seconds(p.group) && t == Seconds(p.group))
            && (forall n: Note :: NoteOf(n) in rest ==>
                  && n in OnlyNote(g, p.group, ctx.us, joined)
                  && (joined ==> InvitedNow(ctx.us, p.group.pending) || ctx.us.aci in Keys(p.group.approvals)))
  {
    hide AdvanceAll, Concat, DiffOf, InvitationNote;
    var p, r := AdvanceAll(Progress(g, []), Concat(pages), ctx), Integrate(g, pages, ctx).value;
    var joined := p.messages != [] && p.messages[0] != [];
    TimerTold(g, p.group, ctx.us, None, joined, []);
    FirstMessageIs(g, p.group, ctx.us, None, joined, []);
    hide Keys, Seconds, InvitedNow, UniqueLists, HowJoined, Details;
    var others := DiffOf(g, p.group, ctx.us, None, joined, []).value;
    assert r.messages == (if joined then [p.messages[0][0]] else []) + Notices(others);
    assert joined ==> r.messages[1..] == Notices(others);
  }

  /** Integrating a log fails exactly on a first fetch of a group that has us as a member before and after
      it, without our being invited or asking to join, when its first item told nothing. */
  lemma IntegrateFailsIff(g: Group, pages: seq<seq<Item>>, ctx: Context)
    requires Unique(AdvanceAll(Progress(g, []), Concat(pages), ctx).group.members)
    ensures var p := AdvanceAll(Progress(g, []), Concat(pages), ctx);
            Integrate(g, pages, ctx) == None <==>
              && g.revision.None? && ctx.us.aci in Keys(g.members) && ctx.us.aci in Keys(p.group.members)
              && !InvitedNow(ctx.us, p.group.pending) && ctx.us.aci !in Keys(p.group.approvals)
              && (p.messages == [] || p.messages[0] == [])
  {
    hide AdvanceAll, Concat, DiffOf;
    var p := AdvanceAll(Progress(g, []), Concat(pages), ctx);
    ThrowsIff(g, p.group, ctx.us, None, p.messages != [] && p.messages[0] != [], []);
    hide Keys, Unique, Notices;
  }

  function OnlyNote(g: Group, h: Group, us: Us, drop: bool): seq<Note> {
    var d := DiffOf(g, h, us, None, drop, []);
    if d.Some? && d.value.note.Some? then [d.value.note.value] else []
  }
}
