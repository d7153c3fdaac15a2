/** Bringing a group up to date from a log of changes and states fetched from the server. */
module GroupLog {
  import opened Options
  import opened ServiceIds
  import opened Dicts
  import opened GroupApply
  import opened GroupDiff

  const ROLE_ADMINISTRATOR := 2

  datatype StateMember = StateMember(aci: Aci, role: nat, joinedAtVersion: nat)
  datatype StatePending = StatePending(serviceId: Option<ServiceId>, addedBy: Option<Aci>, timestamp: nat, role: nat)

  /** A full group state, decrypted if it `decrypts`; the avatar hash is the outcome of the download. */
  datatype State = State(
    version: nat, decrypts: bool,
    members: Option<seq<StateMember>>, pending: Option<seq<StatePending>>,
    approvals: Option<Dict<Aci, nat>>, banned: Dict<ServiceId, nat>,
    name: Option<string>, avatar: Option<string>, description: Option<string>, expireTimer: Option<nat>,
    accessControl: AccessControl, password: Option<string>, announcementsOnly: bool)

  /** A change in a log; `decrypts` says that its actions decrypt and name their author. */
  datatype LogChange = LogChange(actions: Actions, decrypts: bool, source: ServiceId, supported: bool)

  datatype Item = Item(change: Option<LogChange>, state: Option<State>)

  /** What does not change while a log is processed. */
  datatype Context = Context(us: Us, known: set<Aci>, newRevision: Option<nat>)

  datatype Notice = NoteOf(note: Note) | TimerOf(seconds: nat)

  datatype Integrated = Integrated(group: Group, messages: seq<Notice>)

  function Notices(d: Diff): seq<Notice> {
    (if d.note.Some? then [NoteOf(d.note.value)] else []) + (if d.timer.Some? then [TimerOf(d.timer.value)] else [])
  }

  // ----- full states -----

  predicate ValidRole(role: nat) {
    role == ROLE_DEFAULT || role == ROLE_ADMINISTRATOR
  }

  predicate ValidState(s: State) {
    && s.decrypts
    && (s.members.Some? ==> forall m :: m in s.members.value ==> ValidRole(m.role))
    && (s.pending.Some? ==> forall p :: p in s.pending.value ==>
          p.serviceId.Some? && p.addedBy.Some? && ValidRole(p.role))
  }

  function StateMembers(ms: seq<StateMember>): Dict<Aci, Member> {
    seq(|ms|, i requires 0 <= i < |ms| => Entry(ms[i].aci, Member(ms[i].role, ms[i].joinedAtVersion, false, false)))
  }

  function StatePendings(ps: seq<StatePending>): Dict<ServiceId, PendingMember>
    requires forall p :: p in ps ==> p.serviceId.Some?
  {
    seq(|ps|, i requires 0 <= i < |ps| =>
          Entry(ps[i].serviceId.value, PendingMember(ps[i].addedBy, ps[i].timestamp, ps[i].role)))
  }

  /** The source asks for another member where it means us: whoever added us is recorded only if
      nobody else was known to be a member. */
  predicate RecordsAdder(g: Group, s: State, us: Us) {
    && (forall e :: e in g.members ==> e.key == us.aci)
    && s.members.Some? && (exists m :: m in s.members.value && m.aci == us.aci && m.joinedAtVersion == s.version)
  }

  /** Replaces all attributes by those of the state; lists that it does not have stay. */
  function ApplyState(g: Group, s: State, us: Us, source: Option<ServiceId>): Option<Group> {
    if !ValidState(s) then None else
    var left := !(s.members.Some? && exists m :: m in s.members.value && m.aci == us.aci);
    Some(g.(revision := Some(s.version),
            members := if s.members.Some? then StateMembers(s.members.value) else g.members,
            pending := if s.pending.Some? then StatePendings(s.pending.value) else g.pending,
            approvals := OrElse(s.approvals, g.approvals), banned := s.banned,
            left := left,
            addedBy := if left then None else if source.Some? && RecordsAdder(g, s, us) then source else g.addedBy,
            name := s.name, avatar := s.avatar, description := s.description, expireTimer := s.expireTimer,
            accessControl := Some(s.accessControl), password := s.password,
            announcementsOnly := s.announcementsOnly))
  }

  // ----- one item of a log -----

  function Version(c: LogChange): nat {
    OrElse(c.actions.version, 0)
  }

  predicate TooNew(c: LogChange, newRevision: Option<nat>) {
    Version(c) > 0 && newRevision.Some? && Version(c) > newRevision.value
  }

  predicate Stale(g: Group, c: LogChange) {
    g.revision.Some? && 0 < Version(c) < g.revision.value
  }

  /** A change applies on top of the version before it, or of any before it while we wait for
      approval; a change without a version is not compared at all. */
  predicate CanApply(g: Group, c: LogChange, us: Us) {
    && c.supported && g.revision.Some?
    && (Version(c) == 0 || (Version(c) != g.revision.value
                            && (Version(c) == g.revision.value + 1 || Has(g.approvals, us.aci))))
  }

  /** The group after the change, and what is told about it. */
  function TryChange(g: Group, c: LogChange, ctx: Context): Option<Integrated> {
    var r := ApplyChange(g, c.actions, c.source, ctx.us.aci, ctx.known);
    if r.None? then None else
    var d := DiffOf(g, r.value.group, ctx.us, Some(c.source), false, r.value.promoted);
    if d.None? then None else Some(Integrated(r.value.group, Notices(d.value)))
  }

  function TryState(g: Group, s: State, ctx: Context, source: Option<ServiceId>): Option<Integrated> {
    var r := ApplyState(g, s, ctx.us, source);
    if r.None? then None else
    var d := DiffOf(g, r.value, ctx.us, source, false, []);
    if d.None? then None else Some(Integrated(r.value, Notices(d.value)))
  }

  /** The attached state goes on top of the change, if that applied. */
  function ThenState(first: Integrated, item: Item, ctx: Context, source: Option<ServiceId>): Option<Integrated> {
    if item.state.None? then Some(first) else
    var r := TryState(first.group, item.state.value, ctx, source);
    if r.None? then None else Some(Integrated(r.value.group, first.messages + r.value.messages))
  }

  function FirstFetchSource(g: Group, item: Item): Option<ServiceId> {
    if g.revision.None? && item.change.Some? then Some(item.change.value.source) else None
  }

  /** None where the source throws. */
  function IntegrateOne(g: Group, item: Item, ctx: Context): Option<Integrated> {
    var skipped := Integrated(g, []);
    if !g.hasSecretParams || (item.change.None? && item.state.None?) then None
    else if item.change.None? then ThenState(skipped, item, ctx, None)
    else
      var c := item.change.value;
      if TooNew(c, ctx.newRevision) then Some(skipped)
      else if !c.decrypts then None
      else if Stale(g, c) then Some(skipped)
      else if CanApply(g, c, ctx.us) then
        var first := TryChange(g, c, ctx);
        if first.None? then None else ThenState(first.value, item, ctx, None)
      else if item.state.None? then None
      else ThenState(skipped, item, ctx, FirstFetchSource(g, item))
  }

  // ----- a whole log -----

  datatype Progress = Progress(group: Group, messages: seq<seq<Notice>>)

  /** An item that throws is skipped, and so is one with neither change nor state. */
  function Advance(p: Progress, item: Item, ctx: Context): Progress {
    if item.change.None? && item.state.None? then p else
    match IntegrateOne(p.group, item, ctx)
    case None => p
    case Some(r) => Progress(r.group, p.messages + [r.messages])
  }

  function AdvanceAll(p: Progress, items: seq<Item>, ctx: Context): Progress
    decreases |items|
  {
    if items == [] then p else AdvanceAll(Advance(p, items[0], ctx), items[1..], ctx)
  }

  function Concat<T>(ss: seq<seq<T>>): seq<T> {
    if ss == [] then [] else ss[0] + Concat(ss[1..])
  }

  /** On the first fetch the messages collapse into how we joined and one difference for the rest. */
  function Finish(g: Group, p: Progress, us: Us): Option<Integrated> {
    if g.revision.Some? then Some(Integrated(p.group, Concat(p.messages))) else
    var joined := p.messages != [] && p.messages[0] != [];
    var others := DiffOf(g, p.group, us, None, joined, []);
    if others.None? then None else
    Some(Integrated(p.group, (if joined then [p.messages[0][0]] else []) + Notices(others.value)))
  }

  function Integrate(g: Group, pages: seq<seq<Item>>, ctx: Context): Option<Integrated> {
    Finish(g, AdvanceAll(Progress(g, []), Concat(pages), ctx), ctx.us)
  }

  lemma {:induction false} AdvanceAppend(p: Progress, items: seq<Item>, more: seq<Item>, ctx: Context)
    ensures AdvanceAll(p, items + more, ctx) == AdvanceAll(AdvanceAll(p, items, ctx), more, ctx)
    decreases |items|
  {
    hide Advance;
    if items == [] {
      assert items + more == more;
    } else {
      assert (items + more)[1..] == items[1..] + more;
      AdvanceAppend(Advance(p, items[0], ctx), items[1..], more, ctx);
    }
  }

  /** The loop over one page of the log. */
  method IntegratePage(p: Progress, page: seq<Item>, ctx: Context) returns (p': Progress)
    ensures p' == AdvanceAll(p, page, ctx)
  {
    hide IntegrateOne;
    p' := p;
    for j := 0 to |page|
      invariant AdvanceAll(p', page[j..], ctx) == AdvanceAll(p, page, ctx)
    {
      assert page[j..][0] == page[j] && page[j..][1..] == page[j + 1..];
      if page[j].change.None? && page[j].state.None? {
        continue;
      }
      var r := IntegrateOne(p'.group, page[j], ctx);
      if r.Some? {
        p' := Progress(r.value.group, p'.messages + [r.value.messages]);
      }
    }
    assert page[|page|..] == [];
  }

  /** The loop over the pages. */
  method IntegrateGroupChanges(g: Group, pages: seq<seq<Item>>, ctx: Context) returns (r: Option<Integrated>)
    ensures r == Integrate(g, pages, ctx)
  {
    hide Advance;
    var p := Progress(g, []);
    for i := 0 to |pages|
      invariant AdvanceAll(p, Concat(pages[i..]), ctx) == AdvanceAll(Progress(g, []), Concat(pages), ctx)
    {
      assert pages[i..][0] == pages[i] && pages[i..][1..] == pages[i + 1..];
      AdvanceAppend(p, pages[i], Concat(pages[i + 1..]), ctx);
      p := IntegratePage(p, pages[i], ctx);
    }
    assert Concat(pages[|pages|..]) == [];
    r := Finish(g, p, ctx.us);
  }
}
