/** Applying the decrypted actions of one group change to a group. */
module GroupApply {
  import opened Options
  import opened ServiceIds
  import opened Dicts

  const ROLE_DEFAULT := 1
  const ACCESS_MEMBER := 2
  const ACCESS_UNSATISFIABLE := 4

  datatype Member = Member(role: nat, joinedAtVersion: nat, joinedFromLink: bool, approvedByAdmin: bool)

  datatype PendingMember = PendingMember(addedBy: Option<Aci>, timestamp: nat, role: nat)

  datatype AccessControl = AccessControl(attributes: nat, members: nat, addFromInviteLink: nat)

  /** The group attributes that changes touch. Requests wait with a timestamp, and so do bans. The
      avatar stands for the hash of its content. */
  datatype Group = Group(
    revision: Option<nat>, hasSecretParams: bool,
    members: Dict<Aci, Member>, pending: Dict<ServiceId, PendingMember>,
    approvals: Dict<Aci, nat>, banned: Dict<ServiceId, nat>,
    left: bool, addedBy: Option<ServiceId>,
    name: Option<string>, avatar: Option<string>, description: Option<string>, expireTimer: Option<nat>,
    accessControl: Option<AccessControl>, password: Option<string>, announcementsOnly: bool)

  datatype AddMemberAction = AddMemberAction(aci: Aci, role: nat, joinFromInviteLink: bool, profileKey: Option<string>)
  datatype RoleAction = RoleAction(aci: Aci, role: nat)
  datatype KeyAction = KeyAction(aci: Aci, profileKey: string)
  datatype AddPendingAction = AddPendingAction(serviceId: ServiceId, addedBy: Option<Aci>, timestamp: nat, role: nat)
  datatype PniAction = PniAction(aci: Aci, pni: Pni, profileKey: string)
  datatype ApprovalAction = ApprovalAction(aci: Aci, timestamp: nat, profileKey: Option<string>)
  datatype BanAction = BanAction(serviceId: ServiceId, timestamp: nat)

  /** Decrypted actions. An action on an attribute holds the new value, if it has one; the new
      avatar hash is the outcome of the download. */
  datatype Actions = Actions(
    version: Option<nat>,
    addMembers: seq<AddMemberAction>, deleteMembers: seq<Aci>, modifyRoles: seq<RoleAction>,
    modifyProfileKeys: seq<KeyAction>, addPending: seq<AddPendingAction>, deletePending: seq<ServiceId>,
    promotePending: seq<KeyAction>, promotePni: seq<PniAction>,
    addApprovals: seq<ApprovalAction>, deleteApprovals: seq<Aci>, promoteApprovals: seq<RoleAction>,
    addBanned: seq<BanAction>, deleteBanned: seq<ServiceId>,
    modifyTitle: Option<Option<string>>, modifyAvatar: Option<Option<string>>,
    modifyDescription: Option<Option<string>>, modifyTimer: Option<Option<nat>>,
    modifyAttributesAccess: Option<nat>, modifyMemberAccess: Option<nat>, modifyLinkAccess: Option<nat>,
    modifyPassword: Option<Option<string>>, modifyAnnouncementsOnly: Option<bool>)

  /** The local tables while a change is applied, with what is fixed during it: our ACI, the author
      of the change, its version, and the ACIs whose profile key is known. */
  datatype Work = Work(
    us: Aci, source: ServiceId, version: nat, known: set<Aci>,
    members: Dict<Aci, Member>, pending: Dict<ServiceId, PendingMember>,
    approvals: Dict<Aci, nat>, banned: Dict<ServiceId, nat>,
    addedBy: Option<ServiceId>, newProfileKeys: seq<KeyAction>, promoted: Dict<Aci, Pni>)

  datatype Outcome = Done(work: Work) | Threw

  function OrDefault(role: nat): nat {
    if role == 0 then ROLE_DEFAULT else role
  }

  function NewKey(w: Work, aci: Aci, key: Option<string>): Work {
    if key.Some? then w.(newProfileKeys := w.newProfileKeys + [KeyAction(aci, key.value)]) else w
  }

  // ----- one action of each kind -----

  function AddMember(w: Work, a: AddMemberAction): Outcome {
    if Has(w.members, a.aci) then Done(w) else
    Done(NewKey(w.(members := Put(w.members, a.aci, Member(OrDefault(a.role), w.version, a.joinFromInviteLink, false)),
                   pending := Remove(w.pending, OfAci(a.aci)),
                   addedBy := if a.aci == w.us then Some(w.source) else w.addedBy),
                a.aci, a.profileKey))
  }

  function DeleteMember(w: Work, aci: Aci): Outcome {
    Done(w.(members := Remove(w.members, aci)))
  }

  /** A role of 0 counts as missing. */
  function ModifyRole(w: Work, a: RoleAction): Outcome {
    if a.role == 0 then Threw else
    match Get(w.members, a.aci)
    case None => Threw
    case Some(m) => Done(w.(members := Put(w.members, a.aci, m.(role := a.role))))
  }

  function ModifyProfileKey(w: Work, a: KeyAction): Outcome {
    if OfAci(a.aci) == w.source || a.aci !in w.known then Done(NewKey(w, a.aci, Some(a.profileKey))) else Done(w)
  }

  function AddPending(w: Work, a: AddPendingAction): Outcome {
    if (a.serviceId.OfAci? && Has(w.members, a.serviceId.aci)) || Has(w.pending, a.serviceId) then Done(w) else
    Done(w.(pending := Put(w.pending, a.serviceId, PendingMember(a.addedBy, a.timestamp, OrDefault(a.role)))))
  }

  function DeletePending(w: Work, id: ServiceId): Outcome {
    Done(w.(pending := Remove(w.pending, id)))
  }

  /** Moves an invitation to the members; without one, and for a new member, the source reads the
      role of a record that is not there. */
  function Promote(w: Work, id: ServiceId, aci: Aci, profileKey: string): Outcome {
    var w' := w.(pending := Remove(w.pending, id));
    if Has(w.members, aci) then Done(w') else
    match Get(w.pending, id)
    case None => Threw
    case Some(p) =>
      Done(NewKey(w'.(members := Put(w.members, aci, Member(OrDefault(p.role), w.version, false, false))),
                  aci, Some(profileKey)))
  }

  function PromotePending(w: Work, a: KeyAction): Outcome {
    Promote(w, OfAci(a.aci), a.aci, a.profileKey)
  }

  function PromotePni(w: Work, a: PniAction): Outcome {
    Promote(w.(promoted := Put(w.promoted, a.aci, a.pni)), OfPni(a.pni), a.aci, a.profileKey)
  }

  function AddApproval(w: Work, a: ApprovalAction): Outcome {
    if Has(w.members, a.aci) || Has(w.pending, OfAci(a.aci)) || Has(w.approvals, a.aci) then Done(w) else
    Done(NewKey(w.(approvals := Put(w.approvals, a.aci, a.timestamp)), a.aci, a.profileKey))
  }

  function DeleteApproval(w: Work, aci: Aci): Outcome {
    Done(w.(approvals := Remove(w.approvals, aci)))
  }

  /** Moves a request to the members; an invitation of the same ACI stays where it is. */
  function PromoteApproval(w: Work, a: RoleAction): Outcome {
    var w' := w.(approvals := Remove(w.approvals, a.aci));
    if Has(w.members, a.aci) then Done(w')
    else Done(w'.(members := Put(w.members, a.aci, Member(OrDefault(a.role), w.version, false, true))))
  }

  function AddBanned(w: Work, a: BanAction): Outcome {
    if Has(w.banned, a.serviceId) then Done(w) else Done(w.(banned := Put(w.banned, a.serviceId, a.timestamp)))
  }

  function DeleteBanned(w: Work, id: ServiceId): Outcome {
    Done(w.(banned := Remove(w.banned, id)))
  }

  // ----- all actions of a kind, in order -----

  function Fold<A>(o: Outcome, xs: seq<A>, step: (Work, A) -> Outcome): Outcome
    decreases |xs|
  {
    if o.Threw? || xs == [] then o else Fold(step(o.work, xs[0]), xs[1..], step)
  }

  /** The loop over the actions of one kind; it stops at the first one that throws. */
  method ForEach<A>(o: Outcome, xs: seq<A>, step: (Work, A) -> Outcome) returns (r: Outcome)
    ensures r == Fold(o, xs, step)
  {
    r := o;
    for i := 0 to |xs|
      invariant Fold(r, xs[i..], step) == Fold(o, xs, step)
    {
      assert xs[i..][1..] == xs[i + 1..];
      if r.Threw? {
        return;
      }
      r := step(r.work, xs[i]);
    }
    assert xs[|xs|..] == [];
  }

  function StartWork(g: Group, a: Actions, source: ServiceId, us: Aci, known: set<Aci>): Work {
    Work(us, source, if a.version.Some? then a.version.value else 0, known,
         FromPairs(g.members), FromPairs(g.pending), FromPairs(g.approvals), FromPairs(g.banned),
         g.addedBy, [], [])
  }

  /** The kinds before the first that may put an invited ACI among the members. */
  function EarlyWork(w: Work, a: Actions): Outcome {
    var o1 := Fold(Done(w), a.addMembers, AddMember);
    var o2 := Fold(o1, a.deleteMembers, DeleteMember);
    var o3 := Fold(o2, a.modifyRoles, ModifyRole);
    var o4 := Fold(o3, a.modifyProfileKeys, ModifyProfileKey);
    var o5 := Fold(o4, a.addPending, AddPending);
    var o6 := Fold(o5, a.deletePending, DeletePending);
    Fold(o6, a.promotePending, PromotePending)
  }

  function LateWork(o: Outcome, a: Actions): Outcome {
    var o8 := Fold(o, a.promotePni, PromotePni);
    var o9 := Fold(o8, a.addApprovals, AddApproval);
    var o10 := Fold(o9, a.deleteApprovals, DeleteApproval);
    var o11 := Fold(o10, a.promoteApprovals, PromoteApproval);
    var o12 := Fold(o11, a.addBanned, AddBanned);
    Fold(o12, a.deleteBanned, DeleteBanned)
  }

  /** A falsy access value stands for the default. */
  function Access(o: Option<nat>, prior: nat, default: nat): nat {
    if o.None? then prior else if o.value == 0 then default else o.value
  }

  function NewAccess(g: Group, a: Actions): AccessControl {
    var prior := OrElse(g.accessControl, AccessControl(ACCESS_MEMBER, ACCESS_MEMBER, ACCESS_UNSATISFIABLE));
    AccessControl(Access(a.modifyAttributesAccess, prior.attributes, ACCESS_MEMBER),
                  Access(a.modifyMemberAccess, prior.members, ACCESS_MEMBER),
                  Access(a.modifyLinkAccess, prior.addFromInviteLink, ACCESS_UNSATISFIABLE))
  }

  function Assemble(g: Group, a: Actions, w: Work): Group {
    var left := !Has(w.members, w.us);
    g.(revision := Some(w.version),
       members := w.members, pending := w.pending, approvals := w.approvals, banned := w.banned,
       left := left, addedBy := if left then None else w.addedBy,
       name := OrElse(a.modifyTitle, g.name), avatar := OrElse(a.modifyAvatar, g.avatar),
       description := OrElse(a.modifyDescription, g.description), expireTimer := OrElse(a.modifyTimer, g.expireTimer),
       accessControl := Some(NewAccess(g, a)),
       password := OrElse(a.modifyPassword, g.password),
       announcementsOnly := OrElse(a.modifyAnnouncementsOnly, g.announcementsOnly))
  }

  datatype Applied = Applied(group: Group, newProfileKeys: seq<KeyAction>, promoted: Dict<Aci, Pni>)

  function ApplyChange(g: Group, a: Actions, source: ServiceId, us: Aci, known: set<Aci>): Option<Applied> {
    match LateWork(EarlyWork(StartWork(g, a, source, us, known), a), a)
    case Threw => None
    case Done(w) => Some(Applied(Assemble(g, a, w), w.newProfileKeys, w.promoted))
  }

  /** The source's order of loops; an error leaves the caller's group untouched. */
  method ApplyGroupChange(g: Group, a: Actions, source: ServiceId, us: Aci, known: set<Aci>)
    returns (r: Option<Applied>)
    ensures r == ApplyChange(g, a, source, us, known)
  {
    var o := Done(StartWork(g, a, source, us, known));
    o := ForEach(o, a.addMembers, AddMember);
    o := ForEach(o, a.deleteMembers, DeleteMember);
    o := ForEach(o, a.modifyRoles, ModifyRole);
    o := ForEach(o, a.modifyProfileKeys, ModifyProfileKey);
    o := ForEach(o, a.addPending, AddPending);
    o := ForEach(o, a.deletePending, DeletePending);
    o := ForEach(o, a.promotePending, PromotePending);
    o := ForEach(o, a.promotePni, PromotePni);
    o := ForEach(o, a.addApprovals, AddApproval);
    o := ForEach(o, a.deleteApprovals, DeleteApproval);
    o := ForEach(o, a.promoteApprovals, PromoteApproval);
    o := ForEach(o, a.addBanned, AddBanned);
    o := ForEach(o, a.deleteBanned, DeleteBanned);
    if o.Threw? {
      return None;
    }
    r := Some(Applied(Assemble(g, a, o.work), o.work.newProfileKeys, o.work.promoted));
  }

  // ----- unique lists, and who has left -----

  predicate UniqueLists(g: Group) {
    Unique(g.members) && Unique(g.pending) && Unique(g.approvals) && Unique(g.banned)
  }

  predicate Tidy(w: Work) {
    Unique(w.members) && Unique(w.pending) && Unique(w.approvals) && Unique(w.banned)
  }

  /** A step keeps what is fixed and keeps ids unique. */
  predicate KeepsTidy(w: Work, o: Outcome) {
    o.Done? ==> Tidy(o.work) && o.work.us == w.us && o.work.source == w.source && o.work.version == w.version
  }

  ghost predicate TidyStep<A(!new)>(step: (Work, A) -> Outcome) {
    forall w, x :: Tidy(w) ==> KeepsTidy(w, step(w, x))
  }

  lemma MemberStepsTidy()
    ensures TidyStep(AddMember) && TidyStep(DeleteMember) && TidyStep(ModifyRole) && TidyStep(ModifyProfileKey)
  {
    forall w, x | Tidy(w) ensures KeepsTidy(w, AddMember(w, x)) {
      PutUnique(w.members, x.aci, Member(OrDefault(x.role), w.version, x.joinFromInviteLink, false));
      RemoveUnique(w.pending, OfAci(x.aci));
    }
    forall w, x | Tidy(w) ensures KeepsTidy(w, DeleteMember(w, x)) {
      RemoveUnique(w.members, x);
    }
    forall w, x | Tidy(w) ensures KeepsTidy(w, ModifyRole(w, x)) {
      if Get(w.members, x.aci).Some? {
        PutUnique(w.members, x.aci, Get(w.members, x.aci).value.(role := x.role));
      }
    }
  }

  lemma PromoteTidy(w: Work, id: ServiceId, aci: Aci, profileKey: string)
    requires Tidy(w)
    ensures KeepsTidy(w, Promote(w, id, aci, profileKey))
  {
    RemoveUnique(w.pending, id);
    if Get(w.pending, id).Some? {
      PutUnique(w.members, aci, Member(OrDefault(Get(w.pending, id).value.role), w.version, false, false));
    }
  }

  lemma PendingStepsTidy()
    ensures TidyStep(AddPending) && TidyStep(DeletePending) && TidyStep(PromotePending) && TidyStep(PromotePni)
  {
    forall w, x | Tidy(w) ensures KeepsTidy(w, AddPending(w, x)) {
      PutUnique(w.pending, x.serviceId, PendingMember(x.addedBy, x.timestamp, OrDefault(x.role)));
    }
    forall w, x | Tidy(w) ensures KeepsTidy(w, DeletePending(w, x)) {
      RemoveUnique(w.pending, x);
    }
    forall w, x | Tidy(w) ensures KeepsTidy(w, PromotePending(w, x)) {
      PromoteTidy(w, OfAci(x.aci), x.aci, x.profileKey);
    }
    forall w, x | Tidy(w) ensures KeepsTidy(w, PromotePni(w, x)) {
      PromoteTidy(w.(promoted := Put(w.promoted, x.aci, x.pni)), OfPni(x.pni), x.aci, x.profileKey);
    }
  }

  lemma ApprovalStepsTidy()
    ensures TidyStep(AddApproval) && TidyStep(DeleteApproval) && TidyStep(PromoteApproval)
  {
    forall w, x | Tidy(w) ensures KeepsTidy(w, AddApproval(w, x)) {
      PutUnique(w.approvals, x.aci, x.timestamp);
    }
    forall w, x | Tidy(w) ensures KeepsTidy(w, DeleteApproval(w, x)) {
      RemoveUnique(w.approvals, x);
    }
    forall w, x | Tidy(w) ensures KeepsTidy(w, PromoteApproval(w, x)) {
      RemoveUnique(w.approvals, x.aci);
      PutUnique(w.members, x.aci, Member(OrDefault(x.role), w.version, false, true));
    }
  }

  lemma BanStepsTidy()
    ensures TidyStep(AddBanned) && TidyStep(DeleteBanned)
  {
    forall w, x | Tidy(w) ensures KeepsTidy(w, AddBanned(w, x)) {
      PutUnique(w.banned, x.serviceId, x.timestamp);
    }
    forall w, x | Tidy(w) ensures KeepsTidy(w, DeleteBanned(w, x)) {
      RemoveUnique(w.banned, x);
    }
  }

  lemma {:induction false} FoldTidy<A(!new)>(w: Work, o: Outcome, xs: seq<A>, step: (Work, A) -> Outcome)
    requires KeepsTidy(w, o) && TidyStep(step)
    ensures KeepsTidy(w, Fold(o, xs, step))
    decreases |xs|
  {
    if o.Done? && xs != [] {
      FoldTidy(w, step(o.work, xs[0]), xs[1..], step);
    }
  }

  lemma EarlyTidy(w: Work, a: Actions)
    requires Tidy(w)
    ensures KeepsTidy(w, EarlyWork(w, a))
  {
    MemberStepsTidy();
    PendingStepsTidy();
    assert KeepsTidy(w, Done(w));
    hide KeepsTidy, TidyStep, Fold;
    var o1 := Fold(Done(w), a.addMembers, AddMember);
    FoldTidy(w, Done(w), a.addMembers, AddMember);
    var o2 := Fold(o1, a.deleteMembers, DeleteMember);
    FoldTidy(w, o1, a.deleteMembers, DeleteMember);
    var o3 := Fold(o2, a.modifyRoles, ModifyRole);
    FoldTidy(w, o2, a.modifyRoles, ModifyRole);
    var o4 := Fold(o3, a.modifyProfileKeys, ModifyProfileKey);
    FoldTidy(w, o3, a.modifyProfileKeys, ModifyProfileKey);
    var o5 := Fold(o4, a.addPending, AddPending);
    FoldTidy(w, o4, a.addPending, AddPending);
    var o6 := Fold(o5, a.deletePending, DeletePending);
    FoldTidy(w, o5, a.deletePending, DeletePending);
    FoldTidy(w, o6, a.promotePending, PromotePending);
  }

  lemma LateTidy(w: Work, o: Outcome, a: Actions)
    requires KeepsTidy(w, o)
    ensures KeepsTidy(w, LateWork(o, a))
  {
    PendingStepsTidy();
    ApprovalStepsTidy();
    BanStepsTidy();
    hide KeepsTidy, TidyStep, Fold;
    var o8 := Fold(o, a.promotePni, PromotePni);
    FoldTidy(w, o, a.promotePni, PromotePni);
    var o9 := Fold(o8, a.addApprovals, AddApproval);
    FoldTidy(w, o8, a.addApprovals, AddApproval);
    var o10 := Fold(o9, a.deleteApprovals, DeleteApproval);
    FoldTidy(w, o9, a.deleteApprovals, DeleteApproval);
    var o11 := Fold(o10, a.promoteApprovals, PromoteApproval);
    FoldTidy(w, o10, a.promoteApprovals, PromoteApproval);
    var o12 := Fold(o11, a.addBanned, AddBanned);
    FoldTidy(w, o11, a.addBanned, AddBanned);
    FoldTidy(w, o12, a.deleteBanned, DeleteBanned);
  }

  /** After any change that applies, from any group: ids are unique in each list, we have left
      exactly when we are not a member, and whoever has left was added by nobody. */
  lemma AppliedIsTidy(g: Group, a: Actions, source: ServiceId, us: Aci, known: set<Aci>)
    requires ApplyChange(g, a, source, us, known).Some?
    ensures var g' := ApplyChange(g, a, source, us, known).value.group;
            && UniqueLists(g')
            && (g'.left <==> us !in Keys(g'.members))
            && (g'.left ==> g'.addedBy == None)
            && g'.revision == Some(OrElse(a.version, 0))
            && g'.hasSecretParams == g.hasSecretParams
  {
    var w := StartWork(g, a, source, us, known);
    FromPairsSpec(g.members);
    FromPairsSpec(g.pending);
    FromPairsSpec(g.approvals);
    FromPairsSpec(g.banned);
    EarlyTidy(w, a);
    LateTidy(w, EarlyWork(w, a), a);
  }
}
