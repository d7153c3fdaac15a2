/** What a group change does to each list as a whole, without following its steps. */
module GroupEffects {
  import opened Options
  import opened ServiceIds
  import opened Dicts
  import opened GroupApply

  // ----- folds that keep, add to, or take from a set of ids -----

  function Image<A, K(==)>(xs: seq<A>, key: A -> K): set<K> {
    if xs == [] then {} else {key(xs[0])} + Image(xs[1..], key)
  }

  ghost predicate Keeps<A(!new), T(!new)>(step: (Work, A) -> Outcome, part: Work -> T) {
    forall w: Work, x: A :: step(w, x).Done? ==> part(step(w, x).work) == part(w)
  }

  ghost predicate Adds<A(!new), K(!new)>(step: (Work, A) -> Outcome, ids: Work -> set<K>, key: A -> K) {
    forall w: Work, x: A :: step(w, x).Done? ==> ids(step(w, x).work) == ids(w) + {key(x)}
  }

  ghost predicate Takes<A(!new), K(!new)>(step: (Work, A) -> Outcome, ids: Work -> set<K>, key: A -> K) {
    forall w: Work, x: A :: step(w, x).Done? ==> ids(step(w, x).work) == ids(w) - {key(x)}
  }

  lemma {:induction false} FoldKeeps<A(!new), T(!new)>(
      o: Outcome, xs: seq<A>, step: (Work, A) -> Outcome, part: Work -> T)
    requires Keeps(step, part) && Fold(o, xs, step).Done?
    ensures o.Done? && part(Fold(o, xs, step).work) == part(o.work)
    decreases |xs|
  {
    if o.Done? && xs != [] {
      FoldKeeps(step(o.work, xs[0]), xs[1..], step, part);
    }
  }

  lemma {:induction false} FoldAdds<A(!new), K(!new)>(
      o: Outcome, xs: seq<A>, step: (Work, A) -> Outcome, ids: Work -> set<K>, key: A -> K)
    requires Adds(step, ids, key) && Fold(o, xs, step).Done?
    ensures o.Done? && ids(Fold(o, xs, step).work) == ids(o.work) + Image(xs, key)
    decreases |xs|
  {
    if o.Done? && xs != [] {
      FoldAdds(step(o.work, xs[0]), xs[1..], step, ids, key);
    }
  }

  lemma {:induction false} FoldTakes<A(!new), K(!new)>(
      o: Outcome, xs: seq<A>, step: (Work, A) -> Outcome, ids: Work -> set<K>, key: A -> K)
    requires Takes(step, ids, key) && Fold(o, xs, step).Done?
    ensures o.Done? && ids(Fold(o, xs, step).work) == ids(o.work) - Image(xs, key)
    decreases |xs|
  {
    if o.Done? && xs != [] {
      FoldTakes(step(o.work, xs[0]), xs[1..], step, ids, key);
    }
  }

  // ----- the ids in each list, and the ids that actions name -----

  function MemberIds(w: Work): set<Aci> { Keys(w.members) }
  function PendingIds(w: Work): set<ServiceId> { Keys(w.pending) }
  function ApprovalIds(w: Work): set<Aci> { Keys(w.approvals) }
  function BannedOf(w: Work): Dict<ServiceId, nat> { w.banned }

  function AddedAci(x: AddMemberAction): Aci { x.aci }
  function SameAci(x: Aci): Aci { x }
  function RoleAci(x: RoleAction): Aci { x.aci }
  function KeyAci(x: KeyAction): Aci { x.aci }
  function KeyInvite(x: KeyAction): ServiceId { OfAci(x.aci) }
  function PniAci(x: PniAction): Aci { x.aci }
  function PniInvite(x: PniAction): ServiceId { OfPni(x.pni) }
  function InviteId(x: AddPendingAction): ServiceId { x.serviceId }
  function SameId(x: ServiceId): ServiceId { x }
  function RequestAci(x: ApprovalAction): Aci { x.aci }

  // ----- members -----

  /** Additions before removals, and every kind of promotion after them. */
  function MembersAfter(members: set<Aci>, a: Actions): set<Aci> {
    members + Image(a.addMembers, AddedAci) - Image(a.deleteMembers, SameAci)
    + Image(a.promotePending, KeyAci) + Image(a.promotePni, PniAci) + Image(a.promoteApprovals, RoleAci)
  }

  lemma MemberSteps()
    ensures Adds(AddMember, MemberIds, AddedAci) && Takes(DeleteMember, MemberIds, SameAci)
    ensures Keeps(ModifyRole, MemberIds) && Keeps(ModifyProfileKey, MemberIds)
    ensures Keeps(AddPending, MemberIds) && Keeps(DeletePending, MemberIds)
    ensures Adds(PromotePending, MemberIds, KeyAci) && Adds(PromotePni, MemberIds, PniAci)
    ensures Keeps(AddApproval, MemberIds) && Keeps(DeleteApproval, MemberIds)
    ensures Adds(PromoteApproval, MemberIds, RoleAci)
    ensures Keeps(AddBanned, MemberIds) && Keeps(DeleteBanned, MemberIds)
  {
    hide Keys, Put, Remove, Get, Has;
    forall w: Work, x: RoleAction | ModifyRole(w, x).Done?
      ensures MemberIds(ModifyRole(w, x).work) == MemberIds(w)
    {
      assert x.aci in Keys(w.members);
      assert Keys(w.members) + {x.aci} == Keys(w.members);
    }
  }

  lemma EarlyMembers(w: Work, a: Actions)
    requires EarlyWork(w, a).Done?
    ensures MemberIds(EarlyWork(w, a).work) ==
              MemberIds(w) + Image(a.addMembers, AddedAci) - Image(a.deleteMembers, SameAci)
              + Image(a.promotePending, KeyAci)
  {
    MemberSteps();
    hide Adds, Takes, Keeps, Fold, Image, MemberIds;
    var o1 := Fold(Done(w), a.addMembers, AddMember);
    var o2 := Fold(o1, a.deleteMembers, DeleteMember);
    var o3 := Fold(o2, a.modifyRoles, ModifyRole);
    var o4 := Fold(o3, a.modifyProfileKeys, ModifyProfileKey);
    var o5 := Fold(o4, a.addPending, AddPending);
    var o6 := Fold(o5, a.deletePending, DeletePending);
    FoldAdds(o6, a.promotePending, PromotePending, MemberIds, KeyAci);
    FoldKeeps(o5, a.deletePending, DeletePending, MemberIds);
    FoldKeeps(o4, a.addPending, AddPending, MemberIds);
    FoldKeeps(o3, a.modifyProfileKeys, ModifyProfileKey, MemberIds);
    FoldKeeps(o2, a.modifyRoles, ModifyRole, MemberIds);
    FoldTakes(o1, a.deleteMembers, DeleteMember, MemberIds, SameAci);
    FoldAdds(Done(w), a.addMembers, AddMember, MemberIds, AddedAci);
  }

  lemma LateMembers(o: Outcome, a: Actions)
    requires LateWork(o, a).Done?
    ensures o.Done?
    ensures MemberIds(LateWork(o, a).work) ==
              MemberIds(o.work) + Image(a.promotePni, PniAci) + Image(a.promoteApprovals, RoleAci)
  {
    MemberSteps();
    hide Adds, Takes, Keeps, Fold, Image, MemberIds;
    var o8 := Fold(o, a.promotePni, PromotePni);
    var o9 := Fold(o8, a.addApprovals, AddApproval);
    var o10 := Fold(o9, a.deleteApprovals, DeleteApproval);
    var o11 := Fold(o10, a.promoteApprovals, PromoteApproval);
    var o12 := Fold(o11, a.addBanned, AddBanned);
    FoldKeeps(o12, a.deleteBanned, DeleteBanned, MemberIds);
    FoldKeeps(o11, a.addBanned, AddBanned, MemberIds);
    FoldAdds(o10, a.promoteApprovals, PromoteApproval, MemberIds, RoleAci);
    FoldKeeps(o9, a.deleteApprovals, DeleteApproval, MemberIds);
    FoldKeeps(o8, a.addApprovals, AddApproval, MemberIds);
    FoldAdds(o, a.promotePni, PromotePni, MemberIds, PniAci);
  }

  lemma MembersEffect(g: Group, a: Actions, source: ServiceId, us: Aci, known: set<Aci>)
    requires ApplyChange(g, a, source, us, known).Some?
    ensures Keys(ApplyChange(g, a, source, us, known).value.group.members) == MembersAfter(Keys(g.members), a)
  {
    hide EarlyWork, LateWork, Image, FromPairs;
    var w := StartWork(g, a, source, us, known);
    FromPairsSpec(g.members);
    LateMembers(EarlyWork(w, a), a);
    EarlyMembers(w, a);
    hide Keys;
  }

  // ----- the banned list -----

  lemma BannedSteps()
    ensures Keeps(AddMember, BannedOf) && Keeps(DeleteMember, BannedOf) && Keeps(ModifyRole, BannedOf)
    ensures Keeps(ModifyProfileKey, BannedOf) && Keeps(AddPending, BannedOf) && Keeps(DeletePending, BannedOf)
    ensures Keeps(PromotePending, BannedOf) && Keeps(PromotePni, BannedOf) && Keeps(AddApproval, BannedOf)
    ensures Keeps(DeleteApproval, BannedOf) && Keeps(PromoteApproval, BannedOf)
  {
    hide Keys, Put, Remove, Get, Has;
  }

  lemma EarlyBanned(w: Work, a: Actions)
    requires EarlyWork(w, a).Done?
    ensures EarlyWork(w, a).work.banned == w.banned
  {
    BannedSteps();
    hide Keeps, Fold;
    var o1 := Fold(Done(w), a.addMembers, AddMember);
    var o2 := Fold(o1, a.deleteMembers, DeleteMember);
    var o3 := Fold(o2, a.modifyRoles, ModifyRole);
    var o4 := Fold(o3, a.modifyProfileKeys, ModifyProfileKey);
    var o5 := Fold(o4, a.addPending, AddPending);
    var o6 := Fold(o5, a.deletePending, DeletePending);
    FoldKeeps(o6, a.promotePending, PromotePending, BannedOf);
    FoldKeeps(o5, a.deletePending, DeletePending, BannedOf);
    FoldKeeps(o4, a.addPending, AddPending, BannedOf);
    FoldKeeps(o3, a.modifyProfileKeys, ModifyProfileKey, BannedOf);
    FoldKeeps(o2, a.modifyRoles, ModifyRole, BannedOf);
    FoldKeeps(o1, a.deleteMembers, DeleteMember, BannedOf);
    FoldKeeps(Done(w), a.addMembers, AddMember, BannedOf);
  }

  /** The banned list after each new ban is added in turn; a ban that is there already stays. */
  function AfterBans(banned: Dict<ServiceId, nat>, adds: seq<BanAction>): Dict<ServiceId, nat>
    decreases |adds|
  {
    if adds == [] then banned
    else AfterBans(if Has(banned, adds[0].serviceId) then banned
                   else Put(banned, adds[0].serviceId, adds[0].timestamp), adds[1..])
  }

  function AfterLifts(banned: Dict<ServiceId, nat>, ids: seq<ServiceId>): Dict<ServiceId, nat>
    decreases |ids|
  {
    if ids == [] then banned else AfterLifts(Remove(banned, ids[0]), ids[1..])
  }

  lemma {:induction false} FoldBans(o: Outcome, xs: seq<BanAction>)
    requires Fold(o, xs, AddBanned).Done?
    ensures o.Done? && Fold(o, xs, AddBanned).work.banned == AfterBans(o.work.banned, xs)
    decreases |xs|
  {
    if o.Done? && xs != [] {
      FoldBans(AddBanned(o.work, xs[0]), xs[1..]);
      hide Has, Put;
    }
  }

  lemma {:induction false} FoldLifts(o: Outcome, ids: seq<ServiceId>)
    requires Fold(o, ids, DeleteBanned).Done?
    ensures o.Done? && Fold(o, ids, DeleteBanned).work.banned == AfterLifts(o.work.banned, ids)
    decreases |ids|
  {
    if o.Done? && ids != [] {
      FoldLifts(DeleteBanned(o.work, ids[0]), ids[1..]);
      hide Remove;
    }
  }

  lemma LateBanned(o: Outcome, a: Actions)
    requires LateWork(o, a).Done?
    ensures o.Done? && LateWork(o, a).work.banned == AfterLifts(AfterBans(o.work.banned, a.addBanned), a.deleteBanned)
  {
    BannedSteps();
    hide Keeps, Fold, AfterBans, AfterLifts;
    var o8 := Fold(o, a.promotePni, PromotePni);
    var o9 := Fold(o8, a.addApprovals, AddApproval);
    var o10 := Fold(o9, a.deleteApprovals, DeleteApproval);
    var o11 := Fold(o10, a.promoteApprovals, PromoteApproval);
    var o12 := Fold(o11, a.addBanned, AddBanned);
    FoldLifts(o12, a.deleteBanned);
    FoldBans(o11, a.addBanned);
    FoldKeeps(o10, a.promoteApprovals, PromoteApproval, BannedOf);
    FoldKeeps(o9, a.deleteApprovals, DeleteApproval, BannedOf);
    FoldKeeps(o8, a.addApprovals, AddApproval, BannedOf);
    FoldKeeps(o, a.promotePni, PromotePni, BannedOf);
  }

  /** Only bans and liftings of bans touch the banned list, liftings last. */
  lemma BannedEffect(g: Group, a: Actions, source: ServiceId, us: Aci, known: set<Aci>)
    requires ApplyChange(g, a, source, us, known).Some?
    ensures ApplyChange(g, a, source, us, known).value.group.banned ==
              AfterLifts(AfterBans(FromPairs(g.banned), a.addBanned), a.deleteBanned)
  {
    hide EarlyWork, LateWork, FromPairs, AfterLifts, AfterBans;
    var w := StartWork(g, a, source, us, known);
    LateBanned(EarlyWork(w, a), a);
    EarlyBanned(w, a);
  }

  // ----- invitations -----

  /** Who is newly added directly loses an invitation of that ACI; invitations of members are
      ignored; withdrawals and promotions come last. */
  ghost function PendingAfter(members: set<Aci>, pending: set<ServiceId>, a: Actions): set<ServiceId> {
    var joined := Image(a.addMembers, AddedAci) - members;
    var present := members + Image(a.addMembers, AddedAci) - Image(a.deleteMembers, SameAci);
    Uninvited(pending, joined) + Invitable(Image(a.addPending, InviteId), present)
    - Image(a.deletePending, SameId) - Image(a.promotePending, KeyInvite) - Image(a.promotePni, PniInvite)
  }

  function Uninvited(pending: set<ServiceId>, joined: set<Aci>): set<ServiceId> {
    set id | id in pending && !(id.OfAci? && id.aci in joined)
  }

  function Invitable(ids: set<ServiceId>, present: set<Aci>): set<ServiceId> {
    set id | id in ids && !(id.OfAci? && id.aci in present)
  }

  lemma {:induction false} FoldAddMembers(o: Outcome, xs: seq<AddMemberAction>)
    requires Fold(o, xs, AddMember).Done?
    ensures o.Done?
    ensures PendingIds(Fold(o, xs, AddMember).work)
              == Uninvited(PendingIds(o.work), Image(xs, AddedAci) - MemberIds(o.work))
    decreases |xs|
  {
    if o.Done? && xs != [] {
      var o' := AddMember(o.work, xs[0]);
      FoldAddMembers(o', xs[1..]);
      assert MemberIds(o'.work) == MemberIds(o.work) + {xs[0].aci} by { MemberSteps(); }
      hide Keys, Remove, Put, Has;
    }
  }

  lemma {:induction false} FoldAddPending(o: Outcome, xs: seq<AddPendingAction>)
    requires Fold(o, xs, AddPending).Done?
    ensures o.Done?
    ensures PendingIds(Fold(o, xs, AddPending).work)
              == PendingIds(o.work) + Invitable(Image(xs, InviteId), MemberIds(o.work))
    decreases |xs|
  {
    if o.Done? && xs != [] {
      FoldAddPending(AddPending(o.work, xs[0]), xs[1..]);
      hide Keys, Remove, Put, Get;
    }
  }

  lemma PendingSteps()
    ensures Keeps(DeleteMember, PendingIds) && Keeps(ModifyRole, PendingIds) && Keeps(ModifyProfileKey, PendingIds)
    ensures Takes(DeletePending, PendingIds, SameId)
    ensures Takes(PromotePending, PendingIds, KeyInvite) && Takes(PromotePni, PendingIds, PniInvite)
    ensures Keeps(AddApproval, PendingIds) && Keeps(DeleteApproval, PendingIds) && Keeps(PromoteApproval, PendingIds)
    ensures Keeps(AddBanned, PendingIds) && Keeps(DeleteBanned, PendingIds)
  {
    hide Keys, Put, Remove, Get, Has;
  }

  lemma EarlyPending(w: Work, a: Actions)
    requires EarlyWork(w, a).Done?
    ensures PendingIds(EarlyWork(w, a).work) - Image(a.promotePni, PniInvite)
              == PendingAfter(MemberIds(w), PendingIds(w), a)
  {
    MemberSteps();
    PendingSteps();
    hide Adds, Takes, Keeps, Fold, Image, MemberIds, PendingIds, Uninvited, Invitable;
    var o1 := Fold(Done(w), a.addMembers, AddMember);
    var o2 := Fold(o1, a.deleteMembers, DeleteMember);
    var o3 := Fold(o2, a.modifyRoles, ModifyRole);
    var o4 := Fold(o3, a.modifyProfileKeys, ModifyProfileKey);
    var o5 := Fold(o4, a.addPending, AddPending);
    var o6 := Fold(o5, a.deletePending, DeletePending);
    FoldTakes(o6, a.promotePending, PromotePending, PendingIds, KeyInvite);
    FoldTakes(o5, a.deletePending, DeletePending, PendingIds, SameId);
    FoldAddPending(o4, a.addPending);
    FoldKeeps(o3, a.modifyProfileKeys, ModifyProfileKey, PendingIds);
    FoldKeeps(o3, a.modifyProfileKeys, ModifyProfileKey, MemberIds);
    FoldKeeps(o2, a.modifyRoles, ModifyRole, PendingIds);
    FoldKeeps(o2, a.modifyRoles, ModifyRole, MemberIds);
    FoldKeeps(o1, a.deleteMembers, DeleteMember, PendingIds);
    FoldTakes(o1, a.deleteMembers, DeleteMember, MemberIds, SameAci);
    FoldAddMembers(Done(w), a.addMembers);
    FoldAdds(Done(w), a.addMembers, AddMember, MemberIds, AddedAci);
  }

  lemma LatePending(o: Outcome, a: Actions)
    requires LateWork(o, a).Done?
    ensures o.Done?
    ensures PendingIds(LateWork(o, a).work) == PendingIds(o.work) - Image(a.promotePni, PniInvite)
  {
    PendingSteps();
    hide Takes, Keeps, Fold, Image, PendingIds;
    var o8 := Fold(o, a.promotePni, PromotePni);
    var o9 := Fold(o8, a.addApprovals, AddApproval);
    var o10 := Fold(o9, a.deleteApprovals, DeleteApproval);
    var o11 := Fold(o10, a.promoteApprovals, PromoteApproval);
    var o12 := Fold(o11, a.addBanned, AddBanned);
    FoldKeeps(o12, a.deleteBanned, DeleteBanned, PendingIds);
    FoldKeeps(o11, a.addBanned, AddBanned, PendingIds);
    FoldKeeps(o10, a.promoteApprovals, PromoteApproval, PendingIds);
    FoldKeeps(o9, a.deleteApprovals, DeleteApproval, PendingIds);
    FoldKeeps(o8, a.addApprovals, AddApproval, PendingIds);
    FoldTakes(o, a.promotePni, PromotePni, PendingIds, PniInvite);
  }

  lemma PendingEffect(g: Group, a: Actions, source: ServiceId, us: Aci, known: set<Aci>)
    requires ApplyChange(g, a, source, us, known).Some?
    ensures Keys(ApplyChange(g, a, source, us, known).value.group.pending)
              == PendingAfter(Keys(g.members), Keys(g.pending), a)
  {
    hide EarlyWork, LateWork, PendingAfter, Image, FromPairs;
    var w := StartWork(g, a, source, us, known);
    FromPairsSpec(g.members);
    FromPairsSpec(g.pending);
    LatePending(EarlyWork(w, a), a);
    EarlyPending(w, a);
    hide Keys;
  }

  // ----- requests to join -----

  /** Requests of those who are by then members or invited are ignored; answers come last. */
  ghost function ApprovalsAfter(members: set<Aci>, pending: set<ServiceId>, approvals: set<Aci>, a: Actions): set<Aci> {
    var present := members + Image(a.addMembers, AddedAci) - Image(a.deleteMembers, SameAci)
                   + Image(a.promotePending, KeyAci) + Image(a.promotePni, PniAci);
    approvals + Outside(Image(a.addApprovals, RequestAci), present, PendingAfter(members, pending, a))
    - Image(a.deleteApprovals, SameAci) - Image(a.promoteApprovals, RoleAci)
  }

  function Outside(acis: set<Aci>, present: set<Aci>, invited: set<ServiceId>): set<Aci> {
    set aci | aci in acis && aci !in present && OfAci(aci) !in invited
  }

  lemma {:induction false} FoldAddApprovals(o: Outcome, xs: seq<ApprovalAction>)
    requires Fold(o, xs, AddApproval).Done?
    ensures o.Done?
    ensures ApprovalIds(Fold(o, xs, AddApproval).work)
              == ApprovalIds(o.work) + Outside(Image(xs, RequestAci), MemberIds(o.work), PendingIds(o.work))
    decreases |xs|
  {
    if o.Done? && xs != [] {
      FoldAddApprovals(AddApproval(o.work, xs[0]), xs[1..]);
      hide Keys, Remove, Put, Get;
    }
  }

  lemma ApprovalSteps()
    ensures Keeps(AddMember, ApprovalIds) && Keeps(DeleteMember, ApprovalIds) && Keeps(ModifyRole, ApprovalIds)
    ensures Keeps(ModifyProfileKey, ApprovalIds) && Keeps(AddPending, ApprovalIds) && Keeps(DeletePending, ApprovalIds)
    ensures Keeps(PromotePending, ApprovalIds) && Keeps(PromotePni, ApprovalIds)
    ensures Takes(DeleteApproval, ApprovalIds, SameAci) && Takes(PromoteApproval, ApprovalIds, RoleAci)
    ensures Keeps(AddBanned, ApprovalIds) && Keeps(DeleteBanned, ApprovalIds)
  {
    hide Keys, Put, Remove, Get, Has;
  }

  lemma EarlyApprovals(w: Work, a: Actions)
    requires EarlyWork(w, a).Done?
    ensures ApprovalIds(EarlyWork(w, a).work) == ApprovalIds(w)
  {
    ApprovalSteps();
    hide Keeps, Takes, Fold, ApprovalIds;
    var o1 := Fold(Done(w), a.addMembers, AddMember);
    var o2 := Fold(o1, a.deleteMembers, DeleteMember);
    var o3 := Fold(o2, a.modifyRoles, ModifyRole);
    var o4 := Fold(o3, a.modifyProfileKeys, ModifyProfileKey);
    var o5 := Fold(o4, a.addPending, AddPending);
    var o6 := Fold(o5, a.deletePending, DeletePending);
    FoldKeeps(o6, a.promotePending, PromotePending, ApprovalIds);
    FoldKeeps(o5, a.deletePending, DeletePending, ApprovalIds);
    FoldKeeps(o4, a.addPending, AddPending, ApprovalIds);
    FoldKeeps(o3, a.modifyProfileKeys, ModifyProfileKey, ApprovalIds);
    FoldKeeps(o2, a.modifyRoles, ModifyRole, ApprovalIds);
    FoldKeeps(o1, a.deleteMembers, DeleteMember, ApprovalIds);
    FoldKeeps(Done(w), a.addMembers, AddMember, ApprovalIds);
  }

  lemma LateApprovals(o: Outcome, a: Actions)
    requires LateWork(o, a).Done?
    ensures o.Done?
    ensures ApprovalIds(LateWork(o, a).work) ==
              ApprovalIds(o.work)
              + Outside(Image(a.addApprovals, RequestAci), MemberIds(o.work) + Image(a.promotePni, PniAci),
                        PendingIds(o.work) - Image(a.promotePni, PniInvite))
              - Image(a.deleteApprovals, SameAci) - Image(a.promoteApprovals, RoleAci)
  {
    ApprovalSteps();
    MemberSteps();
    PendingSteps();
    hide Adds, Takes, Keeps, Fold, Image, MemberIds, PendingIds, ApprovalIds, Outside;
    var o8 := Fold(o, a.promotePni, PromotePni);
    var o9 := Fold(o8, a.addApprovals, AddApproval);
    var o10 := Fold(o9, a.deleteApprovals, DeleteApproval);
    var o11 := Fold(o10, a.promoteApprovals, PromoteApproval);
    var o12 := Fold(o11, a.addBanned, AddBanned);
    FoldKeeps(o12, a.deleteBanned, DeleteBanned, ApprovalIds);
    FoldKeeps(o11, a.addBanned, AddBanned, ApprovalIds);
    FoldTakes(o10, a.promoteApprovals, PromoteApproval, ApprovalIds, RoleAci);
    FoldTakes(o9, a.deleteApprovals, DeleteApproval, ApprovalIds, SameAci);
    FoldAddApprovals(o8, a.addApprovals);
    FoldKeeps(o, a.promotePni, PromotePni, ApprovalIds);
    FoldAdds(o, a.promotePni, PromotePni, MemberIds, PniAci);
    FoldTakes(o, a.promotePni, PromotePni, PendingIds, PniInvite);
  }

  lemma ApprovalsEffect(g: Group, a: Actions, source: ServiceId, us: Aci, known: set<Aci>)
    requires ApplyChange(g, a, source, us, known).Some?
    ensures Keys(ApplyChange(g, a, source, us, known).value.group.approvals)
              == ApprovalsAfter(Keys(g.members), Keys(g.pending), Keys(g.approvals), a)
  {
    hide EarlyWork, LateWork, PendingAfter, Image, FromPairs, Outside;
    var w := StartWork(g, a, source, us, known);
    FromPairsSpec(g.members);
    FromPairsSpec(g.pending);
    FromPairsSpec(g.approvals);
    LateApprovals(EarlyWork(w, a), a);
    EarlyApprovals(w, a);
    EarlyMembers(w, a);
    EarlyPending(w, a);
    hide Keys;
  }

  // ----- who added us -----

  function AddedByOf(w: Work): (Option<ServiceId>, Aci, ServiceId) { (w.addedBy, w.us, w.source) }

  lemma AddedBySteps()
    ensures Keeps(DeleteMember, AddedByOf) && Keeps(ModifyRole, AddedByOf) && Keeps(ModifyProfileKey, AddedByOf)
    ensures Keeps(AddPending, AddedByOf) && Keeps(DeletePending, AddedByOf) && Keeps(PromotePending, AddedByOf)
    ensures Keeps(PromotePni, AddedByOf) && Keeps(AddApproval, AddedByOf) && Keeps(DeleteApproval, AddedByOf)
    ensures Keeps(PromoteApproval, AddedByOf) && Keeps(AddBanned, AddedByOf) && Keeps(DeleteBanned, AddedByOf)
  {
    hide Keys, Put, Remove, Get, Has;
  }

  lemma {:induction false} FoldAddedBy(o: Outcome, xs: seq<AddMemberAction>)
    requires Fold(o, xs, AddMember).Done?
    ensures o.Done?
    ensures var w := Fold(o, xs, AddMember).work;
            AddedByOf(w) ==
              (if o.work.us in Image(xs, AddedAci) - MemberIds(o.work) then Some(o.work.source) else o.work.addedBy,
               o.work.us, o.work.source)
    decreases |xs|
  {
    if o.Done? && xs != [] {
      var o' := AddMember(o.work, xs[0]);
      FoldAddedBy(o', xs[1..]);
      assert MemberIds(o'.work) == MemberIds(o.work) + {xs[0].aci} by { MemberSteps(); }
      hide Keys, Remove, Put;
    }
  }

  lemma EarlyAddedBy(w: Work, a: Actions)
    requires EarlyWork(w, a).Done?
    ensures AddedByOf(EarlyWork(w, a).work) ==
              (if w.us in Image(a.addMembers, AddedAci) - MemberIds(w) then Some(w.source) else w.addedBy,
               w.us, w.source)
  {
    AddedBySteps();
    hide Keeps, Fold, Image, MemberIds, AddedByOf;
    var o1 := Fold(Done(w), a.addMembers, AddMember);
    var o2 := Fold(o1, a.deleteMembers, DeleteMember);
    var o3 := Fold(o2, a.modifyRoles, ModifyRole);
    var o4 := Fold(o3, a.modifyProfileKeys, ModifyProfileKey);
    var o5 := Fold(o4, a.addPending, AddPending);
    var o6 := Fold(o5, a.deletePending, DeletePending);
    FoldKeeps(o6, a.promotePending, PromotePending, AddedByOf);
    FoldKeeps(o5, a.deletePending, DeletePending, AddedByOf);
    FoldKeeps(o4, a.addPending, AddPending, AddedByOf);
    FoldKeeps(o3, a.modifyProfileKeys, ModifyProfileKey, AddedByOf);
    FoldKeeps(o2, a.modifyRoles, ModifyRole, AddedByOf);
    FoldKeeps(o1, a.deleteMembers, DeleteMember, AddedByOf);
    FoldAddedBy(Done(w), a.addMembers);
  }

  lemma LateAddedBy(o: Outcome, a: Actions)
    requires LateWork(o, a).Done?
    ensures o.Done? && AddedByOf(LateWork(o, a).work) == AddedByOf(o.work)
  {
    AddedBySteps();
    hide Keeps, Fold, AddedByOf;
    var o8 := Fold(o, a.promotePni, PromotePni);
    var o9 := Fold(o8, a.addApprovals, AddApproval);
    var o10 := Fold(o9, a.deleteApprovals, DeleteApproval);
    var o11 := Fold(o10, a.promoteApprovals, PromoteApproval);
    var o12 := Fold(o11, a.addBanned, AddBanned);
    FoldKeeps(o12, a.deleteBanned, DeleteBanned, AddedByOf);
    FoldKeeps(o11, a.addBanned, AddBanned, AddedByOf);
    FoldKeeps(o10, a.promoteApprovals, PromoteApproval, AddedByOf);
    FoldKeeps(o9, a.deleteApprovals, DeleteApproval, AddedByOf);
    FoldKeeps(o8, a.addApprovals, AddApproval, AddedByOf);
    FoldKeeps(o, a.promotePni, PromotePni, AddedByOf);
  }

  /** Who added us: nobody once we are no member, the author of the change if it added us directly, and
      otherwise whoever it was before; promotions do not count. */
  lemma AddedByEffect(g: Group, a: Actions, source: ServiceId, us: Aci, known: set<Aci>)
    requires ApplyChange(g, a, source, us, known).Some?
    ensures ApplyChange(g, a, source, us, known).value.group.addedBy ==
              if us !in MembersAfter(Keys(g.members), a) then None
              else if us in Image(a.addMembers, AddedAci) && us !in Keys(g.members) then Some(source)
              else g.addedBy
  {
    MembersEffect(g, a, source, us, known);
    hide EarlyWork, LateWork, Image, FromPairs, MembersAfter;
    var w := StartWork(g, a, source, us, known);
    FromPairsSpec(g.members);
    LateAddedBy(EarlyWork(w, a), a);
    EarlyAddedBy(w, a);
    hide Keys, Get;
  }
}
