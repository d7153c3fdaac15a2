/** Where the record of each member comes from after a group change. */
module GroupRecords {
  import opened Options
  import opened ServiceIds
  import opened Dicts
  import opened GroupApply

  // ----- origins -----

  /** The role is the original one or one that the change sets for that member. */
  predicate RoleFrom(a: Actions, aci: Aci, role: nat, original: nat) {
    role == original || RoleAction(aci, role) in a.modifyRoles
  }

  /** A member before the change, changed in the role at most. */
  predicate WasMember(w0: Work, a: Actions, aci: Aci, m: Member) {
    match Get(w0.members, aci)
    case None => false
    case Some(o) => m == o.(role := m.role) && RoleFrom(a, aci, m.role, o.role)
  }

  predicate WasAdded(w0: Work, a: Actions, aci: Aci, m: Member) {
    exists x :: x in a.addMembers && x.aci == aci
                && m == Member(m.role, w0.version, x.joinFromInviteLink, false)
                && RoleFrom(a, aci, m.role, OrDefault(x.role))
  }

  /** An invitation that was there before the change or came with it. */
  predicate WasInvited(w0: Work, a: Actions, id: ServiceId, p: PendingMember) {
    || Get(w0.pending, id) == Some(p)
    || exists x :: x in a.addPending && x.serviceId == id
                   && p == PendingMember(x.addedBy, x.timestamp, OrDefault(x.role))
  }

  /** The change promotes the invitation `id` to the member `aci`. */
  predicate Promotes(a: Actions, id: ServiceId, aci: Aci) {
    || (id == OfAci(aci) && exists x :: x in a.promotePending && x.aci == aci)
    || (exists x :: x in a.promotePni && x.aci == aci && id == OfPni(x.pni))
  }

  predicate ByPromotion(w0: Work, a: Actions, aci: Aci, m: Member, id: ServiceId, p: PendingMember) {
    WasInvited(w0, a, id, p) && Promotes(a, id, aci) && m == Member(OrDefault(p.role), w0.version, false, false)
  }

  ghost predicate WasPromoted(w0: Work, a: Actions, aci: Aci, m: Member) {
    exists id: ServiceId, p: PendingMember :: ByPromotion(w0, a, aci, m, id, p)
  }

  predicate WasApproved(w0: Work, a: Actions, aci: Aci, m: Member) {
    exists x :: x in a.promoteApprovals && x.aci == aci && m == Member(OrDefault(x.role), w0.version, false, true)
  }

  /** The origins of a record; promotions come after changes of role. */
  ghost predicate Explained(w0: Work, a: Actions, late: bool, aci: Aci, m: Member) {
    || WasMember(w0, a, aci, m) || WasAdded(w0, a, aci, m)
    || (late && (WasPromoted(w0, a, aci, m) || WasApproved(w0, a, aci, m)))
  }

  ghost predicate MembersExplained(w0: Work, a: Actions, late: bool, members: Dict<Aci, Member>) {
    forall aci, m :: Get(members, aci) == Some(m) ==> Explained(w0, a, late, aci, m)
  }

  ghost predicate InvitesExplained(w0: Work, a: Actions, pending: Dict<ServiceId, PendingMember>) {
    forall id, p :: Get(pending, id) == Some(p) ==> WasInvited(w0, a, id, p)
  }

  ghost predicate AllExplained(w0: Work, a: Actions, late: bool, o: Outcome) {
    o.Done? ==>
      && o.work.version == w0.version && MembersExplained(w0, a, late, o.work.members)
      && InvitesExplained(w0, a, o.work.pending)
  }

  // ----- single updates -----

  lemma PutExplained(w0: Work, a: Actions, late: bool, members: Dict<Aci, Member>, aci: Aci, m: Member)
    requires MembersExplained(w0, a, late, members) && Explained(w0, a, late, aci, m)
    ensures MembersExplained(w0, a, late, Put(members, aci, m))
  {
    hide Get, Put, Explained;
    forall other, n | Get(Put(members, aci, m), other) == Some(n) ensures Explained(w0, a, late, other, n) {
      PutGet(members, aci, m, other);
    }
  }

  lemma RemoveExplained(w0: Work, a: Actions, late: bool, members: Dict<Aci, Member>, aci: Aci)
    requires MembersExplained(w0, a, late, members)
    ensures MembersExplained(w0, a, late, Remove(members, aci))
  {
    hide Get, Remove, Explained;
    forall other, n | Get(Remove(members, aci), other) == Some(n) ensures Explained(w0, a, late, other, n) {
      RemoveGet(members, aci, other);
    }
  }

  lemma InvitePutExplained(w0: Work, a: Actions, pending: Dict<ServiceId, PendingMember>,
                           id: ServiceId, p: PendingMember)
    requires InvitesExplained(w0, a, pending) && WasInvited(w0, a, id, p)
    ensures InvitesExplained(w0, a, Put(pending, id, p))
  {
    hide Get, Put, WasInvited;
    forall other, q | Get(Put(pending, id, p), other) == Some(q) ensures WasInvited(w0, a, other, q) {
      PutGet(pending, id, p, other);
    }
  }

  lemma InviteRemoveExplained(w0: Work, a: Actions, pending: Dict<ServiceId, PendingMember>, id: ServiceId)
    requires InvitesExplained(w0, a, pending)
    ensures InvitesExplained(w0, a, Remove(pending, id))
  {
    hide Get, Remove, WasInvited;
    forall other, q | Get(Remove(pending, id), other) == Some(q) ensures WasInvited(w0, a, other, q) {
      RemoveGet(pending, id, other);
    }
  }

  // ----- steps -----

  /** A step with an action among `xs` keeps everything explained. */
  ghost predicate Explains<A(!new)>(w0: Work, a: Actions, late: bool, step: (Work, A) -> Outcome, xs: seq<A>) {
    forall w: Work, x: A :: x in xs && AllExplained(w0, a, late, Done(w)) ==> AllExplained(w0, a, late, step(w, x))
  }

  lemma {:induction false} FoldExplains<A(!new)>(
      w0: Work, a: Actions, late: bool, o: Outcome, xs: seq<A>, step: (Work, A) -> Outcome)
    requires AllExplained(w0, a, late, o) && Explains(w0, a, late, step, xs)
    ensures AllExplained(w0, a, late, Fold(o, xs, step))
    decreases |xs|
  {
    hide AllExplained;
    if o.Done? && xs != [] {
      assert xs[0] in xs && forall x :: x in xs[1..] ==> x in xs;
      FoldExplains(w0, a, late, step(o.work, xs[0]), xs[1..], step);
    }
  }

  lemma AddMemberExplains(w0: Work, a: Actions)
    ensures Explains(w0, a, false, AddMember, a.addMembers)
  {
    hide MembersExplained, InvitesExplained, Put, Remove, Get, Has;
    forall w: Work, x | x in a.addMembers && AllExplained(w0, a, false, Done(w))
      ensures AllExplained(w0, a, false, AddMember(w, x))
    {
      var m := Member(OrDefault(x.role), w.version, x.joinFromInviteLink, false);
      assert WasAdded(w0, a, x.aci, m);
      PutExplained(w0, a, false, w.members, x.aci, m);
      InviteRemoveExplained(w0, a, w.pending, OfAci(x.aci));
    }
  }

  lemma DeleteMemberExplains(w0: Work, a: Actions)
    ensures Explains(w0, a, false, DeleteMember, a.deleteMembers)
  {
    hide MembersExplained, InvitesExplained, Remove;
    forall w: Work, x | x in a.deleteMembers && AllExplained(w0, a, false, Done(w))
      ensures AllExplained(w0, a, false, DeleteMember(w, x))
    {
      RemoveExplained(w0, a, false, w.members, x);
    }
  }

  lemma ModifyRoleExplains(w0: Work, a: Actions)
    ensures Explains(w0, a, false, ModifyRole, a.modifyRoles)
  {
    hide InvitesExplained, Put, Get;
    forall w: Work, x | x in a.modifyRoles && AllExplained(w0, a, false, Done(w))
      ensures AllExplained(w0, a, false, ModifyRole(w, x))
    {
      if Get(w.members, x.aci).Some? {
        var m := Get(w.members, x.aci).value;
        assert Explained(w0, a, false, x.aci, m);
        assert x == RoleAction(x.aci, x.role);
        NewRoleExplained(w0, a, x.aci, m, x.role);
        hide MembersExplained, Explained;
        PutExplained(w0, a, false, w.members, x.aci, m.(role := x.role));
      }
    }
  }

  lemma NewRoleExplained(w0: Work, a: Actions, aci: Aci, m: Member, role: nat)
    requires Explained(w0, a, false, aci, m) && RoleAction(aci, role) in a.modifyRoles
    ensures Explained(w0, a, false, aci, m.(role := role))
  {
    hide Get;
    if WasAdded(w0, a, aci, m) {
      var x :| x in a.addMembers && x.aci == aci
               && m == Member(m.role, w0.version, x.joinFromInviteLink, false)
               && RoleFrom(a, aci, m.role, OrDefault(x.role));
      assert WasAdded(w0, a, aci, m.(role := role));
    }
  }

  lemma KeysExplain(w0: Work, a: Actions)
    ensures Explains(w0, a, false, ModifyProfileKey, a.modifyProfileKeys)
  {
    hide MembersExplained, InvitesExplained;
  }

  lemma InvitesExplain(w0: Work, a: Actions)
    ensures Explains(w0, a, false, AddPending, a.addPending) && Explains(w0, a, false, DeletePending, a.deletePending)
  {
    hide MembersExplained, InvitesExplained, Put, Remove, Get, Has;
    forall w: Work, x | x in a.addPending && AllExplained(w0, a, false, Done(w))
      ensures AllExplained(w0, a, false, AddPending(w, x))
    {
      var p := PendingMember(x.addedBy, x.timestamp, OrDefault(x.role));
      assert WasInvited(w0, a, x.serviceId, p);
      InvitePutExplained(w0, a, w.pending, x.serviceId, p);
    }
    forall w: Work, x | x in a.deletePending && AllExplained(w0, a, false, Done(w))
      ensures AllExplained(w0, a, false, DeletePending(w, x))
    {
      InviteRemoveExplained(w0, a, w.pending, x);
    }
  }

  lemma PromoteExplained(w0: Work, a: Actions, w: Work, id: ServiceId, aci: Aci, profileKey: string)
    requires AllExplained(w0, a, true, Done(w)) && Promotes(a, id, aci)
    ensures AllExplained(w0, a, true, Promote(w, id, aci, profileKey))
  {
    hide MembersExplained, Put, Remove, Get, Has, Promotes, WasInvited;
    InviteRemoveExplained(w0, a, w.pending, id);
    if Get(w.pending, id).Some? {
      var p := Get(w.pending, id).value;
      var m := Member(OrDefault(p.role), w.version, false, false);
      assert ByPromotion(w0, a, aci, m, id, p);
      hide InvitesExplained;
      PutExplained(w0, a, true, w.members, aci, m);
    }
  }

  lemma PromotionsExplain(w0: Work, a: Actions)
    ensures Explains(w0, a, true, PromotePending, a.promotePending) && Explains(w0, a, true, PromotePni, a.promotePni)
  {
    hide MembersExplained, InvitesExplained, Promote;
    forall w: Work, x | x in a.promotePending && AllExplained(w0, a, true, Done(w))
      ensures AllExplained(w0, a, true, PromotePending(w, x))
    {
      assert Promotes(a, OfAci(x.aci), x.aci);
      PromoteExplained(w0, a, w, OfAci(x.aci), x.aci, x.profileKey);
    }
    forall w: Work, x | x in a.promotePni && AllExplained(w0, a, true, Done(w))
      ensures AllExplained(w0, a, true, PromotePni(w, x))
    {
      assert Promotes(a, OfPni(x.pni), x.aci);
      PromoteExplained(w0, a, w.(promoted := Put(w.promoted, x.aci, x.pni)), OfPni(x.pni), x.aci, x.profileKey);
    }
  }

  lemma ApprovalsExplain(w0: Work, a: Actions)
    ensures Explains(w0, a, true, PromoteApproval, a.promoteApprovals)
  {
    hide MembersExplained, InvitesExplained, Put, Remove, Get, Has;
    forall w: Work, x | x in a.promoteApprovals && AllExplained(w0, a, true, Done(w))
      ensures AllExplained(w0, a, true, PromoteApproval(w, x))
    {
      var m := Member(OrDefault(x.role), w.version, false, true);
      assert WasApproved(w0, a, x.aci, m);
      PutExplained(w0, a, true, w.members, x.aci, m);
    }
  }

  lemma OthersExplain(w0: Work, a: Actions)
    ensures Explains(w0, a, true, AddApproval, a.addApprovals)
    ensures Explains(w0, a, true, DeleteApproval, a.deleteApprovals)
    ensures Explains(w0, a, true, AddBanned, a.addBanned) && Explains(w0, a, true, DeleteBanned, a.deleteBanned)
  {
    hide MembersExplained, InvitesExplained, Has, Put, Remove;
  }

  // ----- the change -----

  lemma EarlyExplained(w0: Work, a: Actions)
    requires AllExplained(w0, a, false, Done(w0))
    ensures AllExplained(w0, a, true, EarlyWork(w0, a))
  {
    AddMemberExplains(w0, a);
    DeleteMemberExplains(w0, a);
    ModifyRoleExplains(w0, a);
    KeysExplain(w0, a);
    InvitesExplain(w0, a);
    PromotionsExplain(w0, a);
    hide Explains, Fold, AllExplained;
    var o1 := Fold(Done(w0), a.addMembers, AddMember);
    FoldExplains(w0, a, false, Done(w0), a.addMembers, AddMember);
    var o2 := Fold(o1, a.deleteMembers, DeleteMember);
    FoldExplains(w0, a, false, o1, a.deleteMembers, DeleteMember);
    var o3 := Fold(o2, a.modifyRoles, ModifyRole);
    FoldExplains(w0, a, false, o2, a.modifyRoles, ModifyRole);
    var o4 := Fold(o3, a.modifyProfileKeys, ModifyProfileKey);
    FoldExplains(w0, a, false, o3, a.modifyProfileKeys, ModifyProfileKey);
    var o5 := Fold(o4, a.addPending, AddPending);
    FoldExplains(w0, a, false, o4, a.addPending, AddPending);
    var o6 := Fold(o5, a.deletePending, DeletePending);
    FoldExplains(w0, a, false, o5, a.deletePending, DeletePending);
    LateToo(w0, a, o6);
    FoldExplains(w0, a, true, o6, a.promotePending, PromotePending);
  }

  lemma LateToo(w0: Work, a: Actions, o: Outcome)
    requires AllExplained(w0, a, false, o)
    ensures AllExplained(w0, a, true, o)
  {
    hide Get, WasMember, WasAdded, WasPromoted, WasApproved, WasInvited;
  }

  lemma LateExplained(w0: Work, a: Actions, o: Outcome)
    requires AllExplained(w0, a, true, o)
    ensures AllExplained(w0, a, true, LateWork(o, a))
  {
    PromotionsExplain(w0, a);
    ApprovalsExplain(w0, a);
    OthersExplain(w0, a);
    hide Explains, Fold, AllExplained;
    var o8 := Fold(o, a.promotePni, PromotePni);
    FoldExplains(w0, a, true, o, a.promotePni, PromotePni);
    var o9 := Fold(o8, a.addApprovals, AddApproval);
    FoldExplains(w0, a, true, o8, a.addApprovals, AddApproval);
    var o10 := Fold(o9, a.deleteApprovals, DeleteApproval);
    FoldExplains(w0, a, true, o9, a.deleteApprovals, DeleteApproval);
    var o11 := Fold(o10, a.promoteApprovals, PromoteApproval);
    FoldExplains(w0, a, true, o10, a.promoteApprovals, PromoteApproval);
    var o12 := Fold(o11, a.addBanned, AddBanned);
    FoldExplains(w0, a, true, o11, a.addBanned, AddBanned);
    FoldExplains(w0, a, true, o12, a.deleteBanned, DeleteBanned);
  }

  /** After a change every member's record is the old one, with at most a role set by the change, or
      was made by it at its version: as an addition, with its role and link flag; as a promotion, with
      the role of the invitation; or as an approval. Every invitation left is an old one or came with
      the change. */
  lemma RecordsExplained(g: Group, a: Actions, source: ServiceId, us: Aci, known: set<Aci>)
    requires ApplyChange(g, a, source, us, known).Some?
    ensures var g', w0 := ApplyChange(g, a, source, us, known).value.group, StartWork(g, a, source, us, known);
            && (forall aci, m :: Get(g'.members, aci) == Some(m) ==> Explained(w0, a, true, aci, m))
            && (forall id, p :: Get(g'.pending, id) == Some(p) ==> WasInvited(w0, a, id, p))
  {
    hide EarlyWork, LateWork, Get, Explained, WasInvited, StartWork;
    var w0 := StartWork(g, a, source, us, known);
    StartExplained(w0, a);
    EarlyExplained(w0, a);
    LateExplained(w0, a, EarlyWork(w0, a));
  }

  lemma StartExplained(w0: Work, a: Actions)
    ensures AllExplained(w0, a, false, Done(w0))
  {
    hide Get;
  }
}
