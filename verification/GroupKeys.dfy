/** Which profile keys a group change teaches. */
module GroupKeys {
  import opened Options
  import opened ServiceIds
  import opened Dicts
  import opened GroupApply
  import opened GroupEffects
  import opened GroupFates

  function KeysOf(w: Work): seq<KeyAction> { w.newProfileKeys }
  function KnownOf(w: Work): (ServiceId, set<Aci>) { (w.source, w.known) }

  lemma KeySteps()
    ensures Keeps(DeleteMember, KeysOf) && Keeps(ModifyRole, KeysOf) && Keeps(AddPending, KeysOf)
    ensures Keeps(DeletePending, KeysOf) && Keeps(DeleteApproval, KeysOf) && Keeps(PromoteApproval, KeysOf)
    ensures Keeps(AddBanned, KeysOf) && Keeps(DeleteBanned, KeysOf)
    ensures Keeps(AddMember, KnownOf) && Keeps(DeleteMember, KnownOf) && Keeps(ModifyRole, KnownOf)
  {
    hide Keys, Put, Remove, Get, Has;
  }

  lemma {:induction false} FoldAddKeys(o: Outcome, xs: seq<AddMemberAction>, k: KeyAction)
    requires o.Done?
    ensures var r, x := Fold(o, xs, AddMember), First(xs, AddedAci, k.aci);
            && r.Done?
            && (k in r.work.newProfileKeys <==>
                  || k in o.work.newProfileKeys
                  || (k.aci !in Keys(o.work.members) && x.Some? && x.value.profileKey == Some(k.profileKey)))
    decreases |xs|
  {
    if xs != [] {
      var x := xs[0];
      var o' := AddMember(o.work, x);
      FoldAddKeys(o', xs[1..], k);
      assert KeyAction(k.aci, k.profileKey) == k;
      hide Get, Put, Remove;
    }
  }

  lemma {:induction false} FoldModifyKeys(o: Outcome, xs: seq<KeyAction>, k: KeyAction)
    requires o.Done?
    ensures var r := Fold(o, xs, ModifyProfileKey);
            && r.Done?
            && (k in r.work.newProfileKeys <==>
                  || k in o.work.newProfileKeys
                  || (k in xs && (OfAci(k.aci) == o.work.source || k.aci !in o.work.known)))
    decreases |xs|
  {
    if xs != [] {
      FoldModifyKeys(ModifyProfileKey(o.work, xs[0]), xs[1..], k);
      assert xs == [xs[0]] + xs[1..];
    }
  }

  lemma {:induction false} FoldPromoteKeys(o: Outcome, xs: seq<KeyAction>, k: KeyAction)
    requires Fold(o, xs, PromotePending).Done?
    ensures var r, x := Fold(o, xs, PromotePending), First(xs, KeyAci, k.aci);
            && o.Done?
            && (k in r.work.newProfileKeys <==>
                  || k in o.work.newProfileKeys
                  || (k.aci !in Keys(o.work.members) && x.Some? && x.value.profileKey == k.profileKey))
    decreases |xs|
  {
    if o.Done? && xs != [] {
      FoldPromoteKeys(PromotePending(o.work, xs[0]), xs[1..], k);
      hide Get, Put, Remove;
    }
  }

  lemma {:induction false} FoldPniKeys(o: Outcome, xs: seq<PniAction>, k: KeyAction)
    requires Fold(o, xs, PromotePni).Done?
    ensures var r, x := Fold(o, xs, PromotePni), First(xs, PniAci, k.aci);
            && o.Done?
            && (k in r.work.newProfileKeys <==>
                  || k in o.work.newProfileKeys
                  || (k.aci !in Keys(o.work.members) && x.Some? && x.value.profileKey == k.profileKey))
    decreases |xs|
  {
    if o.Done? && xs != [] {
      FoldPniKeys(PromotePni(o.work, xs[0]), xs[1..], k);
      hide Get, Put, Remove;
    }
  }

  lemma {:induction false} FoldRequestKeys(o: Outcome, xs: seq<ApprovalAction>, k: KeyAction)
    requires o.Done?
    ensures var r, x := Fold(o, xs, AddApproval), First(xs, RequestAci, k.aci);
            && r.Done?
            && (k in r.work.newProfileKeys <==>
                  || k in o.work.newProfileKeys
                  || (k.aci !in Keys(o.work.members) && OfAci(k.aci) !in Keys(o.work.pending)
                      && k.aci !in Keys(o.work.approvals) && x.Some? && x.value.profileKey == Some(k.profileKey)))
    decreases |xs|
  {
    if xs != [] {
      FoldRequestKeys(AddApproval(o.work, xs[0]), xs[1..], k);
      hide Get, Put;
    }
  }

  /** Learned with a direct addition or a change of key. */
  ghost predicate LearnedEarly(members: set<Aci>, source: ServiceId, known: set<Aci>, a: Actions, k: KeyAction) {
    var added := First(a.addMembers, AddedAci, k.aci);
    || (k.aci !in members && added.Some? && added.value.profileKey == Some(k.profileKey))
    || (k in a.modifyProfileKeys && (OfAci(k.aci) == source || k.aci !in known))
  }

  lemma BeforeKeys(w: Work, a: Actions, k: KeyAction)
    requires BeforePromotions(w, a).Done? && w.newProfileKeys == []
    ensures k in BeforePromotions(w, a).work.newProfileKeys <==> LearnedEarly(Keys(w.members), w.source, w.known, a, k)
  {
    KeySteps();
    hide Keeps, Fold, Keys, First;
    var o1 := Fold(Done(w), a.addMembers, AddMember);
    var o2 := Fold(o1, a.deleteMembers, DeleteMember);
    var o3 := Fold(o2, a.modifyRoles, ModifyRole);
    var o4 := Fold(o3, a.modifyProfileKeys, ModifyProfileKey);
    var o5 := Fold(o4, a.addPending, AddPending);
    FoldKeeps(o5, a.deletePending, DeletePending, KeysOf);
    FoldKeeps(o4, a.addPending, AddPending, KeysOf);
    if o3.Threw? {
      ThrewStays(o3, a.modifyProfileKeys, ModifyProfileKey);
      assert false;
    }
    FoldModifyKeys(o3, a.modifyProfileKeys, k);
    FoldKeeps(o2, a.modifyRoles, ModifyRole, KeysOf);
    FoldKeeps(o2, a.modifyRoles, ModifyRole, KnownOf);
    FoldKeeps(o1, a.deleteMembers, DeleteMember, KeysOf);
    FoldKeeps(o1, a.deleteMembers, DeleteMember, KnownOf);
    FoldKeeps(Done(w), a.addMembers, AddMember, KnownOf);
    FoldAddKeys(Done(w), a.addMembers, k);
  }

  lemma LateKeys(o: Outcome, a: Actions, k: KeyAction)
    requires LateWork(o, a).Done?
    ensures o.Done?
    ensures var members, x := Keys(o.work.members), First(a.promotePni, PniAci, k.aci);
            var y := First(a.addApprovals, RequestAci, k.aci);
            k in LateWork(o, a).work.newProfileKeys <==>
              || k in o.work.newProfileKeys
              || (k.aci !in members && x.Some? && x.value.profileKey == k.profileKey)
              || (k.aci !in members + Image(a.promotePni, PniAci) && k.aci !in Keys(o.work.approvals)
                  && OfAci(k.aci) !in Keys(o.work.pending) - Image(a.promotePni, PniInvite)
                  && y.Some? && y.value.profileKey == Some(k.profileKey))
  {
    KeySteps();
    MemberSteps();
    PendingSteps();
    ApprovalSteps();
    LateDone(o, a);
    var o8 := Fold(o, a.promotePni, PromotePni);
    hide Adds, Takes, Keeps, Fold, First, Image;
    var o9 := Fold(o8, a.addApprovals, AddApproval);
    var o10 := Fold(o9, a.deleteApprovals, DeleteApproval);
    var o11 := Fold(o10, a.promoteApprovals, PromoteApproval);
    var o12 := Fold(o11, a.addBanned, AddBanned);
    FoldKeeps(o12, a.deleteBanned, DeleteBanned, KeysOf);
    FoldKeeps(o11, a.addBanned, AddBanned, KeysOf);
    FoldKeeps(o10, a.promoteApprovals, PromoteApproval, KeysOf);
    FoldKeeps(o9, a.deleteApprovals, DeleteApproval, KeysOf);
    FoldRequestKeys(o8, a.addApprovals, k);
    FoldPniKeys(o, a.promotePni, k);
    FoldAdds(o, a.promotePni, PromotePni, MemberIds, PniAci);
    FoldTakes(o, a.promotePni, PromotePni, PendingIds, PniInvite);
    FoldKeeps(o, a.promotePni, PromotePni, ApprovalIds);
    hide Keys;
  }

  /** A change teaches a profile key exactly when it comes with the first addition of a new member, with a
      change of key by its owner or for somebody whose key is unknown, with the first promotion of
      somebody who was no member by then, or with the first request of somebody who was then neither
      member nor invited nor asking already. */
  lemma KeysLearnedIff(g: Group, a: Actions, source: ServiceId, us: Aci, known: set<Aci>, k: KeyAction)
    requires ApplyChange(g, a, source, us, known).Some?
    ensures var present := Present(Keys(g.members), a);
            var invited := PendingAfter(Keys(g.members), Keys(g.pending), a);
            var x, y := First(a.promotePending, KeyAci, k.aci), First(a.promotePni, PniAci, k.aci);
            var z := First(a.addApprovals, RequestAci, k.aci);
            var promoted := Image(a.promotePending, KeyAci);
            k in ApplyChange(g, a, source, us, known).value.newProfileKeys <==>
              || LearnedEarly(Keys(g.members), source, known, a, k)
              || (k.aci !in present && x.Some? && x.value.profileKey == k.profileKey)
              || (k.aci !in present + promoted && y.Some? && y.value.profileKey == k.profileKey)
              || (k.aci !in present + promoted + Image(a.promotePni, PniAci) && k.aci !in Keys(g.approvals)
                  && OfAci(k.aci) !in invited && z.Some? && z.value.profileKey == Some(k.profileKey))
  {
    var w := StartWork(g, a, source, us, known);
    FromPairsSpec(g.members);
    FromPairsSpec(g.pending);
    FromPairsSpec(g.approvals);
    var o, b := EarlyWork(w, a), BeforePromotions(w, a);
    EarlyApprovals(w, a);
    hide Fold, FromPairs, EarlyWork, LateWork, BeforePromotions, Keys, Image, First, Invited, Present, PendingAfter;
    hide LearnedEarly, Uninvited, Invitable;
    LateKeys(o, a, k);
    EarlyKeys(w, a);
    EarlyIsBefore(w, a);
    if b.Threw? {
      ThrewStays(b, a.promotePending, PromotePending);
      assert false;
    }
    BeforeKeys(w, a, k);
    PreparedKeys(w, a);
    FoldPromoteKeys(b, a.promotePending, k);
    InvitedAfter(Keys(g.members), Keys(g.pending), a);
  }
}
