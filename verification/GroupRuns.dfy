/** Runs of group changes, and when members and invitations stay apart. */
module GroupRuns {
  import opened Options
  import opened ServiceIds
  import opened Dicts
  import opened GroupApply
  import opened GroupEffects

  // ----- runs -----

  datatype Incoming = Incoming(actions: Actions, source: ServiceId, known: set<Aci>)

  /** Applies changes one after the other; one that throws leaves the group as it was. */
  function AfterChanges(g: Group, us: Aci, changes: seq<Incoming>): Group
    decreases |changes|
  {
    if changes == [] then g else
    var c := changes[0];
    match ApplyChange(g, c.actions, c.source, us, c.known)
    case None => AfterChanges(g, us, changes[1..])
    case Some(r) => AfterChanges(r.group, us, changes[1..])
  }

  predicate TidyGroup(g: Group, us: Aci) {
    && UniqueLists(g)
    && (g.left <==> us !in Keys(g.members))
    && (g.left ==> g.addedBy == None)
  }

  /** Over every run, failing changes included: unique ids in each list, left exactly when not a
      member, and added by nobody once left. */
  lemma {:induction false} RunsStayTidy(g: Group, us: Aci, changes: seq<Incoming>)
    requires TidyGroup(g, us)
    ensures TidyGroup(AfterChanges(g, us, changes), us)
    decreases |changes|
  {
    if changes != [] {
      var c := changes[0];
      match ApplyChange(g, c.actions, c.source, us, c.known)
      case None => RunsStayTidy(g, us, changes[1..]);
      case Some(r) =>
        AppliedIsTidy(g, c.actions, c.source, us, c.known);
        RunsStayTidy(r.group, us, changes[1..]);
    }
  }

  // ----- members and invitations -----

  ghost predicate Apart(members: set<Aci>, pending: set<ServiceId>) {
    forall aci :: aci in members ==> OfAci(aci) !in pending
  }

  /** The ACIs that join by promotion of a PNI or of a request: the two kinds that do not take the
      ACI itself off the invitations. */
  function Promoted(a: Actions): set<Aci> {
    Image(a.promotePni, PniAci) + Image(a.promoteApprovals, RoleAci)
  }

  ghost predicate ApartGroup(g: Group) {
    Apart(Keys(g.members), Keys(g.pending))
  }

  /** No ACI that the change promotes from a PNI or a request is itself still invited. */
  ghost predicate PromotesUninvited(g: Group, a: Actions) {
    forall aci :: aci in Promoted(a) ==> OfAci(aci) !in PendingAfter(Keys(g.members), Keys(g.pending), a)
  }

  /** In a group whose members and invitations are apart, a change keeps them apart exactly when no
      ACI that it adds by promoting a PNI or a request is itself still invited. */
  lemma ApartIff(g: Group, a: Actions, source: ServiceId, us: Aci, known: set<Aci>)
    requires ApartGroup(g)
    requires ApplyChange(g, a, source, us, known).Some?
    ensures ApartGroup(ApplyChange(g, a, source, us, known).value.group) <==> PromotesUninvited(g, a)
  {
    hide ApplyChange, Keys, Image;
    MembersEffect(g, a, source, us, known);
    PendingEffect(g, a, source, us, known);
    DirectJoinsApart(Keys(g.members), Keys(g.pending), a);
    hide PendingAfter;
  }

  lemma DirectJoinsApart(members: set<Aci>, pending: set<ServiceId>, a: Actions)
    requires Apart(members, pending)
    ensures forall aci :: aci in MembersAfter(members, a) && aci !in Promoted(a) ==>
              OfAci(aci) !in PendingAfter(members, pending, a)
  {
    hide Image;
    InvitesOf(a.promotePending);
  }

  lemma {:induction false} InvitesOf(xs: seq<KeyAction>)
    ensures forall aci :: aci in Image(xs, KeyAci) ==> OfAci(aci) in Image(xs, KeyInvite)
  {
    if xs != [] {
      InvitesOf(xs[1..]);
    }
  }

  /** Every change of a run that applies meets the condition. */
  ghost predicate AllPromoteUninvited(g: Group, us: Aci, changes: seq<Incoming>)
    decreases |changes|
  {
    changes == [] ||
    (var c := changes[0];
     match ApplyChange(g, c.actions, c.source, us, c.known)
     case None => AllPromoteUninvited(g, us, changes[1..])
     case Some(r) => PromotesUninvited(g, c.actions) && AllPromoteUninvited(r.group, us, changes[1..]))
  }

  /** Members and invitations are apart in every state of the run. */
  ghost predicate AlwaysApart(g: Group, us: Aci, changes: seq<Incoming>) {
    forall k :: 0 <= k <= |changes| ==> ApartGroup(AfterChanges(g, us, changes[..k]))
  }

  lemma AfterFirst(g: Group, us: Aci, changes: seq<Incoming>, k: nat)
    requires 0 < k <= |changes|
    ensures var c := changes[0];
            AfterChanges(g, us, changes[..k]) ==
              match ApplyChange(g, c.actions, c.source, us, c.known)
              case None => AfterChanges(g, us, changes[1..][..k - 1])
              case Some(r) => AfterChanges(r.group, us, changes[1..][..k - 1])
  {
    hide ApplyChange;
    assert changes[..k][1..] == changes[1..][..k - 1];
  }

  /** Over every run, failing changes included, members and invitations stay apart exactly when each
      change that applies meets the condition. */
  lemma {:induction false} RunsStayApartIff(g: Group, us: Aci, changes: seq<Incoming>)
    requires ApartGroup(g)
    ensures AlwaysApart(g, us, changes) <==> AllPromoteUninvited(g, us, changes)
    decreases |changes|
  {
    hide ApplyChange, Keys, Promoted, PendingAfter;
    if changes == [] {
      assert changes[..0] == [];
    } else {
      var c, rest := changes[0], changes[1..];
      var r := ApplyChange(g, c.actions, c.source, us, c.known);
      var next := if r.Some? then r.value.group else g;
      if r.Some? {
        ApartIff(g, c.actions, c.source, us, c.known);
      }
      FirstAndRest(g, us, changes, next);
      hide AlwaysApart;
      if ApartGroup(next) {
        RunsStayApartIff(next, us, rest);
      }
    }
  }

  lemma FirstAndRest(g: Group, us: Aci, changes: seq<Incoming>, next: Group)
    requires changes != [] && ApartGroup(g)
    requires var c := changes[0];
             var r := ApplyChange(g, c.actions, c.source, us, c.known);
             next == if r.Some? then r.value.group else g
    ensures AlwaysApart(g, us, changes) <==> AlwaysApart(next, us, changes[1..])
    ensures AlwaysApart(g, us, changes) ==> ApartGroup(next)
  {
    hide ApplyChange, ApartGroup;
    var rest := changes[1..];
    assert changes[..0] == [] && rest[..0] == [];
    forall k | 0 < k <= |changes| ensures AfterChanges(g, us, changes[..k]) == AfterChanges(next, us, rest[..k - 1]) {
      AfterFirst(g, us, changes, k);
    }
    if AlwaysApart(g, us, changes) {
      forall k | 0 <= k <= |rest| ensures ApartGroup(AfterChanges(next, us, rest[..k])) {
        assert ApartGroup(AfterChanges(g, us, changes[..k + 1]));
      }
    }
  }

  lemma OneImage<A, K>(x: A, key: A -> K)
    ensures Image([x], key) == {key(x)}
  {
    assert [x][1..] == [];
    assert Image([x], key) == {key(x)} + Image([x][1..], key);
  }

  lemma NoImage<A, K>(key: A -> K)
    ensures Image([], key) == {}
  {
  }

  lemma StillInvited(members: set<Aci>, pending: set<ServiceId>, a: Actions, x: PniAction)
    requires a.addMembers == [] && a.addPending == [] && a.deletePending == [] && a.promotePending == []
    requires a.promotePni == [x] && OfAci(x.aci) in pending
    ensures x.aci in Promoted(a) && OfAci(x.aci) in PendingAfter(members, pending, a)
  {
    hide Image;
    OneImage(x, PniInvite);
    OneImage(x, PniAci);
    assert x.aci in Image(a.promotePni, PniAci);
    NoImage(AddedAci);
    NoImage(SameId);
    NoImage(KeyInvite);
  }

  lemma OnePromotionApplies(g: Group, a: Actions, x: PniAction, source: ServiceId, us: Aci, known: set<Aci>)
    requires a == Actions(Some(0), [], [], [], [], [], [], [], [x], [], [], [], [], [],
                          None, None, None, None, None, None, None, None, None)
    requires OfPni(x.pni) in Keys(g.pending)
    ensures ApplyChange(g, a, source, us, known).Some?
  {
    hide Assemble, Keys, FromPairs, Put, Remove;
    var w := StartWork(g, a, source, us, known);
    FromPairsSpec(g.pending);
    var promoted := PromotePni(w, x);
    assert Fold(Done(w), [x], PromotePni) == Fold(promoted, [x][1..], PromotePni) == promoted;
    assert promoted.Done?;
  }

  /** The overlap does occur, in any group with an ACI and its PNI both invited: the PNI accepts. */
  lemma PromotionCanOverlap(g: Group, aci: Aci, pni: Pni, source: ServiceId, us: Aci, known: set<Aci>)
    requires ApartGroup(g)
    requires OfAci(aci) in Keys(g.pending) && OfPni(pni) in Keys(g.pending)
    ensures exists a: Actions :: ApplyChange(g, a, source, us, known).Some?
              && !ApartGroup(ApplyChange(g, a, source, us, known).value.group)
  {
    var x := PniAction(aci, pni, "");
    var a := Actions(Some(0), [], [], [], [], [], [], [], [x], [], [], [], [], [],
                     None, None, None, None, None, None, None, None, None);
    OnePromotionApplies(g, a, x, source, us, known);
    hide ApplyChange, Keys, Promoted, PendingAfter;
    StillInvited(Keys(g.members), Keys(g.pending), a, x);
    ApartIff(g, a, source, us, known);
  }
}
