/** The attributes of a group that are not lists: what one change makes of each, and what is left of
    them after a run. */
module GroupAttributes {
  import opened Options
  import opened ServiceIds
  import opened Dicts
  import opened GroupApply
  import opened GroupRuns

  /** The new value, if the change has an action on the attribute, and otherwise the old one. */
  predicate SetOrKept<T(==)>(action: Option<T>, before: T, after: T) {
    match action
    case None => after == before
    case Some(v) => after == v
  }

  /** The same where a value of 0 counts as missing. */
  predicate AccessSetOrKept(action: Option<nat>, before: nat, after: nat, default: nat) {
    match action
    case None => after == before
    case Some(v) => after == if v == 0 then default else v
  }

  /** What a group without access rules goes by: members may do everything, and nobody joins by link. */
  function AccessOf(g: Group): AccessControl {
    match g.accessControl
    case None => AccessControl(ACCESS_MEMBER, ACCESS_MEMBER, ACCESS_UNSATISFIABLE)
    case Some(c) => c
  }

  /** Every change that applies sets each attribute for which it has an action and keeps the others. */
  lemma AttributesEffect(g: Group, a: Actions, source: ServiceId, us: Aci, known: set<Aci>)
    requires ApplyChange(g, a, source, us, known).Some?
    ensures var g' := ApplyChange(g, a, source, us, known).value.group;
            && SetOrKept(a.modifyTitle, g.name, g'.name)
            && SetOrKept(a.modifyAvatar, g.avatar, g'.avatar)
            && SetOrKept(a.modifyDescription, g.description, g'.description)
            && SetOrKept(a.modifyTimer, g.expireTimer, g'.expireTimer)
            && SetOrKept(a.modifyPassword, g.password, g'.password)
            && SetOrKept(a.modifyAnnouncementsOnly, g.announcementsOnly, g'.announcementsOnly)
            && g'.accessControl == Some(AccessOf(g'))
            && AccessSetOrKept(a.modifyAttributesAccess, AccessOf(g).attributes, AccessOf(g').attributes, ACCESS_MEMBER)
            && AccessSetOrKept(a.modifyMemberAccess, AccessOf(g).members, AccessOf(g').members, ACCESS_MEMBER)
            && AccessSetOrKept(a.modifyLinkAccess, AccessOf(g).addFromInviteLink, AccessOf(g').addFromInviteLink,
                               ACCESS_UNSATISFIABLE)
            && g'.hasSecretParams == g.hasSecretParams
  {
    hide EarlyWork, LateWork, StartWork;
  }

  // ----- runs -----

  /** The `k`th change of the run applies. */
  predicate Applies(g: Group, us: Aci, changes: seq<Incoming>, k: nat)
    requires k < |changes|
  {
    var c := changes[k];
    ApplyChange(AfterChanges(g, us, changes[..k]), c.actions, c.source, us, c.known).Some?
  }

  /** The `k`th change applies and has an action on the attribute, and no later one that applies has. */
  ghost predicate SetLast<T>(g: Group, us: Aci, changes: seq<Incoming>, k: nat, action: Actions -> Option<T>) {
    && k < |changes| && Applies(g, us, changes, k) && action(changes[k].actions).Some?
    && forall j :: k < j < |changes| && Applies(g, us, changes, j) ==> action(changes[j].actions).None?
  }

  ghost predicate NeverSet<T>(g: Group, us: Aci, changes: seq<Incoming>, action: Actions -> Option<T>) {
    forall j :: 0 <= j < |changes| && Applies(g, us, changes, j) ==> action(changes[j].actions).None?
  }

  /** In every change that applies, `action` says what becomes of `attribute`. */
  ghost predicate Governs<T(!new)>(us: Aci, attribute: Group -> T, action: Actions -> Option<T>) {
    forall g: Group, a: Actions, source: ServiceId, known: set<Aci> ::
      ApplyChange(g, a, source, us, known).Some? ==>
        SetOrKept(action(a), attribute(g), attribute(ApplyChange(g, a, source, us, known).value.group))
  }

  lemma {:induction false} AfterLast(g: Group, us: Aci, changes: seq<Incoming>, c: Incoming)
    ensures var before := AfterChanges(g, us, changes);
            AfterChanges(g, us, changes + [c]) ==
              match ApplyChange(before, c.actions, c.source, us, c.known)
              case None => before
              case Some(r) => r.group
    decreases |changes|
  {
    hide ApplyChange;
    if changes == [] {
      assert [] + [c] == [c] && [c][1..] == [];
    } else {
      assert (changes + [c])[1..] == changes[1..] + [c];
      var first := changes[0];
      match ApplyChange(g, first.actions, first.source, us, first.known)
      case None => AfterLast(g, us, changes[1..], c);
      case Some(r) => AfterLast(r.group, us, changes[1..], c);
    }
  }

  /** After any run an attribute is what the last applied change with an action on it set, and the
      first value if there is none. */
  lemma {:induction false} LastWins<T(!new)>(
      g: Group, us: Aci, changes: seq<Incoming>, attribute: Group -> T, action: Actions -> Option<T>)
    requires Governs(us, attribute, action)
    ensures forall k: nat :: SetLast(g, us, changes, k, action) ==>
              Some(attribute(AfterChanges(g, us, changes))) == action(changes[k].actions)
    ensures NeverSet(g, us, changes, action) ==> attribute(AfterChanges(g, us, changes)) == attribute(g)
    decreases |changes|
  {
    hide ApplyChange;
    if changes != [] {
      var n := |changes| - 1;
      var before, c := changes[..n], changes[n];
      assert changes == before + [c];
      AfterLast(g, us, before, c);
      LastWins(g, us, before, attribute, action);
      forall j | 0 <= j < n ensures Applies(g, us, changes, j) == Applies(g, us, before, j) {
        assert changes[..j] == before[..j];
      }
      hide AfterChanges;
      assert Applies(g, us, changes, n) <==>
          ApplyChange(AfterChanges(g, us, before), c.actions, c.source, us, c.known).Some?;
      if !(Applies(g, us, changes, n) && action(c.actions).Some?) {
        assert attribute(AfterChanges(g, us, changes)) == attribute(AfterChanges(g, us, before));
        forall k: nat | SetLast(g, us, changes, k, action) ensures SetLast(g, us, before, k, action) {
        }
      } else {
        forall k: nat | SetLast(g, us, changes, k, action) ensures k == n {
        }
      }
    }
  }

  function NameOf(g: Group): Option<string> { g.name }
  function AvatarOf(g: Group): Option<string> { g.avatar }
  function DescriptionOf(g: Group): Option<string> { g.description }
  function TimerOf(g: Group): Option<nat> { g.expireTimer }
  function PasswordOf(g: Group): Option<string> { g.password }
  function AnnouncementsOf(g: Group): bool { g.announcementsOnly }
  function AttributesAccessOf(g: Group): nat { AccessOf(g).attributes }
  function MemberAccessOf(g: Group): nat { AccessOf(g).members }
  function LinkAccessOf(g: Group): nat { AccessOf(g).addFromInviteLink }

  function TitleAction(a: Actions): Option<Option<string>> { a.modifyTitle }
  function AvatarAction(a: Actions): Option<Option<string>> { a.modifyAvatar }
  function DescriptionAction(a: Actions): Option<Option<string>> { a.modifyDescription }
  function TimerAction(a: Actions): Option<Option<nat>> { a.modifyTimer }
  function PasswordAction(a: Actions): Option<Option<string>> { a.modifyPassword }
  function AnnouncementsAction(a: Actions): Option<bool> { a.modifyAnnouncementsOnly }

  function NonZero(action: Option<nat>, default: nat): Option<nat> {
    match action
    case None => None
    case Some(v) => Some(if v == 0 then default else v)
  }

  function AttributesAccessAction(a: Actions): Option<nat> { NonZero(a.modifyAttributesAccess, ACCESS_MEMBER) }
  function MemberAccessAction(a: Actions): Option<nat> { NonZero(a.modifyMemberAccess, ACCESS_MEMBER) }
  function LinkAccessAction(a: Actions): Option<nat> { NonZero(a.modifyLinkAccess, ACCESS_UNSATISFIABLE) }

  /** Each attribute is governed by the action of its own kind, and by no other. */
  lemma EachByItsOwn(us: Aci)
    ensures Governs(us, NameOf, TitleAction) && Governs(us, AvatarOf, AvatarAction)
    ensures Governs(us, DescriptionOf, DescriptionAction) && Governs(us, TimerOf, TimerAction)
    ensures Governs(us, PasswordOf, PasswordAction) && Governs(us, AnnouncementsOf, AnnouncementsAction)
    ensures Governs(us, AttributesAccessOf, AttributesAccessAction)
    ensures Governs(us, MemberAccessOf, MemberAccessAction) && Governs(us, LinkAccessOf, LinkAccessAction)
  {
    hide ApplyChange;
    forall g: Group, a: Actions, source: ServiceId, known: set<Aci> | ApplyChange(g, a, source, us, known).Some?
      ensures var g' := ApplyChange(g, a, source, us, known).value.group;
              && SetOrKept(TitleAction(a), NameOf(g), NameOf(g'))
              && SetOrKept(AvatarAction(a), AvatarOf(g), AvatarOf(g'))
              && SetOrKept(DescriptionAction(a), DescriptionOf(g), DescriptionOf(g'))
              && SetOrKept(TimerAction(a), TimerOf(g), TimerOf(g'))
              && SetOrKept(PasswordAction(a), PasswordOf(g), PasswordOf(g'))
              && SetOrKept(AnnouncementsAction(a), AnnouncementsOf(g), AnnouncementsOf(g'))
              && SetOrKept(AttributesAccessAction(a), AttributesAccessOf(g), AttributesAccessOf(g'))
              && SetOrKept(MemberAccessAction(a), MemberAccessOf(g), MemberAccessOf(g'))
              && SetOrKept(LinkAccessAction(a), LinkAccessOf(g), LinkAccessOf(g'))
    {
      AttributesEffect(g, a, source, us, known);
    }
  }

  /** After any run, failing changes included, the name is what the last applied change with a title
      set, or else the first name; and likewise for every other attribute, each on its own. */
  lemma RunAttributes(g: Group, us: Aci, changes: seq<Incoming>, k: nat)
    ensures var g' := AfterChanges(g, us, changes);
            && (SetLast(g, us, changes, k, TitleAction) ==> Some(g'.name) == changes[k].actions.modifyTitle)
            && (SetLast(g, us, changes, k, AvatarAction) ==> Some(g'.avatar) == changes[k].actions.modifyAvatar)
            && (SetLast(g, us, changes, k, DescriptionAction) ==>
                  Some(g'.description) == changes[k].actions.modifyDescription)
            && (SetLast(g, us, changes, k, TimerAction) ==> Some(g'.expireTimer) == changes[k].actions.modifyTimer)
            && (SetLast(g, us, changes, k, PasswordAction) ==> Some(g'.password) == changes[k].actions.modifyPassword)
            && (SetLast(g, us, changes, k, AnnouncementsAction) ==>
                  Some(g'.announcementsOnly) == changes[k].actions.modifyAnnouncementsOnly)
            && (SetLast(g, us, changes, k, AttributesAccessAction) ==>
                  Some(AccessOf(g').attributes) == AttributesAccessAction(changes[k].actions))
            && (SetLast(g, us, changes, k, MemberAccessAction) ==>
                  Some(AccessOf(g').members) == MemberAccessAction(changes[k].actions))
            && (SetLast(g, us, changes, k, LinkAccessAction) ==>
                  Some(AccessOf(g').addFromInviteLink) == LinkAccessAction(changes[k].actions))
    ensures var g' := AfterChanges(g, us, changes);
            && (NeverSet(g, us, changes, TitleAction) ==> g'.name == g.name)
            && (NeverSet(g, us, changes, AvatarAction) ==> g'.avatar == g.avatar)
            && (NeverSet(g, us, changes, DescriptionAction) ==> g'.description == g.description)
            && (NeverSet(g, us, changes, TimerAction) ==> g'.expireTimer == g.expireTimer)
            && (NeverSet(g, us, changes, PasswordAction) ==> g'.password == g.password)
            && (NeverSet(g, us, changes, AnnouncementsAction) ==> g'.announcementsOnly == g.announcementsOnly)
            && (NeverSet(g, us, changes, AttributesAccessAction) ==> AccessOf(g').attributes == AccessOf(g).attributes)
            && (NeverSet(g, us, changes, MemberAccessAction) ==> AccessOf(g').members == AccessOf(g).members)
            && (NeverSet(g, us, changes, LinkAccessAction) ==>
                  AccessOf(g').addFromInviteLink == AccessOf(g).addFromInviteLink)
  {
    hide ApplyChange, AfterChanges, SetLast, NeverSet, Governs;
    EachByItsOwn(us);
    LastWins(g, us, changes, NameOf, TitleAction);
    LastWins(g, us, changes, AvatarOf, AvatarAction);
    LastWins(g, us, changes, DescriptionOf, DescriptionAction);
    LastWins(g, us, changes, TimerOf, TimerAction);
    LastWins(g, us, changes, PasswordOf, PasswordAction);
    LastWins(g, us, changes, AnnouncementsOf, AnnouncementsAction);
    LastWins(g, us, changes, AttributesAccessOf, AttributesAccessAction);
    LastWins(g, us, changes, MemberAccessOf, MemberAccessAction);
    LastWins(g, us, changes, LinkAccessOf, LinkAccessAction);
  }
}
