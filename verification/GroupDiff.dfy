/** What a change of group state is told as: the details between an old and a current state, and the
    message and timer notice made of them. */
module GroupDiff {
  import opened Options
  import opened ServiceIds
  import opened Dicts
  import opened GroupDetails
  import opened GroupApply

  const ACCESS_ANY := 1
  const ACCESS_ADMINISTRATOR := 3

  // ----- attributes compared one by one -----

  function One(b: bool, d: Detail): seq<Detail> {
    if b then [d] else []
  }

  function Link(g: Group): nat {
    if g.accessControl.Some? then g.accessControl.value.addFromInviteLink else 0
  }

  predicate LinkEnabled(g: Group) {
    Link(g) == ACCESS_ANY || Link(g) == ACCESS_ADMINISTRATOR
  }

  function LinkDetails(a: Group, b: Group): seq<Detail> {
    if !LinkEnabled(a) && LinkEnabled(b) then [GroupLinkAdd(Link(b))]
    else if LinkEnabled(a) && !LinkEnabled(b) then [GroupLinkRemove]
    else One(LinkEnabled(a) && LinkEnabled(b) && Link(a) != Link(b), AccessInviteLink(Link(b)))
  }

  /** A change of access shows only when both states have access rules. */
  function AccessDetails(a: Group, b: Group): seq<Detail> {
    if a.accessControl.None? || b.accessControl.None? then [] else
    var x, y := a.accessControl.value, b.accessControl.value;
    One(x.attributes != y.attributes, AccessAttributes(y.attributes))
    + One(x.members != y.members, AccessMembers(y.members))
  }

  function TextDetails(a: Group, b: Group): seq<Detail> {
    One(a.avatar != b.avatar, AvatarChange(b.avatar.None?))
    + One(a.name != b.name, Title(b.name))
    + One(Truthy(a.password) && Truthy(b.password) && a.password != b.password, GroupLinkReset)
    + One(a.description != b.description, Description(!Truthy(b.description), b.description))
  }

  // ----- members -----

  /** What is left to account for of the old state, and the two sets that do not change meanwhile:
      which PNI an ACI goes with, and who is invited now. */
  datatype Lookups = Lookups(
    members: Dict<Aci, Member>, pending: Dict<ServiceId, PendingMember>, approvals: Dict<Aci, nat>,
    pnis: Dict<Aci, Pni>, invitedNow: set<ServiceId>)

  /** The invitation by which `aci` may have joined: its own, else that of its PNI. */
  function Invitation(l: Lookups, aci: Aci): Option<PendingMember> {
    if Has(l.pending, OfAci(aci)) then Get(l.pending, OfAci(aci))
    else match Get(l.pnis, aci)
         case None => None
         case Some(pni) => Get(l.pending, OfPni(pni))
  }

  function JoinDetail(l: Lookups, aci: Aci, m: Member): Detail {
    match Invitation(l, aci)
    case Some(p) => MemberAddFromInvite(aci, p.addedBy)
    case None =>
      if m.joinedFromLink then MemberAddFromLink(aci)
      else if m.approvedByAdmin then MemberAddFromAdminApproval(aci)
      else MemberAdd(aci)
  }

  function MemberDetail(l: Lookups, aci: Aci, m: Member): seq<Detail> {
    match Get(l.members, aci)
    case None => [JoinDetail(l, aci, m)]
    case Some(o) => One(o.role != m.role, MemberPrivilege(aci, m.role))
  }

  /** A new member whose own ACI was not invited used up the invitation of its PNI, unless the PNI
      is still invited. */
  predicate UsesPni(l: Lookups, aci: Aci) {
    && !Has(l.members, aci) && !Has(l.pending, OfAci(aci))
    && Has(l.pnis, aci) && Has(l.pending, OfPni(Get(l.pnis, aci).value))
    && OfPni(Get(l.pnis, aci).value) !in l.invitedNow
  }

  function AccountFor(l: Lookups, aci: Aci): Lookups {
    var pending := if UsesPni(l, aci) then Remove(l.pending, OfPni(Get(l.pnis, aci).value)) else l.pending;
    l.(members := Remove(l.members, aci), pending := Remove(pending, OfAci(aci)),
       approvals := Remove(l.approvals, aci))
  }

  function MemberDetails(l: Lookups, ms: Dict<Aci, Member>): seq<Detail>
    decreases |ms|
  {
    if ms == [] then [] else
    MemberDetail(l, ms[0].key, ms[0].value) + MemberDetails(AccountFor(l, ms[0].key), ms[1..])
  }

  function AfterMembers(l: Lookups, ms: Dict<Aci, Member>): Lookups
    decreases |ms|
  {
    if ms == [] then l else AfterMembers(AccountFor(l, ms[0].key), ms[1..])
  }

  lemma Regroup<T>(a: seq<T>, b: seq<T>, c: seq<T>)
    ensures a + (b + c) == (a + b) + c
    ensures a + ([] + c) == a + c && a + [] == a
  {
  }

  /** The loop over the current members. */
  method CompareMembers(l: Lookups, ms: Dict<Aci, Member>) returns (l': Lookups, details: seq<Detail>)
    ensures l' == AfterMembers(l, ms) && details == MemberDetails(l, ms)
  {
    hide AccountFor, JoinDetail, Get, Keys;
    l', details := l, [];
    for i := 0 to |ms|
      invariant AfterMembers(l', ms[i..]) == AfterMembers(l, ms)
      invariant details + MemberDetails(l', ms[i..]) == MemberDetails(l, ms)
    {
      var aci, m := ms[i].key, ms[i].value;
      ghost var rest := MemberDetails(AccountFor(l', aci), ms[i + 1..]);
      assert ms[i..][0] == ms[i] && ms[i..][1..] == ms[i + 1..];
      Regroup(details, MemberDetail(l', aci, m), rest);
      if !Has(l'.members, aci) {
        details := details + [JoinDetail(l', aci, m)];
      } else if Get(l'.members, aci).value.role != m.role {
        details := details + [MemberPrivilege(aci, m.role)];
      }
      l' := AccountFor(l', aci);
    }
    assert ms[|ms|..] == [];
  }

  // ----- what is new in a list, and what is gone from it -----

  function NewIds<K(==), V, W>(lookup: Dict<K, V>, now: Dict<K, W>): seq<K>
    decreases |now|
  {
    if now == [] then [] else
    (if Has(lookup, now[0].key) then [] else [now[0].key]) + NewIds(Remove(lookup, now[0].key), now[1..])
  }

  function Gone<K(==), V, W>(lookup: Dict<K, V>, now: Dict<K, W>): Dict<K, V>
    decreases |now|
  {
    if now == [] then lookup else Gone(Remove(lookup, now[0].key), now[1..])
  }

  /** The loop over a current list: counts what is new, keeps the last of it, and crosses out of the
      old lookup what is still there. */
  method CompareIds<K(==), V, W>(lookup: Dict<K, V>, now: Dict<K, W>) returns (gone: Dict<K, V>, added: seq<K>)
    ensures gone == Gone(lookup, now) && added == NewIds(lookup, now)
  {
    gone, added := lookup, [];
    for i := 0 to |now|
      invariant Gone(gone, now[i..]) == Gone(lookup, now)
      invariant added + NewIds(gone, now[i..]) == NewIds(lookup, now)
    {
      var k := now[i].key;
      ghost var rest := NewIds(Remove(gone, k), now[i + 1..]);
      assert now[i..][0] == now[i] && now[i..][1..] == now[i + 1..];
      assert added + ([k] + rest) == (added + [k]) + rest;
      assert added + ([] + rest) == added + rest;
      if !Has(gone, k) {
        added := added + [k];
      }
      gone := Remove(gone, k);
    }
    assert now[|now|..] == [];
  }

  function PendingAdds(ids: seq<ServiceId>): seq<Detail> {
    if |ids| > 1 then [PendingAddMany(|ids|)] else if |ids| == 1 then [PendingAddOne(ids[0])] else []
  }

  function PendingRemoves(gone: Dict<ServiceId, PendingMember>): seq<Detail> {
    if |gone| > 1 then
      var inviter := gone[0].value.addedBy;
      var allSame := forall e :: e in gone ==> e.value.addedBy == inviter;
      [PendingRemoveMany(|gone|, if allSame then inviter else None)]
    else if |gone| == 1 then [PendingRemoveOne(gone[0].key, gone[0].value.addedBy)]
    else []
  }

  function MemberRemoves(gone: Dict<Aci, Member>): seq<Detail> {
    seq(|gone|, i requires 0 <= i < |gone| => MemberRemove(gone[i].key))
  }

  function ApprovalAdds(ids: seq<Aci>): seq<Detail> {
    seq(|ids|, i requires 0 <= i < |ids| => ApprovalAddOne(ids[i]))
  }

  function ApprovalRemoves(gone: Dict<Aci, nat>): seq<Detail> {
    seq(|gone|, i requires 0 <= i < |gone| => ApprovalRemoveOne(gone[i].key))
  }

  // ----- all details -----

  function Start(a: Group, b: Group, pnis: Dict<Aci, Pni>): Lookups {
    Lookups(FromPairs(a.members), FromPairs(a.pending), FromPairs(a.approvals), pnis, Keys(b.pending))
  }

  function ListDetails(l: Lookups, b: Group): seq<Detail> {
    var l' := AfterMembers(l, b.members);
    MemberDetails(l, b.members) + MemberRemoves(l'.members)
    + PendingAdds(NewIds(l'.pending, b.pending)) + PendingRemoves(Gone(l'.pending, b.pending))
    + ApprovalAdds(NewIds(l'.approvals, b.approvals)) + ApprovalRemoves(Gone(l'.approvals, b.approvals))
  }

  function Details(a: Group, b: Group, pnis: Dict<Aci, Pni>): seq<Detail> {
    AccessDetails(a, b) + LinkDetails(a, b) + TextDetails(a, b)
    + ListDetails(Start(a, b, pnis), b)
    + One(a.announcementsOnly != b.announcementsOnly, AnnouncementsOnly(b.announcementsOnly))
  }

  // ----- the message -----

  datatype Us = Us(aci: Aci, pni: Option<Pni>)

  /** A group change message: who it is from, its details, and whether it counts as seen. */
  datatype Note = Note(from: Option<ServiceId>, details: seq<Detail>, seen: Option<bool>)

  datatype Diff = Diff(note: Option<Note>, timer: Option<nat>)

  predicate IsUs(us: Us, id: ServiceId) {
    id == OfAci(us.aci) || (us.pni.Some? && id == OfPni(us.pni.value))
  }

  predicate OurAdd(us: Us, d: Detail) {
    && (d.MemberAddFromInvite? || d.MemberAddFromLink? || d.MemberAddFromAdminApproval? || d.MemberAdd?)
    && d.aci == us.aci
  }

  function KeepOurAdds(us: Us, ds: seq<Detail>): seq<Detail> {
    if ds == [] then [] else One(OurAdd(us, ds[0]), ds[0]) + KeepOurAdds(us, ds[1..])
  }

  /** Promoted PNIs, with our own pair on top. */
  function AllPnis(us: Us, promoted: Dict<Aci, Pni>): Dict<Aci, Pni> {
    if us.pni.Some? then Put(promoted, us.aci, us.pni.value) else promoted
  }

  /** The last ACI that goes with a PNI. */
  function AciOf(pnis: Dict<Aci, Pni>, pni: Pni): Option<Aci> {
    if pnis == [] then None
    else if pnis[|pnis| - 1].value == pni then Some(pnis[|pnis| - 1].key)
    else AciOf(pnis[..|pnis| - 1], pni)
  }

  function From(pnis: Dict<Aci, Pni>, source: Option<ServiceId>): Option<ServiceId> {
    if source.Some? && source.value.OfPni? && AciOf(pnis, source.value.pni).Some?
    then Some(OfAci(AciOf(pnis, source.value.pni).value))
    else source
  }

  /** Under which of our ids we are invited; our ACI goes first. */
  function InvitedAs(us: Us, b: Group): Option<ServiceId> {
    if Has(b.pending, OfAci(us.aci)) then Some(OfAci(us.aci))
    else if us.pni.Some? && Has(b.pending, OfPni(us.pni.value)) then Some(OfPni(us.pni.value))
    else None
  }

  /** The inviter on the last invitation that is for us. */
  function WhoInvitedUs(us: Us, pending: Dict<ServiceId, PendingMember>): Option<ServiceId> {
    if pending == [] then None else
    var e := pending[|pending| - 1];
    if !IsUs(us, e.key) then WhoInvitedUs(us, pending[..|pending| - 1])
    else if e.value.addedBy.Some? then Some(OfAci(e.value.addedBy.value))
    else None
  }

  predicate FirstUpdate(a: Group) {
    a.revision.None?
  }

  predicate JustJoined(a: Group, b: Group, us: Us) {
    !FirstUpdate(a) && !Has(a.members, us.aci) && Has(b.members, us.aci)
  }

  function OrSource<T>(o: Option<T>, d: Option<T>): Option<T> {
    if o.Some? then o else d
  }

  function TimerNotice(a: Group, b: Group): Option<nat> {
    if OrElse(a.expireTimer, 0) != OrElse(b.expireTimer, 0) then Some(OrElse(b.expireTimer, 0)) else None
  }

  /** The first message about a group: invited, asked to join, created, or added. None where the
      source's assertion of a single self-add fails. */
  function FirstNote(b: Group, us: Us, source: Option<ServiceId>, from: Option<ServiceId>,
                     drop: bool, details: seq<Detail>): Option<Option<Note>> {
    var seen := Some(Some(OfAci(us.aci)) == source);
    if InvitedAs(us, b).Some? then
      Some(Some(Note(OrSource(WhoInvitedUs(us, b.pending), from), [PendingAddOne(InvitedAs(us, b).value)], seen)))
    else if Has(b.approvals, us.aci) then
      Some(Some(Note(Some(OfAci(us.aci)), [ApprovalAddOne(us.aci)], None)))
    else if drop then Some(None)
    else if b.revision == Some(0) && source == Some(OfAci(us.aci)) then Some(Some(Note(from, [Create], seen)))
    else if Has(b.members, us.aci) then
      if |KeepOurAdds(us, details)| == 1 then Some(Some(Note(from, KeepOurAdds(us, details), seen))) else None
    else if b.revision == Some(0) then Some(Some(Note(from, [Create], seen)))
    else if details != [] then Some(Some(Note(from, details, seen)))
    else Some(None)
  }

  /** The messages about a group that was known before. */
  function LaterNote(a: Group, b: Group, us: Us, source: Option<ServiceId>, from: Option<ServiceId>,
                     details: seq<Detail>): Option<Option<Note>> {
    var seen := Some(Some(OfAci(us.aci)) == source);
    if JustJoined(a, b, us) then
      if |KeepOurAdds(us, details)| == 1 then
        Some(Some(Note(from, KeepOurAdds(us, details) + One(|details| > 1, Summary), seen)))
      else None
    else if details != [] then Some(Some(Note(from, details, seen)))
    else Some(None)
  }

  function DiffOf(a: Group, b: Group, us: Us, source: Option<ServiceId>, drop: bool,
                  promoted: Dict<Aci, Pni>): Option<Diff> {
    var pnis := AllPnis(us, promoted);
    var details, from := Details(a, b, pnis), From(pnis, source);
    var note := if FirstUpdate(a) then FirstNote(b, us, source, from, drop, details)
                else LaterNote(a, b, us, source, from, details);
    if note.None? then None else Some(Diff(note.value, TimerNotice(a, b)))
  }

  /** The source's passes in order: attributes, members, invitations, requests, then the message. */
  method ExtractDiffs(a: Group, b: Group, us: Us, source: Option<ServiceId>, drop: bool, promoted: Dict<Aci, Pni>)
    returns (r: Option<Diff>)
    ensures r == DiffOf(a, b, us, source, drop, promoted)
  {
    var pnis := AllPnis(us, promoted);
    var details := AccessDetails(a, b) + LinkDetails(a, b) + TextDetails(a, b);
    var start := Start(a, b, pnis);
    var l, memberDetails := CompareMembers(start, b.members);
    var gonePending, newPending := CompareIds(l.pending, b.pending);
    var goneApprovals, newApprovals := CompareIds(l.approvals, b.approvals);
    var listDetails := memberDetails + MemberRemoves(l.members)
                       + PendingAdds(newPending) + PendingRemoves(gonePending)
                       + ApprovalAdds(newApprovals) + ApprovalRemoves(goneApprovals);
    details := details + listDetails
               + One(a.announcementsOnly != b.announcementsOnly, AnnouncementsOnly(b.announcementsOnly));
    assert details == Details(a, b, pnis);
    var from := From(pnis, source);
    var note := if FirstUpdate(a) then FirstNote(b, us, source, from, drop, details)
                else LaterNote(a, b, us, source, from, details);
    r := if note.None? then None else Some(Diff(note.value, TimerNotice(a, b)));
  }
}
