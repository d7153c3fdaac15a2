/** The sweep over all conversations that leaves one conversation for each V2 group id, walking the
    list from its end while conversations are removed from it. */
module ConflictSweep {
  import opened Options

  type Id = nat
  type GroupId = nat

  /** A V1 group has the V2 id derived from its own; what is not a group has none. */
  datatype Conversation =
    | GroupV1(id: Id, derivedGroupV2Id: Option<GroupId>)
    | GroupV2(id: Id, groupId: Option<GroupId>)
    | Private(id: Id)

  function Key(c: Conversation): Option<GroupId> {
    match c
    case GroupV1(_, derived) => derived
    case GroupV2(_, groupId) => groupId
    case Private(_) => None
  }

  function Ids(ms: seq<Conversation>): set<Id> {
    if ms == [] then {} else {ms[0].id} + Ids(ms[1..])
  }

  predicate Distinct(ms: seq<Conversation>) {
    ms == [] || (ms[0].id !in Ids(ms[1..]) && Distinct(ms[1..]))
  }

  function Without(ms: seq<Conversation>, id: Id): (r: seq<Conversation>)
    ensures Ids(r) == Ids(ms) - {id}
  {
    if ms == [] then []
    else if ms[0].id == id then Without(ms[1..], id)
    else
      var rest := Without(ms[1..], id);
      assert ([ms[0]] + rest)[1..] == rest;
      [ms[0]] + rest
  }

  // ----- who survives -----

  /** Of two claimants the one visited first stays, unless only the other is a V2 group. */
  function Better(visited: Conversation, next: Conversation): Conversation {
    if next.GroupV2? && !visited.GroupV2? then next else visited
  }

  /** The conversation that a group id ends up with; the last in the list is visited first. */
  function Survivor(ms: seq<Conversation>, k: GroupId): Option<Conversation> {
    if ms == [] then None else
    var later := Survivor(ms[1..], k);
    if Key(ms[0]) != Some(k) then later
    else if later.None? then Some(ms[0])
    else Some(Better(later.value, ms[0]))
  }

  predicate Survives(c: Conversation, ms: seq<Conversation>) {
    Key(c).None? || Survivor(ms, Key(c).value) == Some(c)
  }

  function Keep(part: seq<Conversation>, ms: seq<Conversation>): seq<Conversation> {
    if part == [] then []
    else if Survives(part[0], ms) then [part[0]] + Keep(part[1..], ms)
    else Keep(part[1..], ms)
  }

  function Find(ms: seq<Conversation>, id: Id): Option<Conversation> {
    if ms == [] then None else if ms[0].id == id then Some(ms[0]) else Find(ms[1..], id)
  }

  /** The conversation that what belonged to `id` belongs to in the end. */
  function Home(ms: seq<Conversation>, id: Id): Id {
    var c := Find(ms, id);
    if c.None? || Key(c.value).None? || Survivor(ms, Key(c.value).value).None? then id
    else Survivor(ms, Key(c.value).value).value.id
  }

  lemma {:induction false} SurvivorIsThere(ms: seq<Conversation>, k: GroupId)
    ensures var s := Survivor(ms, k);
            && (s.None? <==> forall c :: c in ms ==> Key(c) != Some(k))
            && (s.Some? ==> s.value in ms && Key(s.value) == Some(k))
  {
    if ms != [] {
      SurvivorIsThere(ms[1..], k);
    }
  }

  /** The survivor is a V2 group if any claimant is, and of those, or of all if there is none, the
      last in the list. */
  lemma {:induction false} SurvivorIsLastV2(ms: seq<Conversation>, k: GroupId, i: nat)
    requires i < |ms| && Key(ms[i]) == Some(k)
    ensures var s := Survivor(ms, k);
            && s.Some? && (ms[i].GroupV2? ==> s.value.GroupV2?)
            && (s.value.GroupV2? == ms[i].GroupV2? ==> exists j :: i <= j < |ms| && ms[j] == s.value)
    decreases |ms|
  {
    if i == 0 {
      SurvivorIsThere(ms[1..], k);
      if Survivor(ms, k).value != ms[0] {
        var s := Survivor(ms[1..], k).value;
        var j :| 0 <= j < |ms[1..]| && ms[1..][j] == s;
        assert ms[j + 1] == s;
      }
    } else {
      SurvivorIsLastV2(ms[1..], k, i - 1);
      var s := Survivor(ms, k).value;
      if s.GroupV2? == ms[i].GroupV2? && s == Survivor(ms[1..], k).value {
        var j :| i - 1 <= j < |ms[1..]| && ms[1..][j] == s;
        assert ms[j + 1] == s;
      }
    }
  }

  lemma {:induction false} KeptIff(part: seq<Conversation>, ms: seq<Conversation>, c: Conversation)
    ensures c in Keep(part, ms) <==> c in part && Survives(c, ms)
  {
    if part != [] {
      KeptIff(part[1..], ms, c);
      hide Survives;
    }
  }

  /** Exactly one conversation is left for a group id that anybody claims. */
  lemma OneLeft(ms: seq<Conversation>, k: GroupId, claimant: Conversation)
    requires claimant in ms && Key(claimant) == Some(k)
    ensures var s := Survivor(ms, k);
            s.Some? && forall c :: c in Keep(ms, ms) && Key(c) == Some(k) <==> c == s.value
  {
    SurvivorIsThere(ms, k);
    forall c ensures c in Keep(ms, ms) && Key(c) == Some(k) <==> c == Survivor(ms, k).value {
      KeptIff(ms, ms, c);
    }
  }

  // ----- what a sweep leaves -----

  /** A message of a conversation that is gone belongs to the survivor for its group id, and that
      conversation is there; any other message stays where it is. */
  lemma MessagesFollow(ms: seq<Conversation>, c: Conversation)
    requires Distinct(ms) && c in ms
    ensures if c in Keep(ms, ms) then Home(ms, c.id) == c.id
            else Key(c).Some? && Survivor(ms, Key(c).value).Some?
                 && Home(ms, c.id) == Survivor(ms, Key(c).value).value.id
                 && Survivor(ms, Key(c).value).value in Keep(ms, ms)
  {
    FindIs(ms, c);
    KeptIff(ms, ms, c);
    if Key(c).Some? {
      SurvivorIsThere(ms, Key(c).value);
      KeptIff(ms, ms, Survivor(ms, Key(c).value).value);
    }
  }

  lemma SurvivorOfKept(ms: seq<Conversation>, k: GroupId)
    ensures Survivor(Keep(ms, ms), k) == Survivor(ms, k)
  {
    SurvivorIsThere(ms, k);
    SurvivorIsThere(Keep(ms, ms), k);
    var s, t := Survivor(ms, k), Survivor(Keep(ms, ms), k);
    if t.Some? {
      KeptIff(ms, ms, t.value);
      OneLeft(ms, k, t.value);
    } else if s.Some? {
      KeptIff(ms, ms, s.value);
    }
  }

  lemma {:induction false} KeepAll(part: seq<Conversation>, ms: seq<Conversation>)
    requires forall c :: c in part ==> Survives(c, ms)
    ensures Keep(part, ms) == part
  {
    if part != [] {
      KeepAll(part[1..], ms);
      hide Survives;
    }
  }

  /** Sweeping again changes nothing. */
  lemma SweepingTwice(ms: seq<Conversation>, id: Id)
    ensures var left := Keep(ms, ms);
            Keep(left, left) == left && Home(left, Home(ms, id)) == Home(ms, id)
  {
    var left := Keep(ms, ms);
    forall c | c in left ensures Survives(c, left) {
      KeptIff(ms, ms, c);
      if Key(c).Some? {
        SurvivorOfKept(ms, Key(c).value);
      }
    }
    KeepAll(left, left);
    FindNone(left, Home(ms, id));
  }

  /** A V1 group goes into the V2 group that its own id derives to: the V1 conversation is gone, and what
      belonged to it belongs to a V2 group with that id. */
  lemma MigratedGroup(ms: seq<Conversation>, v1: Id, v2: Id, k: GroupId)
    requires Distinct(ms) && GroupV1(v1, Some(k)) in ms && GroupV2(v2, Some(k)) in ms
    ensures GroupV1(v1, Some(k)) !in Keep(ms, ms)
    ensures exists home: Id :: GroupV2(home, Some(k)) in Keep(ms, ms) && Home(ms, v1) == home && Home(ms, v2) == home
  {
    var c1, c2 := GroupV1(v1, Some(k)), GroupV2(v2, Some(k));
    var i :| 0 <= i < |ms| && ms[i] == c2;
    SurvivorIsLastV2(ms, k, i);
    SurvivorIsThere(ms, k);
    OneLeft(ms, k, c2);
    FindIs(ms, c1);
    FindIs(ms, c2);
    var s := Survivor(ms, k).value;
    assert s == GroupV2(s.id, Some(k)) && s in Keep(ms, ms);
  }

  /** Conversations that claim no group id stay, and so does a group whose id nobody else claims. */
  lemma UnclaimedStay(ms: seq<Conversation>, c: Conversation, k: GroupId)
    requires c in ms
    requires c.Private? || (c.GroupV1? && c.derivedGroupV2Id.None?) || (c.GroupV2? && c.groupId.None?)
             || ((c == GroupV1(c.id, Some(k)) || c == GroupV2(c.id, Some(k)))
                 && forall d :: d in ms && d != c ==> d != GroupV1(d.id, Some(k)) && d != GroupV2(d.id, Some(k)))
    ensures c in Keep(ms, ms)
  {
    KeptIff(ms, ms, c);
    SurvivorIsThere(ms, k);
  }

  // ----- one more conversation visited -----

  lemma {:induction false} WithoutAbsent(ms: seq<Conversation>, id: Id)
    requires id !in Ids(ms)
    ensures Without(ms, id) == ms
  {
    if ms != [] {
      WithoutAbsent(ms[1..], id);
    }
  }

  lemma {:induction false} WithoutAppend(ms: seq<Conversation>, ns: seq<Conversation>, id: Id)
    ensures Without(ms + ns, id) == Without(ms, id) + Without(ns, id)
  {
    if ms == [] {
      assert ms + ns == ns;
    } else {
      assert (ms + ns)[1..] == ms[1..] + ns;
      WithoutAppend(ms[1..], ns, id);
    }
  }

  lemma {:induction false} InIds(ms: seq<Conversation>, c: Conversation)
    requires c in ms
    ensures c.id in Ids(ms)
  {
    if ms[0] != c {
      InIds(ms[1..], c);
    }
  }

  lemma {:induction false} FindIs(ms: seq<Conversation>, c: Conversation)
    requires Distinct(ms) && c in ms
    ensures Find(ms, c.id) == Some(c)
  {
    if ms[0] != c {
      FindIs(ms[1..], c);
      InIds(ms[1..], c);
    }
  }

  lemma {:induction false} FindNone(ms: seq<Conversation>, id: Id)
    ensures Find(ms, id).None? <==> id !in Ids(ms)
    ensures Find(ms, id).Some? ==> Find(ms, id).value in ms && Find(ms, id).value.id == id
  {
    if ms != [] {
      FindNone(ms[1..], id);
    }
  }

  lemma {:induction false} KeptIds(part: seq<Conversation>, ms: seq<Conversation>)
    ensures Ids(Keep(part, ms)) <= Ids(part)
  {
    if part != [] {
      KeptIds(part[1..], ms);
      assert ([part[0]] + Keep(part[1..], ms))[1..] == Keep(part[1..], ms);
      hide Survives;
    }
  }

  /** Visiting a conversation that changes no survivor leaves the rest as it is. */
  lemma {:induction false} KeepSame(part: seq<Conversation>, ms: seq<Conversation>, more: seq<Conversation>)
    requires forall c :: c in part ==> (Survives(c, ms) <==> Survives(c, more))
    ensures Keep(part, more) == Keep(part, ms)
  {
    if part != [] {
      KeepSame(part[1..], ms, more);
      hide Survives;
    }
  }

  /** Visiting one that displaces a survivor removes just that. */
  lemma {:induction false} KeepLess(
      part: seq<Conversation>, ms: seq<Conversation>, more: seq<Conversation>, gone: Conversation)
    requires forall c :: c in part ==> (Survives(c, more) <==> Survives(c, ms) && c.id != gone.id)
    ensures Keep(part, more) == Without(Keep(part, ms), gone.id)
  {
    if part != [] {
      KeepLess(part[1..], ms, more, gone);
      assert ([part[0]] + Keep(part[1..], ms))[1..] == Keep(part[1..], ms);
      hide Survives;
    }
  }

  /** The cases of a visit: who gives way to whom, if anybody does. */
  function GivesWay(c: Conversation, visited: seq<Conversation>): Option<(Conversation, Conversation)> {
    if Key(c).None? || Survivor(visited, Key(c).value).None? then None else
    var existing := Survivor(visited, Key(c).value).value;
    if c.GroupV2? && !existing.GroupV2? then Some((existing, c)) else Some((c, existing))
  }

  lemma VisitSurvives(c: Conversation, visited: seq<Conversation>, d: Conversation)
    requires Distinct([c] + visited) && d in visited
    ensures Survives(d, [c] + visited) <==>
              Survives(d, visited) && (GivesWay(c, visited).Some? ==> d.id != GivesWay(c, visited).value.0.id)
  {
    assert ([c] + visited)[1..] == visited;
    InIds(visited, d);
    if Key(c).Some? && Survivor(visited, Key(c).value).Some? {
      var existing := Survivor(visited, Key(c).value).value;
      SurvivorIsThere(visited, Key(c).value);
      FindIs(visited, d);
      FindIs(visited, existing);
    }
  }

  /** After a visit those are left who were left before, with the newcomer in front, less the one who
      gave way. */
  lemma VisitKeeps(c: Conversation, visited: seq<Conversation>)
    requires Distinct([c] + visited)
    ensures var ms := [c] + visited;
            Keep(ms, ms) == if GivesWay(c, visited).None? then [c] + Keep(visited, visited)
                            else Without([c] + Keep(visited, visited), GivesWay(c, visited).value.0.id)
  {
    var ms := [c] + visited;
    assert ms[1..] == visited;
    KeptIds(visited, visited);
    forall d | d in visited
      ensures Survives(d, ms) <==>
                Survives(d, visited) && (GivesWay(c, visited).Some? ==> d.id != GivesWay(c, visited).value.0.id)
      ensures d.id != c.id
    {
      VisitSurvives(c, visited, d);
      InIds(visited, d);
    }
    assert ([c] + Keep(visited, visited))[1..] == Keep(visited, visited);
    if GivesWay(c, visited).None? {
      KeepSame(visited, visited, ms);
    } else {
      var gone := GivesWay(c, visited).value.0;
      if gone == c {
        WithoutAbsent(Keep(visited, visited), c.id);
        KeepSame(visited, visited, ms);
      } else {
        KeepLess(visited, visited, ms, gone);
      }
      if Key(c).Some? && Survivor(visited, Key(c).value).Some? {
        SurvivorIsThere(visited, Key(c).value);
        InIds(visited, Survivor(visited, Key(c).value).value);
      }
    }
  }

  function Redirect(id: Id, gone: Id, current: Id): Id {
    if id == gone then current else id
  }

  /** After a visit what belonged to the one who gave way belongs to the other. */
  lemma VisitHomes(c: Conversation, visited: seq<Conversation>, id: Id)
    requires Distinct([c] + visited)
    ensures Home([c] + visited, id) ==
              if GivesWay(c, visited).None? then Home(visited, id)
              else Redirect(Home(visited, id), GivesWay(c, visited).value.0.id, GivesWay(c, visited).value.1.id)
  {
    var ms := [c] + visited;
    assert ms[1..] == visited;
    FindNone(visited, id);
    var f := Find(visited, id);
    if f.Some? && Key(f.value).Some? {
      SurvivorIsThere(visited, Key(f.value).value);
      InIds(visited, Survivor(visited, Key(f.value).value).value);
      FindIs(visited, Survivor(visited, Key(f.value).value).value);
      InIds(visited, f.value);
    }
    if Key(c).Some? && Survivor(visited, Key(c).value).Some? {
      var existing := Survivor(visited, Key(c).value).value;
      SurvivorIsThere(visited, Key(c).value);
      InIds(visited, existing);
      FindIs(visited, existing);
    }
  }

  /** The survivors after a visit. */
  lemma VisitSurvivors(c: Conversation, visited: seq<Conversation>)
    ensures forall k: GroupId :: Survivor([c] + visited, k) ==
              if Key(c) != Some(k) then Survivor(visited, k)
              else if Survivor(visited, k).None? then Some(c)
              else Some(Better(Survivor(visited, k).value, c))
  {
    assert ([c] + visited)[1..] == visited;
  }

  lemma {:induction false} IdsAppend(ms: seq<Conversation>, ns: seq<Conversation>)
    ensures Ids(ms + ns) == Ids(ms) + Ids(ns)
  {
    if ms == [] {
      assert ms + ns == ns;
    } else {
      assert (ms + ns)[1..] == ms[1..] + ns;
      IdsAppend(ms[1..], ns);
    }
  }

  /** Both of a pair are groups and still there. */
  lemma GivesWayIsLive(c: Conversation, visited: seq<Conversation>)
    requires Distinct([c] + visited) && GivesWay(c, visited).Some?
    ensures var (gone, current) := GivesWay(c, visited).value;
            && !gone.Private? && !current.Private?
            && {gone.id, current.id} <= {c.id} + Ids(Keep(visited, visited))
            && {gone.id, current.id} <= Ids([c] + visited)
  {
    var existing := Survivor(visited, Key(c).value).value;
    SurvivorIsThere(visited, Key(c).value);
    KeptIff(visited, visited, existing);
    InIds(Keep(visited, visited), existing);
    InIds(visited, existing);
    assert ([c] + visited)[1..] == visited;
  }

  // ----- the sweep -----

  type MessageId = nat

  predicate IsGroup(c: Conversation) {
    !c.Private?
  }

  function Redirected(owners: map<MessageId, Id>, gone: Id, current: Id): map<MessageId, Id> {
    map m | m in owners :: Redirect(owners[m], gone, current)
  }

  function AtHome(ms: seq<Conversation>, owners: map<MessageId, Id>): map<MessageId, Id> {
    map m | m in owners :: Home(ms, owners[m])
  }

  /** The group ids visited, with their survivors so far. */
  ghost predicate Lists(byGroupV2Id: map<GroupId, Conversation>, visited: seq<Conversation>) {
    forall k: GroupId :: (k in byGroupV2Id <==> Survivor(visited, k).Some?)
                && (k in byGroupV2Id ==> Survivor(visited, k) == Some(byGroupV2Id[k]))
  }

  lemma {:induction false} DistinctSplit(ms: seq<Conversation>, i: nat)
    requires Distinct(ms) && i < |ms|
    ensures Distinct(ms[i..]) && Ids(ms[..i]) !! Ids(ms[i..])
    ensures ms[i].id !in Ids(ms[..i])
  {
    if i > 0 {
      DistinctSplit(ms[1..], i - 1);
      assert ms[1..][i - 1..] == ms[i..] && ms[..i][1..] == ms[1..][..i - 1];
      InIds(ms[1..], ms[i]);
      SuffixIds(ms[1..], i - 1);
    }
  }

  lemma {:induction false} SuffixIds(ms: seq<Conversation>, i: nat)
    requires i <= |ms|
    ensures Ids(ms[i..]) <= Ids(ms)
  {
    if i > 0 {
      SuffixIds(ms[1..], i - 1);
      assert ms[1..][i - 1..] == ms[i..];
    }
  }

  lemma LiveIds(front: seq<Conversation>, c: Conversation, rest: seq<Conversation>)
    ensures Ids(front + ([c] + rest)) == Ids(front) + ({c.id} + Ids(rest))
  {
    assert ([c] + rest)[1..] == rest;
    IdsAppend(front, [c] + rest);
  }

  lemma NothingVisited(owners: map<MessageId, Id>)
    ensures Keep([], []) == [] && AtHome([], owners) == owners && Lists(map[], [])
  {
  }

  lemma VisitOwners(c: Conversation, visited: seq<Conversation>, owners: map<MessageId, Id>)
    requires Distinct([c] + visited)
    ensures AtHome([c] + visited, owners) ==
              if GivesWay(c, visited).None? then AtHome(visited, owners)
              else Redirected(AtHome(visited, owners), GivesWay(c, visited).value.0.id, GivesWay(c, visited).value.1.id)
  {
    hide Home;
    forall m | m in owners
      ensures Home([c] + visited, owners[m]) ==
                if GivesWay(c, visited).None? then Home(visited, owners[m])
                else Redirect(Home(visited, owners[m]), GivesWay(c, visited).value.0.id,
                              GivesWay(c, visited).value.1.id)
    {
      VisitHomes(c, visited, owners[m]);
    }
  }

  lemma WithoutInSuffix(front: seq<Conversation>, back: seq<Conversation>, id: Id)
    requires id !in Ids(front)
    ensures Without(front + back, id) == front + Without(back, id)
  {
    WithoutAppend(front, back, id);
    WithoutAbsent(front, id);
  }

  /** The live conversations, in list order, and which of them each message belongs to. */
  class Conversations {
    var models: seq<Conversation>
    var owners: map<MessageId, Id>

    constructor (models: seq<Conversation>, owners: map<MessageId, Id>)
      ensures this.models == models && this.owners == owners
    {
      this.models, this.owners := models, owners;
    }

    /** Moves the messages and removes the obsolete conversation, unless it is gone already or the two
        are of different kinds. */
    method DoCombineConversations(current: Conversation, obsolete: Conversation)
      modifies this
      ensures if obsolete.id in Ids(old(models)) && IsGroup(current) == IsGroup(obsolete)
              then models == Without(old(models), obsolete.id)
                   && owners == Redirected(old(owners), obsolete.id, current.id)
              else models == old(models) && owners == old(owners)
    {
      FindNone(models, obsolete.id);
      if Find(models, obsolete.id).None? || IsGroup(current) != IsGroup(obsolete) {
        return;
      }
      owners := map m | m in owners :: if owners[m] == obsolete.id then current.id else owners[m];
      models := Without(models, obsolete.id);
    }

    /** The walk from the end of the list; a removal never moves what is still to be visited. */
    method DoCheckForConflicts()
      requires Distinct(models)
      modifies this
      ensures models == Keep(old(models), old(models))
      ensures owners == AtHome(old(models), old(owners))
    {
      hide Keep, Survivor, Home, Without, Ids, Distinct, Find;
      ghost var all, owned := models, owners;
      var byGroupV2Id: map<GroupId, Conversation> := map[];
      assert all[|all|..] == [] && all[..|all|] == all;
      NothingVisited(owned);
      var i := |models|;
      while i > 0
        invariant 0 <= i <= |all| && Distinct(all)
        invariant models == all[..i] + Keep(all[i..], all[i..])
        invariant owners == AtHome(all[i..], owned)
        invariant Lists(byGroupV2Id, all[i..])
      {
        i := i - 1;
        ghost var visited, front := all[i + 1..], all[..i];
        var conversation := models[i];
        assert conversation == all[i] && all[i..] == [conversation] + visited;
        assert models == front + ([conversation] + Keep(visited, visited));
        DistinctSplit(all, i);
        VisitKeeps(conversation, visited);
        VisitOwners(conversation, visited, owned);
        VisitSurvivors(conversation, visited);
        if GivesWay(conversation, visited).Some? {
          GivesWayIsLive(conversation, visited);
        }
        LiveIds(front, conversation, Keep(visited, visited));
        if Key(conversation).Some? {
          var k := Key(conversation).value;
          if k !in byGroupV2Id {
            byGroupV2Id := byGroupV2Id[k := conversation];
          } else {
            var existing := byGroupV2Id[k];
            if conversation.GroupV2? && !existing.GroupV2? {
              WithoutInSuffix(front, [conversation] + Keep(visited, visited), existing.id);
              DoCombineConversations(conversation, existing);
              byGroupV2Id := byGroupV2Id[k := conversation];
            } else {
              WithoutInSuffix(front, [conversation] + Keep(visited, visited), conversation.id);
              DoCombineConversations(existing, conversation);
            }
          }
        }
      }
      assert all[0..] == all;
    }
  }
}
