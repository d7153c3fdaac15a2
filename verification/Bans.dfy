/** Banning someone from a group whose list of bans may be full. */
module Bans {
  import opened Options
  import opened ServiceIds
  import opened Dicts
  import opened GroupApply
  import opened GroupEffects

  type BanList = Dict<ServiceId, nat>

  // ----- the newest bans first -----

  /** Puts `e` after every ban that is at least as recent. */
  function Insert(s: BanList, e: Entry<ServiceId, nat>): BanList {
    if s != [] && s[0].value >= e.value then [s[0]] + Insert(s[1..], e) else [e] + s
  }

  /** A stable sort by decreasing timestamp. */
  function Newest(banned: BanList): BanList {
    if banned == [] then [] else Insert(Newest(banned[..|banned| - 1]), banned[|banned| - 1])
  }

  predicate Decreasing(s: BanList) {
    |s| <= 1 || (s[0].value >= s[1].value && Decreasing(s[1..]))
  }

  lemma {:induction false} DecreasingByIndex(s: BanList, i: nat, j: nat)
    requires Decreasing(s) && i <= j < |s|
    ensures s[i].value >= s[j].value
  {
    if i > 0 {
      DecreasingByIndex(s[1..], i - 1, j - 1);
    } else if j > 0 {
      DecreasingByIndex(s[1..], 0, j - 1);
    }
  }

  lemma {:induction false} InsertSorts(s: BanList, e: Entry<ServiceId, nat>)
    requires Decreasing(s)
    ensures Decreasing(Insert(s, e))
  {
    if s != [] && s[0].value >= e.value {
      InsertSorts(s[1..], e);
      if |s| == 1 {
        assert Insert(s[1..], e) == [e];
      }
    }
  }

  lemma {:induction false} InsertAdds(s: BanList, e: Entry<ServiceId, nat>, id: ServiceId)
    requires Unique(s) && e.key !in Keys(s)
    ensures Keys(Insert(s, e)) == Keys(s) + {e.key} && Unique(Insert(s, e))
    ensures Get(Insert(s, e), id) == if id == e.key then Some(e.value) else Get(s, id)
    ensures |Insert(s, e)| == |s| + 1
  {
    if s != [] && s[0].value >= e.value {
      InsertAdds(s[1..], e, id);
    } else {
      assert ([e] + s)[1..] == s;
    }
  }

  /** The sorted list has the same bans, each once. */
  lemma {:induction false} NewestSorts(banned: BanList, id: ServiceId)
    requires Unique(banned)
    ensures Decreasing(Newest(banned)) && Unique(Newest(banned)) && |Newest(banned)| == |banned|
    ensures Keys(Newest(banned)) == Keys(banned) && Get(Newest(banned), id) == Get(banned, id)
  {
    if banned != [] {
      var n := |banned| - 1;
      var init, last := banned[..n], banned[n];
      assert banned == init + [last];
      assert [last][1..] == [] && Keys([last]) == {last.key};
      UniqueAppend(init, [last]);
      NewestSorts(init, id);
      PutNew(init, last.key, last.value);
      PutGet(init, last.key, last.value, id);
      hide Get, Unique, Keys, Decreasing, Put;
      InsertSorts(Newest(init), last);
      InsertAdds(Newest(init), last, id);
    }
  }

  // ----- the actions -----

  predicate NeedsBan(banned: BanList, us: Aci, id: ServiceId) {
    !Has(banned, id) && id != OfAci(us)
  }

  /** How many of the old bans stay beside a new one. */
  function Staying(count: nat, limit: int): nat {
    var room := if limit > 1 then limit - 1 else 0;
    if room < count then room else count
  }

  function Ids(s: BanList): seq<ServiceId> {
    if s == [] then [] else [s[0].key] + Ids(s[1..])
  }

  /** The bans to lift so that a new one fits; None when no ban is needed. */
  function BanActions(banned: BanList, us: Aci, id: ServiceId, limit: int): Option<seq<ServiceId>> {
    if !NeedsBan(banned, us, id) then None else
    var sorted := Newest(banned);
    Some(Ids(sorted[Staying(|sorted|, limit)..]))
  }

  /** A ban is needed exactly for somebody who is not banned yet and is not us. */
  lemma BanIsNeededIff(banned: BanList, us: Aci, id: ServiceId, limit: int)
    ensures BanActions(banned, us, id, limit) == None <==> id in Keys(banned) || id == OfAci(us)
  {
  }

  /** `x` comes before `y`. */
  ghost predicate Before(s: BanList, x: Entry<ServiceId, nat>, y: Entry<ServiceId, nat>) {
    exists p, q :: 0 <= p < q < |s| && s[p] == x && s[q] == y
  }

  lemma {:induction false} InsertIs(s: BanList, e: Entry<ServiceId, nat>) returns (at: nat)
    requires Decreasing(s)
    ensures at <= |s| && Insert(s, e) == s[..at] + [e] + s[at..]
    ensures forall p :: at <= p < |s| ==> s[p].value < e.value
  {
    if s != [] && s[0].value >= e.value {
      var rest := InsertIs(s[1..], e);
      at := rest + 1;
      assert s[..at] == [s[0]] + s[1..][..rest] && s[at..] == s[1..][rest..];
      assert forall p :: at <= p < |s| ==> s[p] == s[1..][p - 1];
    } else {
      at := 0;
      forall p | 0 <= p < |s| ensures s[p].value < e.value {
        DecreasingByIndex(s, 0, p);
      }
    }
  }

  lemma InsertKeepsOrder(s: BanList, e: Entry<ServiceId, nat>, x: Entry<ServiceId, nat>, y: Entry<ServiceId, nat>)
    requires Decreasing(s)
    requires Before(s, x, y) || (x in s && y == e && x.value >= e.value)
    ensures Before(Insert(s, e), x, y)
  {
    var at := InsertIs(s, e);
    hide Insert, Decreasing;
    var r := Insert(s, e);
    forall k | 0 <= k < |s| ensures r[Shifted(k, at)] == s[k] {
    }
    if Before(s, x, y) {
      var p, q :| 0 <= p < q < |s| && s[p] == x && s[q] == y;
      assert r[Shifted(p, at)] == x && r[Shifted(q, at)] == y;
    } else {
      var p :| 0 <= p < |s| && s[p] == x;
      assert p < at && r[Shifted(p, at)] == x && r[at] == e;
    }
  }

  /** Where an element is after an insertion at `at`. */
  function Shifted(k: nat, at: nat): nat {
    if k < at then k else k + 1
  }

  /** The sort is stable: of two bans with the same timestamp the one listed first comes first, and so is
      not lifted before the other. */
  lemma {:induction false} NewestIsStable(banned: BanList, i: nat, j: nat)
    requires Unique(banned) && i < j < |banned| && banned[i].value == banned[j].value
    ensures Before(Newest(banned), banned[i], banned[j])
    decreases |banned|
  {
    var n := |banned| - 1;
    var init, last := banned[..n], [banned[n]];
    assert banned == init + last && last[1..] == [] && Keys(last) == {banned[n].key};
    UniqueAppend(init, last);
    NewestSorts(init, banned[i].key);
    if j < n {
      NewestIsStable(init, i, j);
    } else {
      NewestHasAll(init, i);
      assert init[i] in Newest(init);
    }
    InsertKeepsOrder(Newest(init), banned[n], banned[i], banned[j]);
  }

  lemma {:induction false} NewestHasAll(banned: BanList, i: nat)
    requires i < |banned|
    ensures banned[i] in Newest(banned)
    decreases |banned|
  {
    var n := |banned| - 1;
    InsertHas(Newest(banned[..n]), banned[n]);
    if i < n {
      NewestHasAll(banned[..n], i);
    }
  }

  lemma {:induction false} InsertHas(s: BanList, e: Entry<ServiceId, nat>)
    ensures forall x :: x in Insert(s, e) <==> x in s || x == e
  {
    if s != [] && s[0].value >= e.value {
      InsertHas(s[1..], e);
    }
  }

  // ----- the banned list afterwards -----

  lemma {:induction false} Lifted(banned: BanList, ids: seq<ServiceId>, id: ServiceId)
    requires Unique(banned)
    ensures Unique(AfterLifts(banned, ids))
    ensures Get(AfterLifts(banned, ids), id) == if id in ids then None else Get(banned, id)
    decreases |ids|
  {
    if ids != [] {
      RemoveUnique(banned, ids[0]);
      RemoveGet(banned, ids[0], id);
      hide Get, Remove, Unique;
      Lifted(Remove(banned, ids[0]), ids[1..], id);
    }
  }

  lemma {:induction false} IdsAreKeys(s: BanList, id: ServiceId)
    ensures id in Ids(s) <==> id in Keys(s)
  {
    if s != [] {
      IdsAreKeys(s[1..], id);
    }
  }

  /** A ban within the part of a sorted list that stays is no older than one in the rest. */
  lemma StayingIsNewer(sorted: BanList, cut: nat, kept: ServiceId, dropped: ServiceId)
    requires Decreasing(sorted) && Unique(sorted) && cut <= |sorted|
    requires kept in Keys(sorted[..cut]) && dropped in Keys(sorted[cut..])
    ensures Get(sorted, kept).Some? && Get(sorted, dropped).Some?
    ensures Get(sorted, kept).value >= Get(sorted, dropped).value
  {
    assert sorted == sorted[..cut] + sorted[cut..];
    UniqueAppend(sorted[..cut], sorted[cut..]);
    KeysAppend(sorted[..cut], sorted[cut..]);
    hide Get, Keys, Unique, Decreasing;
    var i := FindKey(sorted[..cut], kept);
    var j := FindKey(sorted[cut..], dropped);
    GetAt(sorted, i);
    GetAt(sorted, cut + j);
    DecreasingByIndex(sorted, i, cut + j);
  }

  /** The list after the new ban is added and the old ones that do not fit are lifted. */
  function AfterBan(banned: BanList, ids: seq<ServiceId>, id: ServiceId, timestamp: nat): BanList {
    AfterLifts(AfterBans(FromPairs(banned), [BanAction(id, timestamp)]), ids)
  }

  lemma AfterBanGet(banned: BanList, cut: nat, id: ServiceId, timestamp: nat, other: ServiceId)
    requires Unique(banned) && id !in Keys(banned) && cut <= |banned| == |Newest(banned)|
    ensures var dropped := Newest(banned)[cut..]; var after := AfterBan(banned, Ids(dropped), id, timestamp);
            && Unique(after)
            && Get(after, other) == (if other == id then Some(timestamp)
                                     else if other in Keys(dropped) then None else Get(banned, other))
  {
    var sorted := Newest(banned);
    var dropped := sorted[cut..];
    FromPairsSpec(banned);
    assert [BanAction(id, timestamp)][1..] == [];
    assert AfterBans(banned, [BanAction(id, timestamp)]) == Put(banned, id, timestamp);
    hide Get, Keys, Unique, Put, AfterLifts, Newest;
    PutUnique(banned, id, timestamp);
    PutGet(banned, id, timestamp, other);
    Lifted(Put(banned, id, timestamp), Ids(dropped), other);
    IdsAreKeys(dropped, other);
    NewestSorts(banned, other);
    assert sorted == sorted[..cut] + dropped;
    KeysAppend(sorted[..cut], dropped);
  }

  lemma AfterBanSize(banned: BanList, cut: nat, id: ServiceId, timestamp: nat)
    requires Unique(banned) && id !in Keys(banned) && cut <= |banned| == |Newest(banned)|
    ensures |AfterBan(banned, Ids(Newest(banned)[cut..]), id, timestamp)| == cut + 1
  {
    hide Get, Keys, Unique, Newest, AfterBan, Ids;
    var sorted := Newest(banned);
    var kept, dropped := sorted[..cut], sorted[cut..];
    var after := AfterBan(banned, Ids(dropped), id, timestamp);
    NewestSorts(banned, id);
    assert sorted == kept + dropped;
    UniqueAppend(kept, dropped);
    KeysAppend(kept, dropped);
    forall other ensures other in Keys(after) <==> other in Keys(kept) + {id} {
      AfterBanGet(banned, cut, id, timestamp, other);
      InKeys(after, other);
      InKeys(banned, other);
    }
    assert Keys(after) == Keys(kept) + {id};
    AfterBanGet(banned, cut, id, timestamp, id);
    UniqueSize(after);
    UniqueSize(kept);
  }

  lemma InKeys(d: BanList, id: ServiceId)
    ensures id in Keys(d) <==> Get(d, id).Some?
  {
  }

  /** Banning and applying the change: the new ban is there, beside as many of the old ones as fit,
      none of them older than one that was lifted; and with a limit of at least one, the list is
      within the limit. Whatever else the change does makes no difference. */
  lemma BanWithinLimit(g: Group, a: Actions, source: ServiceId, us: Aci, known: set<Aci>,
                       id: ServiceId, limit: int, timestamp: nat)
    requires Unique(g.banned) && BanActions(g.banned, us, id, limit).Some?
    requires a.addBanned == [BanAction(id, timestamp)] && a.deleteBanned == BanActions(g.banned, us, id, limit).value
    requires ApplyChange(g, a, source, us, known).Some?
    ensures var after := ApplyChange(g, a, source, us, known).value.group.banned;
            && Unique(after) && Get(after, id) == Some(timestamp)
            && |after| == (if limit < 1 then 1 else if |g.banned| < limit then |g.banned| + 1 else limit)
            && (forall other :: other in Keys(after) && other != id ==> Get(after, other) == Get(g.banned, other))
            && (forall kept, dropped ::
                  kept in Keys(after) && kept != id && dropped in Keys(g.banned) && dropped !in Keys(after) ==>
                  Get(g.banned, kept).value >= Get(g.banned, dropped).value)
  {
    hide ApplyChange, Get, Keys, Unique, Newest, AfterBan, Ids, Decreasing;
    var sorted := Newest(g.banned);
    NewestSorts(g.banned, id);
    var cut := Staying(|sorted|, limit);
    BannedEffect(g, a, source, us, known);
    var after := ApplyChange(g, a, source, us, known).value.group.banned;
    assert after == AfterBan(g.banned, Ids(sorted[cut..]), id, timestamp) by { AfterBanIs(g.banned, a, id, timestamp); }
    AfterBanSize(g.banned, cut, id, timestamp);
    AfterBanGet(g.banned, cut, id, timestamp, id);
    forall other
      ensures Get(after, other) == (if other == id then Some(timestamp)
                                    else if other in Keys(sorted[cut..]) then None else Get(g.banned, other))
    {
      AfterBanGet(g.banned, cut, id, timestamp, other);
    }
    forall kept, dropped |
      kept in Keys(after) && kept != id && dropped in Keys(g.banned) && dropped !in Keys(after)
      ensures Get(g.banned, kept).value >= Get(g.banned, dropped).value
    {
      NewestSorts(g.banned, kept);
      NewestSorts(g.banned, dropped);
      assert sorted == sorted[..cut] + sorted[cut..];
      KeysAppend(sorted[..cut], sorted[cut..]);
      StayingIsNewer(sorted, cut, kept, dropped);
    }
  }

  lemma AfterBanIs(banned: BanList, a: Actions, id: ServiceId, timestamp: nat)
    requires a.addBanned == [BanAction(id, timestamp)]
    ensures AfterLifts(AfterBans(FromPairs(banned), a.addBanned), a.deleteBanned)
              == AfterBan(banned, a.deleteBanned, id, timestamp)
  {
  }
}
