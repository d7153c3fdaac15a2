/** Compressing repeated join requests: requests and withdrawals of the same person, one after the
    other, are folded into one bounce message as they are appended to a conversation. */
module JoinRequests {
  import opened Options
  import opened ServiceIds
  import opened GroupDetails

  /** `change` is there for group change messages; `isGroupChange` is the message type. */
  datatype Message = Message(id: nat, isGroupChange: bool, change: Option<Change>)

  datatype Change = Change(author: Option<ServiceId>, details: seq<Detail>)

  /** The source throws when it reads a field of a detail that is not there. */
  datatype MergeResult = Merged(message: Message) | Unmerged | TypeError

  predicate IsChange(m: Message) {
    m.isGroupChange && m.change.Some?
  }

  /** The detail that `second` turns `first` into, if the two fold. */
  function MergeDetails(first: Detail, second: Detail): Option<Detail>
    requires second.ApprovalAddOne? || second.ApprovalRemoveOne?
  {
    var isApprovalPending, aci := second.ApprovalAddOne?, second.aci;
    if !isApprovalPending && first == ApprovalAddOne(aci) then
      Some(ApprovalBounce(aci, 1, isApprovalPending))
    else if first.ApprovalBounce? && first.aci == aci && first.isApprovalPending == !isApprovalPending then
      Some(ApprovalBounce(aci, first.times + (if isApprovalPending then 0 else 1), isApprovalPending))
    else None
  }

  function Merge(first: Option<Message>, second: Message): MergeResult {
    if first.None? || !IsChange(first.value) || !IsChange(second) then Unmerged else
    var ds, es := first.value.change.value.details, second.change.value.details;
    if |ds| != 1 && |es| != 1 then Unmerged
    else if es == [] then TypeError
    else if !(es[0].ApprovalAddOne? || es[0].ApprovalRemoveOne?) then Unmerged
    else if ds == [] then TypeError
    else match MergeDetails(ds[0], es[0])
         case None => Unmerged
         case Some(d) => Merged(first.value.(change := Some(first.value.change.value.(details := [d]))))
  }

  predicate Bounceable(m: Message) {
    && IsChange(m) && |m.change.value.details| == 1
    && (m.change.value.details[0].ApprovalAddOne? || m.change.value.details[0].ApprovalBounce?)
  }

  // ----- what messages tell the reader -----

  datatype Event = Requested(aci: Aci) | Withdrew(aci: Aci) | Saw(detail: Detail) | Read(message: Message)

  function Bounces(aci: Aci, times: nat): seq<Event> {
    if times == 0 then [] else Bounces(aci, times - 1) + [Requested(aci), Withdrew(aci)]
  }

  function DetailMeaning(d: Detail): seq<Event> {
    match d
    case ApprovalAddOne(aci) => [Requested(aci)]
    case ApprovalRemoveOne(aci) => [Withdrew(aci)]
    case ApprovalBounce(aci, times, pending) => Bounces(aci, times) + if pending then [Requested(aci)] else []
    case _ => [Saw(d)]
  }

  function DetailsMeaning(ds: seq<Detail>): seq<Event> {
    if ds == [] then [] else DetailMeaning(ds[0]) + DetailsMeaning(ds[1..])
  }

  function MessageMeaning(m: Message): seq<Event> {
    if IsChange(m) then DetailsMeaning(m.change.value.details) else [Read(m)]
  }

  function Meaning(ms: seq<Message>): seq<Event> {
    if ms == [] then [] else MessageMeaning(ms[0]) + Meaning(ms[1..])
  }

  /** A bounce has bounced at least once. */
  predicate WellFormed(m: Message) {
    IsChange(m) ==> forall d :: d in m.change.value.details && d.ApprovalBounce? ==> d.times > 0
  }

  /** One of the two messages holds more than the one detail that survives the merge. */
  predicate Lossy(first: Option<Message>, second: Message) {
    Merge(first, second).Merged? && (|first.value.change.value.details| != 1 || |second.change.value.details| != 1)
  }

  lemma MergeDetailsMeaning(first: Detail, second: Detail)
    requires second.ApprovalAddOne? || second.ApprovalRemoveOne?
    requires first.ApprovalBounce? ==> first.times > 0
    ensures MergeDetails(first, second).Some? ==>
              && DetailMeaning(MergeDetails(first, second).value) == DetailMeaning(first) + DetailMeaning(second)
              && MergeDetails(first, second).value.times > 0
  {
    if MergeDetails(first, second).Some? {
      var aci := second.aci;
      assert Bounces(aci, 1) == Bounces(aci, 0) + [Requested(aci), Withdrew(aci)];
      if first.ApprovalBounce? && second.ApprovalRemoveOne? {
        assert Bounces(aci, first.times + 1) == Bounces(aci, first.times) + ([Requested(aci)] + [Withdrew(aci)]);
      }
    }
  }

  lemma {:induction false} MeaningOfDetail(d: Detail)
    requires d.ApprovalBounce? ==> d.times > 0
    ensures |DetailMeaning(d)| > 0
    ensures DetailsMeaning([d]) == DetailMeaning(d)
  {
    if d.ApprovalBounce? {
      assert |Bounces(d.aci, d.times)| >= 2;
    }
    assert DetailsMeaning([d]) == DetailMeaning(d) + DetailsMeaning([d][1..]);
    assert DetailsMeaning([]) == [];
  }

  lemma {:induction false} MoreDetailsMeanMore(ds: seq<Detail>)
    requires ds != [] && forall d :: d in ds && d.ApprovalBounce? ==> d.times > 0
    ensures |DetailsMeaning(ds)| > |DetailMeaning(ds[0])| <==> |ds| > 1
    ensures |DetailsMeaning(ds)| >= |DetailMeaning(ds[0])|
  {
    if |ds| > 1 {
      MeaningOfDetail(ds[1]);
      MoreDetailsMeanMore(ds[1..]);
    } else {
      assert ds[1..] == [];
    }
  }

  /** Merging two messages keeps their meaning exactly when each has a single detail; when one has
      more, the rest of its details are lost. */
  lemma MergeKeepsMeaningIff(first: Message, second: Message)
    requires WellFormed(first) && WellFormed(second) && Merge(Some(first), second).Merged?
    ensures var m := Merge(Some(first), second).message;
            && (MessageMeaning(m) == MessageMeaning(first) + MessageMeaning(second)
                <==> |first.change.value.details| == 1 && |second.change.value.details| == 1)
            && |MessageMeaning(m)| <= |MessageMeaning(first)| + |MessageMeaning(second)|
            && (Lossy(Some(first), second) ==> |MessageMeaning(m)| < |MessageMeaning(first)| + |MessageMeaning(second)|)
            && WellFormed(m) && m.id == first.id
  {
    var ds, es := first.change.value.details, second.change.value.details;
    var d := MergeDetails(ds[0], es[0]).value;
    MergeDetailsMeaning(ds[0], es[0]);
    MeaningOfDetail(d);
    MoreDetailsMeanMore(ds);
    MoreDetailsMeanMore(es);
    if |ds| == 1 && |es| == 1 {
      assert ds == [ds[0]] && es == [es[0]];
      MeaningOfDetail(ds[0]);
      MeaningOfDetail(es[0]);
    }
  }

  /** A single merged request and an announcement change: the announcement change is lost. */
  lemma MergeLosesADetail(aci: Aci)
    ensures var first := Message(1, true, Some(Change(None, [ApprovalAddOne(aci)])));
            var second := Message(2, true, Some(Change(None, [ApprovalRemoveOne(aci), AnnouncementsOnly(true)])));
            && Merge(Some(first), second).Merged?
            && Saw(AnnouncementsOnly(true)) in MessageMeaning(second)
            && Saw(AnnouncementsOnly(true)) !in MessageMeaning(Merge(Some(first), second).message)
  {
    var second := [ApprovalRemoveOne(aci), AnnouncementsOnly(true)];
    assert second[1..] == [AnnouncementsOnly(true)];
    MeaningOfDetail(AnnouncementsOnly(true));
    MeaningOfDetail(ApprovalBounce(aci, 1, false));
    assert Bounces(aci, 1) == Bounces(aci, 0) + [Requested(aci), Withdrew(aci)];
    assert DetailsMeaning(second) == [Withdrew(aci)] + [Saw(AnnouncementsOnly(true))];
  }

  // ----- the fold -----

  /** The message a new one may fold into: nothing, the stored last message as it is, or one not
      yet saved. */
  datatype Previous = Nothing | Stored(m: Message) | Unsaved(m: Message)

  function AsOption(p: Previous): Option<Message> {
    if p.Nothing? then None else Some(p.m)
  }

  function Pending(p: Previous): seq<Message> {
    if p.Unsaved? then [p.m] else []
  }

  function MergeAll(p: Previous, ms: seq<Message>): Option<seq<Message>>
    decreases |ms|
  {
    if ms == [] then Some(Pending(p)) else
    match Merge(AsOption(p), ms[0])
    case TypeError => None
    case Merged(m) => MergeAll(Unsaved(m), ms[1..])
    case Unmerged =>
      match MergeAll(Unsaved(ms[0]), ms[1..])
      case None => None
      case Some(rest) => Some(Pending(p) + rest)
  }

  function Start(stored: seq<Message>): Previous {
    if stored != [] && Bounceable(stored[|stored| - 1]) then Stored(stored[|stored| - 1]) else Nothing
  }

  /** Saving: when the first result still has the id of the stored last message it replaces it. */
  function Saved(stored: seq<Message>, merged: seq<Message>): seq<Message> {
    if Start(stored).Stored? && merged != [] && merged[0].id == Start(stored).m.id
    then stored[..|stored| - 1] + merged
    else stored + merged
  }

  method AppendChangeMessages(stored: seq<Message>, messages: seq<Message>) returns (r: Option<seq<Message>>)
    ensures r == match MergeAll(Start(stored), messages)
                 case None => None
                 case Some(merged) => Some(Saved(stored, merged))
  {
    var lastMessage := if stored == [] then None else Some(stored[|stored| - 1]);
    if lastMessage.Some? && !Bounceable(lastMessage.value) {
      lastMessage := None;
    }
    var mergedMessages: seq<Message> := [];
    var previous := if lastMessage.Some? then Stored(lastMessage.value) else Nothing;
    assert previous == Start(stored) && messages[0..] == messages;
    assert forall rest: seq<Message> :: [] + rest == rest;
    for i := 0 to |messages|
      invariant MergeAll(Start(stored), messages) ==
                  match MergeAll(previous, messages[i..])
                  case None => None
                  case Some(rest) => Some(mergedMessages + rest)
    {
      assert messages[i..][1..] == messages[i + 1..];
      var merged := Merge(AsOption(previous), messages[i]);
      match merged
      case TypeError =>
        return None;
      case Unmerged =>
        ghost var before := mergedMessages;
        if previous.Unsaved? {
          mergedMessages := mergedMessages + [previous.m];
        }
        assert forall rest: seq<Message> :: before + (Pending(previous) + rest) == mergedMessages + rest;
        previous := Unsaved(messages[i]);
      case Merged(m) =>
        previous := Unsaved(m);
    }
    assert messages[|messages|..] == [];
    assert MergeAll(previous, []) == Some(Pending(previous));
    assert mergedMessages + [] == mergedMessages;
    if previous.Unsaved? {
      mergedMessages := mergedMessages + [previous.m];
    }
    assert MergeAll(Start(stored), messages) == Some(mergedMessages);
    if lastMessage.Some? && mergedMessages != [] && mergedMessages[0].id == lastMessage.value.id {
      r := Some(stored[..|stored| - 1] + mergedMessages);
    } else {
      r := Some(stored + mergedMessages);
    }
  }

  /** Does the fold merge a message that has more than one detail? */
  predicate AnyLossy(p: Previous, ms: seq<Message>)
    decreases |ms|
  {
    ms != [] &&
    (Lossy(AsOption(p), ms[0])
     || match Merge(AsOption(p), ms[0])
        case TypeError => false
        case Merged(m) => AnyLossy(Unsaved(m), ms[1..])
        case Unmerged => AnyLossy(Unsaved(ms[0]), ms[1..]))
  }

  /** What the fold was given to keep: the message at hand, unless it is stored and stays as it is,
      and the new ones. */
  function Given(p: Previous, ms: seq<Message>): seq<Message> {
    if p.Unsaved? || Touched(p, ms) then [p.m] + ms else ms
  }

  /** Does the first new message fold into the stored one? */
  predicate Touched(p: Previous, ms: seq<Message>)
    ensures Touched(p, ms) ==> !p.Nothing?
  {
    ms != [] && Merge(AsOption(p), ms[0]).Merged?
  }

  lemma {:induction false} MeaningAppend(a: seq<Message>, b: seq<Message>)
    ensures Meaning(a + b) == Meaning(a) + Meaning(b)
  {
    if a == [] {
      assert a + b == b;
    } else {
      assert (a + b)[1..] == a[1..] + b;
      MeaningAppend(a[1..], b);
    }
  }

  lemma MeaningOne(m: Message)
    ensures Meaning([m]) == MessageMeaning(m)
  {
    assert Meaning([m]) == MessageMeaning(m) + Meaning([m][1..]);
    assert Meaning([]) == [];
  }

  lemma MergedTells(p: Message, m: Message, second: Message)
    requires WellFormed(p) && WellFormed(second) && Merge(Some(p), second) == Merged(m)
    ensures |MessageMeaning(m)| <= |MessageMeaning(p)| + |MessageMeaning(second)|
    ensures Lossy(Some(p), second) ==> |MessageMeaning(m)| < |MessageMeaning(p)| + |MessageMeaning(second)|
    ensures !Lossy(Some(p), second) ==> MessageMeaning(m) == MessageMeaning(p) + MessageMeaning(second)
  {
    hide MessageMeaning, WellFormed;
    MergeKeepsMeaningIff(p, second);
  }

  lemma MergedStep(p: Message, m: Message, second: Message, ms: seq<Message>)
    requires WellFormed(p) && WellFormed(second) && Merge(Some(p), second) == Merged(m)
    ensures |Meaning([m] + ms)| <= |Meaning([p] + ([second] + ms))|
    ensures Lossy(Some(p), second) ==> |Meaning([m] + ms)| < |Meaning([p] + ([second] + ms))|
    ensures !Lossy(Some(p), second) ==> Meaning([m] + ms) == Meaning([p] + ([second] + ms))
  {
    hide *;
    MergedTells(p, m, second);
    MeaningAppend([m], ms);
    assert [p] + ([second] + ms) == [p, second] + ms;
    MeaningAppend([p, second], ms);
    MeaningTwo(p, second);
    MeaningOne(m);
  }

  lemma MeaningTwo(a: Message, b: Message)
    ensures Meaning([a, b]) == MessageMeaning(a) + MessageMeaning(b)
  {
    MeaningOne(a);
    MeaningOne(b);
    hide *;
    MeaningAppend([a], [b]);
    assert [a] + [b] == [a, b];
  }

  lemma {:induction false} FoldMeaning(p: Previous, ms: seq<Message>)
    requires MergeAll(p, ms).Some?
    requires (!p.Nothing? ==> WellFormed(p.m)) && forall m :: m in ms ==> WellFormed(m)
    ensures |Meaning(MergeAll(p, ms).value)| <= |Meaning(Given(p, ms))|
    ensures AnyLossy(p, ms) ==> |Meaning(MergeAll(p, ms).value)| < |Meaning(Given(p, ms))|
    ensures !AnyLossy(p, ms) ==> Meaning(MergeAll(p, ms).value) == Meaning(Given(p, ms))
    decreases |ms|
  {
    hide Meaning, MessageMeaning;
    if ms == [] {
      if p.Unsaved? {
        assert [p.m] + ms == [p.m];
      }
    } else {
      var second, rest := ms[0], ms[1..];
      assert ms == [second] + rest;
      match Merge(AsOption(p), second)
      case Merged(m) =>
        MergedStep(p.m, m, second, rest);
        MergeKeepsMeaningIff(p.m, second);
        hide Merge, WellFormed, Lossy;
        FoldMeaning(Unsaved(m), rest);
        assert Given(Unsaved(m), rest) == [m] + rest;
      case Unmerged =>
        hide Merge, WellFormed, Lossy;
        FoldMeaning(Unsaved(second), rest);
        MeaningAppend(Pending(p), MergeAll(Unsaved(second), rest).value);
        MeaningAppend(Pending(p), ms);
        assert Given(p, ms) == Pending(p) + ms;
    }
  }

  /** The id of the first saved message tells whether the stored one was folded into. */
  lemma {:induction false} FirstId(p: Previous, ms: seq<Message>)
    requires MergeAll(p, ms).Some? && (p.Unsaved? || ms != [])
    ensures MergeAll(p, ms).value != []
    ensures MergeAll(p, ms).value[0].id == if p.Unsaved? || Touched(p, ms) then p.m.id else ms[0].id
    decreases |ms|
  {
    if ms != [] {
      match Merge(AsOption(p), ms[0])
      case Merged(m) => FirstId(Unsaved(m), ms[1..]);
      case Unmerged => FirstId(Unsaved(ms[0]), ms[1..]);
    }
  }

  lemma NothingAppended(p: Previous)
    ensures !AnyLossy(p, []) && MergeAll(p, []) == Some(if p.Unsaved? then [p.m] else [])
  {
  }

  /** Appending keeps the meaning of the conversation, the stored last message included, exactly
      when no merge involves a message with more than one detail. */
  lemma AppendKeepsMeaningIff(stored: seq<Message>, messages: seq<Message>)
    requires MergeAll(Start(stored), messages).Some?
    requires forall m :: m in stored + messages ==> WellFormed(m)
    requires stored != [] ==> forall m :: m in messages ==> m.id != stored[|stored| - 1].id
    ensures Meaning(Saved(stored, MergeAll(Start(stored), messages).value)) == Meaning(stored) + Meaning(messages)
            <==> !AnyLossy(Start(stored), messages)
  {
    hide Meaning, MergeAll, Merge, AnyLossy, WellFormed, Bounceable;
    var p, merged := Start(stored), MergeAll(Start(stored), messages).value;
    assert forall m :: m in messages ==> m in stored + messages;
    if p.Stored? {
      assert p.m in stored + messages;
    }
    FoldMeaning(p, messages);
    if messages != [] {
      FirstId(p, messages);
      assert messages[0] in messages;
    } else {
      NothingAppended(p);
    }
    if p.Stored? && Touched(p, messages) {
      SavedOver(stored[..|stored| - 1], p.m, merged, messages);
      assert stored == stored[..|stored| - 1] + [p.m];
    } else {
      SavedAfter(stored, merged, messages);
    }
  }

  lemma SavedOver(front: seq<Message>, last: Message, merged: seq<Message>, messages: seq<Message>)
    ensures Meaning(front + merged) == Meaning(front + [last]) + Meaning(messages) <==>
              Meaning(merged) == Meaning([last] + messages)
  {
    hide *;
    MeaningAppend(front, merged);
    MeaningAppend(front, [last]);
    MeaningAppend([last], messages);
    assert Meaning(front) + Meaning([last]) + Meaning(messages) == Meaning(front) + Meaning([last] + messages);
    Cancel(Meaning(front), Meaning(merged), Meaning([last] + messages));
  }

  lemma SavedAfter(stored: seq<Message>, merged: seq<Message>, messages: seq<Message>)
    ensures Meaning(stored + merged) == Meaning(stored) + Meaning(messages) <==> Meaning(merged) == Meaning(messages)
  {
    hide *;
    MeaningAppend(stored, merged);
    Cancel(Meaning(stored), Meaning(merged), Meaning(messages));
  }

  lemma Cancel(f: seq<Event>, a: seq<Event>, b: seq<Event>)
    ensures f + a == f + b <==> a == b
  {
    if f + a == f + b {
      assert a == (f + a)[|f|..] && b == (f + b)[|f|..];
    }
  }

  /** With single-detail messages nothing is lost and nothing throws. */
  lemma {:induction false} SingleDetailsAreSafe(p: Previous, ms: seq<Message>)
    requires !p.Nothing? && IsChange(p.m) ==> |p.m.change.value.details| == 1
    requires forall m :: m in ms && IsChange(m) ==> |m.change.value.details| == 1
    ensures MergeAll(p, ms).Some? && !AnyLossy(p, ms)
    decreases |ms|
  {
    if ms != [] {
      match Merge(AsOption(p), ms[0])
      case Merged(m) => SingleDetailsAreSafe(Unsaved(m), ms[1..]);
      case Unmerged => SingleDetailsAreSafe(Unsaved(ms[0]), ms[1..]);
      case TypeError =>
    }
  }
}
