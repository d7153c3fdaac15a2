/** What becomes of somebody who asks to join and withdraws over and over: one message that counts. */
module Bounces {
  import opened Options
  import opened ServiceIds
  import opened GroupDetails
  import opened JoinRequests

  predicate Single(m: Message) {
    IsChange(m) && |m.change.value.details| == 1
  }

  function Only(m: Message): Detail
    requires Single(m)
  {
    m.change.value.details[0]
  }

  // ----- when two messages fold -----

  /** The second message takes up the first: a withdrawal a request of the same person, and a request or
      a withdrawal a bounce of the same person that ends with the other one. */
  predicate TakesUp(first: Detail, second: Detail) {
    match second
    case ApprovalAddOne(aci) => first.ApprovalBounce? && first.aci == aci && !first.isApprovalPending
    case ApprovalRemoveOne(aci) =>
      first == ApprovalAddOne(aci) || (first.ApprovalBounce? && first.aci == aci && first.isApprovalPending)
    case _ => false
  }

  predicate RequestOrWithdrawal(d: Detail) {
    d.ApprovalAddOne? || d.ApprovalRemoveOne?
  }

  /** Two change messages fold exactly when one of them has a single detail and the first detail of the
      second takes up that of the first; it throws exactly when one has a single detail and the other none,
      unless the second is not about requests. Messages of another kind never fold. */
  lemma FoldsIff(first: Message, second: Message)
    ensures var r := Merge(Some(first), second);
            if !(first.isGroupChange && first.change.Some? && second.isGroupChange && second.change.Some?) then
              r == Unmerged
            else
              var ds, es := first.change.value.details, second.change.value.details;
              && (r.Merged? <==>
                    ds != [] && es != [] && (|ds| == 1 || |es| == 1) && TakesUp(ds[0], es[0]))
              && (r.TypeError? <==>
                    (|ds| == 1 && es == []) || (|es| == 1 && ds == [] && RequestOrWithdrawal(es[0])))
    ensures !Merge(None, second).Merged? && !Merge(None, second).TypeError?
  {
  }

  /** The result keeps all of the first message but its detail, counts one more bounce for a withdrawal,
      and tells whether the last thing was a request. */
  lemma FoldedDetail(first: Message, second: Message)
    requires Merge(Some(first), second).Merged?
    ensures IsChange(first) && IsChange(second)
    ensures var m := Merge(Some(first), second).message;
            var ds, es := first.change.value.details, second.change.value.details;
            && ds != [] && es != [] && (ds[0].ApprovalAddOne? || ds[0].ApprovalBounce?)
            && var times := if ds[0].ApprovalBounce? then ds[0].times else 0;
               && Single(m) && Only(m).ApprovalBounce? && Only(m).aci == ds[0].aci
               && Only(m).times == times + (if es[0].ApprovalRemoveOne? then 1 else 0)
               && Only(m).isApprovalPending == es[0].ApprovalAddOne?
               && m == first.(change := Some(first.change.value.(details := [Only(m)])))
  {
  }

  // ----- a person who goes back and forth -----

  /** The detail for `n` requests and withdrawals in turn, beginning with a request. */
  predicate Counts(d: Detail, aci: Aci, n: nat) {
    if n <= 1 then n == 1 && d == ApprovalAddOne(aci) else d == ApprovalBounce(aci, n / 2, n % 2 == 1)
  }

  /** `ms` goes on in turn after `n` of them. */
  predicate GoesOn(ms: seq<Message>, aci: Aci, n: nat) {
    forall i :: 0 <= i < |ms| ==>
      Single(ms[i]) && Only(ms[i]) == if (n + i) % 2 == 0 then ApprovalAddOne(aci) else ApprovalRemoveOne(aci)
  }

  lemma OneMore(m: Message, second: Message, aci: Aci, n: nat)
    requires Single(m) && Single(second) && Counts(Only(m), aci, n)
    requires Only(second) == if n % 2 == 0 then ApprovalAddOne(aci) else ApprovalRemoveOne(aci)
    ensures var r := Merge(Some(m), second);
            r.Merged? && Single(r.message) && Counts(Only(r.message), aci, n + 1) && r.message.id == m.id
  {
    FoldsIff(m, second);
    FoldedDetail(m, second);
    assert (n + 1) / 2 == n / 2 + n % 2;
  }

  /** However long somebody goes back and forth, all of it folds into the one message at hand. */
  lemma {:induction false} BackAndForthFolds(p: Previous, ms: seq<Message>, aci: Aci, n: nat)
    requires !p.Nothing? && Single(p.m) && Counts(Only(p.m), aci, n) && GoesOn(ms, aci, n)
    requires p.Unsaved? || ms != []
    ensures var r := MergeAll(p, ms);
            && r.Some? && |r.value| == 1
            && Single(r.value[0]) && Counts(Only(r.value[0]), aci, n + |ms|) && r.value[0].id == p.m.id
    decreases |ms|
  {
    if ms != [] {
      
      OneMore(p.m, ms[0], aci, n);
      hide Merge, Counts;
      assert GoesOn(ms[1..], aci, n + 1);
      BackAndForthFolds(Unsaved(Merge(AsOption(p), ms[0]).message), ms[1..], aci, n + 1);
    }
  }

  /** The same for what is saved: the last message of the conversation, if it tells of such a person, is
      replaced by one that counts on; and without one, a run of messages that begins with a request is
      saved as a single message. */
  lemma BackAndForthIsOneMessage(stored: seq<Message>, ms: seq<Message>, aci: Aci, n: nat)
    requires ms != [] && GoesOn(ms, aci, n)
    requires n > 0 ==> stored != [] && Single(stored[|stored| - 1]) && Counts(Only(stored[|stored| - 1]), aci, n)
    requires n == 0 ==> (stored != [] ==> !Bounceable(stored[|stored| - 1]))
    ensures var r := MergeAll(Start(stored), ms);
            var kept := if n > 0 then stored[..|stored| - 1] else stored;
            && r.Some? && |r.value| == 1 && Saved(stored, r.value) == kept + r.value
            && Single(r.value[0]) && Counts(Only(r.value[0]), aci, n + |ms|)
            && r.value[0].id == if n > 0 then stored[|stored| - 1].id else ms[0].id
  {
    if n > 0 {
      assert Start(stored) == Stored(stored[|stored| - 1]);
      BackAndForthFolds(Start(stored), ms, aci, n);
    } else {
      assert Start(stored) == Nothing && ms == [ms[0]] + ms[1..];
      assert GoesOn(ms[1..], aci, 1);
      BackAndForthFolds(Unsaved(ms[0]), ms[1..], aci, 1);
      assert MergeAll(Nothing, ms) == MergeAll(Unsaved(ms[0]), ms[1..]) by {
        assert forall rest: seq<Message> :: [] + rest == rest;
      }
    }
  }

  // ----- nothing more to fold -----

  predicate IsBounce(m: Message) {
    Single(m) && Only(m).ApprovalBounce?
  }

  lemma {:induction false} FirstOfFold(m: Message, ms: seq<Message>)
    requires MergeAll(Unsaved(m), ms).Some?
    ensures var r := MergeAll(Unsaved(m), ms).value; r != [] && (r[0] == m || IsBounce(r[0]))
    decreases |ms|
  {
    if ms != [] {
      match Merge(Some(m), ms[0])
      case Merged(n) =>
        assert IsBounce(n);
        FirstOfFold(n, ms[1..]);
      case Unmerged =>
    }
  }

  lemma NeverFoldsBounce(first: Option<Message>, bounce: Message)
    requires IsBounce(bounce)
    ensures !Merge(first, bounce).Merged?
  {
  }

  /** No two neighbours of what is saved could be folded any further. */
  lemma {:induction false} FoldIsComplete(p: Previous, ms: seq<Message>, i: nat)
    requires MergeAll(p, ms).Some? && i + 1 < |MergeAll(p, ms).value|
    ensures !Merge(Some(MergeAll(p, ms).value[i]), MergeAll(p, ms).value[i + 1]).Merged?
    decreases |ms|
  {
    if ms != [] {
      match Merge(AsOption(p), ms[0])
      case Merged(m) => FoldIsComplete(Unsaved(m), ms[1..], i);
      case Unmerged =>
        var rest := MergeAll(Unsaved(ms[0]), ms[1..]).value;
        FirstOfFold(ms[0], ms[1..]);
        if p.Unsaved? && i == 0 {
          if rest[0] != ms[0] {
            NeverFoldsBounce(Some(p.m), rest[0]);
          }
        } else {
          FoldIsComplete(Unsaved(ms[0]), ms[1..], i - |Pending(p)|);
        }
    }
  }
}
