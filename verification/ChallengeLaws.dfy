/** What holds in every run of the challenge handler. */
module ChallengeLaws {
  import opened Options
  import opened Dicts
  import opened Challenges

  // ----- the invariant -----

  predicate Distinct(cs: seq<Conv>) {
    cs == [] || (cs[0] !in cs[1..] && Distinct(cs[1..]))
  }

  function Members(cs: seq<Conv>): set<Conv> {
    set c | c in cs
  }

  predicate OwnKeys(d: Dict<Conv, Challenge>) {
    forall e :: e in d ==> e.key == e.value.conversationId
  }

  /** Pending starts and timers name only registered conversations, a timer is set for the retry time
      of its registration, and there are no pending starts while online. */
  predicate NamesRegistered(h: Handler) {
    && Unique(h.registered) && OwnKeys(h.registered)
    && (forall c :: c in h.pending ==> c in Keys(h.registered))
    && (forall c :: c in h.timers ==> c in Keys(h.registered) && h.timers[c] == Get(h.registered, c).value.retryAt)
    && Distinct(h.pending) && (h.isOnline ==> h.pending == [])
  }

  /** A registration with a retry time has a timer, or a pending start, or is about to be started. */
  predicate Remembered(h: Handler, starting: set<Conv>) {
    forall c :: c in Keys(h.registered) && Get(h.registered, c).value.retryAt > 0 ==>
      c in h.timers || c in h.pending || c in starting
  }

  /** Each solving under way waits for the user or for the server, and a token is only there while
      somebody waits for the user. */
  predicate SolvingCounted(h: Handler) {
    && h.solving == |h.waiting| + h.sending
    && (h.challengeToken.Some? ==> h.waiting != {})
    && (forall n :: n in h.waiting ==> n < h.nextSeq)
  }

  ghost predicate QueuesInv(h: Handler, starting: set<Conv>) {
    NamesRegistered(h) && Remembered(h, starting)
  }

  ghost predicate Inv(h: Handler) {
    QueuesInv(h, {}) && SolvingCounted(h)
  }

  /** The stored list is the registered one, except that it may be older while nothing is registered. */
  predicate StoredInv(h: Handler) {
    InSync(h) || h.registered == []
  }

  predicate SameSolving(h: Handler, h': Handler) {
    && h'.solving == h.solving && h'.challengeToken == h.challengeToken && h'.nextSeq == h.nextSeq
    && h'.waiting == h.waiting && h'.sending == h.sending
  }

  predicate InSync(h: Handler) {
    h.stored == Values(h.registered)
  }

  // ----- dictionaries -----

  lemma {:induction false} RemoveOwn(d: Dict<Conv, Challenge>, c: Conv)
    requires OwnKeys(d)
    ensures OwnKeys(Remove(d, c))
  {
    if d != [] {
      RemoveOwn(d[1..], c);
      hide Keys;
    }
  }

  lemma {:induction false} PutOwn(d: Dict<Conv, Challenge>, challenge: Challenge)
    requires OwnKeys(d)
    ensures OwnKeys(Put(d, challenge.conversationId, challenge))
  {
    if d != [] && d[0].key != challenge.conversationId {
      PutOwn(d[1..], challenge);
      hide Keys;
    }
  }

  lemma {:induction false} DropSpec(cs: seq<Conv>, c: Conv)
    ensures forall x :: x in Drop(cs, c) <==> x in cs && x != c
    ensures Distinct(cs) ==> Distinct(Drop(cs, c))
    ensures c !in cs ==> Drop(cs, c) == cs
  {
    if cs != [] {
      DropSpec(cs[1..], c);
    }
  }

  lemma {:induction false} DistinctSnoc(cs: seq<Conv>, c: Conv)
    requires Distinct(cs) && c !in cs
    ensures Distinct(cs + [c])
  {
    if cs != [] {
      assert (cs + [c])[1..] == cs[1..] + [c];
      DistinctSnoc(cs[1..], c);
    }
  }

  // ----- single operations -----

  lemma UnregisterKeeps(h: Handler, c: Conv, starting: set<Conv>)
    requires QueuesInv(h, starting)
    ensures var h' := Unregister(h, c);
            && QueuesInv(h', starting - {c}) && InSync(h') && SameSolving(h, h')
            && Keys(h'.registered) == Keys(h.registered) - {c}
            && (forall d :: Get(h'.registered, d) == if d == c then None else Get(h.registered, d))
  {
    hide Get, Values, Keys, Remove, Drop, Unique, OwnKeys, Distinct;
    RemoveUnique(h.registered, c);
    RemoveOwn(h.registered, c);
    DropSpec(h.pending, c);
    forall d ensures Get(Remove(h.registered, c), d) == if d == c then None else Get(h.registered, d) {
      RemoveGet(h.registered, c, d);
    }
  }

  /** Starting the queue of a registered conversation. */
  lemma StartKeeps(h: Handler, c: Conv, starting: set<Conv>)
    requires QueuesInv(h, starting) && c in Keys(h.registered)
    ensures var h' := StartQueue(h, c);
            && QueuesInv(h', starting - {c}) && SameSolving(h, h') && (InSync(h) ==> InSync(h'))
            && h'.isOnline == h.isOnline
            && Keys(h'.registered) == (if h.isOnline then Keys(h.registered) - {c} else Keys(h.registered))
            && (forall d :: Get(h'.registered, d) == if h.isOnline && d == c then None else Get(h.registered, d))
  {
    hide Keys, Get, Values, Unique, OwnKeys;
    if h.isOnline {
      UnregisterKeeps(h, c, starting);
    } else if c !in h.pending {
      DistinctSnoc(h.pending, c);
    }
  }

  /** Starting the queues of several registered conversations. */
  lemma {:induction false} StartsKeep(h: Handler, cs: seq<Conv>)
    requires QueuesInv(h, Members(cs)) && Distinct(cs) && forall c :: c in cs ==> c in Keys(h.registered)
    ensures var h' := StartQueues(h, cs);
            && QueuesInv(h', {}) && SameSolving(h, h') && (InSync(h) ==> InSync(h')) && h'.isOnline == h.isOnline
            && (forall d :: Get(h'.registered, d) == if h.isOnline && d in cs then None else Get(h.registered, d))
    decreases |cs|
  {
    hide QueuesInv, Keys, Get, StartQueue, InSync;
    if cs == [] {
      assert Members(cs) == {};
    } else {
      var c, rest := cs[0], cs[1..];
      StartKeeps(h, c, Members(cs));
      assert Members(cs) - {c} == Members(rest);
      StartsKeep(StartQueue(h, c), rest);
    }
  }

  /** The conversations to start are registered, each named once, and are those that have matured. */
  lemma {:induction false} ToStartSpec(d: Dict<Conv, Challenge>, now: nat, force: bool)
    requires Unique(d) && OwnKeys(d)
    ensures Distinct(ToStart(d, now, force))
    ensures forall c :: c in ToStart(d, now, force) <==> c in Keys(d) && (force || Matured(Get(d, c).value, now))
  {
    if d != [] {
      ToStartSpec(d[1..], now, force);
      hide Matured;
      var rest := ToStart(d[1..], now, force);
      assert d[0] in d && ([d[0].key] + rest)[1..] == rest && [] + rest == rest;
    }
  }

  lemma StartAllKeeps(h: Handler, now: nat, force: bool)
    requires QueuesInv(h, {})
    ensures var h' := StartAllQueues(h, now, force);
            && QueuesInv(h', {}) && SameSolving(h, h') && (InSync(h) ==> InSync(h')) && h'.isOnline == h.isOnline
            && (h.isOnline ==> forall c :: c in Keys(h'.registered) ==>
                  !force && !Matured(Get(h'.registered, c).value, now))
  {
    hide Keys, StartQueues, ToStart, InSync, Matured, SameSolving, Unique, OwnKeys, Distinct;
    ToStartSpec(h.registered, now, force);
    var cs := ToStart(h.registered, now, force);
    assert QueuesInv(h, Members(cs));
    StartsKeep(h, cs);
  }

  // ----- events -----

  /** Going online leaves no pending start and no matured registration. */
  lemma OnlineDrains(h: Handler, now: nat)
    requires Inv(h)
    ensures var h' := OnOnline(h, now);
            && Inv(h') && (InSync(h) ==> InSync(h')) && h'.isOnline && h'.pending == []
            && (forall c :: c in Keys(h'.registered) ==> !Matured(Get(h'.registered, c).value, now))
  {
    hide Keys, Get, StartQueues, StartAllQueues, Unique, OwnKeys, Values, Matured;
    var h1 := h.(isOnline := true, pending := []);
    assert QueuesInv(h1, Members(h.pending));
    StartsKeep(h1, h.pending);
    StartAllKeeps(StartQueues(h1, h.pending), now, false);
  }

  lemma StoreKeeps(h: Handler, challenge: Challenge)
    requires QueuesInv(h, {}) && !Has(h.registered, challenge.conversationId)
    ensures var h1 := Store(h, challenge); var c := challenge.conversationId;
            && QueuesInv(h1, {c}) && InSync(h1) && SameSolving(h, h1) && c in Keys(h1.registered)
            && Get(h1.registered, c) == Some(challenge)
  {
    hide Get, Values, Put, Unique, OwnKeys, Distinct;
    var c := challenge.conversationId;
    PutUnique(h.registered, c, challenge);
    PutOwn(h.registered, challenge);
    forall d
      ensures Get(Put(h.registered, c, challenge), d) == if d == c then Some(challenge) else Get(h.registered, d)
    {
      PutGet(h.registered, c, challenge, d);
    }
  }

  lemma SolveKeeps(h: Handler, token: string, starting: set<Conv>)
    requires QueuesInv(h, starting) && SolvingCounted(h)
    ensures var h' := BeginSolve(h, token);
            QueuesInv(h', starting) && SolvingCounted(h') && (InSync(h) ==> InSync(h'))
  {
    hide Keys, Get, Values, Unique, OwnKeys, Distinct;
  }

  lemma AfterStoredKeeps(h: Handler, challenge: Challenge, now: nat)
    requires QueuesInv(h, {challenge.conversationId}) && SolvingCounted(h)
    requires Get(h.registered, challenge.conversationId) == Some(challenge)
    ensures Inv(AfterStored(h, challenge, now)) && (InSync(h) ==> InSync(AfterStored(h, challenge, now)))
  {
    hide Get, Values, Unique, OwnKeys, StartQueue, Distinct, Keys, BeginSolve;
    var c := challenge.conversationId;
    if Matured(challenge, now) {
      StartKeeps(h, c, {c});
    } else {
      var h' := if challenge.retryAt > 0 then h.(timers := h.timers[c := challenge.retryAt]) else h;
      assert QueuesInv(h', {});
      if Truthy(challenge.token) && !challenge.silent {
        SolveKeeps(h', challenge.token.value, {});
      }
    }
  }

  /** After a registration the stored list is the registered one. */
  lemma RegisterKeeps(h: Handler, challenge: Challenge, now: nat)
    requires Inv(h)
    ensures Inv(Register(h, challenge, now))
    ensures InSync(h) || !Has(h.registered, challenge.conversationId) ==> InSync(Register(h, challenge, now))
  {
    hide QueuesInv, Store, AfterStored, InSync;
    if !Has(h.registered, challenge.conversationId) {
      StoreKeeps(h, challenge);
      AfterStoredKeeps(Store(h, challenge), challenge, now);
    }
  }

  lemma {:induction false} RegistersKeep(h: Handler, cs: seq<Challenge>, now: nat)
    requires Inv(h)
    ensures Inv(RegisterAll(h, cs, now)) && (InSync(h) ==> InSync(RegisterAll(h, cs, now)))
    decreases |cs|
  {
    hide Inv, InSync, Register;
    if cs != [] {
      RegisterKeeps(h, cs[0], now);
      RegistersKeep(Register(h, cs[0], now), cs[1..], now);
    }
  }

  lemma RepliesKeep(h: Handler, now: nat, success: bool)
    requires Inv(h)
    ensures Inv(OnSent(h, now, success)) && (InSync(h) ==> InSync(OnSent(h, now, success)))
  {
    hide Keys, Get, Values, Unique, OwnKeys, Distinct, StartAllQueues;
    var h' := h.(sending := if h.sending > 0 then h.sending - 1 else 0);
    assert QueuesInv(h', {});
    StartAllKeeps(h', now, true);
  }

  lemma AnswersKeep(h: Handler, seqNo: nat)
    requires Inv(h)
    ensures Inv(OnResponse(h, seqNo)) && (InSync(h) ==> InSync(OnResponse(h, seqNo)))
  {
    hide Keys, Get, Values, Unique, OwnKeys, Distinct;
  }

  lemma TimerKeeps(h: Handler, c: Conv)
    requires Inv(h) && c in h.timers
    ensures Inv(TimerFires(h, c)) && (InSync(h) ==> InSync(TimerFires(h, c)))
  {
    hide Keys, Get, Values, Unique, OwnKeys, Distinct, StartQueue;
    var h' := h.(timers := h.timers - {c});
    assert QueuesInv(h', {c});
    StartKeeps(h', c, {c});
  }

  lemma LoadKeeps(h: Handler, now: nat, expireAfter: nat)
    requires Inv(h)
    ensures Inv(Load(h, now, expireAfter)) && (InSync(h) ==> InSync(Load(h, now, expireAfter)))
  {
    hide Keys, Get, Values, Unique, OwnKeys, Distinct, RegisterAll, Unexpired;
    RegistersKeep(h.(isLoaded := true), Unexpired(h.stored, now, expireAfter), now);
  }

  lemma OfflineKeeps(h: Handler)
    requires Inv(h)
    ensures Inv(h.(isOnline := false)) && (InSync(h) ==> InSync(h.(isOnline := false)))
  {
    hide Keys, Get, Values, Unique, OwnKeys, Distinct;
  }

  /** Every event keeps the invariant, and keeps the stored list equal to the registered one. */
  lemma NextInv(h: Handler, e: Event)
    requires Inv(h) && Possible(h, e)
    ensures Inv(Next(h, e)) && (InSync(h) ==> InSync(Next(h, e)))
  {
    hide QueuesInv, SolvingCounted, InSync, Register, OnOnline, Unregister;
    hide OnSent, OnResponse, TimerFires, Load, BeginSolve;
    match e
    case Loads(now, expireAfter) => LoadKeeps(h, now, expireAfter);
    case GoesOnline(now) => OnlineDrains(h, now);
    case GoesOffline => OfflineKeeps(h);
    case Registers(challenge, now) => RegisterKeeps(h, challenge, now);
    case Unregisters(c) =>
      UnregisterKeeps(h, c, {});
      assert {} - {c} == {};
      SameSolvingCounted(h, Unregister(h, c));
    case Fires(c) => TimerKeeps(h, c);
    case MayBeSolved(c) =>
      if MaybeSolve(h, c) != h {
        SolveKeeps(h, Get(h.registered, c).value.token.value, {});
      }
    case Answers(seqNo) => AnswersKeep(h, seqNo);
    case Replies(now, success) => RepliesKeep(h, now, success);
  }

  lemma SameSolvingCounted(h: Handler, h': Handler)
    requires SolvingCounted(h) && SameSolving(h, h')
    ensures SolvingCounted(h')
  {
  }

  // ----- the stored list -----

  lemma RegisterSyncs(h: Handler, challenge: Challenge, now: nat)
    requires Inv(h) && StoredInv(h)
    ensures InSync(Register(h, challenge, now))
  {
    hide Inv, Register, InSync;
    RegisterKeeps(h, challenge, now);
    assert h.registered == [] ==> !Has(h.registered, challenge.conversationId);
  }

  lemma UnregisterSyncs(h: Handler, c: Conv)
    ensures InSync(Unregister(h, c))
  {
  }

  /** Nothing registered, nothing to start. */
  lemma NothingStarts(h: Handler, now: nat, force: bool)
    requires h.registered == []
    ensures StartAllQueues(h, now, force) == h
  {
  }

  /** Every event keeps the stored list in step, whether or not loading wrote it. */
  lemma NextStored(h: Handler, e: Event)
    requires Inv(h) && StoredInv(h) && Possible(h, e)
    ensures StoredInv(Next(h, e))
  {
    if InSync(h) {
      hide Inv, Next, InSync, Possible;
      NextInv(h, e);
    } else {
      UnsyncedStored(h, e);
    }
  }

  lemma HasOne(cs: seq<Conv>)
    ensures cs != [] ==> exists c :: c in cs
  {
    if cs != [] {
      assert cs[0] in cs;
    }
  }

  lemma UnsyncedStored(h: Handler, e: Event)
    requires Inv(h) && h.registered == [] && Possible(h, e)
    ensures StoredInv(Next(h, e))
  {
    HasOne(h.pending);
    match e
    case Loads(now, expireAfter) => LoadStored(h, now, expireAfter);
    case GoesOnline(now) =>
      assert StartQueues(h.(isOnline := true, pending := []), []) == h.(isOnline := true, pending := []);
      NothingStarts(h.(isOnline := true, pending := []), now, false);
    case Registers(challenge, now) =>
      hide Inv, Register;
      RegisterSyncs(h, challenge, now);
    case Unregisters(c) => UnregisterSyncs(h, c);
    case Replies(now, success) => NothingStarts(h.(sending := if h.sending > 0 then h.sending - 1 else 0), now, true);
    case _ =>
  }

  lemma LoadStored(h: Handler, now: nat, expireAfter: nat)
    requires Inv(h) && h.registered == []
    ensures StoredInv(Load(h, now, expireAfter))
  {
    hide QueuesInv, SolvingCounted, Register, Unexpired;
    var h1 := h.(isLoaded := true);
    var cs := Unexpired(h.stored, now, expireAfter);
    assert Inv(h1) by { LoadedInv(h); }
    if !h.isLoaded && cs != [] {
      RegisterSyncs(h1, cs[0], now);
      RegisterKeeps(h1, cs[0], now);
      RegistersKeep(Register(h1, cs[0], now), cs[1..], now);
    }
  }

  lemma LoadedInv(h: Handler)
    requires Inv(h)
    ensures Inv(h.(isLoaded := true))
  {
    hide Keys, Get, Unique, OwnKeys, Distinct;
  }

  // ----- runs -----

  predicate AllPossible(h: Handler, es: seq<Event>)
    decreases |es|
  {
    es == [] || (Possible(h, es[0]) && AllPossible(Next(h, es[0]), es[1..]))
  }

  function After(h: Handler, es: seq<Event>): Handler
    decreases |es|
  {
    if es == [] then h else After(Next(h, es[0]), es[1..])
  }

  function Fresh(stored: seq<Challenge>): Handler {
    Handler(false, false, [], map[], [], stored, [], 0, None, 0, {}, 0)
  }

  lemma {:induction false} RunInv(h: Handler, es: seq<Event>)
    requires Inv(h) && AllPossible(h, es)
    ensures Inv(After(h, es)) && (InSync(h) ==> InSync(After(h, es)))
    ensures StoredInv(h) ==> StoredInv(After(h, es))
    decreases |es|
  {
    hide Inv, InSync, StoredInv, Next, Possible;
    if es != [] {
      NextInv(h, es[0]);
      if StoredInv(h) {
        NextStored(h, es[0]);
      }
      RunInv(Next(h, es[0]), es[1..]);
    }
  }

  /** In every run from a fresh handler: pending starts and timers name only registered conversations,
      no registration with a retry time is forgotten, and solvings are counted right; the stored list
      is the registered one after every register and unregister, and whenever anything is registered;
      and after going online nothing is pending and nothing registered has matured. */
  lemma FreshRuns(stored: seq<Challenge>, es: seq<Event>, now: nat, challenge: Challenge, c: Conv)
    requires AllPossible(Fresh(stored), es)
    ensures var h := After(Fresh(stored), es);
            && Inv(h) && StoredInv(h)
            && InSync(Register(h, challenge, now)) && InSync(Unregister(h, c))
            && OnOnline(h, now).pending == []
            && (forall c :: c in Keys(OnOnline(h, now).registered) ==>
                  !Matured(Get(OnOnline(h, now).registered, c).value, now))
  {
    assert Inv(Fresh(stored)) && StoredInv(Fresh(stored));
    hide Inv, After, OnOnline, Matured, Keys, Get, Register, StoredInv;
    RunInv(Fresh(stored), es);
    RegisterSyncs(After(Fresh(stored), es), challenge, now);
    UnregisterSyncs(After(Fresh(stored), es), c);
    OnlineDrains(After(Fresh(stored), es), now);
  }

  // ----- registrations and queue starts -----

  function Starts(h: Handler, c: Conv): nat {
    multiset(h.started)[c]
  }

  /** Starts so far, and one more to come while registered. */
  function Balance(h: Handler, c: Conv): nat {
    Starts(h, c) + if Has(h.registered, c) then 1 else 0
  }

  lemma StartBalances(h: Handler, c: Conv, x: Conv)
    requires Has(h.registered, c)
    ensures Balance(StartQueue(h, c), x) == Balance(h, x)
  {
    hide Values, Drop, Get;
  }

  lemma {:induction false} StartsBalance(h: Handler, cs: seq<Conv>, x: Conv)
    requires Distinct(cs) && forall c :: c in cs ==> Has(h.registered, c)
    ensures Balance(StartQueues(h, cs), x) == Balance(h, x)
    decreases |cs|
  {
    hide Balance, Values, Drop, Get;
    if cs != [] {
      StartBalances(h, cs[0], x);
      forall c | c in cs[1..] ensures Has(StartQueue(h, cs[0]).registered, c) {
        assert c in cs && c != cs[0];
      }
      StartsBalance(StartQueue(h, cs[0]), cs[1..], x);
    }
  }

  lemma StartAllBalances(h: Handler, now: nat, force: bool, x: Conv)
    requires QueuesInv(h, {})
    ensures Balance(StartAllQueues(h, now, force), x) == Balance(h, x)
  {
    hide Balance, StartQueues, ToStart, Matured, Get, Distinct;
    ToStartSpec(h.registered, now, force);
    StartsBalance(h, ToStart(h.registered, now, force), x);
  }

  /** How often `x` is newly registered. */
  function Registrations(h: Handler, cs: seq<Challenge>, now: nat, x: Conv): nat
    decreases |cs|
  {
    if cs == [] then 0 else
    (if cs[0].conversationId == x && !Has(h.registered, x) then 1 else 0)
    + Registrations(Register(h, cs[0], now), cs[1..], now, x)
  }

  function Gained(h: Handler, e: Event, x: Conv): nat {
    if e.Registers? then Registrations(h, [e.challenge], e.now, x)
    else if e.Loads? && !h.isLoaded then
      Registrations(h.(isLoaded := true), Unexpired(h.stored, e.now, e.expireAfter), e.now, x)
    else 0
  }

  function Withdrawn(h: Handler, e: Event, x: Conv): nat {
    if e == Unregisters(x) && Has(h.registered, x) then 1 else 0
  }

  lemma RegisterBalances(h: Handler, challenge: Challenge, now: nat, x: Conv)
    ensures Balance(Register(h, challenge, now), x) ==
              Balance(h, x) + if challenge.conversationId == x && !Has(h.registered, x) then 1 else 0
  {
    var c := challenge.conversationId;
    hide Values, Drop, Get, Put, StartQueue, Matured;
    if !Has(h.registered, c) {
      StartBalances(Store(h, challenge), c, x);
    }
  }

  lemma {:induction false} RegistersBalance(h: Handler, cs: seq<Challenge>, now: nat, x: Conv)
    ensures Balance(RegisterAll(h, cs, now), x) == Balance(h, x) + Registrations(h, cs, now, x)
    decreases |cs|
  {
    hide Balance, Register, Has;
    if cs != [] {
      RegisterBalances(h, cs[0], now, x);
      RegistersBalance(Register(h, cs[0], now), cs[1..], now, x);
    }
  }

  lemma SimpleBalances(h: Handler, e: Event, x: Conv)
    requires Inv(h) && Possible(h, e) && (e.Unregisters? || e.Fires? || e.GoesOffline? || e.MayBeSolved? || e.Answers?)
    ensures Balance(Next(h, e), x) + Withdrawn(h, e, x) == Balance(h, x)
  {
    hide Values, Drop, Get, StartQueue, Remembered, SolvingCounted, Distinct, Keys, Unique, OwnKeys;
    if e.Fires? {
      StartBalances(h.(timers := h.timers - {e.conv}), e.conv, x);
    }
  }

  /** A queue start takes up a registration, so only registering and unregistering change the balance. */
  lemma NextBalances(h: Handler, e: Event, x: Conv)
    requires Inv(h) && Possible(h, e)
    ensures Balance(Next(h, e), x) + Withdrawn(h, e, x) == Balance(h, x) + Gained(h, e, x)
  {
    match e
    case Loads(now, expireAfter) =>
      var h1 := h.(isLoaded := true);
      assert Balance(h1, x) == Balance(h, x);
      hide Inv, Balance, RegisterAll, Unexpired, Registrations;
      RegistersBalance(h1, Unexpired(h.stored, now, expireAfter), now, x);
    case GoesOnline(now) => OnlineBalances(h, now, x);
    case Registers(challenge, now) =>
      hide Inv, Balance, Register, Registrations;
      OneRegistered(h, challenge, now);
      RegistersBalance(h, [challenge], now, x);
    case Replies(now, success) => RepliesBalance(h, now, success, x);
    case _ => SimpleBalances(h, e, x);
  }

  lemma OneRegistered(h: Handler, challenge: Challenge, now: nat)
    ensures [challenge][1..] == [] && RegisterAll(h, [challenge], now) == Register(h, challenge, now)
  {
    hide Register;
    assert [challenge][1..] == [];
  }

  lemma OnlineBalances(h: Handler, now: nat, x: Conv)
    requires Inv(h)
    ensures Balance(OnOnline(h, now), x) == Balance(h, x)
  {
    hide Keys, Get, StartQueues, StartAllQueues, Unique, OwnKeys;
    var h1 := h.(isOnline := true, pending := []);
    assert QueuesInv(h1, Members(h.pending));
    StartsKeep(h1, h.pending);
    StartsBalance(h1, h.pending, x);
    StartAllBalances(StartQueues(h1, h.pending), now, false, x);
  }

  lemma RepliesBalance(h: Handler, now: nat, success: bool, x: Conv)
    requires Inv(h)
    ensures Balance(OnSent(h, now, success), x) == Balance(h, x)
  {
    hide Keys, Get, StartAllQueues, Unique, OwnKeys, Distinct;
    var h' := h.(sending := if h.sending > 0 then h.sending - 1 else 0);
    assert QueuesInv(h', {});
    StartAllBalances(h', now, true, x);
  }

  function TotalGained(h: Handler, es: seq<Event>, x: Conv): nat
    decreases |es|
  {
    if es == [] then 0 else Gained(h, es[0], x) + TotalGained(Next(h, es[0]), es[1..], x)
  }

  function TotalWithdrawn(h: Handler, es: seq<Event>, x: Conv): nat
    decreases |es|
  {
    if es == [] then 0 else Withdrawn(h, es[0], x) + TotalWithdrawn(Next(h, es[0]), es[1..], x)
  }

  /** Conservation over every run: each registration of a conversation ends in one queue start or one
      withdrawal, or is still there. So it triggers at most one start. */
  lemma {:induction false} OneStartEach(h: Handler, es: seq<Event>, x: Conv)
    requires Inv(h) && AllPossible(h, es)
    ensures Balance(After(h, es), x) + TotalWithdrawn(h, es, x) == Balance(h, x) + TotalGained(h, es, x)
    ensures Starts(After(h, es), x) <= Balance(h, x) + TotalGained(h, es, x)
    decreases |es|
  {
    hide Inv, Next, Possible, Gained, Withdrawn, Has, Starts;
    if es != [] {
      NextInv(h, es[0]);
      NextBalances(h, es[0], x);
      OneStartEach(Next(h, es[0]), es[1..], x);
    }
  }

  // ----- loading -----

  /** Loading leaves the stored list equal to the registered one exactly when something stored is not
      expired, or nothing was stored: with only expired entries, nothing is written. */
  lemma LoadSyncsIff(stored: seq<Challenge>, now: nat, expireAfter: nat)
    ensures InSync(Load(Fresh(stored), now, expireAfter)) <==>
              stored == [] || Unexpired(stored, now, expireAfter) != []
  {
    var h := Fresh(stored).(isLoaded := true);
    var cs := Unexpired(stored, now, expireAfter);
    if cs != [] {
      assert Inv(h);
      hide Inv, Register, Unexpired;
      RegisterKeeps(h, cs[0], now);
      RegistersKeep(Register(h, cs[0], now), cs[1..], now);
    }
  }

  // ----- persisting as a step of its own -----

  /** What else may have happened while the challenge was being stored: the conversation is registered
      with it, or with another challenge, or not at all. The rest of the registration then keeps
      pending starts and timers to registered conversations exactly when it starts the queue at once,
      or the conversation is still registered, with the same retry time if a timer is set. */
  predicate SafeToResume(h: Handler, challenge: Challenge, now: nat) {
    var c := challenge.conversationId;
    if Matured(challenge, now) then h.isOnline || Has(h.registered, c)
    else challenge.retryAt == 0
         || (Has(h.registered, c) && Get(h.registered, c).value.retryAt == challenge.retryAt)
  }

  lemma ResumedRegistrationIff(h: Handler, challenge: Challenge, now: nat)
    requires NamesRegistered(h)
    ensures NamesRegistered(AfterStored(h, challenge, now)) <==> SafeToResume(h, challenge, now)
  {
    hide Unregister, Unique, OwnKeys, Distinct, Get;
    var c := challenge.conversationId;
    if Matured(challenge, now) && h.isOnline {
      UnregisterNames(h, c);
    } else if Matured(challenge, now) && c !in h.pending {
      assert c in StartQueue(h, c).pending;
      DistinctSnoc(h.pending, c);
    }
  }

  lemma UnregisterNames(h: Handler, c: Conv)
    requires NamesRegistered(h)
    ensures NamesRegistered(Unregister(h, c))
  {
    hide Get, Values, Keys, Remove, Drop, Unique, OwnKeys, Distinct;
    RemoveUnique(h.registered, c);
    RemoveOwn(h.registered, c);
    DropSpec(h.pending, c);
    forall d ensures Get(Remove(h.registered, c), d) == if d == c then None else Get(h.registered, d) {
      RemoveGet(h.registered, c, d);
    }
  }

  /** The rest of a registration starts a queue exactly when the challenge has matured and we are
      online; so the start is for a conversation that is not registered exactly when moreover it was
      unregistered meanwhile. */
  lemma ResumedStartIff(h: Handler, challenge: Challenge, now: nat)
    ensures var h' := AfterStored(h, challenge, now); var c := challenge.conversationId;
            && h'.started == h.started + (if Matured(challenge, now) && h.isOnline then [c] else [])
            && (Starts(h', c) > Starts(h, c) && !Has(h.registered, c) <==>
                  Matured(challenge, now) && h.isOnline && !Has(h.registered, c))
  {
    hide Values, Drop, Get;
  }

  /** When unregistering comes between storing a challenge and the rest of its registration, what
      follows is for a conversation that is not registered: a timer, or a pending or actual start. */
  lemma InterruptedRegistration(h: Handler, challenge: Challenge, now: nat)
    requires Inv(h) && !Has(h.registered, challenge.conversationId) && challenge.retryAt > 0
    ensures var c := challenge.conversationId;
            var h' := AfterStored(Unregister(Store(h, challenge), c), challenge, now);
            && c !in Keys(h'.registered)
            && (if !Matured(challenge, now) then c in h'.timers
                else if h.isOnline then Starts(h', c) == Starts(h, c) + 1
                else c in h'.pending)
  {
    var c := challenge.conversationId;
    hide Values, Keys, Get, Put, Remove, Drop, Unique, OwnKeys, Distinct;
    StoreKeeps(h, challenge);
    UnregisterKeeps(Store(h, challenge), c, {c});
    hide Remembered, NamesRegistered, SolvingCounted;
  }
}
