/** Which conversations an event of the challenge handler starts, and which challenges are answered. */
module ChallengeEffects {
  import opened Options
  import opened Dicts
  import opened Challenges
  import opened ChallengeLaws

  // ----- which queues are started -----

  /** Online, exactly the matured registrations are used up, or all of them if forced. */
  lemma StartAllExactly(h: Handler, now: nat, force: bool, c: Conv)
    requires QueuesInv(h, {}) && h.isOnline
    ensures var h' := StartAllQueues(h, now, force);
            && QueuesInv(h', {}) && h'.isOnline && SameSolving(h, h')
            && Get(h'.registered, c) == match Get(h.registered, c)
                                        case None => None
                                        case Some(x) => if force || 0 < x.retryAt <= now then None else Some(x)
  {
    hide Keys, StartQueues, ToStart, SameSolving, Unique, OwnKeys, Distinct, Get;
    ToStartSpec(h.registered, now, force);
    var cs := ToStart(h.registered, now, force);
    assert QueuesInv(h, Members(cs));
    StartsKeep(h, cs);
  }

  /** Going online uses up exactly what was pending and what has matured, each with one start; every
      other registration stays as it is. */
  lemma OnlineStartsExactly(h: Handler, now: nat, c: Conv)
    requires Inv(h)
    ensures var h' := OnOnline(h, now);
            var due := c in h.pending
                       || match Get(h.registered, c) case None => false case Some(x) => 0 < x.retryAt <= now;
            && Get(h'.registered, c) == (if due then None else Get(h.registered, c))
            && Starts(h', c) == Starts(h, c) + if due then 1 else 0
  {
    OnlineBalances(h, now, c);
    PendingFirst(h, c);
    var h1 := StartQueues(h.(isOnline := true, pending := []), h.pending);
    hide Keys, Get, StartQueues, StartAllQueues, QueuesInv, Inv, Starts;
    StartAllExactly(h1, now, false, c);
  }

  /** What was pending goes first. */
  lemma PendingFirst(h: Handler, c: Conv)
    requires Inv(h)
    ensures var h1 := StartQueues(h.(isOnline := true, pending := []), h.pending);
            && QueuesInv(h1, {}) && h1.isOnline
            && Get(h1.registered, c) == (if c in h.pending then None else Get(h.registered, c))
            && (c in h.pending ==> Get(h.registered, c).Some?)
  {
    hide Get, StartQueues, Unique, OwnKeys, Values, Keys;
    assert QueuesInv(h.(isOnline := true, pending := []), Members(h.pending));
    PendingDistinct(h);
    hide SolvingCounted, Distinct, NamesRegistered, Remembered;
    StartsKeep(h.(isOnline := true, pending := []), h.pending);
  }

  predicate NamesDistinct(cs: seq<Conv>, d: Dict<Conv, Challenge>) {
    Distinct(cs) && forall c :: c in cs ==> c in Keys(d)
  }

  lemma PendingDistinct(h: Handler)
    requires Inv(h)
    ensures NamesDistinct(h.pending, h.registered)
  {
    hide Keys, Get, Unique, OwnKeys, Distinct;
  }

  // ----- the verdict on an answer -----

  lemma {:induction false} StartsOffline(h: Handler, cs: seq<Conv>)
    requires !h.isOnline
    ensures StartQueues(h, cs) == h.(pending := StartQueues(h, cs).pending)
    ensures forall c :: c in StartQueues(h, cs).pending <==> c in h.pending || c in cs
    decreases |cs|
  {
    if cs != [] {
      StartsOffline(StartQueue(h, cs[0]), cs[1..]);
    }
  }

  /** Success starts everything that is registered, whether or not it has matured: online each registered
      conversation is started once and nothing is left to do; offline all of them are pending. */
  lemma SuccessStartsAll(h: Handler, now: nat, c: Conv)
    requires Inv(h) && h.sending > 0
    ensures var h' := OnSent(h, now, true);
            && h'.sending == h.sending - 1 && h'.solving == h.solving - 1
            && (if h.isOnline then
                  && c !in Keys(h'.registered) && h'.pending == [] && c !in h'.timers
                  && Starts(h', c) == Starts(h, c) + if Has(h.registered, c) then 1 else 0
                else
                  && h'.registered == h.registered && h'.timers == h.timers && h'.started == h.started
                  && (c in h'.pending <==> Has(h.registered, c)))
  {
    RepliesBalance(h, now, true, c);
    var h1 := h.(sending := h.sending - 1);
    assert QueuesInv(h1, {}) by { hide Keys, Get, Unique, OwnKeys, Values; }
    if h.isOnline {
      StartAllExactly(h1, now, true, c);
      hide Keys, Get, StartAllQueues, Unique, OwnKeys, Values, SolvingCounted, Distinct, Starts;
    } else {
      hide Get, Unique, OwnKeys, Values, SolvingCounted, StartQueues;
      assert NamesDistinct(h.pending, h.registered) by { PendingDistinct(h); }
      ToStartSpec(h.registered, now, true);
      StartsOffline(h1, ToStart(h.registered, now, true));
    }
  }

  /** A failure only ends the solving. */
  lemma FailureOnlyEnds(h: Handler, now: nat)
    ensures OnSent(h, now, false) ==
              if h.sending == 0 then h else h.(sending := h.sending - 1, solving := h.solving - 1)
  {
  }

  // ----- loading -----

  /** Some stored challenge for the conversation is younger than the limit. */
  ghost predicate StillValid(stored: seq<Challenge>, now: nat, expireAfter: nat, c: Conv) {
    exists x :: x in stored && x.conversationId == c && now < x.createdAt + expireAfter
  }

  lemma {:induction false} UnexpiredIff(stored: seq<Challenge>, now: nat, expireAfter: nat, x: Challenge)
    ensures x in Unexpired(stored, now, expireAfter) <==> x in stored && now < x.createdAt + expireAfter
  {
    if stored != [] {
      UnexpiredIff(stored[1..], now, expireAfter, x);
    }
  }

  predicate Names(cs: seq<Challenge>, c: Conv) {
    exists x :: x in cs && x.conversationId == c
  }

  lemma NamesFirst(cs: seq<Challenge>, c: Conv)
    requires cs != []
    ensures Names(cs, c) <==> cs[0].conversationId == c || Names(cs[1..], c)
  {
    assert cs == [cs[0]] + cs[1..];
  }

  lemma {:induction false} RegistrationsOnce(h: Handler, cs: seq<Challenge>, now: nat, c: Conv)
    requires !h.isOnline
    ensures Registrations(h, cs, now, c) == if !Has(h.registered, c) && Names(cs, c) then 1 else 0
    decreases |cs|
  {
    hide Register, Has;
    if cs != [] {
      NamesFirst(cs, c);
      hide Names;
      OfflineRegisters(h, cs[0], now);
      RegistrationsOnce(Register(h, cs[0], now), cs[1..], now, c);
    }
  }

  /** Offline a registration starts nothing, so it stays. */
  lemma OfflineRegisters(h: Handler, challenge: Challenge, now: nat)
    requires !h.isOnline
    ensures var h' := Register(h, challenge, now);
            && !h'.isOnline && h'.started == h.started
            && forall c :: Has(h'.registered, c) <==> Has(h.registered, c) || c == challenge.conversationId
  {
    hide Values, Get, Matured;
  }

  /** A first load before the connection is there registers exactly the conversations with a stored
      challenge that is still valid, and starts none of them yet. */
  lemma LoadRegistersValid(stored: seq<Challenge>, now: nat, expireAfter: nat, c: Conv)
    ensures var h := Load(Fresh(stored), now, expireAfter);
            && (Has(h.registered, c) <==> StillValid(stored, now, expireAfter, c))
            && h.started == [] && h.isLoaded && Load(h, now, expireAfter) == h
  {
    var h := Fresh(stored).(isLoaded := true);
    var cs := Unexpired(stored, now, expireAfter);
    assert Inv(h);
    hide Inv, Unexpired, Registrations;
    RegistrationsOnce(h, cs, now, c);
    RegistersBalance(h, cs, now, c);
    NothingStartedOffline(h, cs, now);
    forall x: Challenge ensures x in cs <==> x in stored && now < x.createdAt + expireAfter {
      UnexpiredIff(stored, now, expireAfter, x);
    }
    hide RegisterAll;
  }

  lemma {:induction false} NothingStartedOffline(h: Handler, cs: seq<Challenge>, now: nat)
    requires !h.isOnline
    ensures RegisterAll(h, cs, now).started == h.started && RegisterAll(h, cs, now).isLoaded == h.isLoaded
    decreases |cs|
  {
    if cs != [] {
      OfflineRegisters(h, cs[0], now);
      NothingStartedOffline(Register(h, cs[0], now), cs[1..], now);
      hide Values, Get, Put, Matured;
    }
  }

  // ----- what is stored -----

  /** The stored list of a handler in step has exactly the registered challenges. */
  lemma {:induction false} ValuesAre(d: Dict<Conv, Challenge>, x: Challenge)
    requires Unique(d) && OwnKeys(d)
    ensures x in Values(d) <==> Get(d, x.conversationId) == Some(x)
    ensures |Values(d)| == |d|
  {
    if d != [] {
      assert d[0] in d;
      ValuesAre(d[1..], x);
      if x in Values(d[1..]) {
        GetIsIn(d[1..], x.conversationId);
      }
    }
  }

  /** In every run from a fresh handler, while anything is registered or right after a register or an
      unregister, what is stored is exactly the registered challenges, each once. */
  lemma StoredAreRegistered(stored: seq<Challenge>, es: seq<Event>, x: Challenge, challenge: Challenge, now: nat,
                            c: Conv)
    requires AllPossible(Fresh(stored), es)
    ensures var h := After(Fresh(stored), es);
            var r, u := Register(h, challenge, now), Unregister(h, c);
            && (h.registered != [] ==>
                  (x in h.stored <==> Get(h.registered, x.conversationId) == Some(x)) && |h.stored| == |h.registered|)
            && (x in r.stored <==> Get(r.registered, x.conversationId) == Some(x))
            && (x in u.stored <==> Get(u.registered, x.conversationId) == Some(x))
  {
    FreshRuns(stored, es, now, challenge, c);
    var h := After(Fresh(stored), es);
    RegisterKeeps(h, challenge, now);
    UnregisterKeeps(h, c, {});
    InvNames(h);
    InvNames(Register(h, challenge, now));
    hide After, Register, Unregister, Values, Get, OnOnline, Keys, Matured;
    ValuesAre(h.registered, x);
    ValuesAre(Register(h, challenge, now).registered, x);
    ValuesAre(Unregister(h, c).registered, x);
  }

  lemma InvNames(h: Handler)
    requires Inv(h)
    ensures Unique(h.registered) && OwnKeys(h.registered)
  {
  }

  /** A restart loses no challenge that is still valid: in every such state, loading what is stored into a
      fresh handler registers exactly the conversations that were registered and have not expired. */
  lemma RestartRestores(h: Handler, now: nat, expireAfter: nat, c: Conv)
    requires Inv(h) && InSync(h)
    ensures Has(Load(Fresh(h.stored), now, expireAfter).registered, c) <==>
              Has(h.registered, c) && now < Get(h.registered, c).value.createdAt + expireAfter
  {
    InvNames(h);
    LoadRegistersValid(h.stored, now, expireAfter, c);
    if Has(h.registered, c) {
      GetIsIn(h.registered, c);
      assert Get(h.registered, c).value.conversationId == c;
      ValuesAre(h.registered, Get(h.registered, c).value);
    }
    hide Values, Get, Load, Keys, Unique, OwnKeys, Inv;
    forall x: Challenge ensures x in h.stored <==> Get(h.registered, x.conversationId) == Some(x) {
      ValuesAre(h.registered, x);
    }
  }

  // ----- solving -----

  /** A solving begins with this token: it is held for the answer, and one more request is shown. */
  predicate Begins(h: Handler, h': Handler, token: string) {
    && h'.solving == h.solving + 1 && h'.challengeToken == Some(token)
    && h'.waiting == h.waiting + {h.nextSeq} && h'.nextSeq == h.nextSeq + 1 && h'.sending == h.sending
  }

  predicate HasToken(c: Challenge) {
    match c.token
    case None => false
    case Some(t) => t != ""
  }

  lemma StartSolvesNothing(h: Handler, c: Conv)
    ensures SameSolving(h, StartQueue(h, c))
  {
  }

  /** A registration begins to be solved at once exactly when it is new, has not matured, and has a token
      that may be put to the user. */
  lemma RegisterBegins(h: Handler, challenge: Challenge, now: nat)
    ensures var h' := Register(h, challenge, now);
            if !Has(h.registered, challenge.conversationId) && !(0 < challenge.retryAt <= now) && HasToken(challenge)
               && !challenge.silent
            then Begins(h, h', challenge.token.value) else SameSolving(h, h')
  {
    StartSolvesNothing(Store(h, challenge), challenge.conversationId);
    hide Values, Put, StartQueue, Has;
  }

  /** Asked for, a registration begins to be solved exactly when it has a token and nothing else is being
      solved. */
  lemma SolveBegins(h: Handler, c: Conv)
    requires Inv(h)
    ensures var h' := MaybeSolve(h, c);
            var x := Get(h.registered, c);
            if x.Some? && HasToken(x.value) && h.solving == 0
            then Begins(h, h', x.value.token.value) && h'.registered == h.registered && h'.pending == h.pending
                 && h'.timers == h.timers && h'.stored == h.stored && h'.started == h.started
            else h' == h
  {
    hide Get, NamesRegistered, Remembered;
  }

  /** The first answer since a token was set takes the token to the server; another one only ends its own
      solving; an answer to a request that is not shown does nothing. */
  lemma AnswerTakesToken(h: Handler, seqNo: nat)
    ensures var h' := OnResponse(h, seqNo);
            if seqNo !in h.waiting then h' == h
            else
              && h'.waiting == h.waiting - {seqNo} && h'.challengeToken == None
              && (if h.challengeToken.Some? then h'.sending == h.sending + 1 && h'.solving == h.solving
                  else h'.sending == h.sending && h'.solving == h.solving - 1)
  {
  }

  // ----- each token is answered once -----

  /** Tokens that wait for an answer, and solvings begun so far. */
  function Held(h: Handler): nat {
    if h.challengeToken.Some? then 1 else 0
  }

  /** The event sends an answer with a token to the server. */
  function Sent(h: Handler, e: Event): nat {
    if e.Answers? && Next(h, e).sending > h.sending then 1 else 0
  }

  function TotalSent(h: Handler, es: seq<Event>): nat
    decreases |es|
  {
    if es == [] then 0 else Sent(h, es[0]) + TotalSent(Next(h, es[0]), es[1..])
  }

  /** No more tokens are held than were, or have been begun since. */
  predicate TokensBegun(h: Handler, h': Handler, sent: nat) {
    h'.nextSeq >= h.nextSeq && sent + Held(h') <= Held(h) + (h'.nextSeq - h.nextSeq)
  }

  lemma {:induction false} RegistersBegin(h: Handler, cs: seq<Challenge>, now: nat)
    ensures TokensBegun(h, RegisterAll(h, cs, now), 0)
    decreases |cs|
  {
    if cs != [] {
      RegisterBegins(h, cs[0], now);
      RegistersBegin(Register(h, cs[0], now), cs[1..], now);
      hide Register, Has;
    }
  }

  lemma {:induction false} StartsTokens(h: Handler, cs: seq<Conv>)
    ensures SameSolving(h, StartQueues(h, cs))
    decreases |cs|
  {
    if cs != [] {
      StartSolvesNothing(h, cs[0]);
      StartsTokens(StartQueue(h, cs[0]), cs[1..]);
      hide StartQueue;
    }
  }

  lemma StartAllTokens(h: Handler, now: nat, force: bool)
    ensures SameSolving(h, StartAllQueues(h, now, force))
  {
    StartsTokens(h, ToStart(h.registered, now, force));
  }

  lemma StartTokens(h: Handler, now: nat, success: bool)
    ensures TokensBegun(h, OnOnline(h, now), 0) && TokensBegun(h, OnSent(h, now, success), 0)
  {
    hide StartQueue, StartQueues, StartAllQueues;
    StartsTokens(h.(isOnline := true, pending := []), h.pending);
    StartAllTokens(StartQueues(h.(isOnline := true, pending := []), h.pending), now, false);
    StartAllTokens(h.(sending := if h.sending > 0 then h.sending - 1 else 0), now, true);
  }

  lemma NextTokens(h: Handler, e: Event)
    requires Inv(h) && Possible(h, e)
    ensures TokensBegun(h, Next(h, e), Sent(h, e))
  {
    match e
    case Loads(now, expireAfter) =>
      hide Inv, RegisterAll, Unexpired;
      RegistersBegin(h.(isLoaded := true), Unexpired(h.stored, now, expireAfter), now);
    case GoesOnline(now) =>
      hide Inv, OnOnline;
      StartTokens(h, now, true);
    case Registers(challenge, now) =>
      hide Inv, Register;
      RegisterBegins(h, challenge, now);
    case Fires(c) =>
      hide Inv, StartQueue;
      StartSolvesNothing(h.(timers := h.timers - {c}), c);
    case MayBeSolved(c) =>
      SolveBegins(h, c);
      hide Inv, MaybeSolve;
    case Replies(now, success) =>
      hide Inv, OnSent;
      StartTokens(h, now, success);
    case _ =>
      hide Inv;
  }

  /** Over every run: the answers sent with a token, and the token still held, are no more than the
      tokens held before and the solvings begun since. No token is sent twice. */
  lemma {:induction false} OneAnswerPerToken(h: Handler, es: seq<Event>)
    requires Inv(h) && AllPossible(h, es)
    ensures TokensBegun(h, After(h, es), TotalSent(h, es))
    decreases |es|
  {
    hide Inv, Next, Possible, Sent, Held;
    if es != [] {
      NextInv(h, es[0]);
      NextTokens(h, es[0]);
      OneAnswerPerToken(Next(h, es[0]), es[1..]);
    }
  }
}
