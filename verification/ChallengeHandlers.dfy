/** The challenge handler, updated in place. */
module ChallengeHandlers {
  import opened Options
  import opened Dicts
  import opened Challenges

  class ChallengeHandler {
    var isLoaded: bool
    var isOnline: bool
    var registeredConversations: Dict<Conv, Challenge>
    var startTimers: map<Conv, nat>
    var pendingStarts: seq<Conv>
    var stored: seq<Challenge>
    var started: seq<Conv>
    var solving: int
    var challengeToken: Option<string>
    var nextSeq: nat
    var responseHandlers: set<nat>
    var sending: nat

    constructor (stored: seq<Challenge>)
      ensures Snapshot() == Handler(false, false, [], map[], [], stored, [], 0, None, 0, {}, 0)
    {
      isLoaded, isOnline, registeredConversations, startTimers := false, false, [], map[];
      pendingStarts, this.stored, started, solving := [], stored, [], 0;
      challengeToken, nextSeq, responseHandlers, sending := None, 0, {}, 0;
    }

    function Snapshot(): Handler
      reads this
    {
      Handler(isLoaded, isOnline, registeredConversations, startTimers, pendingStarts, stored, started,
              solving, challengeToken, nextSeq, responseHandlers, sending)
    }

    method Unregister(c: Conv)
      modifies this
      ensures Snapshot() == Next(old(Snapshot()), Unregisters(c))
    {
      registeredConversations := Remove(registeredConversations, c);
      pendingStarts := Drop(pendingStarts, c);
      startTimers := startTimers - {c};
      stored := Values(registeredConversations);
    }

    method StartQueue(c: Conv)
      modifies this
      ensures Snapshot() == Challenges.StartQueue(old(Snapshot()), c)
    {
      if !isOnline {
        if c !in pendingStarts {
          pendingStarts := pendingStarts + [c];
        }
        return;
      }
      Unregister(c);
      started := started + [c];
    }

    method StartQueues(cs: seq<Conv>)
      modifies this
      ensures Snapshot() == Challenges.StartQueues(old(Snapshot()), cs)
    {
      for i := 0 to |cs|
        invariant Challenges.StartQueues(Snapshot(), cs[i..]) == Challenges.StartQueues(old(Snapshot()), cs)
      {
        assert cs[i..][0] == cs[i] && cs[i..][1..] == cs[i + 1..];
        StartQueue(cs[i]);
      }
      assert cs[|cs|..] == [];
    }

    method Solve(token: string)
      modifies this
      ensures Snapshot() == BeginSolve(old(Snapshot()), token)
    {
      solving := solving + 1;
      challengeToken := Some(token);
      responseHandlers := responseHandlers + {nextSeq};
      nextSeq := nextSeq + 1;
    }

    method Register(challenge: Challenge, now: nat)
      modifies this
      ensures Snapshot() == Next(old(Snapshot()), Registers(challenge, now))
    {
      hide Values, Put, Get, Challenges.Unregister, BeginSolve, Matured, Challenges.StartQueue;
      var c := challenge.conversationId;
      if Has(registeredConversations, c) {
        return;
      }
      registeredConversations := Put(registeredConversations, c, challenge);
      stored := Values(registeredConversations);
      if Matured(challenge, now) {
        StartQueue(c);
        return;
      }
      if challenge.retryAt > 0 {
        startTimers := startTimers[c := challenge.retryAt];
      }
      if Truthy(challenge.token) && !challenge.silent {
        Solve(challenge.token.value);
      }
    }

    /** Registers what was stored and has not expired. */
    method Load(now: nat, expireAfter: nat)
      modifies this
      ensures Snapshot() == Next(old(Snapshot()), Loads(now, expireAfter))
    {
      hide Challenges.Register, Expired;
      if isLoaded {
        return;
      }
      isLoaded := true;
      var challenges := stored;
      ghost var start := Snapshot();
      for i := 0 to |challenges|
        invariant RegisterAll(Snapshot(), Unexpired(challenges[i..], now, expireAfter), now)
               == RegisterAll(start, Unexpired(challenges, now, expireAfter), now)
      {
        assert challenges[i..][0] == challenges[i] && challenges[i..][1..] == challenges[i + 1..];
        ghost var rest := Unexpired(challenges[i + 1..], now, expireAfter);
        assert ([challenges[i]] + rest)[1..] == rest && [] + rest == rest;
        if !Expired(challenges[i], now, expireAfter) {
          Register(challenges[i], now);
        }
      }
      assert challenges[|challenges|..] == [];
    }

    method OnOffline()
      modifies `isOnline
      ensures Snapshot() == Next(old(Snapshot()), GoesOffline)
    {
      isOnline := false;
    }

    method StartAllQueues(now: nat, force: bool)
      modifies this
      ensures Snapshot() == Challenges.StartAllQueues(old(Snapshot()), now, force)
    {
      StartQueues(ToStart(registeredConversations, now, force));
    }

    method OnOnline(now: nat)
      modifies this
      ensures Snapshot() == Next(old(Snapshot()), GoesOnline(now))
    {
      isOnline := true;
      var pending := pendingStarts;
      pendingStarts := [];
      StartQueues(pending);
      StartAllQueues(now, false);
    }

    method OnTimer(c: Conv)
      requires c in startTimers
      modifies this
      ensures Snapshot() == Next(old(Snapshot()), Fires(c))
    {
      startTimers := startTimers - {c};
      StartQueue(c);
    }

    method MaybeSolve(c: Conv)
      modifies this
      ensures Snapshot() == Next(old(Snapshot()), MayBeSolved(c))
    {
      var challenge := Get(registeredConversations, c);
      if challenge.None? || solving > 0 {
        return;
      }
      if Truthy(challenge.value.token) {
        Solve(challenge.value.token.value);
      }
    }

    /** The captcha has come back; whoever took the token already is followed by nobody. */
    method OnResponse(seqNo: nat)
      modifies this
      ensures Snapshot() == Next(old(Snapshot()), Answers(seqNo))
    {
      if seqNo !in responseHandlers {
        return;
      }
      responseHandlers := responseHandlers - {seqNo};
      if challengeToken.None? {
        solving := solving - 1;
        return;
      }
      challengeToken := None;
      sending := sending + 1;
    }

    method OnSent(now: nat, success: bool)
      modifies this
      ensures Snapshot() == Next(old(Snapshot()), Replies(now, success))
    {
      if sending == 0 {
        return;
      }
      sending := sending - 1;
      if success {
        StartAllQueues(now, true);
      }
      solving := solving - 1;
    }
  }
}
