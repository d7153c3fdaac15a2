/** Conversations whose sending is blocked by a challenge: registrations, timers, queue starts that
    wait for a connection, and the solving of challenges. Persisting is one step with what precedes
    and follows it. */
module Challenges {
  import opened Options
  import opened Dicts

  type Conv = nat

  /** A retry time of 0 stands for none; a silent challenge is not put to the user. */
  datatype Challenge = Challenge(
    conversationId: Conv, createdAt: nat, retryAt: nat, token: Option<string>, silent: bool)

  /** The fields of the handler, the stored list, and the queues started so far. `waiting` holds the
      requests shown to the user, `sending` counts answers on their way to the server. */
  datatype Handler = Handler(
    isLoaded: bool, isOnline: bool,
    registered: Dict<Conv, Challenge>, timers: map<Conv, nat>, pending: seq<Conv>,
    stored: seq<Challenge>, started: seq<Conv>,
    solving: int, challengeToken: Option<string>, nextSeq: nat, waiting: set<nat>, sending: nat)

  function Values(d: Dict<Conv, Challenge>): seq<Challenge> {
    if d == [] then [] else [d[0].value] + Values(d[1..])
  }

  predicate Matured(c: Challenge, now: nat) {
    0 < c.retryAt <= now
  }

  // ----- operations -----

  function Persist(h: Handler): Handler {
    h.(stored := Values(h.registered))
  }

  function Drop(s: seq<Conv>, c: Conv): seq<Conv> {
    if s == [] then [] else if s[0] == c then Drop(s[1..], c) else [s[0]] + Drop(s[1..], c)
  }

  function Unregister(h: Handler, c: Conv): Handler {
    Persist(h.(registered := Remove(h.registered, c), pending := Drop(h.pending, c), timers := h.timers - {c}))
  }

  /** Offline, the start is kept for later; online, it uses up the registration. */
  function StartQueue(h: Handler, c: Conv): Handler {
    if !h.isOnline then (if c in h.pending then h else h.(pending := h.pending + [c]))
    else var h' := Unregister(h, c); h'.(started := h'.started + [c])
  }

  function StartQueues(h: Handler, cs: seq<Conv>): Handler
    decreases |cs|
  {
    if cs == [] then h else StartQueues(StartQueue(h, cs[0]), cs[1..])
  }

  /** The registered conversations to start, in order of registration. */
  function ToStart(d: Dict<Conv, Challenge>, now: nat, force: bool): seq<Conv> {
    if d == [] then []
    else (if force || Matured(d[0].value, now) then [d[0].value.conversationId] else []) + ToStart(d[1..], now, force)
  }

  function StartAllQueues(h: Handler, now: nat, force: bool): Handler {
    StartQueues(h, ToStart(h.registered, now, force))
  }

  function BeginSolve(h: Handler, token: string): Handler {
    h.(solving := h.solving + 1, challengeToken := Some(token),
       waiting := h.waiting + {h.nextSeq}, nextSeq := h.nextSeq + 1)
  }

  /** What register does once the challenge is stored. */
  function AfterStored(h: Handler, challenge: Challenge, now: nat): Handler {
    var c := challenge.conversationId;
    if Matured(challenge, now) then StartQueue(h, c) else
    var h' := if challenge.retryAt > 0 then h.(timers := h.timers[c := challenge.retryAt]) else h;
    if Truthy(challenge.token) && !challenge.silent then BeginSolve(h', challenge.token.value) else h'
  }

  function Store(h: Handler, challenge: Challenge): Handler {
    Persist(h.(registered := Put(h.registered, challenge.conversationId, challenge)))
  }

  function Register(h: Handler, challenge: Challenge, now: nat): Handler {
    if Has(h.registered, challenge.conversationId) then h
    else AfterStored(Store(h, challenge), challenge, now)
  }

  function RegisterAll(h: Handler, cs: seq<Challenge>, now: nat): Handler
    decreases |cs|
  {
    if cs == [] then h else RegisterAll(Register(h, cs[0], now), cs[1..], now)
  }

  predicate Expired(c: Challenge, now: nat, expireAfter: nat) {
    c.createdAt + expireAfter <= now
  }

  function Unexpired(cs: seq<Challenge>, now: nat, expireAfter: nat): seq<Challenge> {
    if cs == [] then []
    else (if Expired(cs[0], now, expireAfter) then [] else [cs[0]]) + Unexpired(cs[1..], now, expireAfter)
  }

  /** Registers what was stored and has not expired, the first time only. */
  function Load(h: Handler, now: nat, expireAfter: nat): Handler {
    if h.isLoaded then h
    else RegisterAll(h.(isLoaded := true), Unexpired(h.stored, now, expireAfter), now)
  }

  /** Starts what waited for the connection, then what has matured. */
  function OnOnline(h: Handler, now: nat): Handler {
    StartAllQueues(StartQueues(h.(isOnline := true, pending := []), h.pending), now, false)
  }

  function TimerFires(h: Handler, c: Conv): Handler {
    StartQueue(h.(timers := h.timers - {c}), c)
  }

  function MaybeSolve(h: Handler, c: Conv): Handler {
    var challenge := Get(h.registered, c);
    if challenge.None? || h.solving > 0 || !Truthy(challenge.value.token) then h
    else BeginSolve(h, challenge.value.token.value)
  }

  /** The user answers a request: the first answer since a token was set takes the token. */
  function OnResponse(h: Handler, seqNo: nat): Handler {
    if seqNo !in h.waiting then h else
    var h' := h.(waiting := h.waiting - {seqNo});
    if h'.challengeToken.None? then h'.(solving := h.solving - 1)
    else h'.(challengeToken := None, sending := h.sending + 1)
  }

  /** The server's verdict on an answer; success starts all queues. Being told to retry later counts
      as success here: the error is handled inside, and sending is forced all the same. */
  function OnSent(h: Handler, now: nat, success: bool): Handler {
    if h.sending == 0 then h else
    var h' := h.(sending := h.sending - 1);
    var h'' := if success then StartAllQueues(h', now, true) else h';
    h''.(solving := h''.solving - 1)
  }

  // ----- events -----

  datatype Event =
    | Loads(now: nat, expireAfter: nat)
    | GoesOnline(now: nat)
    | GoesOffline
    | Registers(challenge: Challenge, now: nat)
    | Unregisters(conv: Conv)
    | Fires(conv: Conv)
    | MayBeSolved(conv: Conv)
    | Answers(seqNo: nat)
    | Replies(now: nat, success: bool)

  /** Only a timer that is set can fire. */
  predicate Possible(h: Handler, e: Event) {
    e.Fires? ==> e.conv in h.timers
  }

  function Next(h: Handler, e: Event): Handler {
    match e
    case Loads(now, expireAfter) => Load(h, now, expireAfter)
    case GoesOnline(now) => OnOnline(h, now)
    case GoesOffline => h.(isOnline := false)
    case Registers(challenge, now) => Register(h, challenge, now)
    case Unregisters(c) => Unregister(h, c)
    case Fires(c) => TimerFires(h, c)
    case MayBeSolved(c) => MaybeSolve(h, c)
    case Answers(seqNo) => OnResponse(h, seqNo)
    case Replies(now, success) => OnSent(h, now, success)
  }
}
