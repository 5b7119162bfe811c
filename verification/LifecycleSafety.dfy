/**
 What every run of the device lifecycle keeps. The monitor below judges the trace alone;
 the invariant says that it never objects and that it agrees with the state.
 */
module LifecycleSafety {
  import opened CText
  import opened LifecycleState

  // ----------------------------------------------------------------------- monitor

  /** The conversation an observer of the trace believes in. Hung: over, its stop not yet queued. */
  datatype Phase = Idle | Talking(id: string) | Hung(id: string)

  /** The request whose answer is still welcome; a network loss makes it unwelcome. */
  datatype Ask = NoAsk | CodeAsk | StartAsk | RenewAsk

  /**
   failures and renewals: failed pair-code requests and RTC token renewals in a row; sent: the
   background requests queued so far; taken: the device tokens taken so far.
   */
  datatype Seen = Bad | Seen(phase: Phase, ask: Ask, losses: nat, failures: nat, asks: nat, renewals: nat,
                             sent: set<Request>, taken: set<string>)

  function Observe(m: Seen, e: Event): Seen {
    if m.Bad? then Bad
    else
      match e
      case CodeAsked => if m.phase.Talking? then Bad else m.(ask := CodeAsk, asks := m.asks + 1)
      case CodeFailed => if m.ask != CodeAsk then Bad else m.(ask := NoAsk, failures := m.failures + 1)
      case CodeTaken(token) => if m.ask != CodeAsk then Bad else m.(ask := NoAsk, failures := 0)
      case StartAsked => if m.phase.Talking? then Bad else m.(ask := StartAsk)
      case Started(id) =>
        if m.phase.Talking? || m.ask != StartAsk || id == "" then Bad
        else m.(phase := Talking(id), ask := NoAsk, renewals := 0)
      case Stopped => if !m.phase.Talking? then Bad else m.(phase := Hung(m.phase.id), renewals := 0)
      case RenewNoted => if !m.phase.Talking? then Bad else m.(renewals := 0)
      case RenewAsked => if !m.phase.Talking? then Bad else m.(ask := RenewAsk)
      case RenewTaken => if !m.phase.Talking? || m.ask != RenewAsk then Bad else m.(ask := NoAsk)
      case RenewDone => if !m.phase.Talking? then Bad else m.(renewals := 0)
      case RenewFailed => if !m.phase.Talking? then Bad else m.(ask := NoAsk, renewals := m.renewals + 1)
      case Queued(request) =>
        if request.networkGeneration > m.losses then Bad
        else if request.kind != Stop then m.(sent := m.sent + {request})
        else if m.phase != Hung(request.conversation) || request.networkGeneration != m.losses then Bad
        else m.(phase := Idle, sent := m.sent + {request})
      case Applied(request, held) =>
        if request !in m.sent || request.networkGeneration != m.losses || request.credential != held then Bad
        else m
      case TokenTaken(token) => m.(taken := m.taken + {token})
      case NetworkLost =>
        m.(losses := m.losses + 1, ask := NoAsk, phase := if m.phase.Hung? then Idle else m.phase)
  }

  /** The last thing to happen was the use of a pairing poll's result. */
  predicate JustClaimed(trace: Trace) {
    trace.Then? && trace.event.Applied? && trace.event.request.kind == PairPoll
  }

  function View(trace: Trace): Seen {
    match trace
    case Empty => Seen(Idle, NoAsk, 0, 0, 0, 0, {}, {})
    case Then(before, event) =>
      if event.TokenTaken? && !JustClaimed(before) then Bad else Observe(View(before), event)
  }

  function Starts(trace: Trace): nat {
    match trace
    case Empty => 0
    case Then(before, event) => Starts(before) + if event.Started? then 1 else 0
  }

  function Stops(trace: Trace): nat {
    match trace
    case Empty => 0
    case Then(before, event) => Stops(before) + if event.Stopped? then 1 else 0
  }

  /** A trace the monitor accepts alternates: it has as many stops as starts, or one start more. */
  lemma {:induction false} Alternates(trace: Trace)
    requires View(trace).Seen?
    ensures Starts(trace) == Stops(trace) + if View(trace).phase.Talking? then 1 else 0
  {
    if trace.Then? { Alternates(trace.before); }
  }

  // --------------------------------------------------------------------- invariant

  /** The wait after k failures in a row, as the code computes it from the wait before. */
  function Wait(k: nat, initial: int, maximum: int): int {
    if k == 0 then 0 else NextDelay(Wait(k - 1, initial, maximum), initial, maximum)
  }

  function Delay(failures: nat): int { Wait(failures, PAIR_RETRY_INITIAL, PAIR_RETRY_MAX) }

  function RenewDelay(renewals: nat): int { Wait(renewals, RTC_RETRY_INITIAL, RTC_RETRY_MAX) }

  function Credential(s: State, kind: Kind): string {
    if kind == PairPoll then s.claim.token else s.binding.token
  }

  predicate Heard(s: State) {
    var seen := View(s.trace);
    seen.Seen? &&
    seen.losses == s.shared.generation + (if s.shared.losing == Counting then 1 else 0) &&
    (s.shared.available ==> s.shared.losing == Settled)
  }

  /** The device believes in the same conversation as the observer. */
  predicate Spoken(s: State)
    requires View(s.trace).Seen?
  {
    var phase := View(s.trace).phase;
    if phase.Talking? then s.mode == InConversation && s.talk.id == phase.id && phase.id != ""
    else s.mode != InConversation && s.talk.id == ""
  }

  /** A request of the present binding carries the credential the device holds now. */
  predicate Carry(flight: multiset<Request>, generation: nat, pairToken: string, deviceToken: string) {
    forall r :: r in flight ==>
      r.bindingGeneration <= generation &&
      (r.bindingGeneration == generation ==>
         r.credential == if r.kind == PairPoll then pairToken else deviceToken)
  }

  predicate Ours(s: State) { Carry(s.inFlight, s.binding.generation, s.claim.token, s.binding.token) }

  /** Requests in flight have been queued. */
  predicate Listed(flight: multiset<Request>, sent: set<Request>) { forall r :: r in flight ==> r in sent }

  predicate Single(flight: multiset<Request>, pending: bool) {
    (forall r :: r in flight && r.kind != Stop ==> pending && flight[r] == 1) &&
    forall r, q :: r in flight && q in flight && r.kind != Stop && q.kind != Stop ==> r == q
  }

  predicate OnePoll(s: State) { Single(s.inFlight, s.binding.pollPending) }

  predicate Bound(s: State) { s.mode == Runtime || s.mode == InConversation }

  predicate Stored(s: State) {
    Bound(s) ==> s.binding.token != "" && s.store == Some(Record(s.server, s.device, s.binding.token))
  }

  predicate LossNoted(s: State) {
    s.shared.available || s.shared.lossPending || s.shared.losing != Settled
  }

  predicate Mail(s: State) {
    (s.shared.stopRequest != NoStop ==> s.mode == InConversation) &&
    (s.startRequested ==> s.mode == Runtime || s.pairingRequested)
  }

  /** A conversation over a lost network is going to be ended. */
  predicate Noted(s: State) { s.mode == InConversation ==> LossNoted(s) }

  predicate BackedOff(s: State)
    requires View(s.trace).Seen?
  {
    s.claim.retryDelay == Delay(View(s.trace).failures) &&
    0 <= s.claim.retryLeft <= s.claim.retryDelay <= PAIR_RETRY_MAX
  }

  predicate RenewalBackedOff(s: State)
    requires View(s.trace).Seen?
  {
    s.renewal.delay == RenewDelay(View(s.trace).renewals) &&
    0 <= s.renewal.left <= s.renewal.delay <= RTC_RETRY_MAX
  }

  ghost predicate Rest(s: State) {
    Heard(s) && Spoken(s) && Ours(s) && OnePoll(s) && Stored(s) && Mail(s) && BackedOff(s) &&
    RenewalBackedOff(s) && Listed(s.inFlight, View(s.trace).sent)
  }

  ghost predicate Core(s: State) { Rest(s) && Noted(s) }

  /** Something will make an unprovisioned device ask for a pair code again. */
  predicate Alive(s: State) {
    s.mode != Pairing &&
    (s.mode == Unprovisioned && !s.shuttingDown ==> s.pairingRequested || s.claim.retryLeft >= 1)
  }

  ghost predicate Inv(s: State) { Core(s) && Alive(s) }

  // ------------------------------------------------------------------------- pokes

  /** The observer's view before and after other threads acted: the same, or losses were added. */
  predicate LostOnly(v: Seen, w: Seen) {
    w == v ||
    (v.Seen? && w.Seen? && w.losses > v.losses &&
     w == v.(losses := w.losses, ask := NoAsk, phase := if v.phase.Hung? then Idle else v.phase))
  }

  predicate Drift(a: State, b: State) {
    b == a.(shared := b.shared, trace := b.trace) &&
    Heard(b) && LostOnly(View(a.trace), View(b.trace)) &&
    (a.mode != InConversation ==> b.shared.stopRequest == a.shared.stopRequest) &&
    (LossNoted(a) ==> LossNoted(b)) && (a.shared.lossPending ==> b.shared.lossPending) &&
    a.shared.generation <= b.shared.generation &&
    Starts(b.trace) == Starts(a.trace) && Stops(b.trace) == Stops(a.trace)
  }

  lemma PokeDrifts(s: State, p: Poke)
    requires Heard(s)
    ensures Drift(s, ApplyPoke(s, p))
  {
    var b := ApplyPoke(s, p);
    if Loses(s.shared, p) {
      assert View(b.trace) == Observe(View(s.trace), NetworkLost);
      assert Starts(b.trace) == Starts(s.trace) && Stops(b.trace) == Stops(s.trace);
    } else {
      assert b.trace == s.trace;
    }
  }

  lemma {:induction false} PokesDrift(s: State, pokes: seq<Poke>)
    requires Heard(s)
    ensures Drift(s, Poked(s, pokes))
    decreases |pokes|
  {
    hide ApplyPoke, View, Starts, Stops;
    if pokes != [] {
      PokeDrifts(s, pokes[0]);
      PokesDrift(ApplyPoke(s, pokes[0]), pokes[1..]);
    }
  }

  /** A request is current only if no loss was observed since its snapshot. */
  lemma CurrentMeansNoLoss(a: State, b: State)
    requires Heard(a) && Drift(a, b) && Current(b, a.shared.generation)
    ensures View(b.trace) == View(a.trace) && View(b.trace).losses == b.shared.generation
  {
  }

  lemma DriftKeeps(a: State, b: State)
    requires Core(a) && Drift(a, b)
    ensures Core(b)
  {
  }

  /** The timers and RTC data are nobody's concern but their own. */
  predicate Retimed(s: State, r: State) {
    r == s.(claim := s.claim.(interval := r.claim.interval, ticks := r.claim.ticks),
            binding := s.binding.(interval := r.binding.interval, ticks := r.binding.ticks),
            renewal := s.renewal.(left := r.renewal.left)) &&
    (r.renewal.left == s.renewal.left || 0 <= r.renewal.left < s.renewal.left)
  }

  lemma RetimedKeeps(s: State, r: State)
    requires Core(s) && Retimed(s, r)
    ensures Core(r) && (Alive(s) ==> Alive(r))
  {
    hide View, Wait, Carry, Single;
  }

  // --------------------------------------------------------------------- pair code

  predicate Later(s: State, r: State) {
    View(s.trace).Seen? && View(r.trace).Seen? && View(s.trace).asks <= View(r.trace).asks &&
    View(s.trace).taken <= View(r.trace).taken &&
    r.server == s.server && r.device == s.device &&
    (r.binding.token == "" || r.binding.token == s.binding.token || r.binding.token in View(r.trace).taken)
  }

  /** An event that leaves the conversation, the losses and the failures as they were. */
  predicate Mild(v: Seen, w: Seen) {
    v.Seen? && w.Seen? && w.phase == v.phase && w.losses == v.losses && w.failures == v.failures &&
    w.renewals == v.renewals && v.sent <= w.sent && v.taken <= w.taken
  }

  lemma LogKeeps(s: State, e: Event)
    requires Core(s) && Mild(View(s.trace), Observe(View(s.trace), e)) && (e.TokenTaken? ==> JustClaimed(s.trace))
    ensures Core(Log(s, e)) && View(Log(s, e).trace) == Observe(View(s.trace), e)
  {
  }

  lemma PokesKeep(s: State, pokes: seq<Poke>)
    requires Core(s)
    ensures Core(Poked(s, pokes)) && Drift(s, Poked(s, pokes)) && Later(s, Poked(s, pokes))
    ensures Alive(s) ==> Alive(Poked(s, pokes))
  {
    hide Poked, View;
    PokesDrift(s, pokes);
    DriftKeeps(s, Poked(s, pokes));
  }

  lemma {:induction false} DelayBound(failures: nat)
    ensures 0 <= Delay(failures) <= PAIR_RETRY_MAX && (failures > 0 ==> Delay(failures) >= PAIR_RETRY_INITIAL)
  {
    if failures > 0 { DelayBound(failures - 1); }
  }

  lemma CodeRefusedKeeps(s: State)
    requires Core(s) && s.mode != InConversation && !s.startRequested && View(s.trace).ask == CodeAsk
    ensures Inv(CodeRefused(s)) && Later(s, CodeRefused(s))
  {
    hide Carry, Single, Listed;
    DelayBound(View(s.trace).failures + 1);
  }

  lemma CodeAcceptedKeeps(s: State, reply: CodeReply)
    requires Core(s) && s.mode != InConversation && !s.startRequested && View(s.trace).ask == CodeAsk
    ensures Inv(CodeAccepted(s, reply)) && Later(s, CodeAccepted(s, reply))
  {
  }

  lemma PutOffKeeps(s: State)
    requires Core(s) && s.mode != InConversation
    ensures Inv(SetMode(s, Unprovisioned).(pairingRequested := true))
  {
    hide View, Wait, Carry, Single;
  }

  lemma CreatePairCodeKeeps(s: State, env: Env)
    requires Core(s) && s.mode != InConversation && !s.startRequested
    ensures Inv(CreatePairCode(s, env)) && Later(s, CreatePairCode(s, env))
  {
    hide Core, View, Poked, CodeRefused, CodeAccepted;
    var s0 := Poked(s, env.atSnapshot);
    PokesKeep(s, env.atSnapshot);
    var s1 := Poked(s0, env.atCheck);
    PokesKeep(s0, env.atCheck);
    if !s1.shared.available {
      PutOffKeeps(s1);
    } else {
      CodeAskedKeeps(s1);
      var asked := Log(s1, CodeAsked);
      var s2 := Poked(asked, env.duringCall);
      PokesKeep(asked, env.duringCall);
      if !Current(s2, s0.shared.generation) {
        PutOffKeeps(s2);
      } else {
        CurrentMeansNoLoss(asked, s2);
        CodeRefusedKeeps(s2);
        CodeAcceptedKeeps(s2, env.code);
      }
    }
  }

  lemma CodeAskedKeeps(s: State)
    requires Core(s) && s.mode != InConversation
    ensures Core(Log(s, CodeAsked)) && Later(s, Log(s, CodeAsked)) && Heard(Log(s, CodeAsked))
    ensures View(Log(s, CodeAsked).trace) == View(s.trace).(ask := CodeAsk, asks := View(s.trace).asks + 1)
  {
    LogKeeps(s, CodeAsked);
  }

  // ------------------------------------------------------------ background requests

  predicate Grew(s: State, r: State) {
    r == s.(inFlight := r.inFlight, binding := s.binding.(pollPending := r.binding.pollPending),
            trace := r.trace)
  }

  lemma PollKeeps(s: State, kind: Kind, env: Env)
    requires Core(s) && kind != Stop
    ensures Core(PollBinding(s, kind, env)) && Later(s, PollBinding(s, kind, env))
    ensures Grew(s, PollBinding(s, kind, env))
  {
    hide View, Wait, Carry, Single, Listed;
    CoreSeen(s);
    if !s.binding.pollPending && env.queued { PollQueuedKeeps(s, MakeRequest(s, kind, "", "")); }
    if !s.binding.pollPending { SlotKeeps(s); }
  }

  /** An empty poll slot stays empty. */
  lemma SlotKeeps(s: State)
    requires Core(s) && !s.binding.pollPending
    ensures s.(binding := s.binding.(pollPending := false)) == s
  {
  }

  lemma PollQueuedKeeps(s: State, request: Request)
    requires Core(s) && request.kind != Stop && !s.binding.pollPending
    requires request.networkGeneration == s.shared.generation
    requires request.bindingGeneration == s.binding.generation && request.credential == Credential(s, request.kind)
    ensures var r := Log(s.(inFlight := s.inFlight + multiset{request}), Queued(request)).(
      binding := s.binding.(pollPending := true));
      Core(r) && Later(s, r)
  {
    hide Wait, Single, Carry, Listed;
    LogKeeps(s, Queued(request));
    FlightGrows(s.inFlight, request, s.binding.generation, s.claim.token, s.binding.token, View(s.trace).sent);
  }

  lemma FlightGrows(flight: multiset<Request>, poll: Request, generation: nat, pairToken: string,
                    deviceToken: string, sent: set<Request>)
    requires Carry(flight, generation, pairToken, deviceToken) && Single(flight, false) && Listed(flight, sent)
    requires poll.kind != Stop && poll.bindingGeneration == generation
    requires poll.credential == if poll.kind == PairPoll then pairToken else deviceToken
    ensures var more := flight + multiset{poll};
      Carry(more, generation, pairToken, deviceToken) && Single(more, true) && Listed(more, sent + {poll})
  {
    assert poll !in flight;
  }

  lemma StopQueuedKeeps(s: State, request: Request)
    requires Core(s) && request.kind == Stop && s.mode != InConversation
    requires View(s.trace).phase == Hung(request.conversation)
    requires request.networkGeneration == View(s.trace).losses
    requires request.bindingGeneration == s.binding.generation && request.credential == s.binding.token
    ensures Core(Log(s.(inFlight := s.inFlight + multiset{request}), Queued(request)))
    ensures Later(s, Log(s, Queued(request)))
  {
  }

  // ------------------------------------------------------------------ conversations

  /** The state in which on_conversation_stop runs. */
  function Hanging(s: State): State { Log(ClearRenewal(s).(talk := Talk("", "", "")), Stopped) }

  lemma HangingHeard(s: State)
    requires Rest(s) && s.mode == InConversation
    ensures Heard(Hanging(s)) && View(Hanging(s).trace) == View(s.trace).(phase := Hung(s.talk.id), renewals := 0)
  {
  }

  lemma HungUpKeeps(s: State, b: State)
    requires Rest(s) && s.mode == InConversation && Heard(Hanging(s)) && Drift(Hanging(s), b)
    requires View(Hanging(s).trace) == View(s.trace).(phase := Hung(s.talk.id), renewals := 0)
    ensures Core(SetMode(b, Runtime)) && Later(s, SetMode(b, Runtime))
  {
  }

  /** Ending a conversation leaves only the runtime state behind. */
  lemma CompleteKeeps(s: State, env: Env)
    requires Rest(s) && s.mode == InConversation
    ensures var r := CompleteLocally(s, env);
      Core(r) && r.mode == Runtime && Later(s, r) && r.startRequested == s.startRequested &&
      r.shuttingDown == s.shuttingDown &&
      r.shared.stopRequest == NoStop && r.inFlight == s.inFlight &&
      s.shared.generation <= r.shared.generation &&
      (Current(r, s.shared.generation) ==>
         View(r.trace).phase == Hung(s.talk.id) && View(r.trace).losses == r.shared.generation)
  {
    hide Poked, View, Rest;
    HangingHeard(s);
    var s2 := Poked(Hanging(s), env.duringTeardown);
    PokesDrift(Hanging(s), env.duringTeardown);
    if Current(s2, s.shared.generation) { CurrentMeansNoLoss(Hanging(s), s2); }
    HungUpKeeps(s, s2);
  }

  lemma StopKeeps(s: State, env: Env, reason: string)
    requires Core(s) && s.mode == InConversation
    ensures var r := StopConversation(s, env, reason);
      Core(r) && r.mode == Runtime && Later(s, r) && r.startRequested == s.startRequested &&
      r.shuttingDown == s.shuttingDown
  {
    hide CompleteLocally, Rest, Noted;
    CompleteKeeps(s, env);
    var s1 := CompleteLocally(s, env);
    if s.talk.id != "" && Current(s1, s.shared.generation) && env.queued {
      StopQueuedKeeps(s1, MakeRequest(s1, Stop, s.talk.id, reason));
    }
  }

  lemma RestartKeeps(s: State, env: Env)
    requires Core(s) && s.mode != InConversation
    ensures Inv(RestartPairing(s, env)) && Later(s, RestartPairing(s, env))
  {
    hide View, Wait, Single;
  }

  lemma InvalidateKeeps(s: State, env: Env)
    requires Core(s)
    ensures Inv(InvalidateBinding(s, env)) && Later(s, InvalidateBinding(s, env))
  {
    hide CompleteLocally, RestartPairing, Rest, Noted, Alive;
    if s.mode == InConversation {
      CompleteKeeps(s, env);
      RestartKeeps(CompleteLocally(s, env), env);
    } else {
      RestartKeeps(s, env);
    }
  }

  lemma EnterKeeps(s: State, reply: StartReply, env: Env)
    requires Core(s) && s.mode == Runtime && !s.startRequested && s.shared.available
    requires View(s.trace).ask == StartAsk
    requires reply.conversation.Terminated? && reply.conversation.text != ""
    ensures Inv(EnterConversation(s, reply, env)) && Later(s, EnterConversation(s, reply, env))
  {
    hide Poked;
    var id := reply.conversation.text;
    var s1 := ClearRenewal(s).(talk := Talk(id, reply.channel, reply.uid));
    var s2 := Log(SetMode(s1, InConversation), Started(id));
    assert Core(s2);
    PokesKeep(s2, env.duringStart);
  }

  lemma StartKeeps(s: State, env: Env)
    requires Core(s) && s.mode == Runtime && !s.startRequested
    ensures Inv(StartConversation(s, env)) && Later(s, StartConversation(s, env))
  {
    hide Core, View, Poked, EnterConversation, RestartPairing;
    var s0 := Poked(s, env.atSnapshot);
    PokesKeep(s, env.atSnapshot);
    var s1 := Poked(s0, env.atCheck);
    PokesKeep(s0, env.atCheck);
    if s1.shared.available {
      StartAskedKeeps(s1);
      var asked := Log(s1, StartAsked);
      var s2 := Poked(asked, env.duringCall);
      PokesKeep(asked, env.duringCall);
      if Current(s2, s0.shared.generation) {
        CurrentMeansNoLoss(asked, s2);
        RestartKeeps(s2, env);
        if env.start.conversation.Terminated? && env.start.conversation.text != "" {
          EnterKeeps(s2, env.start, env);
        }
      }
    }
  }

  lemma StartAskedKeeps(s: State)
    requires Core(s) && s.mode == Runtime
    ensures Core(Log(s, StartAsked)) && Later(s, Log(s, StartAsked))
    ensures View(Log(s, StartAsked).trace) == View(s.trace).(ask := StartAsk)
  {
    LogKeeps(s, StartAsked);
  }

  lemma RenewKeeps(s: State, env: Env)
    requires Core(s) && s.mode == InConversation
    ensures Inv(RenewToken(s, env)) && Later(s, RenewToken(s, env))
  {
    hide Core, View, Poked, StopConversation, RenewAnswered;
    if s.talk.channel == "" || s.talk.uid == "" {
      StopKeeps(s, env, "error");
    } else {
      var s0 := Poked(s, env.atSnapshot);
      PokesKeep(s, env.atSnapshot);
      RenewAskedKeeps(s0);
      var asked := Log(s0, RenewAsked);
      var s1 := Poked(asked, env.duringCall);
      PokesKeep(asked, env.duringCall);
      if Current(s1, s0.shared.generation) {
        CurrentMeansNoLoss(asked, s1);
        RenewAnsweredKeeps(s1, env);
      }
    }
  }

  lemma RenewAnsweredKeeps(s: State, env: Env)
    requires Core(s) && s.mode == InConversation && View(s.trace).ask == RenewAsk
    ensures Inv(RenewAnswered(s, env)) && Later(s, RenewAnswered(s, env))
  {
    hide Core, View, StopConversation, InvalidateBinding;
    InvalidateKeeps(s, env);
    StopKeeps(s, env, "error");
    RenewTakenKeeps(s);
    var taken := Log(s, RenewTaken);
    RenewFailedKeeps(s);
    RenewFailedKeeps(taken);
    RenewDoneKeeps(taken);
  }

  lemma RenewAskedKeeps(s: State)
    requires Core(s) && s.mode == InConversation
    ensures Core(Log(s, RenewAsked)) && Later(s, Log(s, RenewAsked))
    ensures View(Log(s, RenewAsked).trace) == View(s.trace).(ask := RenewAsk)
  {
    LogKeeps(s, RenewAsked);
  }

  lemma RenewTakenKeeps(s: State)
    requires Core(s) && s.mode == InConversation && View(s.trace).ask == RenewAsk
    ensures Core(Log(s, RenewTaken)) && Later(s, Log(s, RenewTaken))
  {
    LogKeeps(s, RenewTaken);
  }

  lemma {:induction false} RenewDelayBound(renewals: nat)
    ensures 0 <= RenewDelay(renewals) <= RTC_RETRY_MAX && (renewals > 0 ==> RenewDelay(renewals) > 0)
  {
    if renewals > 0 { RenewDelayBound(renewals - 1); }
  }

  lemma RenewFailedKeeps(s: State)
    requires Core(s) && s.mode == InConversation
    ensures Core(ScheduleRenewal(s)) && Later(s, ScheduleRenewal(s)) && ScheduleRenewal(s).mode == InConversation
  {
    RenewDelayBound(View(s.trace).renewals + 1);
  }

  lemma RenewDoneKeeps(s: State)
    requires Core(s) && s.mode == InConversation
    ensures var r := Log(s.(renewal := Renewal(false, 0, 0)), RenewDone);
      Core(r) && Later(s, r)
  {
  }

  // -------------------------------------------------------------- background results

  lemma AdoptKeeps(s: State, token: string)
    requires Core(s) && s.mode == AwaitingClaim && JustClaimed(s.trace)
    ensures Core(Adopted(s, token)) && Later(s, Adopted(s, token))
  {
    hide Wait, Single;
    assert Mild(View(s.trace), View(Adopted(s, token).trace));
  }

  lemma WriteKeeps(s: State, store: Option<Blob>)
    requires Core(s) && s.mode == AwaitingClaim
    ensures Core(s.(store := store))
  {
    hide View, Wait, Carry, Single;
  }

  lemma ProvisionKeeps(s: State)
    requires Core(s) && s.mode == AwaitingClaim && s.binding.token != ""
    requires s.store == Some(Record(s.server, s.device, s.binding.token))
    ensures Core(SetMode(s, Runtime))
  {
    hide View, Wait, Record, Carry, Single;
  }

  lemma BoundKeeps(s: State, reply: BindingReply, env: Env)
    requires Core(s) && s.mode == AwaitingClaim && JustClaimed(s.trace)
    ensures Inv(ApplyBound(s, reply, env)) && Later(s, ApplyBound(s, reply, env))
  {
    hide View, Core, Record, SetMode;
    CoreSeen(s);
    var s1 := if reply.deviceToken == "" then s else Adopted(s, reply.deviceToken);
    AdoptKeeps(s, reply.deviceToken);
    if s1.binding.token != "" && !env.write.FailedUnwritten? {
      var store := Some(Record(s1.server, s1.device, s1.binding.token));
      WriteKeeps(s1, store);
      var s2 := s1.(store := store);
      if env.write.Written? {
        ProvisionKeeps(s2);
        SetModeFrame(s2, Runtime);
        RetimedKeeps(SetMode(s2, Runtime),
                     SetMode(s2, Runtime).(binding := s2.binding.(interval := ClampPoll(reply.pollAfter),
                                                                   ticks := 0)));
      }
    }
  }

  lemma CoreSeen(s: State)
    requires Core(s)
    ensures View(s.trace).Seen? && Mail(s)
  {
  }

  lemma SetModeFrame(s: State, m: Mode)
    ensures SetMode(s, m).mode == m && SetMode(s, m).trace == s.trace
    ensures SetMode(s, m).binding == s.binding
    ensures SetMode(s, m).server == s.server && SetMode(s, m).device == s.device
  {
  }

  lemma PairPollKeeps(s: State, reply: BindingReply, env: Env)
    requires Core(s) && s.mode == AwaitingClaim && JustClaimed(s.trace)
    ensures Inv(ApplyPairPoll(s, reply, env)) && Later(s, ApplyPairPoll(s, reply, env))
  {
    hide View, Core, ApplyBound, SetMode;
    CoreSeen(s);
    BoundKeeps(s, reply, env);
    PutOffKeeps(s);
    SetModeFrame(s, Unprovisioned);
    RetimedKeeps(s, s.(claim := s.claim.(interval := ClampPoll(reply.pollAfter))));
    RepairKeeps(s);
  }

  lemma RepairKeeps(s: State)
    requires Core(s)
    ensures Core(s.(pairingRequested := true))
  {
    hide View, Wait, Carry, Single;
  }

  lemma AppliedKeeps(s: State, request: Request)
    requires Core(s) && Current(s, request.networkGeneration)
    requires request.credential == Credential(s, request.kind) && request in View(s.trace).sent
    ensures var r := Log(s, Applied(request, Credential(s, request.kind)));
      Core(r) && Later(s, r)
  {
    LogKeeps(s, Applied(request, Credential(s, request.kind)));
  }

  /** Taking a request out of flight; a poll gives the poll slot back. */
  function Landed(s: State, request: Request): State {
    var s1 := s.(inFlight := s.inFlight - multiset{request});
    if request.kind == Stop then s1 else s1.(binding := s1.binding.(pollPending := false))
  }

  lemma FlightKeeps(s: State, r: State)
    requires Inv(s) && r == s.(inFlight := r.inFlight, binding := s.binding.(pollPending := r.binding.pollPending))
    requires Ours(r) && OnePoll(r) && r.inFlight <= s.inFlight
    ensures Inv(r) && Later(s, r)
  {
    hide View, Wait, Carry, Single;
  }

  lemma FewerFly(flight: multiset<Request>, request: Request, pending: bool)
    requires Single(flight, pending)
    ensures Single(flight - multiset{request}, pending)
    ensures request in flight && request.kind != Stop ==> Single(flight - multiset{request}, false)
  {
    var less := flight - multiset{request};
    forall r | r in less ensures r in flight && less[r] <= flight[r] { }
  }

  lemma LandedKeeps(s: State, request: Request)
    requires Inv(s) && request in s.inFlight
    ensures Inv(Landed(s, request)) && Later(s, Landed(s, request))
    ensures request in View(s.trace).sent
    ensures request.bindingGeneration == s.binding.generation ==>
      request.credential == Credential(s, request.kind)
  {
    hide View, Wait, Single, Heard, Spoken, Stored, Mail, BackedOff, Alive, Noted;
    FewerFly(s.inFlight, request, s.binding.pollPending);
    FlightKeeps(s, Landed(s, request));
  }

  lemma DevicePollKeeps(s: State, reply: BindingReply, env: Env)
    requires Inv(s)
    ensures Inv(ApplyDevicePoll(s, reply, env)) && Later(s, ApplyDevicePoll(s, reply, env))
  {
    hide Rest, View, InvalidateBinding;
    CoreSeen(s);
    InvalidateKeeps(s, env);
    RetimedKeeps(s, s.(binding := s.binding.(interval := ClampPoll(reply.pollAfter))));
  }

  lemma ResultKeeps(s: State, request: Request, reply: BindingReply, env: Env)
    requires Inv(s) && request in s.inFlight
    ensures var r := ServiceResult(s.(inFlight := s.inFlight - multiset{request}), request, reply, env);
      Inv(r) && Later(s, r)
  {
    hide Rest, Noted, View, ApplyPairPoll, ApplyDevicePoll, InvalidateBinding;
    LandedKeeps(s, request);
    var s1 := Landed(s, request);
    if Current(s1, request.networkGeneration) && s1.binding.generation == request.bindingGeneration {
      AppliedKeeps(s1, request);
      var s2 := Log(s1, Applied(request, Credential(s1, request.kind)));
      if s2.mode == AwaitingClaim && request.kind == PairPoll { PairPollKeeps(s2, reply, env); }
      DevicePollKeeps(s2, reply, env);
      InvalidateKeeps(s2, env);
    }
  }

  lemma DropKeeps(s: State, request: Request)
    requires Inv(s)
    ensures Inv(s.(inFlight := s.inFlight - multiset{request}))
    ensures Later(s, s.(inFlight := s.inFlight - multiset{request}))
  {
    hide View, Wait, Single, Heard, Spoken, Stored, Mail, BackedOff, Alive, Noted;
    FewerFly(s.inFlight, request, s.binding.pollPending);
    FlightKeeps(s, s.(inFlight := s.inFlight - multiset{request}));
  }

  // -------------------------------------------------------------------------- ticks

  /** Requests from the control owner and consumed mailboxes. */
  lemma MailboxKeeps(s: State, r: State)
    requires Rest(s) && Mail(r) && r == s.(startRequested := r.startRequested, shared := r.shared)
    requires r.shared == s.shared.(lossPending := r.shared.lossPending, stopRequest := r.shared.stopRequest,
                                   renewRequested := r.shared.renewRequested)
    ensures Rest(r) && (Alive(s) ==> Alive(r)) && Later(s, r)
  {
    hide View, Wait, Carry, Single;
  }

  lemma RuntimePollKeeps(s: State, env: Env)
    requires Inv(s)
    ensures Inv(RuntimePoll(s, env)) && Later(s, RuntimePoll(s, env))
  {
    hide Core, View, PollBinding;
    var s1 := s.(binding := s.binding.(ticks := s.binding.ticks + 1));
    RetimedKeeps(s, s1);
    CoreSeen(s1);
    RetimedKeeps(s1, s1.(binding := s1.binding.(ticks := 0)));
    PollKeeps(s1.(binding := s1.binding.(ticks := 0)), DevicePoll, env);
  }

  lemma TickLossKeeps(s: State, env: Env)
    requires Inv(s)
    ensures var r := TickLoss(s.(shared := s.shared.(lossPending := false)), env);
      Inv(r) && Later(s, r) && r.mode != InConversation && !r.startRequested &&
      r.shared.stopRequest == NoStop && r.inFlight == s.inFlight
  {
    hide Rest, View, CompleteLocally;
    var s1 := WithStop(s.(shared := s.shared.(lossPending := false)).(startRequested := false), NoStop);
    MailboxKeeps(s, s1);
    if s1.mode == InConversation { CompleteKeeps(s1, env); }
  }

  lemma BeginKeeps(s: State, env: Env)
    requires Core(s) && s.mode != InConversation && !s.startRequested
    ensures var r := BeginPairing(s, env);
      Core(r) && r.mode == Pairing && !r.startRequested && Later(s, r)
  {
    hide View, Wait, Single;
  }

  lemma TickPairingKeeps(s: State, env: Env)
    requires Inv(s) && s.pairingRequested
    ensures Inv(TickPairing(s, env)) && Later(s, TickPairing(s, env))
  {
    hide Rest, Noted, View, StopConversation, BeginPairing, CreatePairCode;
    var s1 := s.(startRequested := false);
    StartDropped(s);
    if s1.mode == InConversation { StopKeeps(s1, env, "user_requested"); }
    var s2 := if s1.mode == InConversation then StopConversation(s1, env, "user_requested") else s1;
    BeginKeeps(s2, env);
    CreatePairCodeKeeps(BeginPairing(s2, env), env);
  }

  lemma StartDropped(s: State)
    requires Core(s)
    ensures Core(s.(startRequested := false)) && Later(s, s.(startRequested := false))
  {
    hide View, Wait, Carry, Single;
  }

  lemma TickUnprovisionedKeeps(s: State, env: Env)
    requires Inv(s) && !s.pairingRequested && s.mode == Unprovisioned
    ensures Inv(TickUnprovisioned(s, env)) && Later(s, TickUnprovisioned(s, env))
  {
    hide View, Wait, Carry, Single, CreatePairCode;
    if s.claim.retryLeft > 0 {
      var s1 := s.(claim := s.claim.(retryLeft := s.claim.retryLeft - 1));
      assert Core(s1) && Core(SetMode(s1, Pairing));
      if s1.claim.retryLeft == 0 { CreatePairCodeKeeps(SetMode(s1, Pairing), env); }
    }
  }

  lemma TickAwaitingKeeps(s: State, env: Env)
    requires Inv(s) && s.mode == AwaitingClaim
    ensures Inv(TickAwaiting(s, env)) && Later(s, TickAwaiting(s, env))
  {
    hide Rest, Noted, View, PollBinding;
    var s1 := s.(claim := s.claim.(ticks := s.claim.ticks + 1));
    RetimedKeeps(s, s1);
    CoreSeen(s1);
    RetimedKeeps(s1, s1.(claim := s1.claim.(ticks := 0)));
    PollKeeps(s1.(claim := s1.claim.(ticks := 0)), PairPoll, env);
  }

  lemma TickRuntimeKeeps(s: State, env: Env)
    requires Inv(s) && s.mode == Runtime
    ensures Inv(TickRuntime(s, env)) && Later(s, TickRuntime(s, env))
  {
    hide Rest, View, StartConversation, RuntimePoll;
    if s.startRequested {
      var s1 := WithStop(s.(startRequested := false), NoStop);
      MailboxKeeps(s, s1);
      StartKeeps(s1, env);
    } else {
      RuntimePollKeeps(s, env);
    }
  }

  /** The part of a conversation tick that only counts towards a token renewal. */
  function Counted(s: State): State {
    var s1 := NoteRenewal(s);
    if s1.renewal.pending && s1.renewal.left > 0 then s1.(renewal := s1.renewal.(left := s1.renewal.left - 1)) else s1
  }

  lemma NotingKeeps(s: State)
    requires Inv(s) && s.mode == InConversation
    ensures Inv(NoteRenewal(s)) && Later(s, NoteRenewal(s)) && NoteRenewal(s).mode == InConversation
  {
    hide Wait, Carry, Single;
    assert RenewDelay(0) == 0 by { RenewDelayZero(); }
  }

  lemma RenewDelayZero()
    ensures RenewDelay(0) == 0
  {
  }

  lemma CountedKeeps(s: State)
    requires Inv(s) && s.mode == InConversation
    ensures Inv(Counted(s)) && Later(s, Counted(s)) && Counted(s).mode == InConversation
  {
    hide Rest, View, NoteRenewal;
    NotingKeeps(s);
    CoreSeen(NoteRenewal(s));
    RetimedKeeps(NoteRenewal(s), Counted(s));
  }

  lemma TickConversationKeeps(s: State, env: Env)
    requires Inv(s) && s.mode == InConversation
    ensures Inv(TickConversation(s, env)) && Later(s, TickConversation(s, env))
  {
    hide Rest, View, StopConversation, RenewToken, RuntimePoll, NoteRenewal;
    CoreSeen(s);
    if s.shared.stopRequest != NoStop {
      var s1 := WithStop(s, NoStop);
      MailboxKeeps(s, s1);
      StopKeeps(s1, env, if s.shared.stopRequest == DeviceHangup then "device_hangup" else "error");
    } else {
      CountedKeeps(s);
      var s2 := Counted(s);
      if s2.renewal.pending && s2.renewal.left == 0 { RenewKeeps(s2, env); } else { RuntimePollKeeps(s2, env); }
    }
  }

  lemma TickKeeps(s: State, env: Env)
    requires Inv(s)
    ensures Inv(Tick(s, env)) && Later(s, Tick(s, env))
  {
    hide Rest, Noted, View, Poked, TickLoss, TickPairing, TickUnprovisioned, TickAwaiting, TickRuntime,
      TickConversation;
    CoreSeen(s);
    if s.shuttingDown {
    } else if s.shared.lossPending {
      TickLossKeeps(s, env);
    } else {
      var s1 := Poked(s, env.afterLossCheck);
      PokesKeep(s, env.afterLossCheck);
      if !s1.shared.available {
        OfflineKeeps(s1);
      } else if s1.pairingRequested {
        TickPairingKeeps(s1, env);
      } else {
        match s1.mode
        case Unprovisioned => TickUnprovisionedKeeps(s1, env);
        case Pairing =>
        case AwaitingClaim => TickAwaitingKeeps(s1, env);
        case Runtime => TickRuntimeKeeps(s1, env);
        case InConversation => TickConversationKeeps(s1, env);
      }
    }
  }

  lemma OfflineKeeps(s: State)
    requires Inv(s)
    ensures var r := WithStop(s.(startRequested := false), NoStop);
      Inv(r) && Later(s, r)
  {
    hide Rest;
    MailboxKeeps(s, WithStop(s.(startRequested := false), NoStop));
  }

  // ----------------------------------------------------------------- other entries

  lemma ShutdownKeeps(s: State, env: Env)
    requires Inv(s)
    ensures var r := Shutdown(s, env);
      Inv(r) && Later(s, r) && r.shuttingDown && r.mode != InConversation
  {
    hide Rest, Noted, View, StopConversation, CompleteLocally;
    var s1 := s.(shuttingDown := true, pairingRequested := false, startRequested := false,
                 shared := s.shared.(stopRequest := NoStop, renewRequested := false));
    ShutKeeps(s);
    if s1.mode == InConversation {
      StopKeeps(s1, env, "device_hangup");
      CompleteKeeps(s1, env);
    }
  }

  lemma ShutKeeps(s: State)
    requires Core(s)
    ensures var r := s.(shuttingDown := true, pairingRequested := false, startRequested := false,
                        shared := s.shared.(stopRequest := NoStop, renewRequested := false));
      Core(r) && Later(s, r)
  {
    hide View, Wait, Carry, Single;
  }

  lemma InitKeeps(server: string, device: string, store: Option<Blob>, readable: bool, erased: bool)
    ensures Inv(Init(server, device, store, readable, erased))
  {
  }

  /** Every event keeps the invariant. */
  lemma StepKeeps(s: State, input: Input)
    requires Inv(s)
    ensures Inv(Step(s, input)) && Later(s, Step(s, input))
  {
    hide Rest, View, Tick, ServiceResult, Shutdown, ApplyPoke;
    CoreSeen(s);
    match input
    case TickInput(env) => TickKeeps(s, env);
    case ResultInput(request, reply, env) =>
      if request in s.inFlight { ResultKeeps(s, request, reply, env); }
    case DropInput(request) => DropKeeps(s, request);
    case PokeInput(poke) => PokeKeeps(s, poke);
    case PairInput => RepairKeeps(s);
    case StartInput => if s.mode == Runtime { MailboxKeeps(s, s.(startRequested := true)); }
    case StopInput => if s.mode == InConversation { MailboxKeeps(s, WithStop(s, DeviceHangup)); }
    case ShutdownInput(env) => ShutdownKeeps(s, env);
  }

  lemma PokeKeeps(s: State, p: Poke)
    requires Inv(s)
    ensures Inv(ApplyPoke(s, p)) && Later(s, ApplyPoke(s, p))
  {
    hide View, ApplyPoke;
    PokeDrifts(s, p);
    DriftKeeps(s, ApplyPoke(s, p));
  }

  lemma {:induction false} RunKeeps(s: State, inputs: seq<Input>)
    requires Inv(s)
    ensures Inv(Run(s, inputs)) && Later(s, Run(s, inputs))
    decreases |inputs|
  {
    hide Rest, View, Step;
    CoreSeen(s);
    if inputs != [] {
      StepKeeps(s, inputs[0]);
      RunKeeps(Step(s, inputs[0]), inputs[1..]);
    }
  }
}
