/**
 What every request and every reply leads to, status by status, as whole states: what is not said to
 change stays as it was.
 */
module LifecycleOutcomes {
  import opened CText
  import opened LifecycleState
  import opened LifecycleSafety
  import opened LifecycleEffects

  /** The HTTP codes by which the server rejects a credential. */
  const REJECTIONS: set<int> := {401, 403, 409}

  /** A rejected credential is forgotten, in the store too if that can be erased, and pairing asked for. */
  function Unbound(s: State, erased: bool): State {
    s.(mode := Unprovisioned, pairingRequested := true, store := if erased then None else s.store,
       binding := s.binding.(token := "", generation := s.binding.generation + 1))
  }

  /** A conversation is over on the device's side, and with it all that belonged to it. */
  function HungUp(s: State): State {
    s.(mode := Runtime, talk := Talk("", "", ""), renewal := Renewal(false, 0, 0),
       shared := s.shared.(stopRequest := NoStop, renewRequested := false), trace := Then(s.trace, Stopped))
  }

  /** And the server is told so, if the queue takes the notice. */
  function Notified(s: State, ended: State, reason: string, queued: bool): State {
    var notice := Request(Stop, s.shared.generation, s.binding.generation, s.binding.token, s.talk.id, reason);
    if queued then ended.(inFlight := s.inFlight + multiset{notice}, trace := Then(ended.trace, Queued(notice)))
    else ended
  }

  /** What is left of a binding the server no longer knows. */
  function Dismissed(s: State, erased: bool): State {
    Unbound(if s.mode == InConversation then HungUp(s) else s, erased)
  }

  lemma RejectedCodes(result: int)
    ensures Rejected(result) <==> result in REJECTIONS
  {
  }

  lemma CompleteIs(s: State, env: Env)
    requires env.duringTeardown == [] && s.mode == InConversation
    ensures CompleteLocally(s, env) == HungUp(s)
  {
  }

  lemma StopIs(s: State, env: Env, reason: string)
    requires env.duringTeardown == [] && s.mode == InConversation && s.talk.id != "" && s.shared.available
    ensures StopConversation(s, env, reason) == Notified(s, HungUp(s), reason, env.queued)
  {
    hide CompleteLocally;
    CompleteIs(s, env);
  }

  lemma InvalidateIs(s: State, env: Env)
    requires env.duringTeardown == []
    ensures InvalidateBinding(s, env) == Dismissed(s, env.erased)
  {
    hide CompleteLocally;
    if s.mode == InConversation { CompleteIs(s, env); }
  }

  // -------------------------------------------------------------------------- power-up

  /** Power-up is bound exactly over a readable record of this layout, server and device with a token. */
  lemma PowerUp(server: string, device: string, store: Option<Blob>, readable: bool, erased: bool)
    ensures var s := Init(server, device, store, readable, erased);
      s.mode == Runtime <==>
        readable && exists token ::
          token != "" && store == Some(Blob(1284, 1, Terminated(server), Terminated(device), Terminated(token)))
    ensures var s := Init(server, device, store, readable, erased);
      s.mode == Runtime ==>
        store == Some(Blob(1284, 1, Terminated(server), Terminated(device), Terminated(s.binding.token))) &&
        s.store == store && s.binding.interval == 30 && !s.pairingRequested
    ensures var s := Init(server, device, store, readable, erased);
      s.mode != Runtime ==>
        s.mode == Unprovisioned && s.pairingRequested && s.binding.token == "" &&
        s.store == if erased || (readable && store == None) then None else store
    ensures var s := Init(server, device, store, readable, erased);
      s.shared.available && !s.shared.lossPending && s.shared.losing == Settled && s.shared.stopRequest == NoStop &&
      !s.shared.renewRequested && !s.shuttingDown && !s.startRequested && !s.renewal.pending && s.talk.id == "" &&
      s.inFlight == multiset{} && !s.binding.pollPending && s.claim == Claim("", 0, 0, 0, 0)
  {
    if store.Some? && store.value.token.Terminated? {
      var token := store.value.token.text;
      assert store == Some(Blob(store.value.size, store.value.version, store.value.server, store.value.device,
                                Terminated(token)));
    }
  }

  // --------------------------------------------------------------------------- requests

  /** Requests count exactly where they can be met, and each in its own mailbox. */
  lemma RequestsAreTaken(s: State)
    ensures Step(s, PairInput) == if s.shuttingDown then s else s.(pairingRequested := true)
    ensures Step(s, StartInput) ==
      if !s.shuttingDown && s.shared.available && s.mode == Runtime then s.(startRequested := true) else s
    ensures Step(s, StopInput) ==
      if !s.shuttingDown && s.mode == InConversation
      then s.(shared := s.shared.(stopRequest := DeviceHangup)) else s
    ensures Step(s, PokeInput(RtcEnded)) ==
      if !s.shuttingDown && s.mode == InConversation
      then s.(shared := s.shared.(stopRequest := ErrorStop)) else s
    ensures Step(s, PokeInput(TokenExpiring)) ==
      if !s.shuttingDown && s.mode == InConversation && s.shared.available
      then s.(shared := s.shared.(renewRequested := true)) else s
  {
  }

  /** A report of the network, and the three steps of a report of its loss. */
  lemma NetworkIsReported(s: State)
    requires s.shared.losing == Settled
    ensures Step(s, PokeInput(NetworkUp)) == s.(shared := s.shared.(available := true))
    ensures Step(Step(Step(s, PokeInput(NetworkDown)), PokeInput(LossStep)), PokeInput(LossStep)) ==
      if !s.shared.available then s
      else s.(trace := Then(s.trace, NetworkLost), shared :=
        s.shared.(available := false, generation := s.shared.generation + 1, lossPending := true))
  {
  }

  /** Hanging up ends the conversation in the next tick, and the server gets the reason. */
  lemma HangUpIsServed(s: State, env: Env, input: Input, reason: string)
    requires Inv(s) && Ready(s) && Quiet(env) && s.mode == InConversation
    requires (input == StopInput && reason == "device_hangup") || (input == PokeInput(RtcEnded) && reason == "error")
    ensures Tick(Step(s, input), env) == Notified(s, HungUp(s), reason, env.queued)
  {
    hide View, Wait, Carry, Single, Listed, StopConversation;
    StopIs(s.(shared := s.shared.(stopRequest := NoStop)), env, reason);
  }

  /** A request to pair ends a conversation first, with its own reason. */
  lemma PairingEndsConversation(s: State, env: Env)
    requires Inv(s) && Quiet(env) && s.shared.available && !s.shared.lossPending && !s.shuttingDown
    requires s.mode == InConversation && s.pairingRequested
    ensures var ended := Notified(s, HungUp(s), "user_requested", env.queued);
      Tick(s, env) == Tick(ended.(startRequested := false), env)
  {
    hide View, Wait, Carry, Single, Listed, CreatePairCode;
  }

  /** Shutdown ends a conversation, and tells the server if the network is there. */
  lemma ShutdownIsServed(s: State, env: Env)
    requires Inv(s) && Quiet(env)
    ensures var quiet := s.(shuttingDown := true, pairingRequested := false, startRequested := false,
                            shared := s.shared.(stopRequest := NoStop, renewRequested := false));
      Shutdown(s, env) ==
        if s.mode != InConversation then quiet
        else if s.shared.available && !s.shared.lossPending
        then Notified(quiet, HungUp(quiet), "device_hangup", env.queued)
        else HungUp(quiet)
  {
    hide View, Wait, Carry, Single, Listed;
  }

  /** A tick without network forgets what was asked of it, and one that notes a loss hangs up as well. */
  lemma NoNetworkIsServed(s: State, env: Env)
    requires Quiet(env) && !s.shuttingDown
    ensures var idle := s.(startRequested := false,
                           shared := s.shared.(stopRequest := NoStop, lossPending := false));
      Tick(s, env) ==
        if s.shared.lossPending then (if s.mode == InConversation then HungUp(idle) else idle)
        else if !s.shared.available then idle else Tick(s, env)
  {
    hide TickOnline;
  }

  // ------------------------------------------------------------------------------- start

  /** A conversation is entered under the names the server gave it. */
  function Entered(s: State, id: string, reply: StartReply): State {
    s.(mode := InConversation, talk := Talk(id, reply.channel, reply.uid), renewal := Renewal(false, 0, 0),
       shared := s.shared.(renewRequested := false), trace := Then(s.trace, Started(id)))
  }

  /** Each reply to a start request has its own outcome. */
  lemma StartIsServed(s: State, env: Env)
    requires Inv(s) && Ready(s) && Quiet(env) && StartWaits(s)
    ensures var asked := s.(startRequested := false, trace := Then(s.trace, StartAsked));
      var reply := env.start;
      Tick(s, env) ==
        if reply.result in REJECTIONS then Unbound(asked, env.erased)
        else if reply.result == 0 && reply.conversation.Terminated? && reply.conversation.text != ""
        then Entered(asked, reply.conversation.text, reply)
        else asked
  {
    hide View, Wait, Carry, Single, Listed, Rejected;
    RejectedCodes(env.start.result);
  }

  // --------------------------------------------------------------------------- pair code

  /** What a request to pair does with the old binding before it asks for a code. */
  function Forgotten(s: State, erased: bool): State {
    s.(mode := Pairing, pairingRequested := false, startRequested := false, talk := s.talk.(id := ""),
       store := if erased then None else s.store,
       binding := s.binding.(token := "", generation := s.binding.generation + 1),
       trace := Then(s.trace, CodeAsked))
  }

  /** A code is waited for from scratch; a refusal starts the next wait. */
  function CodeAnswered(s: State, code: CodeReply): State {
    if code.result == 0 then
      s.(mode := AwaitingClaim, claim := Claim(code.pairToken, ClampPoll(code.pollAfter), 0, 0, 0),
         binding := s.binding.(token := "", generation := s.binding.generation + 1),
         trace := Then(s.trace, CodeTaken(code.pairToken)))
    else
      var wait := NextDelay(s.claim.retryDelay, 30, 600);
      s.(mode := Unprovisioned, claim := s.claim.(retryDelay := wait, retryLeft := wait),
         trace := Then(s.trace, CodeFailed))
  }

  lemma RefusedIs(s: State, code: CodeReply)
    requires s.mode == Pairing && code.result != 0
    ensures CodeRefused(s) == CodeAnswered(s, code)
  {
    hide NextDelay;
  }

  lemma AcceptedIs(s: State, code: CodeReply)
    requires s.mode == Pairing && code.result == 0
    ensures CodeAccepted(s, code) == CodeAnswered(s, code)
  {
    hide ClampPoll;
  }

  lemma CodeIs(s: State, env: Env)
    requires Quiet(env) && s.shared.available && s.mode == Pairing
    ensures CreatePairCode(s, env) == CodeAnswered(s.(trace := Then(s.trace, CodeAsked)), env.code)
  {
    hide CodeRefused, CodeAccepted, CodeAnswered, SetMode;
    var asked := s.(trace := Then(s.trace, CodeAsked));
    if env.code.result == 0 { AcceptedIs(asked, env.code); } else { RefusedIs(asked, env.code); }
  }

  lemma PairingIsServed(s: State, env: Env)
    requires Inv(s) && Quiet(env) && s.shared.available && !s.shared.lossPending && !s.shuttingDown
    requires s.mode != InConversation && s.pairingRequested
    ensures Tick(s, env) == CodeAnswered(Forgotten(s, env.erased), env.code)
  {
    hide View, Wait, Carry, Single, Listed, CreatePairCode, CodeAnswered;
    CodeIs(BeginPairing(s.(startRequested := false), env), env);
  }

  lemma RetryIsServed(s: State, env: Env)
    requires Inv(s) && Ready(s) && Quiet(env) && s.mode == Unprovisioned && s.claim.retryLeft == 1
    ensures Tick(s, env) ==
      CodeAnswered(s.(claim := s.claim.(retryLeft := 0), trace := Then(s.trace, CodeAsked)), env.code)
  {
    hide View, Wait, Carry, Single, Listed, CreatePairCode;
    CodeIs(SetMode(s.(claim := s.claim.(retryLeft := 0)), Pairing), env);
  }

  // -------------------------------------------------------------------------- renewal

  /** A renewal that has been asked for, or whose wait ends in this tick. */
  predicate RenewalDue(s: State) { s.shared.renewRequested || (s.renewal.pending && s.renewal.left <= 1) }

  /** The state in which the server is asked; a new request begins the back-off afresh. */
  function RenewalAsked(s: State): State {
    var noted := if s.shared.renewRequested
                 then s.(shared := s.shared.(renewRequested := false), renewal := Renewal(true, 0, 0),
                         trace := Then(s.trace, RenewNoted))
                 else s.(renewal := s.renewal.(left := 0));
    noted.(trace := Then(noted.trace, RenewAsked))
  }

  /** A renewal that failed waits for the next attempt. */
  function PutOff(s: State): State {
    var wait := NextDelay(s.renewal.delay, 10, 100);
    s.(renewal := s.renewal.(delay := wait, left := wait), trace := Then(s.trace, RenewFailed))
  }

  /** What a reply leads to. */
  function RenewalReplied(s: State, reply: RenewReply, erased: bool, queued: bool): State {
    var taken := s.(trace := Then(s.trace, RenewTaken));
    if reply.result in REJECTIONS then Unbound(HungUp(s), erased)
    else if reply.result in {400, 410} then Notified(s, HungUp(s), "error", queued)
    else if reply.result != 0 then PutOff(s)
    else if reply.channel != s.talk.channel || reply.uid != s.talk.uid
    then Notified(s, HungUp(s), "error", queued)
    else if !reply.accepted then PutOff(taken)
    else taken.(renewal := Renewal(false, 0, 0), trace := Then(taken.trace, RenewDone))
  }

  lemma RepliedIs(s: State, env: Env)
    requires env.duringTeardown == [] && s.mode == InConversation && s.talk.id != "" && s.shared.available
    ensures RenewAnswered(s, env) == RenewalReplied(s, env.renew, env.erased, env.queued)
  {
    hide Rejected, InvalidateBinding, StopConversation, HungUp, Notified;
    RejectedCodes(env.renew.result);
    InvalidateIs(s, env);
    StopIs(s, env, "error");
  }

  /** Each reply to a renewal of the RTC token has its own outcome. */
  lemma RenewalIsServed(s: State, env: Env)
    requires Inv(s) && Ready(s) && Quiet(env) && s.mode == InConversation && s.shared.stopRequest == NoStop
    requires RenewalDue(s) && s.talk.channel != "" && s.talk.uid != ""
    ensures Tick(s, env) == RenewalReplied(RenewalAsked(s), env.renew, env.erased, env.queued)
  {
    hide View, Wait, Carry, Single, Listed, RenewAnswered, RenewalReplied;
    RepliedIs(RenewalAsked(s), env);
  }

  /** Without the names of the RTC session there is nothing to renew. */
  lemma NamelessRenewalStops(s: State, env: Env)
    requires Inv(s) && Ready(s) && Quiet(env) && s.mode == InConversation && s.shared.stopRequest == NoStop
    requires RenewalDue(s) && !s.shared.renewRequested && (s.talk.channel == "" || s.talk.uid == "")
    ensures Tick(s, env) == Notified(s, HungUp(s), "error", env.queued)
  {
    hide View, Wait, Carry, Single, Listed, RenewAnswered;
  }

  /** A renewal that waits comes one tick closer, and the routine poll goes on. */
  lemma RenewalWaits(s: State, env: Env)
    requires Ready(s) && Quiet(env) && s.mode == InConversation && s.shared.stopRequest == NoStop
    requires !s.shared.renewRequested && s.renewal.pending && s.renewal.left > 1 && !s.binding.pollPending
    ensures var s1 := s.(renewal := s.renewal.(left := s.renewal.left - 1));
      Tick(s, env) ==
        if Due(s.binding.interval, s.binding.ticks) > 1 then s1.(binding := s1.binding.(ticks := s.binding.ticks + 1))
        else Polled(s1.(binding := s1.binding.(ticks := 0)), DevicePoll, env.queued)
  {
  }

  // --------------------------------------------------------------- background results

  /** The result is for the present binding and network, and the device still wants it. */
  predicate Wanted(s: State, request: Request) {
    !s.shuttingDown && !s.pairingRequested && s.shared.available &&
    s.shared.generation == request.networkGeneration && s.binding.generation == request.bindingGeneration &&
    match request.kind
    case PairPoll => s.mode == AwaitingClaim
    case DevicePoll => s.mode == Runtime || s.mode == InConversation
    case Stop => s.mode == Runtime || s.mode == InConversation
  }

  /** The request is back: out of flight, and a poll gives its slot back. */
  function Back(s: State, request: Request): State {
    s.(inFlight := s.inFlight - multiset{request},
       binding := s.binding.(pollPending := s.binding.pollPending && request.kind == Stop))
  }

  /** An unwanted result changes nothing else. */
  lemma UnwantedIsDropped(s: State, request: Request, reply: BindingReply, env: Env)
    requires request in s.inFlight && !Wanted(s, request)
    ensures Step(s, ResultInput(request, reply, env)) == Back(s, request)
  {
  }

  /** A token the reply carries is taken on. */
  function Held(s: State, token: string): State {
    if token == "" then s
    else s.(binding := s.binding.(token := token, generation := s.binding.generation + 1),
            trace := Then(s.trace, TokenTaken(token)))
  }

  /** The token is kept in the store; the device is bound once the write has succeeded. */
  function Kept(s: State, pollAfter: int, write: WriteOutcome): State {
    var record := Some(Blob(1284, 1, Terminated(s.server), Terminated(s.device), Terminated(s.binding.token)));
    if s.binding.token == "" || write == FailedUnwritten then s
    else if write == FailedWritten then s.(store := record)
    else s.(store := record, mode := Runtime, binding := s.binding.(interval := ClampPoll(pollAfter), ticks := 0))
  }

  function Claimed(s: State, reply: BindingReply, write: WriteOutcome): State {
    Kept(Held(s, reply.deviceToken), reply.pollAfter, write)
  }

  lemma ClaimedIs(s: State, reply: BindingReply, env: Env)
    requires s.mode == AwaitingClaim
    ensures ApplyBound(s, reply, env) == Claimed(s, reply, env.write)
  {
    hide Kept, ClampPoll, Record, SetMode;
    var held := Held(s, reply.deviceToken);
    if held.binding.token == "" {
      NothingKept(held, reply.pollAfter, env.write);
    } else {
      KeptIs(held, reply.pollAfter, env.write);
    }
  }

  lemma NothingKept(s: State, pollAfter: int, write: WriteOutcome)
    requires s.binding.token == ""
    ensures Kept(s, pollAfter, write) == s
  {
  }

  lemma KeptIs(s: State, pollAfter: int, write: WriteOutcome)
    requires s.mode == AwaitingClaim && s.binding.token != ""
    ensures var s2 := if write.FailedUnwritten? then s
                      else s.(store := Some(Record(s.server, s.device, s.binding.token)));
      Kept(s, pollAfter, write) ==
        if !write.Written? then s2
        else SetMode(s2, Runtime).(binding := s2.binding.(interval := ClampPoll(pollAfter), ticks := 0))
  {
    hide ClampPoll;
  }

  /** Each answer to a pairing poll has its own outcome. */
  lemma PairPollIsServed(s: State, request: Request, reply: BindingReply, env: Env)
    requires request in s.inFlight && request.kind == PairPoll && Wanted(s, request)
    ensures var used := Back(s, request).(trace := Then(s.trace, Applied(request, s.claim.token)));
      Step(s, ResultInput(request, reply, env)) ==
        if reply.result in REJECTIONS then used.(pairingRequested := true)
        else if reply.result != 0 then used
        else if reply.status == "pending" then used.(claim := s.claim.(interval := ClampPoll(reply.pollAfter)))
        else if reply.status == "bound" then Claimed(used, reply, env.write)
        else if reply.status == "expired" || reply.status == "failed" then used.(pairingRequested := true)
        else if reply.status == "unbound" then used.(mode := Unprovisioned, pairingRequested := true)
        else used
  {
    hide Record, ClampPoll, Rejected, ApplyBound, Claimed;
    RejectedCodes(reply.result);
    ClaimedIs(Back(s, request).(trace := Then(s.trace, Applied(request, s.claim.token))), reply, env);
  }

  /** Each answer to a poll of the binding has its own outcome. */
  lemma DevicePollIsServed(s: State, request: Request, reply: BindingReply, env: Env)
    requires request in s.inFlight && request.kind == DevicePoll && Wanted(s, request) && Quiet(env)
    ensures var used := Back(s, request).(trace := Then(s.trace, Applied(request, s.binding.token)));
      Step(s, ResultInput(request, reply, env)) ==
        if reply.result in REJECTIONS || (reply.result == 0 && reply.status == "unbound")
        then Dismissed(used, env.erased)
        else if reply.result == 0 && reply.status == "bound"
        then used.(binding := used.binding.(interval := ClampPoll(reply.pollAfter)))
        else used
  {
    hide ClampPoll, Rejected, InvalidateBinding, Dismissed;
    RejectedCodes(reply.result);
    InvalidateIs(Back(s, request).(trace := Then(s.trace, Applied(request, s.binding.token))), env);
  }

  /** Of the answer to a stop notice only a rejected credential matters. */
  lemma StopNoticeIsServed(s: State, request: Request, reply: BindingReply, env: Env)
    requires request in s.inFlight && request.kind == Stop && Wanted(s, request) && Quiet(env)
    ensures var used := Back(s, request).(trace := Then(s.trace, Applied(request, s.binding.token)));
      Step(s, ResultInput(request, reply, env)) ==
        if reply.result in REJECTIONS then Dismissed(used, env.erased) else used
  {
    hide Rejected, InvalidateBinding, Dismissed;
    RejectedCodes(reply.result);
    InvalidateIs(Back(s, request).(trace := Then(s.trace, Applied(request, s.binding.token))), env);
  }
}
