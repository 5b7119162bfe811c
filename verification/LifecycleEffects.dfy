/**
 What requests and replies achieve when nothing gets in their way: a start request brings a
 conversation, a hang-up is notified with its reason, a claimed pair code provisions the device,
 and an unclaimed one is polled on time.
 */
module LifecycleEffects {
  import opened CText
  import opened LifecycleState
  import opened LifecycleSafety
  import opened LifecycleRuns

  /** No other thread acts during the tick. */
  predicate Quiet(env: Env) {
    env.afterLossCheck == [] && env.atSnapshot == [] && env.atCheck == [] && env.duringCall == [] &&
    env.duringTeardown == [] && env.duringStart == []
  }

  /** The control owner will look at requests in this tick. */
  predicate Ready(s: State) {
    s.shared.available && !s.shared.lossPending && !s.shuttingDown && !s.pairingRequested
  }

  /**
   The network is there when the tick looks, and the answer to its request still counts. Pokes may
   do anything else, such as lose the network and bring it back before the request.
   */
  predicate Welcome(s: State, env: Env) {
    var asked := SharedAfter(SharedAfter(s.shared, env.afterLossCheck), env.atSnapshot);
    var answered := SharedAfter(SharedAfter(asked, env.atCheck), env.duringCall);
    OnlineTick(s, env) && answered.available && answered.generation == asked.generation
  }

  /** A start request waits in runtime, and nothing comes before it. */
  predicate StartWaits(s: State) {
    s.mode == Runtime && s.startRequested && !s.shuttingDown && !s.pairingRequested
  }

  /** How often the server was asked for a conversation. */
  function StartRequests(trace: Trace): nat {
    match trace
    case Empty => 0
    case Then(before, event) => StartRequests(before) + if event.StartAsked? then 1 else 0
  }

  lemma {:induction false} PokesAskNothing(s: State, pokes: seq<Poke>)
    ensures StartRequests(Poked(s, pokes).trace) == StartRequests(s.trace)
    ensures Starts(Poked(s, pokes).trace) == Starts(s.trace)
    decreases |pokes|
  {
    if pokes != [] { PokesAskNothing(ApplyPoke(s, pokes[0]), pokes[1..]); }
  }

  lemma {:induction false} StopRequestStays(shared: Shared, pokes: seq<Poke>)
    ensures SharedAfter(shared, pokes).stopRequest == shared.stopRequest
    decreases |pokes|
  {
    if pokes != [] { StopRequestStays(Moved(shared, false, pokes[0]), pokes[1..]); }
  }

  /** What pokes leave alone while no conversation is open. */
  lemma PokesStay(s: State, pokes: seq<Poke>)
    requires s.mode != InConversation
    ensures var r := Poked(s, pokes);
      r == s.(shared := r.shared, trace := r.trace) && r.shared == SharedAfter(s.shared, pokes) &&
      r.shared.stopRequest == s.shared.stopRequest &&
      StartRequests(r.trace) == StartRequests(s.trace) && Starts(r.trace) == Starts(s.trace)
  {
    PokedShared(s, pokes);
    PokesAskNothing(s, pokes);
    StopRequestStays(s.shared, pokes);
  }

  /** The state in which the answer to a start request arrives. */
  function Answered(s: State, env: Env): State {
    var s1 := Poked(s, env.afterLossCheck).(startRequested := false);
    Poked(Log(Poked(Poked(s1, env.atSnapshot), env.atCheck), StartAsked), env.duringCall)
  }

  lemma StartIsAnswered(s: State, env: Env)
    requires Inv(s) && StartWaits(s) && Welcome(s, env)
    ensures var s1 := Answered(s, env);
      s1 == s.(startRequested := false, shared := s1.shared, trace := s1.trace) &&
      StartRequests(s1.trace) == StartRequests(s.trace) + 1 && Starts(s1.trace) == Starts(s.trace) &&
      s1.shared.stopRequest == NoStop &&
      Tick(s, env) == if Rejected(env.start.result) then RestartPairing(s1, env)
                      else if env.start.result != 0 then s1
                      else if env.start.conversation.Unterminated? || env.start.conversation.text == "" then s1
                      else EnterConversation(s1, env.start, env)
  {
    hide Poked, SharedAfter, View, Wait, Carry, Single, Listed, RestartPairing, EnterConversation;
    PokesStay(s, env.afterLossCheck);
    var s1 := Poked(s, env.afterLossCheck).(startRequested := false);
    assert WithStop(s1, NoStop) == s1;
    PokesStay(s1, env.atSnapshot);
    var s2 := Poked(s1, env.atSnapshot);
    PokesStay(s2, env.atCheck);
    PokesStay(Log(Poked(s2, env.atCheck), StartAsked), env.duringCall);
  }

  /**
   A start request in runtime asks the server once and, if the answer still counts, enters the
   conversation it names, whatever other threads do meanwhile.
   */
  lemma StartBringsConversation(s: State, env: Env)
    requires Inv(s) && StartWaits(s) && Welcome(s, env)
    requires env.start.result == 0 && env.start.conversation.Terminated? && env.start.conversation.text != ""
    ensures var r := Tick(s, env);
      r.mode == InConversation && r.talk == Talk(env.start.conversation.text, env.start.channel, env.start.uid) &&
      Latest(r.trace) == env.start.conversation.text && Starts(r.trace) == Starts(s.trace) + 1 &&
      StartRequests(r.trace) == StartRequests(s.trace) + 1 && !r.startRequested
  {
    hide Tick, Poked, Answered, Wait, Carry, Single, Listed;
    StartIsAnswered(s, env);
    TickKeeps(s, env);
    PhaseIsLatest(Tick(s, env).trace);
    var s1 := Answered(s, env);
    var entered := Log(SetMode(ClearRenewal(s1).(talk := Talk(env.start.conversation.text, env.start.channel,
                                                              env.start.uid)), InConversation),
                       Started(env.start.conversation.text));
    PokesAskNothing(entered, env.duringStart);
    PokesFrame(entered, env.duringStart);
  }

  lemma {:induction false} PokesFrame(s: State, pokes: seq<Poke>)
    ensures Poked(s, pokes) == s.(shared := Poked(s, pokes).shared, trace := Poked(s, pokes).trace)
    decreases |pokes|
  {
    if pokes != [] { PokesFrame(ApplyPoke(s, pokes[0]), pokes[1..]); }
  }

  /**
   A start the server refuses for the credential forgets the token under a new binding generation
   and asks for pairing, whatever other threads do meanwhile.
   */
  lemma RejectedStartRestartsPairing(s: State, env: Env)
    requires Inv(s) && StartWaits(s) && Welcome(s, env) && env.start.result in {401, 403, 409}
    ensures var r := Tick(s, env);
      r.mode == Unprovisioned && r.pairingRequested && r.binding.token == "" &&
      r.binding.generation == s.binding.generation + 1 && r.store == (if env.erased then None else s.store) &&
      Starts(r.trace) == Starts(s.trace) &&
      StartRequests(r.trace) == StartRequests(s.trace) + 1
  {
    hide Tick, Poked, Answered, Inv;
    StartIsAnswered(s, env);
  }

  function ReasonOf(request: StopRequest): string {
    if request == DeviceHangup then "device_hangup" else "error"
  }

  /** A stop request ends the conversation and queues one notification: its id, its reason, this token. */
  lemma StopIsNotified(s: State, env: Env)
    requires Inv(s) && Ready(s) && Quiet(env) && env.queued
    requires s.mode == InConversation && s.shared.stopRequest != NoStop
    ensures var r := Tick(s, env);
      var notice := Request(Stop, s.shared.generation, s.binding.generation, s.binding.token, s.talk.id,
                            ReasonOf(s.shared.stopRequest));
      r.mode == Runtime && r.talk == Talk("", "", "") &&
      r.inFlight == s.inFlight + multiset{notice} && r.trace == Then(Then(s.trace, Stopped), Queued(notice))
  {
    hide View, Wait, Carry, Single;
  }

  /** A current reply that the code was claimed provisions the device with the token it carries. */
  lemma ClaimProvisions(s: State, request: Request, reply: BindingReply, env: Env)
    requires s.mode == AwaitingClaim && !s.shuttingDown && !s.pairingRequested
    requires request.kind == PairPoll && Current(s, request.networkGeneration)
    requires request.bindingGeneration == s.binding.generation
    requires reply.result == 0 && reply.status == "bound" && reply.deviceToken != "" && env.write.Written?
    ensures var r := ServiceResult(s, request, reply, env);
      r.mode == Runtime && r.binding.token == reply.deviceToken && !r.binding.pollPending &&
      r.store == Some(Record(s.server, s.device, reply.deviceToken)) &&
      r.binding.generation == s.binding.generation + 1 && 3 <= r.binding.interval <= 60
  {
  }

  // ------------------------------------------------------------------ polls in time

  /** Nothing that would keep the device from its routine: no loss, and in a conversation no message. */
  predicate Steady(pokes: seq<Poke>) { NetworkDown !in pokes && RtcEnded !in pokes && TokenExpiring !in pokes }

  /** The network is there throughout the tick. */
  predicate SteadyTick(s: State, env: Env) {
    s.shared.available && s.shared.losing == Settled && !s.shared.lossPending && Steady(env.afterLossCheck)
  }

  lemma {:induction false} SteadyStays(s: State, pokes: seq<Poke>)
    requires s.shared.available && s.shared.losing == Settled && Steady(pokes)
    ensures Poked(s, pokes) == s
    decreases |pokes|
  {
    if pokes != [] {
      assert pokes[0] in pokes;
      assert ApplyPoke(s, pokes[0]) == s;
      SteadyStays(s, pokes[1..]);
    }
  }

  function Ticked(s: State, envs: seq<Env>): State
    decreases |envs|
  {
    if envs == [] then s else Ticked(Tick(s, envs[0]), envs[1..])
  }

  predicate SteadyTicks(s: State, envs: seq<Env>)
    decreases |envs|
  {
    envs == [] || (SteadyTick(s, envs[0]) && SteadyTicks(Tick(s, envs[0]), envs[1..]))
  }

  /** Ticks until a poll is due: what is left of the interval in tenths of a second, at least one. */
  function Due(interval: int, ticks: int): nat { if interval * 10 - ticks > 1 then interval * 10 - ticks else 1 }

  /** What a poll leads to: a request in flight, or a free poll slot if the queue does not take it. */
  function Polled(s: State, kind: Kind, queued: bool): State {
    var poll := Request(kind, s.shared.generation, s.binding.generation,
                        if kind == PairPoll then s.claim.token else s.binding.token, "", "");
    if queued
    then s.(inFlight := s.inFlight + multiset{poll}, trace := Then(s.trace, Queued(poll)),
            binding := s.binding.(pollPending := true))
    else s
  }

  lemma WaitingTick(s: State, env: Env)
    requires s.mode == AwaitingClaim && Ready(s) && SteadyTick(s, env) && Due(s.claim.interval, s.claim.ticks) > 1
    ensures Tick(s, env) == s.(claim := s.claim.(ticks := s.claim.ticks + 1))
  {
    hide Poked;
    SteadyStays(s, env.afterLossCheck);
  }

  /**
   While a pair code waits to be claimed it is polled after exactly its interval, and nothing else
   happens before.
   */
  lemma {:induction false} ClaimIsPolled(s: State, envs: seq<Env>)
    requires s.mode == AwaitingClaim && Ready(s) && !s.binding.pollPending
    requires SteadyTicks(s, envs) && |envs| == Due(s.claim.interval, s.claim.ticks)
    ensures Ticked(s, envs) == Polled(s.(claim := s.claim.(ticks := 0)), PairPoll, envs[|envs| - 1].queued)
    decreases |envs|
  {
    var env := envs[0];
    if |envs| > 1 {
      WaitingTick(s, env);
      ClaimIsPolled(Tick(s, env), envs[1..]);
    } else {
      SteadyStays(s, env.afterLossCheck);
      assert envs[1..] == [];
    }
  }

  /** Nothing is asked of a bound device, in or out of a conversation. */
  predicate Routine(s: State) {
    Ready(s) && !s.binding.pollPending &&
    ((s.mode == Runtime && !s.startRequested) ||
     (s.mode == InConversation && s.shared.stopRequest == NoStop && !s.shared.renewRequested && !s.renewal.pending))
  }

  lemma RoutineTick(s: State, env: Env)
    requires Routine(s) && SteadyTick(s, env)
    ensures Tick(s, env) ==
      if Due(s.binding.interval, s.binding.ticks) > 1 then s.(binding := s.binding.(ticks := s.binding.ticks + 1))
      else Polled(s.(binding := s.binding.(ticks := 0)), DevicePoll, env.queued)
  {
    hide Poked;
    SteadyStays(s, env.afterLossCheck);
  }

  /**
   A bound device polls its binding after exactly its interval, in a conversation too, and nothing
   else happens before.
   */
  lemma {:induction false} RuntimeIsPolled(s: State, envs: seq<Env>)
    requires Routine(s) && SteadyTicks(s, envs) && |envs| == Due(s.binding.interval, s.binding.ticks)
    ensures Ticked(s, envs) == Polled(s.(binding := s.binding.(ticks := 0)), DevicePoll, envs[|envs| - 1].queued)
    decreases |envs|
  {
    hide Tick;
    RoutineTick(s, envs[0]);
    if |envs| > 1 { RuntimeIsPolled(Tick(s, envs[0]), envs[1..]); } else { assert envs[1..] == []; }
  }
}
