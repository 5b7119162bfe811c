/**
 What an observer of the device lifecycle may rely on, over every run from power-up:
 conversations, credentials, network losses, shutdown and pairing attempts.
 */
module LifecycleRuns {
  import opened CText
  import opened LifecycleState
  import opened LifecycleSafety

  /** The state after any run from power-up over any store. */
  function Reached(server: string, device: string, store: Option<Blob>, readable: bool, erased: bool,
                   inputs: seq<Input>): State {
    Run(Init(server, device, store, readable, erased), inputs)
  }

  lemma ReachedKeeps(server: string, device: string, store: Option<Blob>, readable: bool, erased: bool,
                     inputs: seq<Input>)
    ensures Inv(Reached(server, device, store, readable, erased, inputs))
  {
    InitKeeps(server, device, store, readable, erased);
    RunKeeps(Init(server, device, store, readable, erased), inputs);
  }

  // ----------------------------------------------------------------- conversations

  /** Stop notifications queued since the latest conversation started. */
  function NoticesSinceStart(trace: Trace): nat {
    match trace
    case Empty => 0
    case Then(before, event) =>
      if event.Started? then 0
      else NoticesSinceStart(before) + if event.Queued? && event.request.kind == Stop then 1 else 0
  }

  /** The id of the latest started conversation, empty before the first one. */
  function Latest(trace: Trace): string {
    match trace
    case Empty => ""
    case Then(before, event) => if event.Started? then event.conversation else Latest(before)
  }

  lemma {:induction false} PhaseIsLatest(trace: Trace)
    requires View(trace).Seen?
    ensures View(trace).phase.Talking? || View(trace).phase.Hung? ==> View(trace).phase.id == Latest(trace)
    ensures NoticesSinceStart(trace) + (if View(trace).phase.Idle? then 0 else 1) <= 1
  {
    if trace.Then? { PhaseIsLatest(trace.before); }
  }

  /** An earlier stage of the trace, or the trace itself. */
  predicate Stage(early: Trace, trace: Trace) {
    early == trace || (trace.Then? && Stage(early, trace.before))
  }

  lemma {:induction false} StageSeen(early: Trace, trace: Trace)
    requires View(trace).Seen? && Stage(early, trace)
    ensures View(early).Seen?
  {
    if early != trace { StageSeen(early, trace.before); }
  }

  /**
   At every stage of every run, also in the middle of an event: conversation starts and stops
   alternate, and no more than one stop notification has been queued since the latest start.
   */
  lemma ConversationsAlternate(server: string, device: string, store: Option<Blob>, readable: bool,
                               erased: bool, inputs: seq<Input>, early: Trace)
    requires Stage(early, Reached(server, device, store, readable, erased, inputs).trace)
    ensures Stops(early) <= Starts(early) <= Stops(early) + 1 && NoticesSinceStart(early) <= 1
  {
    hide Run, Init;
    ReachedKeeps(server, device, store, readable, erased, inputs);
    StageSeen(early, Reached(server, device, store, readable, erased, inputs).trace);
    Alternates(early);
    PhaseIsLatest(early);
  }

  /**
   Between the events of every run the device is in a conversation exactly while one is open, and
   that is the one started last.
   */
  lemma ConversationIsOpen(server: string, device: string, store: Option<Blob>, readable: bool,
                           erased: bool, inputs: seq<Input>)
    ensures var s := Reached(server, device, store, readable, erased, inputs);
      Starts(s.trace) == Stops(s.trace) + (if s.mode == InConversation then 1 else 0) &&
      (s.mode == InConversation <==> s.talk.id != "") &&
      (s.mode == InConversation ==> s.talk.id == Latest(s.trace))
  {
    hide Run, Init;
    ReachedKeeps(server, device, store, readable, erased, inputs);
    var s := Reached(server, device, store, readable, erased, inputs);
    Alternates(s.trace);
    PhaseIsLatest(s.trace);
  }

  predicate Recorded(trace: Trace, e: Event) {
    trace.Then? && (trace.event == e || Recorded(trace.before, e))
  }

  /** The trace up to and including the latest record of an event. */
  function UpTo(trace: Trace, e: Event): (r: Trace)
    requires Recorded(trace, e)
    ensures r.Then? && r.event == e
  {
    if trace.event == e then trace else UpTo(trace.before, e)
  }

  lemma {:induction false} PrefixSeen(trace: Trace, e: Event)
    requires View(trace).Seen? && Recorded(trace, e)
    ensures View(UpTo(trace, e)).Seen?
  {
    if trace.event != e { PrefixSeen(trace.before, e); }
  }

  /** A queued stop notification names the conversation that has just been stopped, and is its only one. */
  lemma StopNamesItsOwn(server: string, device: string, store: Option<Blob>, readable: bool, erased: bool,
                        inputs: seq<Input>, request: Request)
    requires request.kind == Stop
    requires Recorded(Reached(server, device, store, readable, erased, inputs).trace, Queued(request))
    ensures var at := UpTo(Reached(server, device, store, readable, erased, inputs).trace, Queued(request));
      request.conversation == Latest(at) && Starts(at) == Stops(at) &&
      NoticesSinceStart(at) == 1
  {
    hide Run, Init;
    ReachedKeeps(server, device, store, readable, erased, inputs);
    var trace := Reached(server, device, store, readable, erased, inputs).trace;
    PrefixSeen(trace, Queued(request));
    var at := UpTo(trace, Queued(request));
    PhaseIsLatest(at.before);
    PhaseIsLatest(at);
    Alternates(at);
  }

  /** The latest request to the server since the latest network loss. */
  function LatestAsk(trace: Trace): Ask {
    match trace
    case Empty => NoAsk
    case Then(before, event) =>
      match event
      case NetworkLost => NoAsk
      case CodeAsked => CodeAsk
      case StartAsked => StartAsk
      case RenewAsked => RenewAsk
      case _ => LatestAsk(before)
  }

  lemma {:induction false} AskIsLatest(trace: Trace)
    requires View(trace).Seen? && View(trace).ask != NoAsk
    ensures LatestAsk(trace) == View(trace).ask
  {
    if trace.Then? && View(trace.before).Seen? && View(trace.before).ask != NoAsk { AskIsLatest(trace.before); }
  }

  /** The request an event is the answer to. */
  function AnswerTo(e: Event): Ask {
    match e
    case CodeTaken(_) => CodeAsk
    case Started(_) => StartAsk
    case RenewTaken => RenewAsk
    case _ => NoAsk
  }

  /**
   In every run a pair code, a conversation or a renewed token comes from the request made last, and
   no network loss was observed between that request and the answer.
   */
  lemma AnswersNeverStraddleLoss(server: string, device: string, store: Option<Blob>, readable: bool,
                                 erased: bool, inputs: seq<Input>, e: Event)
    requires AnswerTo(e) != NoAsk
    requires Recorded(Reached(server, device, store, readable, erased, inputs).trace, e)
    ensures var at := UpTo(Reached(server, device, store, readable, erased, inputs).trace, e);
      LatestAsk(at.before) == AnswerTo(e)
  {
    hide Run, Init;
    ReachedKeeps(server, device, store, readable, erased, inputs);
    var trace := Reached(server, device, store, readable, erased, inputs).trace;
    PrefixSeen(trace, e);
    AskIsLatest(UpTo(trace, e).before);
  }

  // ------------------------------------------------------------------- credentials

  /** Every applied background result was obtained with the credential the device still held. */
  lemma AppliedWithHeldCredential(server: string, device: string, store: Option<Blob>, readable: bool,
                                  erased: bool, inputs: seq<Input>, request: Request, held: string)
    requires Recorded(Reached(server, device, store, readable, erased, inputs).trace, Applied(request, held))
    ensures request.credential == held
  {
    hide Run, Init;
    ReachedKeeps(server, device, store, readable, erased, inputs);
    PrefixSeen(Reached(server, device, store, readable, erased, inputs).trace, Applied(request, held));
  }

  function Losses(trace: Trace): nat {
    match trace
    case Empty => 0
    case Then(before, event) => Losses(before) + if event.NetworkLost? then 1 else 0
  }

  lemma {:induction false} LossesCounted(trace: Trace)
    requires View(trace).Seen?
    ensures View(trace).losses == Losses(trace)
  {
    if trace.Then? { LossesCounted(trace.before); }
  }

  lemma {:induction false} SentWasQueued(trace: Trace, request: Request)
    requires View(trace).Seen? && request in View(trace).sent
    ensures Recorded(trace, Queued(request))
  {
    if trace.event != Queued(request) { SentWasQueued(trace.before, request); }
  }

  /** Between a stage of the trace and the trace itself losses are only added. */
  lemma {:induction false} LossesGrow(early: Trace, trace: Trace)
    requires Stage(early, trace)
    ensures Losses(early) <= Losses(trace)
  {
    if early != trace { LossesGrow(early, trace.before); }
  }

  /** The request has been queued, and no network loss was observed since, whenever that was. */
  ghost predicate NoLossSince(request: Request, at: Trace) {
    Recorded(at, Queued(request)) &&
    forall early :: Stage(early, at) && early.Then? && early.event == Queued(request) ==>
      Losses(early) == Losses(at)
  }

  lemma AppliedIsCurrent(at: Trace)
    requires View(at).Seen? && at.Then? && at.event.Applied?
    ensures NoLossSince(at.event.request, at.before) && Losses(at) == Losses(at.before)
  {
    hide View;
    var request := at.event.request;
    AppliedSeen(at);
    SentWasQueued(at.before, request);
    LossesCounted(at.before);
    forall early | Stage(early, at.before) && early.Then? && early.event == Queued(request)
      ensures Losses(early) == Losses(at.before)
    {
      LossesGrow(early, at.before);
      StageSeen(early, at.before);
      QueuedSeen(early);
      LossesCounted(early);
    }
  }

  lemma AppliedSeen(at: Trace)
    requires View(at).Seen? && at.Then? && at.event.Applied?
    ensures View(at.before).Seen? && at.event.request in View(at.before).sent
    ensures at.event.request.networkGeneration == View(at.before).losses
    ensures at.event.request.credential == at.event.held
  {
  }

  lemma QueuedSeen(at: Trace)
    requires View(at).Seen? && at.Then? && at.event.Queued?
    ensures at.event.request.networkGeneration <= View(at).losses
  {
  }

  /**
   In every run a background result is used only if no network loss was observed between the request
   and its use, reports that are only half done included.
   */
  lemma ResultsNeverStraddleLoss(server: string, device: string, store: Option<Blob>, readable: bool,
                                 erased: bool, inputs: seq<Input>, request: Request, held: string)
    requires Recorded(Reached(server, device, store, readable, erased, inputs).trace, Applied(request, held))
    ensures var at := UpTo(Reached(server, device, store, readable, erased, inputs).trace, Applied(request, held));
      NoLossSince(request, at.before)
  {
    hide Run, Init;
    ReachedKeeps(server, device, store, readable, erased, inputs);
    var trace := Reached(server, device, store, readable, erased, inputs).trace;
    PrefixSeen(trace, Applied(request, held));
    AppliedIsCurrent(UpTo(trace, Applied(request, held)));
  }

  /**
   In every run a device token is taken from the result of a pairing poll that was asked for with the
   pair token the device still holds, and no network loss was observed since it was asked for.
   */
  lemma TokensNeverStraddleLoss(server: string, device: string, store: Option<Blob>, readable: bool,
                                erased: bool, inputs: seq<Input>, token: string)
    requires Recorded(Reached(server, device, store, readable, erased, inputs).trace, TokenTaken(token))
    ensures var use := UpTo(Reached(server, device, store, readable, erased, inputs).trace, TokenTaken(token)).before;
      use.Then? && use.event.Applied? && use.event.request.kind == PairPoll &&
      use.event.request.credential == use.event.held && NoLossSince(use.event.request, use.before)
  {
    hide Run, Init;
    ReachedKeeps(server, device, store, readable, erased, inputs);
    var trace := Reached(server, device, store, readable, erased, inputs).trace;
    PrefixSeen(trace, TokenTaken(token));
    var use := UpTo(trace, TokenTaken(token)).before;
    AppliedIsCurrent(use);
    AppliedSeen(use);
  }

  lemma {:induction false} TakenWasRecorded(trace: Trace, token: string)
    requires View(trace).Seen? && token in View(trace).taken
    ensures Recorded(trace, TokenTaken(token))
  {
    if trace.event != TokenTaken(token) { TakenWasRecorded(trace.before, token); }
  }

  /** In every run a token the device holds was in the store at power-up, or was taken as above. */
  lemma TokenHasOrigin(server: string, device: string, store: Option<Blob>, readable: bool, erased: bool,
                       inputs: seq<Input>)
    ensures var s := Reached(server, device, store, readable, erased, inputs);
      var token := s.binding.token;
      token == "" || Recorded(s.trace, TokenTaken(token)) ||
      (readable && store.Some? && Usable(store.value, server, device) && store.value.token == Terminated(token))
  {
    hide Run, Recorded;
    InitKeeps(server, device, store, readable, erased);
    var start := Init(server, device, store, readable, erased);
    RunKeeps(start, inputs);
    var s := Run(start, inputs);
    if s.binding.token in View(s.trace).taken { TakenWasRecorded(s.trace, s.binding.token); }
  }

  /** At most one binding poll is ever in flight, across re-pairing and reconnects. */
  lemma OnePollInFlight(server: string, device: string, store: Option<Blob>, readable: bool, erased: bool,
                        inputs: seq<Input>, r: Request, q: Request)
    requires r.kind != Stop && q.kind != Stop
    requires r in Reached(server, device, store, readable, erased, inputs).inFlight
    requires q in Reached(server, device, store, readable, erased, inputs).inFlight
    ensures r == q && Reached(server, device, store, readable, erased, inputs).inFlight[r] == 1
    ensures Reached(server, device, store, readable, erased, inputs).binding.pollPending
  {
    hide Run, Init;
    ReachedKeeps(server, device, store, readable, erased, inputs);
  }

  /** A bound device that loses power comes back bound, with the same token, over a readable store. */
  lemma RestartRestores(server: string, device: string, store: Option<Blob>, readable: bool, erased: bool,
                        inputs: seq<Input>, erasedLater: bool)
    requires Bound(Reached(server, device, store, readable, erased, inputs))
    ensures var s := Reached(server, device, store, readable, erased, inputs);
      var again := Init(server, device, s.store, true, erasedLater);
      again.mode == Runtime && again.binding.token == s.binding.token && s.binding.token != ""
  {
    hide Run;
    InitKeeps(server, device, store, readable, erased);
    RunKeeps(Init(server, device, store, readable, erased), inputs);
  }

  /** Power-up adopts a stored record exactly when it is this device's for this server. */
  lemma ForeignRecordIgnored(server: string, device: string, blob: Blob, readable: bool, erased: bool)
    ensures var s := Init(server, device, Some(blob), readable, erased);
      (s.mode == Runtime <==> readable && Usable(blob, server, device)) &&
      (s.mode != Runtime ==> s.mode == Unprovisioned && s.binding.token == "" && s.pairingRequested)
  {
  }

  // ---------------------------------------------------------------- network losses

  predicate Ticks(input: Input) { input.TickInput? }

  lemma StepPends(s: State, input: Input)
    requires s.shared.lossPending && !Ticks(input)
    ensures Step(s, input).shared.lossPending
  {
    hide ServiceResult, Shutdown, ApplyPoke;
  }

  lemma {:induction false} LossStaysPending(s: State, inputs: seq<Input>)
    requires s.shared.lossPending && forall i :: 0 <= i < |inputs| ==> !Ticks(inputs[i])
    ensures Run(s, inputs).shared.lossPending
    decreases |inputs|
  {
    hide Step;
    if inputs != [] {
      StepPends(s, inputs[0]);
      LossStaysPending(Step(s, inputs[0]), inputs[1..]);
    }
  }

  /**
   Whatever happens between a network loss and the next tick, that tick ends with no conversation,
   no start or stop request and no stop notification queued, even if the network is back.
   */
  lemma FirstTickAfterLoss(s: State, inputs: seq<Input>, env: Env)
    requires Inv(s) && s.shared.lossPending && !Run(s, inputs).shuttingDown
    requires forall i :: 0 <= i < |inputs| ==> !Ticks(inputs[i])
    ensures var before := Run(s, inputs);
      var after := Tick(before, env);
      after.mode != InConversation && after.talk.id == "" && !after.startRequested &&
      after.shared.stopRequest == NoStop && after.inFlight == before.inFlight
  {
    hide Run, TickLoss, TickOnline;
    RunKeeps(s, inputs);
    LossStaysPending(s, inputs);
    TickLossKeeps(Run(s, inputs), env);
  }

  // ---------------------------------------------------------------------- shutdown

  /** After shutdown an event only moves network flags and takes requests out of flight. */
  predicate Dead(s: State, r: State) {
    r == s.(shared := r.shared, binding := s.binding.(pollPending := r.binding.pollPending),
            inFlight := r.inFlight, trace := r.trace,
            pairingRequested := r.pairingRequested, startRequested := r.startRequested) &&
    r.inFlight <= s.inFlight && Starts(r.trace) == Starts(s.trace) && Stops(r.trace) == Stops(s.trace)
  }

  lemma DeadResult(s: State, request: Request, reply: BindingReply, env: Env)
    requires s.shuttingDown
    ensures var r := ServiceResult(s, request, reply, env);
      r == s.(binding := s.binding.(pollPending := request.kind == Stop && s.binding.pollPending))
  {
    hide ApplyPairPoll, ApplyDevicePoll, ApplyStop;
  }

  lemma DeadPoke(s: State, p: Poke)
    ensures Dead(s, ApplyPoke(s, p))
    ensures ApplyPoke(s, p).shuttingDown == s.shuttingDown && ApplyPoke(s, p).mode == s.mode
  {
    hide Moved;
  }

  lemma DeadShutdown(s: State, env: Env)
    requires s.shuttingDown && s.mode != InConversation
    ensures Dead(s, Shutdown(s, env)) && Shutdown(s, env).mode == s.mode && Shutdown(s, env).shuttingDown
  {
    hide StopConversation, CompleteLocally, Starts, Stops;
  }

  lemma DeadLanding(s: State, request: Request, reply: BindingReply, env: Env)
    requires s.shuttingDown && s.mode != InConversation
    ensures var r := Step(s, ResultInput(request, reply, env));
      Dead(s, r) && r.shuttingDown && r.mode == s.mode
  {
    hide ServiceResult, Starts, Stops;
    if request in s.inFlight {
      DeadResult(s.(inFlight := s.inFlight - multiset{request}), request, reply, env);
    }
  }

  lemma DeadTick(s: State, env: Env)
    requires s.shuttingDown
    ensures Step(s, TickInput(env)) == s && Dead(s, s)
  {
    hide TickLoss, TickOnline, Poked, Starts, Stops;
  }

  lemma DeadRequest(s: State, input: Input)
    requires s.shuttingDown && s.mode != InConversation
    requires input.DropInput? || input.PairInput? || input.StartInput? || input.StopInput?
    ensures var r := Step(s, input);
      Dead(s, r) && r.shuttingDown && r.mode == s.mode
  {
    hide Tick, ServiceResult, Shutdown, ApplyPoke, Starts, Stops;
  }

  lemma DeadStep(s: State, input: Input)
    requires s.shuttingDown && s.mode != InConversation
    ensures Dead(s, Step(s, input)) && Step(s, input).shuttingDown && Step(s, input).mode == s.mode
  {
    hide Dead, Tick, ServiceResult, ApplyPoke, Shutdown;
    match input
    case TickInput(env) => DeadTick(s, env);
    case ResultInput(request, reply, env) => DeadLanding(s, request, reply, env);
    case PokeInput(poke) => DeadPoke(s, poke);
    case ShutdownInput(env) => DeadShutdown(s, env);
    case _ => DeadRequest(s, input);
  }

  lemma {:induction false} DeadRun(s: State, inputs: seq<Input>)
    requires s.shuttingDown && s.mode != InConversation
    ensures Dead(s, Run(s, inputs))
    decreases |inputs|
  {
    hide Step;
    if inputs != [] {
      DeadStep(s, inputs[0]);
      DeadRun(Step(s, inputs[0]), inputs[1..]);
    }
  }

  /** Shutdown closes an open conversation, and no later event starts, stops or queues anything. */
  lemma ShutdownIsFinal(s: State, env: Env, inputs: seq<Input>)
    requires Inv(s)
    ensures var down := Shutdown(s, env);
      var r := Run(down, inputs);
      r.mode != InConversation && r.talk.id == "" && Starts(r.trace) == Stops(r.trace) &&
      Starts(r.trace) == Starts(down.trace) && r.inFlight <= down.inFlight
  {
    hide Run, Shutdown;
    ShutdownKeeps(s, env);
    var down := Shutdown(s, env);
    DeadRun(down, inputs);
    RunKeeps(down, inputs);
    Alternates(down.trace);
  }

  // ---------------------------------------------------------------- pairing attempts

  /** What the pokes of other threads make of the atomics while no conversation is open. */
  function SharedAfter(shared: Shared, pokes: seq<Poke>): Shared
    decreases |pokes|
  {
    if pokes == [] then shared else SharedAfter(Moved(shared, false, pokes[0]), pokes[1..])
  }

  lemma {:induction false} PokedShared(s: State, pokes: seq<Poke>)
    requires s.mode != InConversation
    ensures Poked(s, pokes).shared == SharedAfter(s.shared, pokes)
    ensures Poked(s, pokes) == s.(shared := Poked(s, pokes).shared, trace := Poked(s, pokes).trace)
    decreases |pokes|
  {
    if pokes != [] { PokedShared(ApplyPoke(s, pokes[0]), pokes[1..]); }
  }

  /**
   The tick has no loss to deal with and finds the network there both times it looks: at its start,
   and when it would ask the server. What happens in between does not matter.
   */
  predicate OnlineTick(s: State, env: Env) {
    var first := SharedAfter(s.shared, env.afterLossCheck);
    !s.shared.lossPending && first.available &&
    SharedAfter(SharedAfter(first, env.atSnapshot), env.atCheck).available
  }

  predicate NoShutdown(inputs: seq<Input>) { forall i :: 0 <= i < |inputs| ==> !inputs[i].ShutdownInput? }

  /** How many ticks of the run are online; there may be any number of others. */
  function OnlineCount(s: State, inputs: seq<Input>): nat
    decreases |inputs|
  {
    if inputs == [] then 0
    else
      (if inputs[0].TickInput? && OnlineTick(s, inputs[0].env) then 1 else 0) +
      OnlineCount(Step(s, inputs[0]), inputs[1..])
  }

  /** Online ticks until an unprovisioned device asks for a pair code. */
  function Left(s: State): int { if s.pairingRequested then 1 else s.claim.retryLeft }

  function Asks(s: State): nat
    requires View(s.trace).Seen?
  {
    View(s.trace).asks
  }

  /** It goes on as it was: unprovisioned, and no further from asking. */
  predicate Waits(s: State, r: State) { r.mode == Unprovisioned && !r.shuttingDown && Left(r) <= Left(s) }

  /** From s to r the server was asked for a pair code, or without network the attempt put off. */
  predicate Attempted(s: State, env: Env, r: State) {
    View(s.trace).Seen? && View(r.trace).Seen? &&
    if SharedAfter(SharedAfter(s.shared, env.atSnapshot), env.atCheck).available then Asks(r) > Asks(s)
    else r.mode == Unprovisioned && r.pairingRequested && r.shuttingDown == s.shuttingDown && Asks(r) >= Asks(s)
  }

  /** An attempt at a pair code asks the server, if the network is there, or else is put off. */
  lemma CreateAsksOrPutsOff(s: State, env: Env)
    requires Core(s) && s.mode != InConversation && !s.startRequested
    ensures Inv(CreatePairCode(s, env)) && Attempted(s, env, CreatePairCode(s, env))
  {
    hide Rest, Noted, Poked, CodeRefused, CodeAccepted, SharedAfter;
    CreatePairCodeKeeps(s, env);
    PokesKeep(s, env.atSnapshot);
    PokedShared(s, env.atSnapshot);
    var s0 := Poked(s, env.atSnapshot);
    PokesKeep(s0, env.atCheck);
    PokedShared(s0, env.atCheck);
    var s1 := Poked(s0, env.atCheck);
    if s1.shared.available {
      CodeAskedKeeps(s1);
      var asked := Log(s1, CodeAsked);
      var s2 := Poked(asked, env.duringCall);
      PokesKeep(asked, env.duringCall);
      if Current(s2, s0.shared.generation) {
        CurrentMeansNoLoss(asked, s2);
        CodeRefusedKeeps(s2);
        CodeAcceptedKeeps(s2, env.code);
      }
    }
  }

  /** An online tick of an unprovisioned device asks for a pair code or is one tick closer to it. */
  lemma OnlineTickProgresses(s: State, env: Env)
    requires Inv(s) && s.mode == Unprovisioned && !s.shuttingDown && OnlineTick(s, env)
    ensures var r := Tick(s, env);
      Inv(r) && if Left(s) == 1 then Asks(r) > Asks(s) else Waits(s, r) && Left(r) == Left(s) - 1
  {
    hide CreatePairCode, View, Wait, Carry, Single, Listed, Poked, SharedAfter;
    TickKeeps(s, env);
    PokesKeep(s, env.afterLossCheck);
    PokedShared(s, env.afterLossCheck);
    var s0 := Poked(s, env.afterLossCheck);
    if s0.pairingRequested {
      AttemptAfterRequest(s0, env);
    } else if s0.claim.retryLeft == 1 {
      AttemptAfterWait(s0, env);
    }
  }

  lemma AttemptAfterRequest(s: State, env: Env)
    requires Inv(s) && s.mode == Unprovisioned && s.pairingRequested
    ensures Attempted(s, env, TickPairing(s, env))
  {
    hide CreatePairCode, View, Wait, Carry, Single, Listed, SharedAfter;
    var s1 := s.(startRequested := false);
    StartDropped(s);
    BeginKeeps(s1, env);
    CreateAsksOrPutsOff(BeginPairing(s1, env), env);
  }

  lemma AttemptAfterWait(s: State, env: Env)
    requires Inv(s) && s.mode == Unprovisioned && !s.pairingRequested && s.claim.retryLeft == 1
    ensures Attempted(s, env, TickUnprovisioned(s, env))
  {
    hide CreatePairCode, View, Wait, Carry, Single, Listed, SharedAfter;
    var s1 := SetMode(s.(claim := s.claim.(retryLeft := 0)), Pairing);
    assert Core(s1);
    CreateAsksOrPutsOff(s1, env);
  }

  /** Any tick, whatever the network does, asks or leaves the device no further from asking. */
  lemma AnyTickWaits(s: State, env: Env)
    requires Inv(s) && s.mode == Unprovisioned && !s.shuttingDown
    ensures Inv(Tick(s, env)) && (Asks(Tick(s, env)) > Asks(s) || Waits(s, Tick(s, env)))
  {
    hide CreatePairCode, View, Wait, Carry, Single, Listed, Poked, SharedAfter;
    TickKeeps(s, env);
    PokesKeep(s, env.afterLossCheck);
    PokedShared(s, env.afterLossCheck);
    LeftBound(s);
    var s0 := Poked(s, env.afterLossCheck);
    if s0.pairingRequested {
      AttemptAfterRequest(s0, env);
    } else if s0.claim.retryLeft == 1 {
      AttemptAfterWait(s0, env);
    }
  }

  /** Between ticks an unprovisioned device waits, or is asked to hurry. */
  lemma OtherStepWaits(s: State, input: Input)
    requires Inv(s) && s.mode == Unprovisioned && !s.shuttingDown && !Ticks(input) && !input.ShutdownInput?
    ensures Waits(s, Step(s, input))
  {
    hide View, Wait, Carry, Single, Poked, ApplyPairPoll, ApplyDevicePoll, ApplyStop, Moved;
  }

  lemma LeftBound(s: State)
    requires Inv(s) && s.mode == Unprovisioned && !s.shuttingDown
    ensures 1 <= Left(s) <= PAIR_RETRY_MAX
  {
  }

  /** Between events of any run the device is never seen pairing, and before shutdown never stranded. */
  lemma NeverStranded(server: string, device: string, store: Option<Blob>, readable: bool, erased: bool,
                      inputs: seq<Input>)
    ensures var s := Reached(server, device, store, readable, erased, inputs);
      s.mode != Pairing &&
      (s.mode == Unprovisioned && !s.shuttingDown ==> s.pairingRequested || 1 <= s.claim.retryLeft <= 600)
  {
    hide Run, Init;
    ReachedKeeps(server, device, store, readable, erased, inputs);
  }

  /**
   An unprovisioned device is never stranded: in any run without shutdown, as many online ticks as
   Left(s) make it ask for a new pair code, however many other ticks and events lie between them.
   LeftBound puts Left(s) between 1 and 600.
   */
  lemma {:induction false} AsksAgain(s: State, inputs: seq<Input>)
    requires Inv(s) && s.mode == Unprovisioned && !s.shuttingDown
    requires NoShutdown(inputs) && OnlineCount(s, inputs) >= Left(s)
    ensures Inv(Run(s, inputs)) && Asks(Run(s, inputs)) > Asks(s)
    decreases |inputs|
  {
    hide Rest, Noted, View, Step, OnlineTick, Left;
    LeftBound(s);
    RunKeeps(s, inputs);
    var input := inputs[0];
    var next := Step(s, input);
    StepKeeps(s, input);
    RunKeeps(next, inputs[1..]);
    if Ticks(input) {
      TickIsStep(s, input.env);
      AnyTickWaits(s, input.env);
      if OnlineTick(s, input.env) { OnlineTickProgresses(s, input.env); }
    } else {
      OtherStepWaits(s, input);
    }
    if Asks(next) == Asks(s) { AsksAgain(next, inputs[1..]); }
  }

  lemma TickIsStep(s: State, env: Env)
    ensures Step(s, TickInput(env)) == Tick(s, env)
  {
  }

  // ---------------------------------------------------------------------- back-off

  /** x * 2^k. */
  function Doubled(x: int, k: nat): int {
    if k == 0 then x else 2 * Doubled(x, k - 1)
  }

  function Min(a: int, b: int): int { if a < b then a else b }

  /** Doubling up to the maximum: the k-th wait is min(initial * 2^(k-1), maximum). */
  lemma {:induction false} WaitDoubles(k: nat, initial: int, maximum: int)
    requires k >= 1 && 0 < initial <= maximum && maximum % 2 == 0
    ensures Wait(k, initial, maximum) == Min(Doubled(initial, k - 1), maximum) && Doubled(initial, k - 1) >= initial
  {
    if k > 1 { WaitDoubles(k - 1, initial, maximum); }
  }

  /** Failed pair-code requests since the latest code was obtained. */
  function FailedCodes(trace: Trace): nat {
    match trace
    case Empty => 0
    case Then(before, event) =>
      match event
      case CodeFailed => FailedCodes(before) + 1
      case CodeTaken(_) => 0
      case _ => FailedCodes(before)
  }

  lemma {:induction false} FailuresCounted(trace: Trace)
    requires View(trace).Seen?
    ensures View(trace).failures == FailedCodes(trace)
  {
    if trace.Then? { FailuresCounted(trace.before); }
  }

  /** In every run the wait after the k-th consecutive failed pair-code request is min(30*2^(k-1), 600). */
  lemma RetryDelayInRuns(server: string, device: string, store: Option<Blob>, readable: bool, erased: bool,
                         inputs: seq<Input>)
    ensures var s := Reached(server, device, store, readable, erased, inputs);
      var k := FailedCodes(s.trace);
      s.claim.retryDelay == (if k == 0 then 0 else Min(Doubled(30, k - 1), 600)) &&
      0 <= s.claim.retryLeft <= s.claim.retryDelay
  {
    hide Run, Init, Doubled;
    ReachedKeeps(server, device, store, readable, erased, inputs);
    var s := Reached(server, device, store, readable, erased, inputs);
    FailuresCounted(s.trace);
    var k := FailedCodes(s.trace);
    if k > 0 { WaitDoubles(k, PAIR_RETRY_INITIAL, PAIR_RETRY_MAX); }
  }

  /** A failed request starts the full wait. */
  lemma RefusalStartsWait(s: State)
    requires Core(s) && View(s.trace).ask == CodeAsk
    ensures var r := CodeRefused(s);
      r.claim.retryLeft == r.claim.retryDelay == Delay(FailedCodes(s.trace) + 1) && r.mode == Unprovisioned
  {
    FailuresCounted(s.trace);
  }

  /** Failed renewals of the RTC token since it was last asked for or renewed, in this conversation. */
  function FailedRenewals(trace: Trace): nat {
    match trace
    case Empty => 0
    case Then(before, event) =>
      match event
      case RenewFailed => FailedRenewals(before) + 1
      case Started(_) => 0
      case Stopped => 0
      case RenewNoted => 0
      case RenewDone => 0
      case _ => FailedRenewals(before)
  }

  lemma {:induction false} RenewalsCounted(trace: Trace)
    requires View(trace).Seen?
    ensures View(trace).renewals == FailedRenewals(trace)
  {
    if trace.Then? { RenewalsCounted(trace.before); }
  }

  /**
   In every run the renewal of the RTC token backs off by the same rule, from 10 ticks up to 100;
   a new request, a success and the end of the conversation begin it afresh.
   */
  lemma RenewalBacksOff(server: string, device: string, store: Option<Blob>, readable: bool, erased: bool,
                        inputs: seq<Input>)
    ensures var s := Reached(server, device, store, readable, erased, inputs);
      var k := FailedRenewals(s.trace);
      s.renewal.delay == (if k == 0 then 0 else Min(Doubled(10, k - 1), 100)) &&
      0 <= s.renewal.left <= s.renewal.delay
  {
    hide Run, Init, Doubled;
    ReachedKeeps(server, device, store, readable, erased, inputs);
    var s := Reached(server, device, store, readable, erased, inputs);
    RenewalsCounted(s.trace);
    var k := FailedRenewals(s.trace);
    if k > 0 { WaitDoubles(k, RTC_RETRY_INITIAL, RTC_RETRY_MAX); }
  }

  /** A failed renewal starts the full wait. */
  lemma FailedRenewalStartsWait(s: State)
    requires Core(s) && s.mode == InConversation
    ensures var r := ScheduleRenewal(s);
      r.renewal.left == r.renewal.delay == RenewDelay(FailedRenewals(s.trace) + 1) &&
      FailedRenewals(r.trace) == FailedRenewals(s.trace) + 1
  {
    RenewalsCounted(s.trace);
  }
}
