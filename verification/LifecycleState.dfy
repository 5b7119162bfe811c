/**
 The device lifecycle of mybot_device_lifecycle.c as a function from states and inputs to
 states. Server replies, store outcomes, queue outcomes and the events other threads slip in
 between two steps are inputs. The trace records what the outside world observes.
 */
module LifecycleState {
  import opened CText

  datatype Mode = Unprovisioned | Pairing | AwaitingClaim | Runtime | InConversation
  datatype StopRequest = NoStop | DeviceHangup | ErrorStop

  // ------------------------------------------------------------- stored credential

  /** A fixed-size character array read back from the store. */
  datatype Field = Unterminated | Terminated(text: string)

  datatype Blob = Blob(size: nat, version: nat, server: Field, device: Field, token: Field)

  const RECORD_SIZE: nat := 1284
  const RECORD_VERSION: nat := 1

  function Record(server: string, device: string, token: string): Blob {
    Blob(RECORD_SIZE, RECORD_VERSION, Terminated(server), Terminated(device), Terminated(token))
  }

  // ---------------------------------------------------------------------- requests

  datatype Kind = PairPoll | DevicePoll | Stop

  /** Background HTTP work with the snapshot it was created from. */
  datatype Request = Request(kind: Kind, networkGeneration: nat, bindingGeneration: nat,
                             credential: string, conversation: string, reason: string)

  /** How far a report of a lost network has come: it counts the loss, then marks it. */
  datatype Losing = Settled | Counting | Marking

  /** The atomics other threads write. */
  datatype Shared = Shared(available: bool, lossPending: bool, generation: nat, losing: Losing,
                           stopRequest: StopRequest, renewRequested: bool)

  // ------------------------------------------------------------------------- trace

  datatype Event =
    | CodeAsked
    | CodeFailed
    | CodeTaken(pairToken: string)
    | StartAsked
    | Started(conversation: string)
    | Stopped
      // A renewal of the RTC token: asked for, requested, its token taken, done, or put off.
    | RenewNoted
    | RenewAsked
    | RenewTaken
    | RenewDone
    | RenewFailed
    | Queued(request: Request)
      // A background result was applied while the device held this credential.
    | Applied(request: Request, held: string)
      // The device takes on the token of a claimed pair code.
    | TokenTaken(token: string)
    | NetworkLost

  datatype Trace = Empty | Then(before: Trace, event: Event)

  // ------------------------------------------------------------------------- state

  /** The pair code waiting to be claimed, and the back-off between requests for one. */
  datatype Claim = Claim(token: string, interval: int, ticks: int, retryDelay: int, retryLeft: int)

  /** The binding to a user: the device token and the polls that check it. */
  datatype Binding = Binding(token: string, interval: int, ticks: int, pollPending: bool, generation: nat)

  datatype Talk = Talk(id: string, channel: string, uid: string)

  /** The renewal of the RTC token. */
  datatype Renewal = Renewal(pending: bool, delay: int, left: int)

  datatype State = State(
    server: string, device: string, store: Option<Blob>,
    mode: Mode, claim: Claim, binding: Binding, talk: Talk, renewal: Renewal,
    startRequested: bool, pairingRequested: bool, shuttingDown: bool, shared: Shared,
    inFlight: multiset<Request>, trace: Trace)

  function Log(s: State, e: Event): State { s.(trace := Then(s.trace, e)) }

  // ------------------------------------------------------------------------ inputs

  /** What another thread may do between two steps of the control owner. */
  datatype Poke = NetworkUp | NetworkDown | LossStep | RtcEnded | TokenExpiring

  datatype CodeReply = CodeReply(result: int, pairToken: string, pollAfter: int)
  datatype StartReply = StartReply(result: int, conversation: Field, channel: string, uid: string)
  datatype RenewReply = RenewReply(result: int, channel: string, uid: string, accepted: bool)
  datatype BindingReply = BindingReply(result: int, status: string, deviceToken: string, pollAfter: int)

  datatype WriteOutcome = Written | FailedWritten | FailedUnwritten

  /** Everything one event may learn from the outside. */
  datatype Env = Env(
    code: CodeReply, start: StartReply, renew: RenewReply,
    queued: bool, erased: bool, write: WriteOutcome,
    afterLossCheck: seq<Poke>, atSnapshot: seq<Poke>, atCheck: seq<Poke>,
    duringCall: seq<Poke>, duringTeardown: seq<Poke>, duringStart: seq<Poke>)

  /**
   Reports of the network come from the platform's thread, and from the control owner for those that
   arrived too early. That none starts while another is running is an assumption.
   */
  predicate Loses(shared: Shared, p: Poke) {
    p == NetworkDown && shared.losing == Settled && shared.available
  }

  /** What a poke does to the atomics; talking: in a conversation and not shutting down. */
  function Moved(shared: Shared, talking: bool, p: Poke): Shared {
    match p
    case NetworkUp => if shared.losing == Settled then shared.(available := true) else shared
    case NetworkDown => if Loses(shared, p) then shared.(available := false, losing := Counting) else shared
    case LossStep =>
      (match shared.losing
       case Settled => shared
       case Counting => shared.(generation := shared.generation + 1, losing := Marking)
       case Marking => shared.(lossPending := true, losing := Settled))
    case RtcEnded => if talking then shared.(stopRequest := ErrorStop) else shared
    case TokenExpiring =>
      if talking && shared.available then shared.(renewRequested := true) else shared
  }

  function ApplyPoke(s: State, p: Poke): (r: State)
    ensures s.shared.lossPending ==> r.shared.lossPending
  {
    s.(shared := Moved(s.shared, !s.shuttingDown && s.mode == InConversation, p),
       trace := if Loses(s.shared, p) then Then(s.trace, NetworkLost) else s.trace)
  }

  function Poked(s: State, pokes: seq<Poke>): (r: State)
    ensures s.shared.lossPending ==> r.shared.lossPending
    decreases |pokes|
  {
    if pokes == [] then s else Poked(ApplyPoke(s, pokes[0]), pokes[1..])
  }

  // ----------------------------------------------------------------------- helpers

  const PAIR_RETRY_INITIAL: int := 30
  const PAIR_RETRY_MAX: int := 600
  const RTC_RETRY_INITIAL: int := 10
  const RTC_RETRY_MAX: int := 100

  function WithStop(s: State, request: StopRequest): State {
    s.(shared := s.shared.(stopRequest := request))
  }

  function Current(s: State, generation: nat): bool {
    s.shared.available && s.shared.generation == generation
  }

  /** Leaving a conversation drops any stop request raised while it was torn down. */
  function SetMode(s: State, m: Mode): State {
    if s.mode == m then s
    else s.(mode := m, shared := if s.mode == InConversation then s.shared.(stopRequest := NoStop) else s.shared)
  }

  function Rejected(result: int): bool { result == 401 || result == 403 || result == 409 }

  function Gap(a: int, b: int): nat { if a < b then b - a else a - b }

  /** The interval nearest to the one asked for among those allowed. */
  function ClampPoll(seconds: int): (r: int)
    ensures 3 <= r <= 60 && forall other :: 3 <= other <= 60 ==> Gap(r, seconds) <= Gap(other, seconds)
  {
    if seconds < 3 then 3 else if seconds > 60 then 60 else seconds
  }

  function NextDelay(current: int, initial: int, maximum: int): int {
    if current == 0 then initial
    else if current < maximum / 2 then current * 2
    else maximum
  }

  function ClearAuth(s: State, env: Env): State {
    s.(binding := s.binding.(generation := s.binding.generation + 1, token := ""),
       store := if env.erased then None else s.store)
  }

  function RestartPairing(s: State, env: Env): State {
    SetMode(ClearAuth(s, env), Unprovisioned).(pairingRequested := true)
  }

  // --------------------------------------------------------------------- pair code

  function CodeRefused(s: State): State {
    var delay := NextDelay(s.claim.retryDelay, PAIR_RETRY_INITIAL, PAIR_RETRY_MAX);
    SetMode(Log(s.(claim := s.claim.(retryDelay := delay, retryLeft := delay)), CodeFailed), Unprovisioned)
  }

  function CodeAccepted(s: State, reply: CodeReply): State {
    var s1 := s.(claim := Claim(reply.pairToken, ClampPoll(reply.pollAfter), 0, 0, 0),
                 binding := s.binding.(generation := s.binding.generation + 1, token := ""));
    SetMode(Log(s1, CodeTaken(reply.pairToken)), AwaitingClaim)
  }

  function CreatePairCode(s: State, env: Env): State {
    var s0 := Poked(s, env.atSnapshot);
    var generation := s0.shared.generation;
    var s1 := Poked(s0, env.atCheck);
    if !s1.shared.available then SetMode(s1, Unprovisioned).(pairingRequested := true)
    else
      var s2 := Poked(Log(s1, CodeAsked), env.duringCall);
      if !Current(s2, generation) then SetMode(s2, Unprovisioned).(pairingRequested := true)
      else if env.code.result != 0 then CodeRefused(s2)
      else CodeAccepted(s2, env.code)
  }

  // ------------------------------------------------------------ background requests

  function MakeRequest(s: State, kind: Kind, conversation: string, reason: string): Request {
    Request(kind, s.shared.generation, s.binding.generation,
            if kind == PairPoll then s.claim.token else s.binding.token, conversation, reason)
  }

  function Submit(s: State, request: Request, env: Env): State {
    if env.queued then Log(s.(inFlight := s.inFlight + multiset{request}), Queued(request)) else s
  }

  function PollBinding(s: State, kind: Kind, env: Env): State {
    if s.binding.pollPending then s
    else Submit(s, MakeRequest(s, kind, "", ""), env).(binding := s.binding.(pollPending := env.queued))
  }

  // ------------------------------------------------------------------ conversations

  function ClearRenewal(s: State): State {
    s.(shared := s.shared.(renewRequested := false), renewal := Renewal(false, 0, 0),
       talk := Talk(s.talk.id, "", ""))
  }

  function CompleteLocally(s: State, env: Env): (r: State)
    ensures s.shared.lossPending ==> r.shared.lossPending
  {
    var s1 := Log(ClearRenewal(s).(talk := Talk("", "", "")), Stopped);
    SetMode(Poked(s1, env.duringTeardown), Runtime)
  }

  function StopConversation(s: State, env: Env, reason: string): (r: State)
    ensures s.shared.lossPending ==> r.shared.lossPending
  {
    var s1 := CompleteLocally(s, env);
    if s.talk.id == "" || !Current(s1, s.shared.generation) then s1
    else Submit(s1, MakeRequest(s1, Stop, s.talk.id, reason), env)
  }

  function InvalidateBinding(s: State, env: Env): (r: State)
    ensures s.shared.lossPending ==> r.shared.lossPending
  {
    RestartPairing(if s.mode == InConversation then CompleteLocally(s, env) else s, env)
  }

  function EnterConversation(s: State, reply: StartReply, env: Env): State
    requires reply.conversation.Terminated?
  {
    var id := reply.conversation.text;
    var s1 := ClearRenewal(s).(talk := Talk(id, reply.channel, reply.uid));
    Poked(Log(SetMode(s1, InConversation), Started(id)), env.duringStart)
  }

  function StartConversation(s: State, env: Env): State {
    var s0 := Poked(s, env.atSnapshot);
    var generation := s0.shared.generation;
    var s1 := Poked(s0, env.atCheck);
    if !s1.shared.available then s1
    else
      var s2 := Poked(Log(s1, StartAsked), env.duringCall);
      if !Current(s2, generation) then s2
      else if Rejected(env.start.result) then RestartPairing(s2, env)
      else if env.start.result != 0 then s2
      else if env.start.conversation.Unterminated? || env.start.conversation.text == "" then s2
      else EnterConversation(s2, env.start, env)
  }

  function ScheduleRenewal(s: State): State {
    var delay := NextDelay(s.renewal.delay, RTC_RETRY_INITIAL, RTC_RETRY_MAX);
    Log(s.(renewal := s.renewal.(delay := delay, left := delay)), RenewFailed)
  }

  /** What a reply to the renewal request leads to, if it is still welcome. */
  function RenewAnswered(s: State, env: Env): State {
    var result := env.renew.result;
    if Rejected(result) then InvalidateBinding(s, env)
    else if result == 400 || result == 410 then StopConversation(s, env, "error")
    else if result != 0 then ScheduleRenewal(s)
    else if env.renew.channel != s.talk.channel || env.renew.uid != s.talk.uid then
      StopConversation(s, env, "error")
    else if !env.renew.accepted then ScheduleRenewal(Log(s, RenewTaken))
    else Log(Log(s, RenewTaken).(renewal := Renewal(false, 0, 0)), RenewDone)
  }

  function RenewToken(s: State, env: Env): State {
    if s.talk.channel == "" || s.talk.uid == "" then StopConversation(s, env, "error")
    else
      var s0 := Poked(s, env.atSnapshot);
      var s1 := Poked(Log(s0, RenewAsked), env.duringCall);
      if !Current(s1, s0.shared.generation) then s1 else RenewAnswered(s1, env)
  }

  // -------------------------------------------------------------- background results

  /** A device token takes the place of what the device held, under a new binding generation. */
  function Adopted(s: State, token: string): State {
    Log(s.(binding := s.binding.(generation := s.binding.generation + 1, token := token)), TokenTaken(token))
  }

  function ApplyBound(s: State, reply: BindingReply, env: Env): (r: State)
    ensures s.shared.lossPending ==> r.shared.lossPending
  {
    var s1 := if reply.deviceToken == "" then s else Adopted(s, reply.deviceToken);
    if s1.binding.token == "" then s1
    else
      var s2 := if env.write.FailedUnwritten? then s1
                else s1.(store := Some(Record(s1.server, s1.device, s1.binding.token)));
      if !env.write.Written? then s2
      else SetMode(s2, Runtime).(binding := s2.binding.(interval := ClampPoll(reply.pollAfter), ticks := 0))
  }

  function ApplyPairPoll(s: State, reply: BindingReply, env: Env): (r: State)
    ensures s.shared.lossPending ==> r.shared.lossPending
  {
    if Rejected(reply.result) then s.(pairingRequested := true)
    else if reply.result != 0 then s
    else if reply.status == "pending" then s.(claim := s.claim.(interval := ClampPoll(reply.pollAfter)))
    else if reply.status == "bound" then ApplyBound(s, reply, env)
    else if reply.status == "expired" || reply.status == "failed" then s.(pairingRequested := true)
    else if reply.status == "unbound" then SetMode(s, Unprovisioned).(pairingRequested := true)
    else s
  }

  function ApplyDevicePoll(s: State, reply: BindingReply, env: Env): (r: State)
    ensures s.shared.lossPending ==> r.shared.lossPending
  {
    if Rejected(reply.result) then InvalidateBinding(s, env)
    else if reply.result != 0 then s
    else if reply.status == "bound" then s.(binding := s.binding.(interval := ClampPoll(reply.pollAfter)))
    else if reply.status == "unbound" then InvalidateBinding(s, env)
    else s
  }

  function ApplyStop(s: State, result: int, env: Env): State {
    if Rejected(result) then InvalidateBinding(s, env) else s
  }

  function ServiceResult(s: State, request: Request, reply: BindingReply, env: Env): (r: State)
    ensures s.shared.lossPending ==> r.shared.lossPending
  {
    var s1 := if request.kind == Stop then s else s.(binding := s.binding.(pollPending := false));
    var live := s1.mode == Runtime || s1.mode == InConversation;
    if s1.shuttingDown || !Current(s1, request.networkGeneration) ||
       s1.binding.generation != request.bindingGeneration || s1.pairingRequested then s1
    else if request.kind == PairPoll && s1.mode == AwaitingClaim then
      ApplyPairPoll(Log(s1, Applied(request, s1.claim.token)), reply, env)
    else if live && request.kind == DevicePoll then
      ApplyDevicePoll(Log(s1, Applied(request, s1.binding.token)), reply, env)
    else if live && request.kind == Stop then
      ApplyStop(Log(s1, Applied(request, s1.binding.token)), reply.result, env)
    else s1
  }

  // -------------------------------------------------------------------------- tick

  function RuntimePoll(s: State, env: Env): State {
    var s1 := s.(binding := s.binding.(ticks := s.binding.ticks + 1));
    if s1.binding.ticks >= s1.binding.interval * 10 then
      PollBinding(s1.(binding := s1.binding.(ticks := 0)), DevicePoll, env)
    else s1
  }

  function TickLoss(s: State, env: Env): State {
    var s1 := WithStop(s.(startRequested := false), NoStop);
    if s1.mode == InConversation then CompleteLocally(s1, env) else s1
  }

  /** Forget the old binding on the way into a fresh pair-code request. */
  function BeginPairing(s: State, env: Env): State {
    var s1 := ClearAuth(s.(pairingRequested := false), env);
    SetMode(s1.(talk := s1.talk.(id := "")), Pairing)
  }

  function TickPairing(s: State, env: Env): State {
    var s1 := s.(startRequested := false);
    var s2 := if s1.mode == InConversation then StopConversation(s1, env, "user_requested") else s1;
    CreatePairCode(BeginPairing(s2, env), env)
  }

  function TickUnprovisioned(s: State, env: Env): State {
    if s.claim.retryLeft <= 0 then s
    else
      var s1 := s.(claim := s.claim.(retryLeft := s.claim.retryLeft - 1));
      if s1.claim.retryLeft == 0 then CreatePairCode(SetMode(s1, Pairing), env) else s1
  }

  function TickAwaiting(s: State, env: Env): State {
    var s1 := s.(claim := s.claim.(ticks := s.claim.ticks + 1));
    if s1.claim.ticks >= s1.claim.interval * 10 then PollBinding(s1.(claim := s1.claim.(ticks := 0)), PairPoll, env)
    else s1
  }

  function TickRuntime(s: State, env: Env): State {
    if s.startRequested then
      StartConversation(WithStop(s.(startRequested := false), NoStop), env)
    else RuntimePoll(s, env)
  }

  function NoteRenewal(s: State): State {
    if s.shared.renewRequested then
      Log(s.(shared := s.shared.(renewRequested := false), renewal := Renewal(true, 0, 0)), RenewNoted)
    else s
  }

  function TickConversation(s: State, env: Env): State {
    if s.shared.stopRequest != NoStop then
      StopConversation(WithStop(s, NoStop), env,
                       if s.shared.stopRequest == DeviceHangup then "device_hangup" else "error")
    else
      var s1 := NoteRenewal(s);
      var s2 := if s1.renewal.pending && s1.renewal.left > 0
                then s1.(renewal := s1.renewal.(left := s1.renewal.left - 1)) else s1;
      if s2.renewal.pending && s2.renewal.left == 0 then RenewToken(s2, env) else RuntimePoll(s2, env)
  }

  function TickOnline(s: State, env: Env): State {
    if s.pairingRequested then TickPairing(s, env)
    else
      match s.mode
      case Unprovisioned => TickUnprovisioned(s, env)
      case Pairing => s
      case AwaitingClaim => TickAwaiting(s, env)
      case Runtime => TickRuntime(s, env)
      case InConversation => TickConversation(s, env)
  }

  function Tick(s: State, env: Env): State {
    if s.shuttingDown then s
    else if s.shared.lossPending then TickLoss(s.(shared := s.shared.(lossPending := false)), env)
    else
      var s1 := Poked(s, env.afterLossCheck);
      if !s1.shared.available then WithStop(s1.(startRequested := false), NoStop)
      else TickOnline(s1, env)
  }

  // ----------------------------------------------------------------- other entries

  function Shutdown(s: State, env: Env): (r: State)
    ensures s.shared.lossPending ==> r.shared.lossPending
  {
    var s1 := s.(shuttingDown := true, pairingRequested := false, startRequested := false,
                 shared := s.shared.(stopRequest := NoStop, renewRequested := false));
    if s1.mode != InConversation then s1
    else if s1.shared.available && !s1.shared.lossPending then StopConversation(s1, env, "device_hangup")
    else CompleteLocally(s1, env)
  }

  function RequestPair(s: State): State {
    if s.shuttingDown then s else s.(pairingRequested := true)
  }

  function RequestStart(s: State): State {
    if s.shuttingDown || !s.shared.available || s.mode != Runtime then s else s.(startRequested := true)
  }

  function RequestStop(s: State): State {
    if s.shuttingDown || s.mode != InConversation then s else WithStop(s, DeviceHangup)
  }

  // -------------------------------------------------------------------------- init

  /** The stored record is one this device wrote for this server. */
  predicate Usable(blob: Blob, server: string, device: string) {
    blob.size == RECORD_SIZE && blob.version == RECORD_VERSION &&
    blob.server == Terminated(server) && blob.device == Terminated(device) &&
    blob.token.Terminated? && blob.token.text != ""
  }

  function Blank(server: string, device: string, store: Option<Blob>): State {
    State(server, device, store, Unprovisioned, Claim("", 0, 0, 0, 0), Binding("", 0, 0, false, 0),
          Talk("", "", ""), Renewal(false, 0, 0), false, false, false,
          Shared(true, false, 0, Settled, NoStop, false), multiset{}, Empty)
  }

  function Init(server: string, device: string, store: Option<Blob>, readable: bool, erased: bool): State {
    var blank := Blank(server, device, store);
    if readable && store.Some? && Usable(store.value, server, device) then
      blank.(binding := blank.binding.(token := store.value.token.text, interval := 30), mode := Runtime)
    else
      var left := if readable && store.None? then None else if erased then None else store;
      blank.(store := left, pairingRequested := true)
  }

  // -------------------------------------------------------------------------- runs

  datatype Input =
    | TickInput(env: Env)
    | ResultInput(request: Request, reply: BindingReply, env: Env)
    | DropInput(request: Request)
    | PokeInput(poke: Poke)
    | PairInput
    | StartInput
    | StopInput
    | ShutdownInput(env: Env)

  /** A result or a drop of a request that is not in flight does not happen. */
  function Step(s: State, input: Input): State {
    match input
    case TickInput(env) => Tick(s, env)
    case ResultInput(request, reply, env) =>
      if request !in s.inFlight then s
      else ServiceResult(s.(inFlight := s.inFlight - multiset{request}), request, reply, env)
    case DropInput(request) => s.(inFlight := s.inFlight - multiset{request})
    case PokeInput(poke) => ApplyPoke(s, poke)
    case PairInput => RequestPair(s)
    case StartInput => RequestStart(s)
    case StopInput => RequestStop(s)
    case ShutdownInput(env) => Shutdown(s, env)
  }

  function Run(s: State, inputs: seq<Input>): State
    decreases |inputs|
  {
    if inputs == [] then s else Run(Step(s, inputs[0]), inputs[1..])
  }
}
