/**
 The device lifecycle as an object whose entry points update its fields. Every method is tied to
 the function of LifecycleState that specifies it; Now() is the object's state as a value. The
 entry points, and the other threads, keep the invariant of LifecycleSafety.
 Env carries what the method learns from the outside while it runs.
 */
module Lifecycle {
  import opened CText
  import opened LifecycleState
  import Safety = LifecycleSafety

  lemma OthersKeep(s: State, p: Poke)
    ensures Safety.Inv(s) ==> Safety.Inv(ApplyPoke(s, p))
  {
    hide Safety.Inv, ApplyPoke;
    if Safety.Inv(s) { Safety.PokeKeeps(s, p); }
  }

  class Lifecycle {
    const server: string
    const device: string
    var store: Option<Blob>
    var mode: Mode

    var claim: Claim
    var binding: Binding
    var talk: Talk
    var renewal: Renewal
    var startRequested: bool
    var pairingRequested: bool
    var shuttingDown: bool
    // The atomics other threads write.
    var shared: Shared

    ghost var inFlight: multiset<Request>
    ghost var trace: Trace

    ghost function Now(): State
      reads this
    {
      State(server, device, store, mode, claim, binding, talk, renewal, startRequested, pairingRequested,
            shuttingDown, shared, inFlight, trace)
    }

    constructor (server: string, device: string, store: Option<Blob>, readable: bool, erased: bool)
      ensures Now() == Init(server, device, store, readable, erased) && Safety.Inv(Now())
    {
      hide Init, Safety.Inv;
      this.server, this.device, this.store := server, device, store;
      mode := Unprovisioned;
      claim, binding := Claim("", 0, 0, 0, 0), Binding("", 0, 0, false, 0);
      talk, renewal := Talk("", "", ""), Renewal(false, 0, 0);
      startRequested, pairingRequested, shuttingDown := false, false, false;
      shared := Shared(true, false, 0, Settled, NoStop, false);
      inFlight, trace := multiset{}, Empty;
      new;
      Begin(readable, erased);
      Safety.InitKeeps(server, device, store, readable, erased);
    }

    /** Power-up adopts the stored credential or asks for pairing. */
    method Begin(readable: bool, erased: bool)
      requires Now() == Blank(server, device, store)
      modifies this
      ensures Now() == Init(server, device, old(store), readable, erased)
    {
      var loaded := LoadDeviceAuth(readable, erased);
      if loaded {
        binding := binding.(interval := 30);
        SetState(Runtime);
      } else {
        SetState(Unprovisioned);
        pairingRequested := true;
      }
    }

    method LoadDeviceAuth(readable: bool, erased: bool) returns (loaded: bool)
      modifies this
      ensures loaded == (readable && old(store).Some? && Usable(old(store).value, server, device))
      ensures loaded ==> Now() == old(Now()).(binding := old(binding).(token := old(store).value.token.text))
      ensures !loaded ==> Now() == old(Now()).(store :=
        if readable && old(store).None? then None else if erased then None else old(store))
    {
      if readable {
        match store
        case None => return false;
        case Some(blob) =>
          if blob.size == RECORD_SIZE && blob.version == RECORD_VERSION && blob.server.Terminated? &&
             blob.device.Terminated? && blob.token.Terminated? && blob.server.text == server &&
             blob.device.text == device && blob.token.text != "" {
            binding := binding.(token := blob.token.text);
            return true;
          }
      }
      if erased { store := None; }
      return false;
    }

    // ----------------------------------------------------------------- other threads

    method SetNetworkAvailable(isAvailable: bool)
      modifies this
      ensures Now() == ApplyPoke(old(Now()), if isAvailable then NetworkUp else NetworkDown)
      ensures old(Safety.Inv(Now())) ==> Safety.Inv(Now())
    {
      hide Safety.Inv;
      OthersKeep(Now(), if isAvailable then NetworkUp else NetworkDown);
      if shared.losing != Settled { return; }
      var was := shared.available;
      shared := shared.(available := isAvailable);
      if !isAvailable && was {
        shared := shared.(losing := Counting);
        trace := Then(trace, NetworkLost);
      }
    }

    method FinishLoss()
      modifies this
      ensures Now() == ApplyPoke(old(Now()), LossStep)
      ensures old(Safety.Inv(Now())) ==> Safety.Inv(Now())
    {
      hide Safety.Inv;
      OthersKeep(Now(), LossStep);
      if shared.losing == Counting {
        shared := shared.(generation := shared.generation + 1, losing := Marking);
      } else if shared.losing == Marking {
        shared := shared.(lossPending := true, losing := Settled);
      }
    }

    method NotifyConversationEnded()
      modifies this
      ensures Now() == ApplyPoke(old(Now()), RtcEnded)
      ensures old(Safety.Inv(Now())) ==> Safety.Inv(Now())
    {
      hide Safety.Inv;
      OthersKeep(Now(), RtcEnded);
      if shuttingDown { return; }
      if mode == InConversation { shared := shared.(stopRequest := ErrorStop); }
    }

    method RequestRtcTokenRenewal()
      modifies this
      ensures Now() == ApplyPoke(old(Now()), TokenExpiring)
      ensures old(Safety.Inv(Now())) ==> Safety.Inv(Now())
    {
      hide Safety.Inv;
      OthersKeep(Now(), TokenExpiring);
      if shuttingDown || !shared.available { return; }
      if mode != InConversation { return; }
      shared := shared.(renewRequested := true);
    }

    /** Other threads run. */
    method Yield(pokes: seq<Poke>)
      modifies this
      ensures Now() == Poked(old(Now()), pokes) && (old(Safety.Inv(Now())) ==> Safety.Inv(Now()))
    {
      hide Safety.Inv;
      var i := 0;
      while i < |pokes|
        invariant 0 <= i <= |pokes|
        invariant Poked(Now(), pokes[i..]) == Poked(old(Now()), pokes)
        invariant old(Safety.Inv(Now())) ==> Safety.Inv(Now())
      {
        assert pokes[i..][0] == pokes[i] && pokes[i..][1..] == pokes[i + 1..];
        match pokes[i] {
          case NetworkUp => SetNetworkAvailable(true);
          case NetworkDown => SetNetworkAvailable(false);
          case LossStep => FinishLoss();
          case RtcEnded => NotifyConversationEnded();
          case TokenExpiring => RequestRtcTokenRenewal();
        }
        i := i + 1;
      }
      assert pokes[i..] == [];
    }

    // ----------------------------------------------------------------------- helpers

    method SetState(to: Mode)
      modifies this
      ensures Now() == SetMode(old(Now()), to)
    {
      if mode == to { return; }
      if mode == InConversation { shared := shared.(stopRequest := NoStop); }
      mode := to;
    }

    method ClearDeviceAuth(env: Env)
      modifies this
      ensures Now() == ClearAuth(old(Now()), env)
    {
      binding := binding.(generation := binding.generation + 1, token := "");
      if env.erased { store := None; }
    }

    method RestartPairingAfterRejection(env: Env)
      modifies this
      ensures Now() == RestartPairing(old(Now()), env)
    {
      ClearDeviceAuth(env);
      SetState(Unprovisioned);
      pairingRequested := true;
    }

    method ClearRtcTokenRenewal()
      modifies this
      ensures Now() == ClearRenewal(old(Now()))
    {
      shared := shared.(renewRequested := false);
      renewal := Renewal(false, 0, 0);
      talk := talk.(channel := "", uid := "");
    }

    method ScheduleRtcTokenRetry()
      modifies this
      ensures Now() == ScheduleRenewal(old(Now()))
    {
      renewal := renewal.(delay := NextDelay(renewal.delay, RTC_RETRY_INITIAL, RTC_RETRY_MAX));
      renewal := renewal.(left := renewal.delay);
      trace := Then(trace, RenewFailed);
    }

    method PutOffPairing()
      modifies this
      ensures Now() == SetMode(old(Now()), Unprovisioned).(pairingRequested := true)
    {
      SetState(Unprovisioned);
      pairingRequested := true;
    }

    // --------------------------------------------------------------------- pair code

    method ActionCreatePairCode(env: Env)
      modifies this
      ensures Now() == CreatePairCode(old(Now()), env)
    {
      hide Poked;
      Yield(env.atSnapshot);
      var snapshot := shared.generation;
      Yield(env.atCheck);
      if !shared.available { PutOffPairing(); return; }
      trace := Then(trace, CodeAsked);
      Yield(env.duringCall);
      if !shared.available || shared.generation != snapshot { PutOffPairing(); return; }
      if env.code.result != 0 {
        PairCodeFailed();
      } else {
        PairCodeObtained(env.code);
      }
    }

    method PairCodeFailed()
      modifies this
      ensures Now() == CodeRefused(old(Now()))
    {
      claim := claim.(retryDelay := NextDelay(claim.retryDelay, PAIR_RETRY_INITIAL, PAIR_RETRY_MAX));
      claim := claim.(retryLeft := claim.retryDelay);
      trace := Then(trace, CodeFailed);
      SetState(Unprovisioned);
    }

    method PairCodeObtained(reply: CodeReply)
      modifies this
      ensures Now() == CodeAccepted(old(Now()), reply)
    {
      hide SetMode, ClampPoll;
      claim := Claim(reply.pairToken, ClampPoll(reply.pollAfter), 0, 0, 0);
      binding := binding.(generation := binding.generation + 1, token := "");
      trace := Then(trace, CodeTaken(reply.pairToken));
      SetState(AwaitingClaim);
    }

    // ------------------------------------------------------------ background requests

    method CreateServiceRequest(kind: Kind, stopped: string, reason: string) returns (request: Request)
      ensures request == MakeRequest(Now(), kind, stopped, reason)
    {
      request := Request(kind, shared.generation, binding.generation,
                         if kind == PairPoll then claim.token else binding.token, stopped, reason);
    }

    method SubmitServiceRequest(request: Request, env: Env) returns (queued: bool)
      modifies this
      ensures Now() == Submit(old(Now()), request, env) && queued == env.queued
    {
      if env.queued {
        inFlight := inFlight + multiset{request};
        trace := Then(trace, Queued(request));
      }
      return env.queued;
    }

    method ActionPollBinding(kind: Kind, env: Env)
      modifies this
      ensures Now() == PollBinding(old(Now()), kind, env)
    {
      if binding.pollPending { return; }
      var request := CreateServiceRequest(kind, "", "");
      binding := binding.(pollPending := true);
      var queued := SubmitServiceRequest(request, env);
      if !queued { binding := binding.(pollPending := false); }
    }

    // ------------------------------------------------------------------ conversations

    method CompleteConversationLocally(env: Env)
      modifies this
      ensures Now() == CompleteLocally(old(Now()), env)
    {
      hide Poked;
      ClearRtcTokenRenewal();
      talk := talk.(id := "");
      trace := Then(trace, Stopped);
      Yield(env.duringTeardown);
      SetState(Runtime);
    }

    method ActionStopConversation(env: Env, reason: string)
      modifies this
      ensures Now() == StopConversation(old(Now()), env, reason)
    {
      hide CompleteLocally;
      var stopped := talk.id;
      var snapshot := shared.generation;
      CompleteConversationLocally(env);
      if stopped == "" { return; }
      if !shared.available || shared.generation != snapshot { return; }
      var request := CreateServiceRequest(Stop, stopped, reason);
      var _ := SubmitServiceRequest(request, env);
    }

    method InvalidateRuntimeBinding(env: Env)
      modifies this
      ensures Now() == InvalidateBinding(old(Now()), env)
    {
      hide CompleteLocally, RestartPairing;
      if mode == InConversation { CompleteConversationLocally(env); }
      RestartPairingAfterRejection(env);
    }

    method ActionStartConversation(env: Env)
      modifies this
      ensures Now() == StartConversation(old(Now()), env)
    {
      hide Poked, RestartPairing, EnterConversation;
      Yield(env.atSnapshot);
      var snapshot := shared.generation;
      Yield(env.atCheck);
      if !shared.available { return; }
      trace := Then(trace, StartAsked);
      Yield(env.duringCall);
      if !shared.available || shared.generation != snapshot { return; }
      if Rejected(env.start.result) { RestartPairingAfterRejection(env); return; }
      if env.start.result != 0 { return; }
      if env.start.conversation.Unterminated? || env.start.conversation.text == "" { return; }
      ConversationStarted(env.start, env);
    }

    method ConversationStarted(reply: StartReply, env: Env)
      requires reply.conversation.Terminated?
      modifies this
      ensures Now() == EnterConversation(old(Now()), reply, env)
    {
      hide Poked;
      talk := talk.(id := reply.conversation.text);
      ClearRtcTokenRenewal();
      talk := talk.(channel := reply.channel, uid := reply.uid);
      SetState(InConversation);
      trace := Then(trace, Started(reply.conversation.text));
      Yield(env.duringStart);
    }

    method ActionRenewRtcToken(env: Env)
      modifies this
      ensures Now() == RenewToken(old(Now()), env)
    {
      hide Poked, StopConversation, RenewAnswered;
      if talk.channel == "" || talk.uid == "" { ActionStopConversation(env, "error"); return; }
      Yield(env.atSnapshot);
      var snapshot := shared.generation;
      trace := Then(trace, RenewAsked);
      Yield(env.duringCall);
      if !shared.available || shared.generation != snapshot { return; }
      RenewalAnswered(env);
    }

    method RenewalAnswered(env: Env)
      modifies this
      ensures Now() == RenewAnswered(old(Now()), env)
    {
      hide StopConversation, InvalidateBinding, ScheduleRenewal, Rejected;
      var result := env.renew.result;
      if Rejected(result) { InvalidateRuntimeBinding(env); return; }
      if result == 400 || result == 410 { ActionStopConversation(env, "error"); return; }
      if result != 0 { ScheduleRtcTokenRetry(); return; }
      if env.renew.channel != talk.channel || env.renew.uid != talk.uid {
        ActionStopConversation(env, "error");
        return;
      }
      trace := Then(trace, RenewTaken);
      if !env.renew.accepted { ScheduleRtcTokenRetry(); return; }
      renewal := Renewal(false, 0, 0);
      trace := Then(trace, RenewDone);
    }

    // -------------------------------------------------------------- background results

    method PersistDeviceAuth(env: Env) returns (persisted: bool)
      modifies this
      ensures persisted == env.write.Written?
      ensures Now() == old(Now()).(store := if env.write.FailedUnwritten? then old(store)
                                            else Some(Record(server, device, old(binding).token)))
    {
      if !env.write.FailedUnwritten? { store := Some(Record(server, device, binding.token)); }
      return env.write.Written?;
    }

    method AdoptDeviceToken(token: string)
      modifies this
      ensures Now() == Adopted(old(Now()), token)
    {
      binding := binding.(generation := binding.generation + 1, token := token);
      trace := Then(trace, TokenTaken(token));
    }

    method ApplyBindingBound(reply: BindingReply, env: Env)
      modifies this
      ensures Now() == ApplyBound(old(Now()), reply, env)
    {
      hide Record, ClampPoll, Adopted;
      if reply.deviceToken != "" { AdoptDeviceToken(reply.deviceToken); }
      if binding.token == "" { return; }
      var persisted := PersistDeviceAuth(env);
      if !persisted { return; }
      SetState(Runtime);
      binding := binding.(interval := ClampPoll(reply.pollAfter), ticks := 0);
    }

    method ApplyBindingPair(reply: BindingReply, env: Env)
      modifies this
      ensures Now() == ApplyPairPoll(old(Now()), reply, env)
    {
      hide ApplyBound;
      if Rejected(reply.result) { pairingRequested := true; return; }
      if reply.result != 0 { return; }
      if reply.status == "pending" {
        claim := claim.(interval := ClampPoll(reply.pollAfter));
      } else if reply.status == "bound" {
        ApplyBindingBound(reply, env);
      } else if reply.status == "expired" || reply.status == "failed" {
        pairingRequested := true;
      } else if reply.status == "unbound" {
        PutOffPairing();
      }
    }

    method ApplyBindingRuntime(reply: BindingReply, env: Env)
      modifies this
      ensures Now() == ApplyDevicePoll(old(Now()), reply, env)
    {
      hide InvalidateBinding;
      if Rejected(reply.result) { InvalidateRuntimeBinding(env); return; }
      if reply.result != 0 { return; }
      if reply.status == "bound" {
        binding := binding.(interval := ClampPoll(reply.pollAfter));
      } else if reply.status == "unbound" {
        InvalidateRuntimeBinding(env);
      }
    }

    method ApplyStopResult(result: int, env: Env)
      modifies this
      ensures Now() == ApplyStop(old(Now()), result, env)
    {
      hide InvalidateBinding;
      if Rejected(result) { InvalidateRuntimeBinding(env); }
    }

    /** A background request comes back with its result. */
    method ServiceResult(request: Request, reply: BindingReply, env: Env)
      requires request in inFlight && Safety.Inv(Now())
      modifies this
      ensures Now() == Step(old(Now()), ResultInput(request, reply, env)) && Safety.Inv(Now())
    {
      hide Safety.Inv, LifecycleState.ServiceResult;
      Safety.StepKeeps(Now(), ResultInput(request, reply, env));
      inFlight := inFlight - multiset{request};
      ApplyResult(request, reply, env);
    }

    method ApplyResult(request: Request, reply: BindingReply, env: Env)
      modifies this
      ensures Now() == LifecycleState.ServiceResult(old(Now()), request, reply, env)
    {
      hide ApplyPairPoll, ApplyDevicePoll, ApplyStop;
      if request.kind != Stop { binding := binding.(pollPending := false); }
      if shuttingDown || !shared.available || shared.generation != request.networkGeneration ||
         binding.generation != request.bindingGeneration || pairingRequested { return; }
      if request.kind == PairPoll && mode == AwaitingClaim {
        trace := Then(trace, Applied(request, claim.token));
        ApplyBindingPair(reply, env);
      } else if mode == Runtime || mode == InConversation {
        if request.kind == DevicePoll {
          trace := Then(trace, Applied(request, binding.token));
          ApplyBindingRuntime(reply, env);
        } else if request.kind == Stop {
          trace := Then(trace, Applied(request, binding.token));
          ApplyStopResult(reply.result, env);
        }
      }
    }

    // -------------------------------------------------------------------------- tick

    method TickRuntimeBindingPoll(env: Env)
      modifies this
      ensures Now() == RuntimePoll(old(Now()), env)
    {
      hide PollBinding;
      binding := binding.(ticks := binding.ticks + 1);
      if binding.ticks >= binding.interval * 10 {
        binding := binding.(ticks := 0);
        ActionPollBinding(DevicePoll, env);
      }
    }

    method TickPairingRequest(env: Env)
      modifies this
      ensures Now() == TickPairing(old(Now()), env)
    {
      hide StopConversation, CreatePairCode, SetMode, ClearAuth;
      startRequested := false;
      if mode == InConversation { ActionStopConversation(env, "user_requested"); }
      pairingRequested := false;
      ClearDeviceAuth(env);
      talk := talk.(id := "");
      SetState(Pairing);
      ActionCreatePairCode(env);
    }

    method TickInConversation(env: Env)
      modifies this
      ensures Now() == TickConversation(old(Now()), env)
    {
      hide StopConversation, RenewToken, RuntimePoll;
      var request := shared.stopRequest;
      shared := shared.(stopRequest := NoStop);
      if request != NoStop {
        ActionStopConversation(env, if request == DeviceHangup then "device_hangup" else "error");
        return;
      }
      if shared.renewRequested {
        shared := shared.(renewRequested := false);
        renewal := Renewal(true, 0, 0);
        trace := Then(trace, RenewNoted);
      }
      if renewal.pending {
        if renewal.left > 0 { renewal := renewal.(left := renewal.left - 1); }
        if renewal.left == 0 {
          ActionRenewRtcToken(env);
          return;
        }
      }
      TickRuntimeBindingPoll(env);
    }

    method TickByMode(env: Env)
      modifies this
      ensures Now() == TickOnline(old(Now()), env)
    {
      hide TickPairing, CreatePairCode, PollBinding, StartConversation, RuntimePoll, TickConversation;
      if pairingRequested { TickPairingRequest(env); return; }
      match mode
      case Unprovisioned =>
        if claim.retryLeft > 0 {
          claim := claim.(retryLeft := claim.retryLeft - 1);
          if claim.retryLeft == 0 {
            SetState(Pairing);
            ActionCreatePairCode(env);
          }
        }
      case Pairing =>
      case AwaitingClaim =>
        claim := claim.(ticks := claim.ticks + 1);
        if claim.ticks >= claim.interval * 10 {
          claim := claim.(ticks := 0);
          ActionPollBinding(PairPoll, env);
        }
      case Runtime =>
        if startRequested {
          startRequested := false;
          shared := shared.(stopRequest := NoStop);
          ActionStartConversation(env);
        } else {
          TickRuntimeBindingPoll(env);
        }
      case InConversation => TickInConversation(env);
    }

    method Tick(env: Env)
      requires Safety.Inv(Now())
      modifies this
      ensures Now() == LifecycleState.Tick(old(Now()), env) && Safety.Inv(Now())
    {
      hide Poked, TickOnline, CompleteLocally, Safety.Inv;
      Safety.TickKeeps(Now(), env);
      if shuttingDown { return; }
      if shared.lossPending {
        shared := shared.(lossPending := false);
        startRequested := false;
        shared := shared.(stopRequest := NoStop);
        if mode == InConversation { CompleteConversationLocally(env); }
        return;
      }
      Yield(env.afterLossCheck);
      if !shared.available {
        startRequested := false;
        shared := shared.(stopRequest := NoStop);
        return;
      }
      TickByMode(env);
    }

    // ----------------------------------------------------------------- other entries

    method Shutdown(env: Env)
      requires Safety.Inv(Now())
      modifies this
      ensures Now() == LifecycleState.Shutdown(old(Now()), env) && Safety.Inv(Now())
    {
      hide StopConversation, CompleteLocally, Safety.Inv;
      Safety.ShutdownKeeps(Now(), env);
      shuttingDown := true;
      pairingRequested := false;
      startRequested := false;
      shared := shared.(stopRequest := NoStop);
      shared := shared.(renewRequested := false);
      if mode == InConversation && shared.available && !shared.lossPending {
        ActionStopConversation(env, "device_hangup");
      } else if mode == InConversation {
        CompleteConversationLocally(env);
      }
    }

    method RequestPair()
      requires Safety.Inv(Now())
      modifies this
      ensures Now() == LifecycleState.RequestPair(old(Now())) && Safety.Inv(Now())
    {
      hide Safety.Inv;
      Safety.StepKeeps(Now(), PairInput);
      if shuttingDown { return; }
      pairingRequested := true;
    }

    method RequestStart()
      requires Safety.Inv(Now())
      modifies this
      ensures Now() == LifecycleState.RequestStart(old(Now())) && Safety.Inv(Now())
    {
      hide Safety.Inv;
      Safety.StepKeeps(Now(), StartInput);
      if shuttingDown || !shared.available { return; }
      if mode != Runtime { return; }
      startRequested := true;
    }

    method RequestStop()
      requires Safety.Inv(Now())
      modifies this
      ensures Now() == LifecycleState.RequestStop(old(Now())) && Safety.Inv(Now())
    {
      hide Safety.Inv;
      Safety.StepKeeps(Now(), StopInput);
      if shuttingDown { return; }
      if mode != InConversation { return; }
      shared := shared.(stopRequest := DeviceHangup);
    }
  }
}
