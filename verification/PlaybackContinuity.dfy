/**
 That playback loses nothing by itself: a frame is cut short, or a part of the received stream is
 passed over, only for a flush, an announcement, an outdated generation or a failed write.
 */
module PlaybackContinuity {
  import opened PlaybackState
  import opened PlaybackRuns

  // ------------------------------------------------------------------------ undisturbed

  /** The tick starts by flushing. */
  predicate Flushes(s: State, env: Env) {
    Poked(s, env.start).clearPb || s.pending.generation != env.generationAtStart
  }

  /** How many samples the tick offers the device, if it gets that far. */
  function Offered(s: State): nat { if s.pending.frames > 0 then s.pending.frames else FRAME }

  /** The announcement generation the offered samples belong to. */
  function Serving(s: State, env: Env): nat {
    if s.pending.frames == 0 && env.active then env.pcmGeneration else env.generationAtStart
  }

  /**
   Nothing makes the tick give up a frame: no flush, no announcement in the middle of an RTC frame,
   no change of generation around the write, and a device that takes part of what it is offered.
   */
  predicate Calm(s: State, env: Env) {
    !Flushes(s, env) && !(env.active && s.pending.source == Rtc) &&
    env.generationAtWrite == env.generationAtEnd == Serving(s, env) && 0 <= env.written <= Offered(s)
  }

  /** Moreover no announcement is active or being played. */
  predicate Undisturbed(s: State, env: Env) {
    Calm(s, env) && !env.active && s.pending.source != Announced
  }

  /** How many frames were given up before the device had taken all of them. */
  function Cuts(frames: Frames): nat {
    match frames
    case None => 0
    case Then(before, last) => Cuts(before) + if last.taken < FRAME then 1 else 0
  }

  /** Where in the received stream the next sample for the device stands. */
  function Position(s: State): int { s.past.popped - if s.pending.source == Rtc then s.pending.frames else 0 }

  /** From s to r the device got the stream from one position to the other, each sample once. */
  predicate Follows(s: State, r: State) {
    0 <= Position(s) <= Position(r) <= |r.past.pushed| && s.past.pushed <= r.past.pushed &&
    r.past.raw == s.past.raw + r.past.pushed[Position(s)..Position(r)]
  }

  lemma FollowsOn(s: State, r: State, t: State)
    requires Follows(s, r) && Follows(r, t)
    ensures Follows(s, t)
  {
    var from, mid, to := Position(s), Position(r), Position(t);
    assert t.past.pushed[from..to] == t.past.pushed[from..mid] + t.past.pushed[mid..to];
    assert t.past.pushed[from..mid] == r.past.pushed[from..mid];
  }

  /** There is RTC audio to play, and room for its reference. */
  predicate Ready(s: State) {
    s.pending.source != Announced && RefFree(s) >= Offered(s) && (s.pending.frames > 0 || |s.pbRing| >= FRAME)
  }

  // -------------------------------------------------------------------------- steps

  /** Other threads leave what this worker keeps alone, and audio only arrives. */
  predicate Around(s: State, r: State) {
    Apart(s, r) && s.past.pushed <= r.past.pushed && |s.pbRing| <= |r.pbRing|
  }

  lemma PokesAround(s: State, pokes: seq<Poke>)
    requires Inv(s)
    ensures Inv(Poked(s, pokes)) && Around(s, Poked(s, pokes))
  {
    hide ReferenceOk, DeviceOk, FramesOk, SpokenOk;
    PokesKeep(s, pokes);
    PokesGrow(s, pokes);
  }

  lemma AroundFollows(s: State, r: State)
    requires Inv(s) && Around(s, r)
    ensures Follows(s, r) && Position(r) == Position(s)
  {
    hide ReferenceOk, DeviceOk, SpokenOk, Accepted, InOrder;
    assert r.past.raw == s.past.raw + r.past.pushed[Position(s)..Position(s)];
  }

  /** What is left of the frame after so many samples of it. */
  function Rest(p: Pending, written: nat): Pending
    requires written <= p.frames
  {
    if written == p.frames then p.(offset := 0, frames := 0, source := NoSource)
    else p.(offset := p.offset + written, frames := p.frames - written)
  }

  /** A write that succeeds takes the next samples of the frame and keeps the rest for later. */
  lemma WriteTakes(s: State, env: Env)
    requires Inv(s) && s.pending.frames > 0 && 0 <= env.written <= s.pending.frames
    requires env.generationAtEnd == s.pending.generation
    requires s.pending.source == Rtc ==> RefFree(s) >= s.pending.frames
    ensures var r := WriteOut(s, env);
      var p := s.pending;
      r.pending == Rest(p, env.written) && s.past.pushed <= r.past.pushed &&
      r.past.raw == s.past.raw + p.buffer[p.offset..p.offset + env.written] &&
      r.past.popped == s.past.popped && r.past.at == s.past.at &&
      r.past.finished ==
        if env.written < p.frames then s.past.finished
        else Then(s.past.finished, Frame(p.source, p.buffer, s.past.at, FRAME))
  {
    hide RingOk, ReferenceOk, DeviceOk, FramesOk, SpokenOk;
    SentKeeps(s, env.written, Volume(env));
    var sent := Sent(s, env.written, Volume(env));
    PokesKeep(sent, env.afterWrite);
    PokesGrow(sent, env.afterWrite);
  }

  lemma PieceOfStream(later: seq<Sample>, pushed: seq<Sample>, frame: seq<Sample>, at: nat, offset: nat, n: nat)
    requires pushed <= later && at + FRAME <= |pushed| && frame == pushed[at..at + FRAME] && offset + n <= FRAME
    ensures frame[offset..offset + n] == later[at + offset..at + offset + n]
  {
    assert forall i :: 0 <= i < FRAME ==> frame[i] == pushed[at + i] == later[at + i];
  }

  /** An RTC frame carries the stream on from the present position. */
  lemma RtcWriteFollows(s: State, env: Env)
    requires Inv(s) && s.pending.source == Rtc && 0 <= env.written <= s.pending.frames
    requires env.generationAtEnd == s.pending.generation && RefFree(s) >= s.pending.frames
    ensures Follows(s, WriteOut(s, env)) && Position(WriteOut(s, env)) == Position(s) + env.written
  {
    hide RingOk, ReferenceOk, DeviceOk, SpokenOk, WriteOut, Accepted, InOrder;
    WriteTakes(s, env);
    var r, p := WriteOut(s, env), s.pending;
    PieceOfStream(r.past.pushed, s.past.pushed, p.buffer, s.past.at, p.offset, env.written);
  }

  lemma PlayUncut(s: State, env: Env)
    requires Inv(s) && 0 <= env.written <= s.pending.frames && s.pending.frames > 0
    requires env.generationAtWrite == env.generationAtEnd == s.pending.generation
    ensures Cuts(Play(s, env).past.finished) == Cuts(s.past.finished)
    ensures s.pending.source == Rtc ==> Follows(s, Play(s, env))
    ensures s.pending.source == Rtc && RefFree(s) >= s.pending.frames ==>
              Position(Play(s, env)) == Position(s) + env.written
    ensures Play(s, env).pending.source in {s.pending.source, NoSource}
  {
    hide RingOk, ReferenceOk, DeviceOk, FramesOk, SpokenOk, WriteOut, Follows, Position;
    PokesAround(s, env.beforeRoom);
    var s1 := Poked(s, env.beforeRoom);
    AroundFollows(s, s1);
    if !(s1.pending.source == Rtc && RefFree(s1) < s1.pending.frames) {
      PokesAround(s1, env.beforeWrite);
      var s2 := Poked(s1, env.beforeWrite);
      AroundFollows(s1, s2);
      WriteTakes(s2, env);
      if s2.pending.source == Rtc {
        RtcWriteFollows(s2, env);
        FollowsOn(s, s1, s2);
        FollowsOn(s, s2, WriteOut(s2, env));
      }
    }
  }

  lemma PrepareUncut(s: State, generation: nat, env: Env)
    requires Inv(s) && s.pending.frames == 0
    ensures var r := Prepare(s, generation, env).state;
      r.past.finished == s.past.finished &&
      (!env.active ==> Follows(s, r) && Position(r) == Position(s) && r.pending.source != Announced)
  {
    hide ReferenceOk, DeviceOk, SpokenOk, Accepted, InOrder, Padded;
    var r := Prepare(s, generation, env).state;
    assert r.past.raw == s.past.raw + r.past.pushed[Position(s)..Position(s)];
  }

  lemma PreparedFrame(s: State, generation: nat, env: Env)
    requires Sized(s) && s.pending.frames == 0
    ensures var prepared := Prepare(s, generation, env);
      prepared.ready <==> if env.active then 1 <= |env.pcm| <= FRAME else |s.pbRing| >= FRAME
    ensures var prepared := Prepare(s, generation, env);
      var p := prepared.state.pending;
      RefFree(prepared.state) == RefFree(s) && (prepared.ready ==> p.frames == FRAME) &&
      (prepared.ready ==> p.generation == if env.active then env.pcmGeneration else generation) &&
      (prepared.ready && !env.active ==> p.source == Rtc)
  {
  }

  /** The part of the tick after an announcement has made room for itself. */
  lemma CalmPlay(s: State, env: Env)
    requires Inv(s) && env.generationAtWrite == env.generationAtEnd == Serving(s, env)
    requires s.pending.generation == env.generationAtStart && 0 <= env.written <= Offered(s)
    ensures var r := PrepareAndPlay(s, env);
      Cuts(r.past.finished) == Cuts(s.past.finished) &&
      (!env.active && s.pending.source != Announced ==> Follows(s, r) && r.pending.source != Announced)
    ensures Ready(s) && !env.active ==> Position(PrepareAndPlay(s, env)) == Position(s) + env.written
  {
    hide RingOk, ReferenceOk, DeviceOk, FramesOk, SpokenOk, Prepare, Play, Follows, Position;
    PokesAround(s, env.beforePrepare);
    var s1 := Poked(s, env.beforePrepare);
    AroundFollows(s, s1);
    if s1.pending.frames != 0 {
      PlayUncut(s1, env);
      if s.pending.source == Rtc { FollowsOn(s, s1, Play(s1, env)); }
    } else {
      PrepareUncut(s1, env.generationAtStart, env);
      PrepareKeeps(s1, env.generationAtStart, env);
      PreparedFrame(s1, env.generationAtStart, env);
      var prepared := Prepare(s1, env.generationAtStart, env);
      if !env.active { FollowsOn(s, s1, prepared.state); }
      if prepared.ready {
        PlayUncut(prepared.state, env);
        if !env.active { FollowsOn(s, prepared.state, Play(prepared.state, env)); }
      }
    }
  }

  lemma YieldedUncut(s: State, env: Env)
    requires Inv(s) && !(env.active && s.pending.source == Rtc)
    ensures Inv(Yielded(s, env)) && Yielded(s, env).pending == s.pending
    ensures Yielded(s, env).past.finished == s.past.finished && (!env.active ==> Yielded(s, env) == s)
  {
    hide RingOk, ReferenceOk, DeviceOk, FramesOk, SpokenOk, Drain;
    YieldedKeeps(s, env);
    if env.active { DrainKeeps(s, env.duringYield); }
  }

  /** A calm tick gives up no frame, be it RTC audio or an announcement. */
  lemma CalmTick(s: State, env: Env)
    requires Inv(s) && Calm(s, env)
    ensures Cuts(Tick(s, env).past.finished) == Cuts(s.past.finished)
  {
    hide RingOk, ReferenceOk, DeviceOk, FramesOk, SpokenOk, Flush, Yielded, PrepareAndPlay, Follows, Position;
    if s.running {
      PokesAround(s, env.start);
      var s1 := Poked(s, env.start);
      PokesAround(s1, env.beforeActive);
      var s2 := Poked(s1, env.beforeActive);
      YieldedUncut(s2, env);
      CalmPlay(Yielded(s2, env), env);
    }
  }

  /** An undisturbed tick carries the stream on where it stands, whatever part the device takes. */
  lemma UndisturbedTick(s: State, env: Env)
    requires Inv(s) && Undisturbed(s, env)
    ensures Follows(s, Tick(s, env)) && Tick(s, env).pending.source != Announced
    ensures s.running && Ready(s) ==> Position(Tick(s, env)) == Position(s) + env.written
  {
    hide RingOk, ReferenceOk, DeviceOk, FramesOk, SpokenOk, Flush, PrepareAndPlay, Follows, Position;
    if s.running {
      PokesAround(s, env.start);
      var s1 := Poked(s, env.start);
      AroundFollows(s, s1);
      PokesAround(s1, env.beforeActive);
      var s2 := Poked(s1, env.beforeActive);
      AroundFollows(s1, s2);
      CalmPlay(s2, env);
      FollowsOn(s, s1, s2);
      FollowsOn(s, s2, PrepareAndPlay(s2, env));
    } else {
      AroundFollows(s, s);
    }
  }

  // ------------------------------------------------------------------- stream and frames

  /** How many samples of the received stream were made into frames. */
  function Framing(frames: Frames, p: Pending): nat {
    match frames
    case None => if p.source == Rtc then FRAME else 0
    case Then(before, last) => Framing(before, p) + if last.source == Rtc then FRAME else 0
  }

  /** How many left the ring without becoming part of a frame. */
  function PassedOver(s: State): int { s.past.popped - Framing(s.past.finished, s.pending) }

  lemma {:induction false} FramingStays(frames: Frames, p: Pending, q: Pending)
    ensures Framing(frames, q) - (if q.source == Rtc then FRAME else 0) ==
            Framing(frames, p) - (if p.source == Rtc then FRAME else 0)
  {
    if frames.Then? { FramingStays(frames.before, p, q); }
  }

  lemma AroundPassesOver(s: State, r: State)
    requires Apart(s, r)
    ensures PassedOver(r) == PassedOver(s)
  {
  }

  lemma DiscardPassesOver(s: State)
    ensures PassedOver(Discard(s)) == PassedOver(s)
  {
    FramingStays(s.past.finished, s.pending, Discard(s).pending);
  }

  lemma {:induction false} SamePassesOver(s: State, r: State)
    requires r.past.popped == s.past.popped && r.past.finished == s.past.finished
    requires r.pending.source == s.pending.source
    ensures PassedOver(r) == PassedOver(s)
  {
    FramingStays(s.past.finished, s.pending, r.pending);
  }

  lemma WritePassesOver(s: State, env: Env)
    requires Inv(s) && s.pending.frames > 0 && (s.pending.source == Rtc ==> RefFree(s) >= s.pending.frames)
    ensures PassedOver(WriteOut(s, env)) == PassedOver(s)
  {
    hide RingOk, ReferenceOk, DeviceOk, FramesOk, SpokenOk, PassedOver;
    DiscardPassesOver(s);
    if 0 <= env.written <= s.pending.frames {
      SentKeeps(s, env.written, Volume(env));
      var sent := Sent(s, env.written, Volume(env));
      PokesKeep(sent, env.afterWrite);
      var data := Scaled(Volume(env), s.pending.buffer[s.pending.offset..s.pending.offset + env.written]);
      var mirrored := Mirror(Poked(sent, env.afterWrite), data);
      var left := mirrored.(pending := mirrored.pending.(frames := s.pending.frames - env.written));
      SamePassesOver(s, left);
      DiscardPassesOver(left);
    }
  }

  lemma PlayPassesOver(s: State, env: Env)
    requires Inv(s) && s.pending.frames > 0
    ensures PassedOver(Play(s, env)) == PassedOver(s)
  {
    hide RingOk, ReferenceOk, DeviceOk, FramesOk, SpokenOk, WriteOut, PassedOver, Discard;
    PokesAround(s, env.beforeRoom);
    var s1 := Poked(s, env.beforeRoom);
    AroundPassesOver(s, s1);
    if !(s1.pending.source == Rtc && RefFree(s1) < s1.pending.frames) {
      PokesAround(s1, env.beforeWrite);
      var s2 := Poked(s1, env.beforeWrite);
      AroundPassesOver(s1, s2);
      DiscardPassesOver(s2);
      WritePassesOver(s2, env);
    }
  }

  lemma PreparePassesOver(s: State, generation: nat, env: Env)
    requires Inv(s) && s.pending.frames == 0
    ensures PassedOver(Prepare(s, generation, env).state) == PassedOver(s)
  {
    hide RingOk, ReferenceOk, DeviceOk, FramesOk, SpokenOk, Padded;
    FramingStays(s.past.finished, s.pending, Prepare(s, generation, env).state.pending);
  }

  /**
   Whatever else goes wrong, a part of the stream goes by without becoming a frame only when the
   tick flushes or an announcement is active.
   */
  lemma PassedOverHasCause(s: State, env: Env)
    requires Inv(s) && !Flushes(s, env) && !env.active
    ensures PassedOver(Tick(s, env)) == PassedOver(s)
  {
    hide RingOk, ReferenceOk, DeviceOk, FramesOk, SpokenOk, Flush, Prepare, Play, PassedOver;
    if s.running {
      PokesAround(s, env.start);
      var s1 := Poked(s, env.start);
      AroundPassesOver(s, s1);
      PokesAround(s1, env.beforeActive);
      var s2 := Poked(s1, env.beforeActive);
      AroundPassesOver(s1, s2);
      PokesAround(s2, env.beforePrepare);
      var s3 := Poked(s2, env.beforePrepare);
      AroundPassesOver(s2, s3);
      if s3.pending.frames != 0 {
        PlayPassesOver(s3, env);
      } else {
        PreparePassesOver(s3, env.generationAtStart, env);
        PrepareKeeps(s3, env.generationAtStart, env);
        var prepared := Prepare(s3, env.generationAtStart, env);
        if prepared.ready { PlayPassesOver(prepared.state, env); }
      }
    }
  }

  // ------------------------------------------------------------- announcements and guards

  lemma WriteGuarded(s: State, env: Env)
    requires Inv(s) && s.pending.frames > 0 && s.pending.source != Rtc
    ensures WriteOut(s, env).past.sentRtc == s.past.sentRtc && WriteOut(s, env).pending.source != Rtc
  {
    hide RingOk, ReferenceOk, DeviceOk, FramesOk, SpokenOk;
    if 0 <= env.written <= s.pending.frames {
      SentKeeps(s, env.written, Volume(env));
      PokesKeep(Sent(s, env.written, Volume(env)), env.afterWrite);
    }
  }

  /** The device gets samples only of the generation in force when the write is authorized. */
  lemma PlayGuarded(s: State, env: Env)
    requires Inv(s) && s.pending.frames > 0
    ensures Play(s, env).past.raw == s.past.raw || env.generationAtWrite == s.pending.generation
    ensures s.pending.source != Rtc ==>
              Play(s, env).past.sentRtc == s.past.sentRtc && Play(s, env).pending.source != Rtc
  {
    hide RingOk, ReferenceOk, DeviceOk, FramesOk, SpokenOk, WriteOut;
    PokesAround(s, env.beforeRoom);
    var s1 := Poked(s, env.beforeRoom);
    PokesAround(s1, env.beforeWrite);
    var s2 := Poked(s1, env.beforeWrite);
    if s2.pending.source != Rtc { WriteGuarded(s2, env); }
  }

  lemma PrepareAndPlayGuarded(s: State, env: Env)
    requires Inv(s) && s.pending.generation == env.generationAtStart
    ensures var r := PrepareAndPlay(s, env);
      r.past.raw == s.past.raw || env.generationAtWrite == Serving(s, env)
    ensures var r := PrepareAndPlay(s, env);
      env.active && s.pending.source != Rtc ==> r.past.sentRtc == s.past.sentRtc && r.pending.source != Rtc
  {
    hide RingOk, ReferenceOk, DeviceOk, FramesOk, SpokenOk, Play, Padded;
    PokesAround(s, env.beforePrepare);
    var s1 := Poked(s, env.beforePrepare);
    if s1.pending.frames != 0 {
      PlayGuarded(s1, env);
    } else {
      PrepareKeeps(s1, env.generationAtStart, env);
      var prepared := Prepare(s1, env.generationAtStart, env);
      if prepared.ready { PlayGuarded(prepared.state, env); }
    }
  }

  /** Where the tick stands when it starts to prepare and play. */
  function Entered(s: State, env: Env): State
    requires Sized(s)
  {
    Yielded(Poked(Fresh(Poked(s, env.start), env), env.beforeActive), env)
  }

  lemma EnteredKeeps(s: State, env: Env)
    requires Inv(s)
    ensures var r := Entered(s, env);
      Inv(r) && r.pending.generation == env.generationAtStart && r.past.raw == s.past.raw &&
      r.past.sentRtc == s.past.sentRtc && (env.active ==> r.pending.source != Rtc)
  {
    hide RingOk, ReferenceOk, DeviceOk, FramesOk, SpokenOk, Drain;
    PokesAround(s, env.start);
    var s1 := Poked(s, env.start);
    FreshKeeps(s1, env);
    FlagKeeps(s1, s1.(clearPb := false));
    DrainKeeps(s1.(clearPb := false), env.duringFlush);
    var s2 := Fresh(s1, env);
    PokesAround(s2, env.beforeActive);
    var s3 := Poked(s2, env.beforeActive);
    YieldedKeeps(s3, env);
    DrainKeeps(s3, env.duringYield);
  }

  /**
   While an announcement is active no RTC audio reaches the device, and in any tick the device gets
   samples only if the announcement's generation is still the one they belong to.
   */
  lemma TickGuarded(s: State, env: Env)
    requires Inv(s)
    ensures s.running && env.active ==>
              Tick(s, env).past.sentRtc == s.past.sentRtc && Tick(s, env).pending.source != Rtc
    ensures Tick(s, env).past.raw != s.past.raw ==>
              env.generationAtWrite == Serving(Entered(s, env), env)
  {
    hide RingOk, ReferenceOk, DeviceOk, FramesOk, SpokenOk, PrepareAndPlay, Entered;
    EnteredKeeps(s, env);
    PrepareAndPlayGuarded(Entered(s, env), env);
    EnteredIsTick(s, env);
  }

  lemma EnteredIsTick(s: State, env: Env)
    requires Sized(s)
    ensures Tick(s, env) == if s.running then PrepareAndPlay(Entered(s, env), env) else s
  {
  }

  // --------------------------------------------------------------------------- runs

  /** Every tick of the run is calm, and nobody flushes. */
  predicate CalmRun(s: State, inputs: seq<Input>)
    requires Sized(s)
    decreases |inputs|
  {
    inputs == [] ||
    (!inputs[0].FlushInput? && (inputs[0].TickInput? ==> Calm(s, inputs[0].env)) &&
     CalmRun(Step(s, inputs[0]), inputs[1..]))
  }

  predicate UndisturbedRun(s: State, inputs: seq<Input>)
    requires Sized(s)
    decreases |inputs|
  {
    inputs == [] ||
    (!inputs[0].FlushInput? && (inputs[0].TickInput? ==> Undisturbed(s, inputs[0].env)) &&
     UndisturbedRun(Step(s, inputs[0]), inputs[1..]))
  }

  /** No tick of the run flushes or sees an announcement, and nobody else flushes. */
  predicate SilentRun(s: State, inputs: seq<Input>)
    requires Sized(s)
    decreases |inputs|
  {
    inputs == [] ||
    (!inputs[0].FlushInput? &&
     (inputs[0].TickInput? ==> !Flushes(s, inputs[0].env) && !inputs[0].env.active) &&
     SilentRun(Step(s, inputs[0]), inputs[1..]))
  }

  lemma PokeAround(s: State, poke: Poke)
    requires Inv(s)
    ensures Around(s, ApplyPoke(s, poke))
  {
    hide RingOk, ReferenceOk, DeviceOk, FramesOk, SpokenOk, ApplyPoke, Apart;
    PokesAround(s, [poke]);
    OnePoke(s, poke);
  }

  /** In a calm run no frame is given up before the device has taken all of it. */
  lemma {:induction false} NoFrameIsCut(s: State, inputs: seq<Input>)
    requires Inv(s) && CalmRun(s, inputs)
    ensures Cuts(Run(s, inputs).past.finished) == Cuts(s.past.finished)
    decreases |inputs|
  {
    hide RingOk, ReferenceOk, DeviceOk, FramesOk, SpokenOk, Tick, ApplyPoke, Calm;
    if inputs != [] {
      StepKeeps(s, inputs[0]);
      match inputs[0] {
        case TickInput(env) => CalmTick(s, env);
        case PokeInput(poke) => PokeAround(s, poke);
        case FlushInput(_, _) =>
      }
      NoFrameIsCut(Step(s, inputs[0]), inputs[1..]);
    }
  }

  /**
   In an undisturbed run, from any reachable state and whatever lengths the device takes at a time,
   the device gets the received stream on from where it stood, no sample skipped or repeated.
   */
  lemma {:induction false} NothingSkippedOrRepeated(s: State, inputs: seq<Input>)
    requires Inv(s) && UndisturbedRun(s, inputs)
    ensures Follows(s, Run(s, inputs))
    decreases |inputs|
  {
    hide RingOk, ReferenceOk, DeviceOk, FramesOk, SpokenOk, Tick, ApplyPoke, Undisturbed, Follows, Position;
    if inputs == [] {
      AroundFollows(s, s);
    } else {
      var next := Step(s, inputs[0]);
      StepKeeps(s, inputs[0]);
      match inputs[0] {
        case TickInput(env) => UndisturbedTick(s, env);
        case PokeInput(poke) => PokeAround(s, poke); AroundFollows(s, next);
        case FlushInput(_, _) =>
      }
      NothingSkippedOrRepeated(next, inputs[1..]);
      FollowsOn(s, next, Run(next, inputs[1..]));
    }
  }

  /** From power-up: the device has got all of the stream that left the ring, but the frames to go. */
  lemma StreamReachesDevice(refCapacity: nat, running: bool, inputs: seq<Input>)
    requires UndisturbedRun(Initial(refCapacity, running), inputs)
    ensures var s := Reached(refCapacity, running, inputs);
      s.pending.frames <= s.past.popped <= |s.past.pushed| &&
      s.past.raw == s.past.pushed[..s.past.popped - s.pending.frames]
  {
    hide Run, Accepted, InOrder, Gain, AnnouncedOf, UndisturbedRun;
    var start := Initial(refCapacity, running);
    InitialKeeps(refCapacity, running);
    RunKeeps(start, inputs);
    NothingSkippedOrRepeated(start, inputs);
    UndisturbedSource(start, inputs);
  }

  lemma {:induction false} UndisturbedSource(s: State, inputs: seq<Input>)
    requires Inv(s) && UndisturbedRun(s, inputs) && s.pending.source != Announced
    ensures Run(s, inputs).pending.source != Announced
    decreases |inputs|
  {
    hide RingOk, ReferenceOk, DeviceOk, FramesOk, SpokenOk, Tick, ApplyPoke, Undisturbed, Follows, Position;
    if inputs != [] {
      StepKeeps(s, inputs[0]);
      match inputs[0] {
        case TickInput(env) => UndisturbedTick(s, env);
        case PokeInput(poke) => PokeAround(s, poke);
        case FlushInput(_, _) =>
      }
      UndisturbedSource(Step(s, inputs[0]), inputs[1..]);
    }
  }

  /** In a silent run all of the stream that leaves the ring becomes frames. */
  lemma {:induction false} NothingPassedOver(s: State, inputs: seq<Input>)
    requires Inv(s) && SilentRun(s, inputs)
    ensures PassedOver(Run(s, inputs)) == PassedOver(s)
    decreases |inputs|
  {
    hide RingOk, ReferenceOk, DeviceOk, FramesOk, SpokenOk, Tick, ApplyPoke, Flushes, PassedOver;
    if inputs != [] {
      var next := Step(s, inputs[0]);
      StepKeeps(s, inputs[0]);
      match inputs[0] {
        case TickInput(env) => PassedOverHasCause(s, env);
        case PokeInput(poke) => PokeAround(s, poke); AroundPassesOver(s, next);
        case FlushInput(_, _) =>
      }
      NothingPassedOver(next, inputs[1..]);
    }
  }

  function Whole(frames: Frames): seq<Sample> {
    match frames
    case None => []
    case Then(before, last) => Whole(before) + last.samples
  }

  lemma {:induction false} UncutIsWhole(frames: Frames, pushed: seq<Sample>, limit: nat)
    requires Cuts(frames) == 0 && InOrder(frames, pushed, limit)
    ensures Accepted(frames) == Whole(frames)
  {
    match frames
    case None =>
    case Then(before, last) => UncutIsWhole(before, pushed, if last.source == Rtc then last.at else limit);
  }

  /**
   In a calm run from power-up the device gets whole frames only, and among them are all
   announcement frames read, in order.
   */
  lemma WholeFramesOnly(refCapacity: nat, running: bool, inputs: seq<Input>)
    requires CalmRun(Initial(refCapacity, running), inputs)
    ensures var s := Reached(refCapacity, running, inputs);
      s.past.raw == Whole(s.past.finished) + s.pending.buffer[..s.pending.offset] &&
      AnnouncedOf(s.past.finished) + InPlay(s.pending) == PaddedAll(s.past.spoken)
  {
    hide Run, InOrder, Gain, CalmRun;
    InitialKeeps(refCapacity, running);
    RunKeeps(Initial(refCapacity, running), inputs);
    DeviceGetsFramesInOrder(refCapacity, running, inputs);
    NoFrameIsCut(Initial(refCapacity, running), inputs);
    var s := Reached(refCapacity, running, inputs);
    UncutIsWhole(s.past.finished, s.past.pushed, s.past.popped);
  }
}
