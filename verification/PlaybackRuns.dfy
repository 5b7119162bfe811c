/**
 What every run of the playback worker keeps: order and completeness of what the device gets,
 and the echo-cancellation reference as an exact copy of it.
 */
module PlaybackRuns {
  import opened PlaybackState

  /** The device took this much of each frame, in order, from its beginning. */
  function Accepted(frames: Frames): seq<Sample>
  {
    match frames
    case None => []
    case Then(before, last) =>
      Accepted(before) + if last.taken <= |last.samples| then last.samples[..last.taken] else last.samples
  }

  /** RTC frames are consecutive cuts of the pushed stream, later ones from later on, up to limit. */
  predicate InOrder(frames: Frames, pushed: seq<Sample>, limit: nat) {
    match frames
    case None => true
    case Then(before, last) =>
      last.taken <= FRAME == |last.samples| &&
      if last.source == Rtc then
        last.at + FRAME <= limit && limit <= |pushed| && last.samples == pushed[last.at..last.at + FRAME] &&
        InOrder(before, pushed, last.at)
      else InOrder(before, pushed, limit)
  }

  lemma {:induction false} InOrderGrows(frames: Frames, pushed: seq<Sample>, more: seq<Sample>,
                                        limit: nat, later: nat)
    requires InOrder(frames, pushed, limit) && limit <= later <= |pushed + more|
    ensures InOrder(frames, pushed + more, later)
  {
    match frames
    case None =>
    case Then(before, last) =>
      if last.source == Rtc {
        assert (pushed + more)[last.at..last.at + FRAME] == pushed[last.at..last.at + FRAME];
        InOrderGrows(before, pushed, more, last.at, last.at);
      } else {
        InOrderGrows(before, pushed, more, limit, later);
      }
  }

  predicate RingOk(s: State) {
    s.past.popped <= |s.past.pushed| && s.pbRing == s.past.pushed[s.past.popped..]
  }

  /** The reference ring holds what was mirrored and not yet sent, within its capacity. */
  predicate ReferenceOk(s: State) {
    |s.refRing| <= s.refCapacity && s.past.refPushed == s.past.refTaken + s.refRing && !s.past.refFailed
  }

  predicate Mirrored(s: State) { s.past.refPushed == s.past.sentRtc }

  predicate DeviceOk(s: State) {
    |s.past.raw| == |s.past.gains| == |s.past.sent| &&
    forall i :: 0 <= i < |s.past.sent| ==> s.past.sent[i] == Gain(s.past.gains[i], s.past.raw[i])
  }

  predicate PendingOk(s: State) {
    var p := s.pending;
    |p.buffer| == FRAME &&
    if p.source == NoSource then p.frames == 0 && p.offset == 0 else p.frames > 0 && p.offset + p.frames == FRAME
  }

  predicate FramesOk(s: State) {
    var p := s.pending;
    |p.buffer| == FRAME && p.offset <= FRAME && (p.source == NoSource ==> p.offset == 0) &&
    s.past.raw == Accepted(s.past.finished) + p.buffer[..p.offset] &&
    s.past.flushed <= s.past.popped &&
    if p.source == Rtc then
      s.past.flushed <= s.past.at && s.past.at + FRAME <= s.past.popped <= |s.past.pushed| &&
      p.buffer == s.past.pushed[s.past.at..s.past.at + FRAME] &&
      InOrder(s.past.finished, s.past.pushed, s.past.at)
    else s.past.popped <= |s.past.pushed| && InOrder(s.past.finished, s.past.pushed, s.past.popped)
  }

  /** The announcement frames done with, in order. */
  function AnnouncedOf(frames: Frames): seq<seq<Sample>> {
    match frames
    case None => []
    case Then(before, last) => AnnouncedOf(before) + if last.source == Announced then [last.samples] else []
  }

  function InPlay(p: Pending): seq<seq<Sample>> { if p.source == Announced then [p.buffer] else [] }

  function PaddedAll(pcm: seq<seq<Sample>>): seq<seq<Sample>> {
    seq(|pcm|, i requires 0 <= i < |pcm| => Padded(pcm[i]))
  }

  /** The announcement frames are the announcement's reads, each padded to a frame, in order. */
  predicate SpokenOk(s: State) {
    AnnouncedOf(s.past.finished) + InPlay(s.pending) == PaddedAll(s.past.spoken) &&
    forall i :: 0 <= i < |s.past.spoken| ==> 1 <= |s.past.spoken[i]| <= FRAME
  }

  /** The RTC frame being played is the last one that left the ring. */
  predicate Adjacent(s: State) { s.pending.source == Rtc ==> s.past.popped == s.past.at + FRAME }

  ghost predicate Base(s: State) { RingOk(s) && ReferenceOk(s) && DeviceOk(s) && FramesOk(s) && SpokenOk(s) }

  ghost predicate Inv(s: State) { Base(s) && Mirrored(s) && PendingOk(s) && Adjacent(s) }

  // ------------------------------------------------------------------ other threads

  /** What other threads cannot touch; and they only ever free room in the reference ring. */
  predicate Apart(s: State, r: State) {
    r.running == s.running && r.refCapacity == s.refCapacity && r.pending == s.pending &&
    RefFree(r) >= RefFree(s) &&
    r.past == s.past.(pushed := r.past.pushed, refTaken := r.past.refTaken)
  }

  lemma RemoteAudioKeeps(s: State, samples: seq<Sample>)
    requires Base(s)
    ensures var r := ApplyPoke(s, RemoteAudio(samples));
      Base(r) && Apart(s, r)
  {
    hide Accepted, InOrder, Gain, AnnouncedOf;
    var p := s.past;
    if s.pending.source == Rtc {
      InOrderGrows(p.finished, p.pushed, samples, p.at, p.at);
      assert (p.pushed + samples)[p.at..p.at + FRAME] == p.pushed[p.at..p.at + FRAME];
    } else {
      InOrderGrows(p.finished, p.pushed, samples, p.popped, p.popped);
    }
    assert (p.pushed + samples)[p.popped..] == p.pushed[p.popped..] + samples;
  }

  lemma ReferenceTakenKeeps(s: State, count: nat)
    requires Base(s)
    ensures var r := ApplyPoke(s, ReferenceTaken(count));
      Base(r) && Apart(s, r)
  {
    hide Accepted, InOrder, Gain, AnnouncedOf;
    var n := if count < |s.refRing| then count else |s.refRing|;
    assert s.refRing == s.refRing[..n] + s.refRing[n..];
  }

  lemma {:induction false} PokesKeep(s: State, pokes: seq<Poke>)
    requires Base(s)
    ensures Base(Poked(s, pokes)) && Apart(s, Poked(s, pokes))
    decreases |pokes|
  {
    hide RingOk, ReferenceOk, DeviceOk, FramesOk, SpokenOk;
    if pokes != [] {
      var r := ApplyPoke(s, pokes[0]);
      match pokes[0] {
        case RemoteAudio(samples) => RemoteAudioKeeps(s, samples);
        case ReferenceTaken(count) => ReferenceTakenKeeps(s, count);
        case ClearRequested => FlagKeeps(s, r);
        case Connected(_) => FlagKeeps(s, r);
      }
      PokesKeep(r, pokes[1..]);
    }
  }

  lemma FlagKeeps(s: State, r: State)
    requires Base(s) && r == s.(clearPb := r.clearPb, rtcConnected := r.rtcConnected)
    ensures Base(r)
  {
    hide Accepted, InOrder, Gain, AnnouncedOf;
  }

  // -------------------------------------------------------------------------- steps

  predicate Idle(s: State) {
    s.pending.source == NoSource && s.pending.frames == 0 && s.pending.offset == 0
  }

  lemma DiscardKeeps(s: State)
    requires Base(s) && Mirrored(s)
    ensures Base(Discard(s)) && Mirrored(Discard(s)) && Idle(Discard(s)) && Inv(Discard(s))
  {
    hide Gain;
    if s.pending.source == Rtc {
      assert InOrder(s.past.finished, s.past.pushed, s.past.at);
    }
  }

  lemma PoppedKeeps(s: State, n: nat)
    requires Base(s) && n <= |s.pbRing|
    ensures Base(Popped(s, n))
  {
    hide Accepted, InOrder, Gain, SpokenOk;
    assert s.pbRing[n..] == s.past.pushed[s.past.popped + n..];
    if s.pending.source != Rtc {
      assert s.past.pushed + [] == s.past.pushed;
      InOrderGrows(s.past.finished, s.past.pushed, [], s.past.popped, s.past.popped + n);
    }
    assert SpokenOk(Popped(s, n)) by { SpokenAlike(s, Popped(s, n)); }
  }

  lemma SpokenAlike(s: State, r: State)
    requires SpokenOk(s) && r.past.spoken == s.past.spoken && r.past.finished == s.past.finished
    requires InPlay(r.pending) == InPlay(s.pending)
    ensures SpokenOk(r)
  {
  }

  /** A drain moves the ring's samples out and lets the others run, nothing else. */
  predicate Drained(s: State, r: State) {
    r.running == s.running && r.pending == s.pending && RefFree(r) >= RefFree(s) &&
    r.past == s.past.(pushed := r.past.pushed, popped := r.past.popped, refTaken := r.past.refTaken)
  }

  lemma {:induction false} DrainKeeps(s: State, rounds: seq<seq<Poke>>)
    requires Base(s)
    ensures var r := Drain(s, rounds);
      Base(r) && Drained(s, r) && r.pbRing == [] && (Mirrored(s) ==> Mirrored(r))
    decreases |rounds|, |s.pbRing|
  {
    hide RingOk, ReferenceOk, DeviceOk, FramesOk, SpokenOk;
    if s.pbRing != [] {
      var s1 := Popped(s, Chunk(s));
      PoppedKeeps(s, Chunk(s));
      if rounds == [] {
        DrainKeeps(s1, []);
      } else {
        PokesKeep(s1, rounds[0]);
        DrainKeeps(Poked(s1, rounds[0]), rounds[1..]);
      }
    }
  }

  lemma {:induction false} PokesGrow(s: State, pokes: seq<Poke>)
    ensures s.past.pushed <= Poked(s, pokes).past.pushed
    decreases |pokes|
  {
    if pokes != [] { PokesGrow(ApplyPoke(s, pokes[0]), pokes[1..]); }
  }

  lemma {:induction false} DrainGrows(s: State, rounds: seq<seq<Poke>>)
    ensures s.past.pushed <= Drain(s, rounds).past.pushed
    decreases |rounds|, |s.pbRing|
  {
    if s.pbRing != [] {
      var s1 := Popped(s, Chunk(s));
      if rounds == [] {
        DrainGrows(s1, []);
      } else {
        PokesGrow(s1, rounds[0]);
        DrainGrows(Poked(s1, rounds[0]), rounds[1..]);
      }
    }
  }

  lemma IdleBuffer(s: State, r: State)
    requires Inv(s) && Idle(s)
    requires r == s.(pending := s.pending.(buffer := r.pending.buffer, generation := r.pending.generation),
                     past := s.past.(flushed := r.past.flushed))
    requires r.past.flushed == s.past.flushed || r.past.flushed <= r.past.popped
    requires |r.pending.buffer| == FRAME
    ensures Inv(r)
  {
    hide Accepted, InOrder, Gain, SpokenOk;
    assert s.pending.buffer[..0] == r.pending.buffer[..0] == [];
    SpokenAlike(s, r);
  }

  lemma FlushKeeps(s: State, generation: nat, rounds: seq<seq<Poke>>)
    requires Inv(s)
    ensures Inv(Flush(s, generation, rounds))
  {
    hide RingOk, ReferenceOk, DeviceOk, FramesOk, SpokenOk;
    DrainKeeps(s, rounds);
    DiscardKeeps(Drain(s, rounds));
    IdleBuffer(Discard(Drain(s, rounds)), Flush(s, generation, rounds));
  }

  lemma SpokenNext(s: State, pcm: seq<Sample>, generation: nat)
    requires SpokenOk(s) && s.pending.source != Announced && 1 <= |pcm| <= FRAME
    ensures SpokenOk(Loaded(s.(past := s.past.(spoken := s.past.spoken + [pcm])), Padded(pcm), Announced, generation))
  {
    assert PaddedAll(s.past.spoken + [pcm]) == PaddedAll(s.past.spoken) + [Padded(pcm)];
  }

  lemma AnnouncedKeeps(s: State, pcm: seq<Sample>, generation: nat)
    requires Inv(s) && s.pending.frames == 0 && 1 <= |pcm| <= FRAME
    ensures Inv(Loaded(s.(past := s.past.(spoken := s.past.spoken + [pcm])), Padded(pcm), Announced, generation))
  {
    hide Accepted, InOrder, Gain, Padded, SpokenOk;
    assert s.pending.buffer[..0] == Padded(pcm)[..0] == [];
    SpokenNext(s, pcm, generation);
  }

  lemma RtcKeeps(s: State, generation: nat)
    requires Inv(s) && s.pending.frames == 0 && |s.pbRing| >= FRAME
    ensures Inv(Loaded(Framed(s), s.pbRing[..FRAME], Rtc, generation))
  {
    hide Accepted, InOrder, Gain, SpokenOk;
    var p := s.past;
    assert s.pbRing[..FRAME] == p.pushed[p.popped..p.popped + FRAME];
    assert s.pbRing[FRAME..] == p.pushed[p.popped + FRAME..];
    assert s.pending.buffer[..0] == s.pbRing[..FRAME][..0] == [];
    SpokenAlike(s, Loaded(Framed(s), s.pbRing[..FRAME], Rtc, generation));
  }

  lemma PrepareKeeps(s: State, generation: nat, env: Env)
    requires Inv(s) && s.pending.frames == 0
    ensures var r := Prepare(s, generation, env);
      Inv(r.state) && (r.ready <==> r.state.pending.frames > 0)
  {
    hide RingOk, ReferenceOk, DeviceOk, FramesOk, Mirrored, SpokenOk;
    if env.active {
      if |env.pcm| > FRAME || env.pcm == [] {
        IdleBuffer(s, Prepare(s, generation, env).state);
      } else {
        AnnouncedKeeps(s, env.pcm, env.pcmGeneration);
      }
    } else if |s.pbRing| >= FRAME {
      RtcKeeps(s, generation);
    }
  }

  lemma SentKeeps(s: State, written: nat, volume: int)
    requires Inv(s) && written <= s.pending.frames
    ensures var r := Sent(s, written, volume);
      Base(r) && r.refRing == s.refRing && r.refCapacity == s.refCapacity &&
      r.pending == s.pending.(offset := s.pending.offset + written)
    ensures var r := Sent(s, written, volume);
      var data := Scaled(volume, s.pending.buffer[s.pending.offset..s.pending.offset + written]);
      r.past.sentRtc == r.past.refPushed + if s.pending.source == Rtc then data else []
  {
    hide Accepted, InOrder, Gain, DeviceOk;
    var p := s.pending;
    var piece := p.buffer[p.offset..p.offset + written];
    assert p.buffer[..p.offset + written] == p.buffer[..p.offset] + piece;
    assert Accepted(s.past.finished) + (p.buffer[..p.offset] + piece) == s.past.raw + piece;
    assert s.past.refPushed + [] == s.past.refPushed;
    SentOk(s, written, volume);
  }

  lemma SentOk(s: State, written: nat, volume: int)
    requires DeviceOk(s) && s.pending.offset + written <= |s.pending.buffer|
    ensures DeviceOk(Sent(s, written, volume))
  {
    hide Gain;
    var r := Sent(s, written, volume);
    var n := |s.past.sent|;
    var raw := s.pending.buffer[s.pending.offset..s.pending.offset + written];
    forall i | 0 <= i < |r.past.sent| ensures r.past.sent[i] == Gain(r.past.gains[i], r.past.raw[i]) {
      if i >= n { assert r.past.raw[i] == raw[i - n] && r.past.gains[i] == volume; }
    }
  }

  lemma MirrorKeeps(s: State, data: seq<Sample>)
    requires Base(s) && s.past.sentRtc == s.past.refPushed + if s.pending.source == Rtc then data else []
    requires s.pending.source == Rtc ==> |data| <= RefFree(s)
    ensures Base(Mirror(s, data)) && Mirrored(Mirror(s, data)) && Mirror(s, data).pending == s.pending
    ensures Mirror(s, data).rtcConnected == s.rtcConnected
  {
    hide Accepted, InOrder, Gain, AnnouncedOf;
  }

  lemma LeftKeeps(s: State, frames: nat)
    requires Base(s) && Mirrored(s) && Adjacent(s)
    requires s.pending.source != NoSource && s.pending.offset + frames == FRAME
    ensures var r := s.(pending := s.pending.(frames := frames));
      Base(r) && Mirrored(r) && (frames > 0 ==> Inv(r))
  {
    hide Accepted, InOrder, Gain, AnnouncedOf;
  }

  lemma WriteKeeps(s: State, env: Env)
    requires Inv(s) && s.pending.frames > 0 && (s.pending.source == Rtc ==> RefFree(s) >= s.pending.frames)
    ensures Inv(WriteOut(s, env))
  {
    hide RingOk, ReferenceOk, DeviceOk, FramesOk, SpokenOk, Mirrored;
    var p := s.pending;
    if env.written < 0 || env.written > p.frames {
      DiscardKeeps(s);
    } else {
      var data := Scaled(Volume(env), p.buffer[p.offset..p.offset + env.written]);
      SentKeeps(s, env.written, Volume(env));
      var sent := Sent(s, env.written, Volume(env));
      PokesKeep(sent, env.afterWrite);
      var poked := Poked(sent, env.afterWrite);
      MirrorKeeps(poked, data);
      var mirrored := Mirror(poked, data);
      LeftKeeps(mirrored, p.frames - env.written);
      DiscardKeeps(mirrored.(pending := mirrored.pending.(frames := p.frames - env.written)));
    }
  }

  lemma PlayKeeps(s: State, env: Env)
    requires Inv(s) && s.pending.frames > 0
    ensures Inv(Play(s, env))
  {
    hide RingOk, ReferenceOk, DeviceOk, FramesOk, SpokenOk;
    PokesKeep(s, env.beforeRoom);
    var s1 := Poked(s, env.beforeRoom);
    if !(s1.pending.source == Rtc && RefFree(s1) < s1.pending.frames) {
      PokesKeep(s1, env.beforeWrite);
      var s2 := Poked(s1, env.beforeWrite);
      DiscardKeeps(s2);
      WriteKeeps(s2, env);
    }
  }

  lemma FreshKeeps(s: State, env: Env)
    requires Inv(s)
    ensures Inv(Fresh(s, env))
  {
    hide RingOk, ReferenceOk, DeviceOk, FramesOk, SpokenOk, Flush;
    var s1 := s.(clearPb := false);
    FlagKeeps(s, s1);
    FlushKeeps(s1, env.generationAtStart, env.duringFlush);
  }

  lemma YieldedKeeps(s: State, env: Env)
    requires Inv(s)
    ensures Inv(Yielded(s, env))
  {
    hide RingOk, ReferenceOk, DeviceOk, FramesOk, SpokenOk, Drain, Discard;
    if env.active {
      DrainKeeps(s, env.duringYield);
      DiscardKeeps(Drain(s, env.duringYield));
    }
  }

  lemma TickKeeps(s: State, env: Env)
    requires Inv(s)
    ensures Inv(Tick(s, env))
  {
    hide RingOk, ReferenceOk, DeviceOk, FramesOk, SpokenOk, Fresh, Yielded, Prepare, Play;
    if s.running {
      PokesKeep(s, env.start);
      var s1 := Poked(s, env.start);
      FreshKeeps(s1, env);
      var s2 := Fresh(s1, env);
      PokesKeep(s2, env.beforeActive);
      var s3 := Poked(s2, env.beforeActive);
      YieldedKeeps(s3, env);
      var s4 := Yielded(s3, env);
      PokesKeep(s4, env.beforePrepare);
      var s5 := Poked(s4, env.beforePrepare);
      if s5.pending.frames != 0 {
        PlayKeeps(s5, env);
      } else {
        PrepareKeeps(s5, env.generationAtStart, env);
        var prepared := Prepare(s5, env.generationAtStart, env);
        if prepared.ready { PlayKeeps(prepared.state, env); }
      }
    }
  }

  lemma InitialKeeps(refCapacity: nat, running: bool)
    ensures Inv(Initial(refCapacity, running))
  {
  }

  lemma StepKeeps(s: State, input: Input)
    requires Inv(s)
    ensures Inv(Step(s, input))
  {
    hide RingOk, ReferenceOk, DeviceOk, FramesOk, SpokenOk, Tick, Flush, ApplyPoke;
    match input
    case TickInput(env) => TickKeeps(s, env);
    case FlushInput(generation, rounds) =>
      FlushKeeps(s, generation, rounds);
      FlagKeeps(Flush(s, generation, rounds), FlushPlayback(s, generation, rounds));
    case PokeInput(poke) =>
      PokesKeep(s, [poke]);
      OnePoke(s, poke);
  }

  lemma OnePoke(s: State, poke: Poke)
    ensures Poked(s, [poke]) == ApplyPoke(s, poke)
  {
    assert [poke][1..] == [];
  }

  lemma {:induction false} RunKeeps(s: State, inputs: seq<Input>)
    requires Inv(s)
    ensures Inv(Run(s, inputs))
    decreases |inputs|
  {
    hide RingOk, ReferenceOk, DeviceOk, FramesOk, SpokenOk, Step;
    if inputs != [] {
      StepKeeps(s, inputs[0]);
      RunKeeps(Step(s, inputs[0]), inputs[1..]);
    }
  }

  // ------------------------------------------------------------------------ theorems

  function Reached(refCapacity: nat, running: bool, inputs: seq<Input>): State {
    Run(Initial(refCapacity, running), inputs)
  }

  /**
   In every run, whatever lengths the device takes at a time: it has been given the accepted front
   part of each frame, one frame after the other, each sample once; RTC frames are cuts of the
   received stream in stream order, and announcement frames are the announcement's reads in order.
   */
  lemma DeviceGetsFramesInOrder(refCapacity: nat, running: bool, inputs: seq<Input>)
    ensures var s := Reached(refCapacity, running, inputs);
      s.past.raw == Accepted(s.past.finished) + s.pending.buffer[..s.pending.offset] && DeviceOk(s) &&
      AnnouncedOf(s.past.finished) + InPlay(s.pending) == PaddedAll(s.past.spoken)
    ensures var s := Reached(refCapacity, running, inputs);
      InOrder(s.past.finished, s.past.pushed, s.past.popped) &&
      (s.pending.source == Rtc ==>
         (s.past.at + FRAME == s.past.popped <= |s.past.pushed| &&
          s.pending.buffer == s.past.pushed[s.past.at..s.past.at + FRAME] &&
          InOrder(s.past.finished, s.past.pushed, s.past.at)))
  {
    hide Run, Accepted, InOrder, Gain, AnnouncedOf;
    InitialKeeps(refCapacity, running);
    RunKeeps(Initial(refCapacity, running), inputs);
    var s := Reached(refCapacity, running, inputs);
    if s.pending.source == Rtc {
      assert s.past.pushed + [] == s.past.pushed;
      InOrderGrows(s.past.finished, s.past.pushed, [], s.past.at, s.past.popped);
    }
  }

  /**
   Nothing received before the latest flush is played after it: a tick flushes when asked to clear
   or when the announcement changed, and the RTC frame being played was cut after that.
   */
  lemma FlushedIsNotPlayed(refCapacity: nat, running: bool, inputs: seq<Input>)
    ensures var s := Reached(refCapacity, running, inputs);
      s.pending.source == Rtc ==> s.past.flushed <= s.past.at
  {
    hide Run, Accepted, InOrder, Gain;
    InitialKeeps(refCapacity, running);
    RunKeeps(Initial(refCapacity, running), inputs);
  }

  lemma FlushCoversAll(s: State, env: Env)
    requires Inv(s) && (s.clearPb || s.pending.generation != env.generationAtStart)
    ensures var r := Fresh(s, env);
      r.past.flushed == |r.past.pushed| >= |s.past.pushed| && Idle(r) && r.pbRing == []
  {
    hide Accepted, InOrder, Gain, AnnouncedOf, Drain;
    var s1 := s.(clearPb := false);
    FlagKeeps(s, s1);
    DrainKeeps(s1, env.duringFlush);
    DrainGrows(s1, env.duringFlush);
  }

  /**
   In every run the reference stream is exactly what the device took from RTC frames, and the
   branch for a full reference ring after a write is never taken.
   */
  lemma ReferenceMirrorsDevice(refCapacity: nat, running: bool, inputs: seq<Input>)
    ensures var s := Reached(refCapacity, running, inputs);
      s.past.refTaken + s.refRing == s.past.sentRtc && |s.refRing| <= s.refCapacity && !s.past.refFailed
  {
    hide Run, Accepted, InOrder, Gain;
    InitialKeeps(refCapacity, running);
    RunKeeps(Initial(refCapacity, running), inputs);
  }
}
