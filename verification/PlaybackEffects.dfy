/**
 What a flush and the volume do to what the device gets.
 */
module PlaybackEffects {
  import opened PlaybackState
  import opened PlaybackRuns
  import opened PlaybackContinuity

  // ------------------------------------------------------------------ other threads

  /** The sender takes from the front of the reference, as much as it asks for or all there is. */
  lemma ReferenceIsTaken(s: State, count: nat)
    requires Inv(s)
    ensures var r := Step(s, PokeInput(ReferenceTaken(count)));
      RefFree(r) == (if count < |s.refRing| then RefFree(s) + count else s.refCapacity) &&
      r.past.refTaken + r.refRing == s.past.refTaken + s.refRing && r.pbRing == s.pbRing && r.pending == s.pending
  {
    hide ReferenceOk, RingOk, DeviceOk, FramesOk, SpokenOk;
    var n := if count < |s.refRing| then count else |s.refRing|;
    assert s.refRing == s.refRing[..n] + s.refRing[n..];
  }

  // -------------------------------------------------------------------------- flush

  /** These frames came after those of base, and none of them was cut out of the stream before from. */
  predicate ExtendsFrom(frames: Frames, base: Frames, from: nat) {
    frames == base ||
    (frames.Then? && (frames.last.source == Rtc ==> frames.last.at >= from) && ExtendsFrom(frames.before, base, from))
  }

  /** All that is played since comes from this position of the stream on. */
  predicate Since(s: State, base: Frames, from: nat) {
    s.past.popped >= from && (s.pending.source == Rtc ==> s.past.at >= from) &&
    ExtendsFrom(s.past.finished, base, from)
  }

  lemma DrainSince(s: State, rounds: seq<seq<Poke>>, base: Frames, from: nat)
    requires Base(s) && Since(s, base, from)
    ensures Since(Drain(s, rounds), base, from) && Base(Drain(s, rounds))
  {
    hide ReferenceOk, DeviceOk, FramesOk, SpokenOk, Drain;
    DrainKeeps(s, rounds);
    DrainGrows(s, rounds);
  }

  lemma DiscardSince(s: State, base: Frames, from: nat)
    requires Since(s, base, from)
    ensures Since(Discard(s), base, from)
  {
  }

  lemma FlushSince(s: State, generation: nat, rounds: seq<seq<Poke>>, base: Frames, from: nat)
    requires Inv(s) && Since(s, base, from)
    ensures Since(Flush(s, generation, rounds), base, from)
  {
    hide RingOk, ReferenceOk, DeviceOk, FramesOk, SpokenOk, Drain, Scratch;
    DrainSince(s, rounds, base, from);
    DiscardSince(Drain(s, rounds), base, from);
  }

  lemma FreshSince(s: State, env: Env, base: Frames, from: nat)
    requires Inv(s) && Since(s, base, from)
    ensures Since(Fresh(s, env), base, from)
  {
    hide RingOk, ReferenceOk, DeviceOk, FramesOk, SpokenOk, Flush;
    var s1 := s.(clearPb := false);
    FlagKeeps(s, s1);
    FlushSince(s1, env.generationAtStart, env.duringFlush, base, from);
  }

  lemma YieldedSince(s: State, env: Env, base: Frames, from: nat)
    requires Inv(s) && Since(s, base, from)
    ensures Since(Yielded(s, env), base, from)
  {
    hide RingOk, ReferenceOk, DeviceOk, FramesOk, SpokenOk, Drain, Discard;
    DrainSince(s, env.duringYield, base, from);
    DiscardSince(Drain(s, env.duringYield), base, from);
  }

  lemma WriteSince(s: State, env: Env, base: Frames, from: nat)
    requires Inv(s) && s.pending.frames > 0 && (s.pending.source == Rtc ==> RefFree(s) >= s.pending.frames)
    requires Since(s, base, from)
    ensures Since(WriteOut(s, env), base, from)
  {
    hide RingOk, ReferenceOk, DeviceOk, FramesOk, SpokenOk;
    DiscardSince(s, base, from);
    if 0 <= env.written <= s.pending.frames {
      SentKeeps(s, env.written, Volume(env));
      PokesKeep(Sent(s, env.written, Volume(env)), env.afterWrite);
    }
  }

  lemma PlaySince(s: State, env: Env, base: Frames, from: nat)
    requires Inv(s) && s.pending.frames > 0 && Since(s, base, from)
    ensures Since(Play(s, env), base, from)
  {
    hide RingOk, ReferenceOk, DeviceOk, FramesOk, SpokenOk, WriteOut, Discard;
    PokesAround(s, env.beforeRoom);
    var s1 := Poked(s, env.beforeRoom);
    PokesAround(s1, env.beforeWrite);
    var s2 := Poked(s1, env.beforeWrite);
    DiscardSince(s2, base, from);
    if !(s1.pending.source == Rtc && RefFree(s1) < s1.pending.frames) { WriteSince(s2, env, base, from); }
  }

  lemma PrepareAndPlaySince(s: State, env: Env, base: Frames, from: nat)
    requires Inv(s) && Since(s, base, from)
    ensures Since(PrepareAndPlay(s, env), base, from)
  {
    hide RingOk, ReferenceOk, DeviceOk, FramesOk, SpokenOk, Play, Padded;
    PokesAround(s, env.beforePrepare);
    var s1 := Poked(s, env.beforePrepare);
    if s1.pending.frames != 0 {
      PlaySince(s1, env, base, from);
    } else {
      PrepareKeeps(s1, env.generationAtStart, env);
      var prepared := Prepare(s1, env.generationAtStart, env);
      if prepared.ready { PlaySince(prepared.state, env, base, from); }
    }
  }

  lemma TickSince(s: State, env: Env, base: Frames, from: nat)
    requires Inv(s) && Since(s, base, from)
    ensures Since(Tick(s, env), base, from)
  {
    hide RingOk, ReferenceOk, DeviceOk, FramesOk, SpokenOk, Fresh, Yielded, PrepareAndPlay;
    if s.running {
      PokesAround(s, env.start);
      var s1 := Poked(s, env.start);
      FreshKeeps(s1, env);
      FreshSince(s1, env, base, from);
      var s2 := Fresh(s1, env);
      PokesAround(s2, env.beforeActive);
      var s3 := Poked(s2, env.beforeActive);
      YieldedKeeps(s3, env);
      YieldedSince(s3, env, base, from);
      PrepareAndPlaySince(Yielded(s3, env), env, base, from);
    }
  }

  lemma {:induction false} RunSince(s: State, inputs: seq<Input>, base: Frames, from: nat)
    requires Inv(s) && Since(s, base, from)
    ensures Since(Run(s, inputs), base, from)
    decreases |inputs|
  {
    hide RingOk, ReferenceOk, DeviceOk, FramesOk, SpokenOk, Tick, Flush, ApplyPoke, ExtendsFrom;
    if inputs != [] {
      StepKeeps(s, inputs[0]);
      match inputs[0] {
        case TickInput(env) => TickSince(s, env, base, from);
        case PokeInput(poke) => PokeAround(s, poke);
        case FlushInput(generation, rounds) => FlushSince(s, generation, rounds, base, from);
      }
      RunSince(Step(s, inputs[0]), inputs[1..], base, from);
    }
  }

  /** A flush leaves nothing to play and takes on the generation; audio that arrives meanwhile goes too. */
  lemma FlushIsServed(s: State, generation: nat, rounds: seq<seq<Poke>>)
    requires Inv(s)
    ensures var r := Step(s, FlushInput(generation, rounds));
      r.pbRing == [] && r.pending.frames == 0 && r.pending.source == NoSource && r.pending.generation == generation &&
      !r.clearPb && |s.past.pushed| <= |r.past.pushed| == r.past.popped && r.past.raw == s.past.raw
  {
    hide Accepted, InOrder, Gain, AnnouncedOf, Drain, Scratch;
    DrainKeeps(s, rounds);
    DrainGrows(s, rounds);
  }

  /**
   What the device has is the accepted front parts of the frames so far, in order; those behind base
   come from this position of the stream on, or from an announcement.
   */
  predicate PlaysFrom(s: State, base: Frames, from: nat) {
    |s.pending.buffer| == FRAME && s.pending.offset <= FRAME &&
    s.past.raw == Accepted(s.past.finished) + s.pending.buffer[..s.pending.offset] &&
    InOrder(s.past.finished, s.past.pushed, s.past.popped) && ExtendsFrom(s.past.finished, base, from) &&
    (s.pending.source == Rtc ==>
       from <= s.past.at && s.past.at + FRAME <= |s.past.pushed| &&
       s.pending.buffer == s.past.pushed[s.past.at..s.past.at + FRAME])
  }

  lemma SincePlays(s: State, base: Frames, from: nat)
    requires Inv(s) && Since(s, base, from)
    ensures PlaysFrom(s, base, from)
  {
    hide Accepted, InOrder, Gain, AnnouncedOf, ExtendsFrom;
    InOrderHere(s);
  }

  /**
   Whatever happens after a flush, the device gets only what stands in the received stream at or
   behind the place it had reached when the flush was called.
   */
  lemma NothingOldIsPlayed(s: State, generation: nat, rounds: seq<seq<Poke>>, inputs: seq<Input>)
    requires Inv(s)
    ensures var flushed := Step(s, FlushInput(generation, rounds));
      flushed.past.raw == Accepted(flushed.past.finished) &&
      PlaysFrom(Run(flushed, inputs), flushed.past.finished, |s.past.pushed|)
  {
    hide Step, Run, Accepted, InOrder, Gain, AnnouncedOf, ExtendsFrom, PlaysFrom;
    var flushed := Step(s, FlushInput(generation, rounds));
    StepKeeps(s, FlushInput(generation, rounds));
    FlushIsServed(s, generation, rounds);
    ExtendsItself(flushed.past.finished, |s.past.pushed|);
    RunSince(flushed, inputs, flushed.past.finished, |s.past.pushed|);
    RunKeeps(flushed, inputs);
    SincePlays(Run(flushed, inputs), flushed.past.finished, |s.past.pushed|);
    assert flushed.pending.buffer[..0] == [];
  }

  lemma ExtendsItself(frames: Frames, from: nat)
    ensures ExtendsFrom(frames, frames, from)
  {
  }

  lemma InOrderHere(s: State)
    requires Inv(s)
    ensures InOrder(s.past.finished, s.past.pushed, s.past.popped)
  {
    hide Accepted, InOrder, Gain, AnnouncedOf;
    if s.pending.source == Rtc {
      assert s.past.pushed + [] == s.past.pushed;
      InOrderGrows(s.past.finished, s.past.pushed, [], s.past.at, s.past.popped);
    }
  }

  // -------------------------------------------------------------------------- writes

  /** Both have the same on record of what the device and the announcement gave and took. */
  predicate SameRecord(s: State, r: State) {
    s.past.raw == r.past.raw && s.past.gains == r.past.gains && s.past.sent == r.past.sent &&
    s.past.spoken == r.past.spoken
  }

  lemma MirrorRecords(s: State, data: seq<Sample>)
    ensures SameRecord(s, Mirror(s, data))
  {
  }

  lemma DiscardRecords(s: State)
    ensures SameRecord(s, Discard(s))
  {
  }

  /** What a write puts on record is not changed by what comes after it. */
  lemma WriteRecords(s: State, env: Env)
    requires Inv(s) && s.pending.frames > 0 && 0 <= env.written <= s.pending.frames
    ensures SameRecord(Sent(s, env.written, Volume(env)), WriteOut(s, env))
  {
    hide RingOk, ReferenceOk, DeviceOk, FramesOk, SpokenOk, Sent, Scaled, Mirror, Discard;
    var sent := Sent(s, env.written, Volume(env));
    SentKeeps(s, env.written, Volume(env));
    PokesKeep(sent, env.afterWrite);
    var p := s.pending;
    var data := Scaled(Volume(env), p.buffer[p.offset..p.offset + env.written]);
    MirrorRecords(Poked(sent, env.afterWrite), data);
    var s1 := Mirror(Poked(sent, env.afterWrite), data);
    DiscardRecords(s1.(pending := s1.pending.(frames := p.frames - env.written)));
  }

  /**
   A write the device refuses or overstates gives the frame up; any other takes the next samples,
   and the frame ends with its last ones or when the announcement has moved on meanwhile.
   */
  lemma WriteIsServed(s: State, env: Env)
    requires Inv(s) && s.pending.frames > 0
    ensures var r := WriteOut(s, env);
      var p, n := s.pending, env.written;
      var ends := n < 0 || n >= p.frames || env.generationAtEnd != p.generation;
      r.past.raw == s.past.raw + (if 0 <= n <= p.frames then p.buffer[p.offset..p.offset + n] else []) &&
      (ends ==> r.pending.frames == 0 && r.pending.source == NoSource && r.pending.generation == p.generation) &&
      (!ends ==> r.pending == p.(offset := p.offset + n, frames := p.frames - n)) &&
      r.past.spoken == s.past.spoken
  {
    hide RingOk, ReferenceOk, DeviceOk, FramesOk, SpokenOk, Scaled;
    if 0 <= env.written <= s.pending.frames { WriteRecords(s, env); }
  }

  /**
   A frame waits for room for its reference, is given up if the announcement moved on before the
   write, and is written otherwise.
   */
  lemma PlayIsServed(s: State, env: Env)
    requires Inv(s) && s.pending.frames > 0
    ensures var r := Play(s, env);
      var waits := s.pending.source == Rtc && RefFree(Poked(s, env.beforeRoom)) < s.pending.frames;
      var moved := env.generationAtWrite != s.pending.generation;
      (waits ==> r.pending == s.pending && r.past.raw == s.past.raw) &&
      (!waits && moved ==> r.pending.frames == 0 && r.pending.source == NoSource && r.past.raw == s.past.raw) &&
      (!waits && !moved ==> r == WriteOut(Poked(Poked(s, env.beforeRoom), env.beforeWrite), env))
  {
    hide RingOk, ReferenceOk, DeviceOk, FramesOk, SpokenOk, WriteOut;
    PokesAround(s, env.beforeRoom);
    PokesAround(Poked(s, env.beforeRoom), env.beforeWrite);
  }

  // ------------------------------------------------------------------- announcements

  /** Behind what was read the frame is silent; a read that claims too much leaves nothing but silence. */
  lemma SilenceBehind(pcm: seq<Sample>, i: nat)
    requires i < FRAME
    ensures Padded(pcm)[i] == if |pcm| <= FRAME && i < |pcm| then pcm[i] else 0
  {
  }

  /** Before it prepares and plays, a tick under an announcement has let go of all it had received. */
  lemma GivesWay(s: State, env: Env)
    requires Inv(s) && s.running && env.active
    ensures var r := Entered(s, env);
      |s.past.pushed| <= |r.past.pushed| == r.past.popped && r.pending.source != Rtc &&
      r.past.spoken == s.past.spoken && (s.pending.source != Announced ==> r.pending.frames == 0)
  {
    hide ReferenceOk, DeviceOk, FramesOk, SpokenOk, Drain, Scratch;
    PokesAround(s, env.start);
    var s1 := Poked(s, env.start);
    FreshKeeps(s1, env);
    FlagKeeps(s1, s1.(clearPb := false));
    DrainKeeps(s1.(clearPb := false), env.duringFlush);
    DrainGrows(s1.(clearPb := false), env.duringFlush);
    var s2 := Fresh(s1, env);
    PokesAround(s2, env.beforeActive);
    var s3 := Poked(s2, env.beforeActive);
    YieldedKeeps(s3, env);
    DrainKeeps(s3, env.duringYield);
    DrainGrows(s3, env.duringYield);
  }

  /** An announcement starts with its first read at once, whatever RTC audio was being played. */
  lemma AnnouncementIsPlayed(s: State, env: Env)
    requires Inv(s) && s.running && env.active && s.pending.source != Announced && 1 <= |env.pcm| <= FRAME
    requires env.generationAtWrite == env.pcmGeneration && 0 <= env.written <= FRAME
    ensures var r := Tick(s, env);
      r.past.spoken == s.past.spoken + [env.pcm] && r.past.raw == s.past.raw + Padded(env.pcm)[..env.written]
  {
    hide RingOk, ReferenceOk, DeviceOk, FramesOk, SpokenOk, Entered, WriteOut, Padded;
    EnteredKeeps(s, env);
    EnteredIsTick(s, env);
    GivesWay(s, env);
    var s1 := Entered(s, env);
    PokesAround(s1, env.beforePrepare);
    var s2 := Poked(s1, env.beforePrepare);
    PrepareKeeps(s2, env.generationAtStart, env);
    var s3 := Prepare(s2, env.generationAtStart, env).state;
    PokesAround(s3, env.beforeRoom);
    PokesAround(Poked(s3, env.beforeRoom), env.beforeWrite);
    WriteIsServed(Poked(Poked(s3, env.beforeRoom), env.beforeWrite), env);
  }

  /** A read that gives nothing, or claims too much, plays nothing and leaves its generation behind. */
  lemma NothingIsAnnounced(s: State, env: Env)
    requires Inv(s) && s.running && env.active && s.pending.source != Announced
    requires env.pcm == [] || |env.pcm| > FRAME
    ensures var r := Tick(s, env);
      r.past.spoken == s.past.spoken && r.past.raw == s.past.raw && r.pending.frames == 0 &&
      r.pending.source == NoSource && r.pending.generation == env.pcmGeneration
  {
    hide RingOk, ReferenceOk, DeviceOk, FramesOk, SpokenOk, Entered, Play, Padded;
    EnteredKeeps(s, env);
    EnteredIsTick(s, env);
    GivesWay(s, env);
    PokesAround(Entered(s, env), env.beforePrepare);
  }

  /** What had been received before a tick under an announcement is not played after it. */
  lemma AnnouncementDropsOld(s: State, env: Env, inputs: seq<Input>)
    requires Inv(s) && s.running && env.active
    ensures var base := Entered(s, env);
      base.past.raw == s.past.raw && PlaysFrom(Run(Tick(s, env), inputs), base.past.finished, |s.past.pushed|)
  {
    hide Run, Tick, RingOk, ReferenceOk, DeviceOk, FramesOk, SpokenOk, PlaysFrom, ExtendsFrom, Entered, PrepareAndPlay;
    EnteredKeeps(s, env);
    EnteredIsTick(s, env);
    GivesWay(s, env);
    var base := Entered(s, env);
    ExtendsItself(base.past.finished, |s.past.pushed|);
    PrepareAndPlaySince(base, env, base.past.finished, |s.past.pushed|);
    TickKeeps(s, env);
    RunSince(Tick(s, env), inputs, base.past.finished, |s.past.pushed|);
    RunKeeps(Tick(s, env), inputs);
    SincePlays(Run(Tick(s, env), inputs), base.past.finished, |s.past.pushed|);
  }

  // ------------------------------------------------------------------ clear requests

  /** Before it goes on, a tick that has to flush has let go of all it had received. */
  lemma FreshLetsGo(s: State, env: Env)
    requires Inv(s) && (s.clearPb || s.pending.generation != env.generationAtStart)
    ensures var r := Fresh(Poked(s, env.start), env);
      Inv(r) && |s.past.pushed| <= |r.past.pushed| == r.past.popped && r.pending.source == NoSource &&
      r.past.raw == s.past.raw
  {
    hide ReferenceOk, DeviceOk, FramesOk, SpokenOk, Drain, Scratch;
    PokesAround(s, env.start);
    if s.clearPb { PokesOnlyClear(s, env.start); }
    var s1 := Poked(s, env.start);
    FreshKeeps(s1, env);
    FlagKeeps(s1, s1.(clearPb := false));
    DrainKeeps(s1.(clearPb := false), env.duringFlush);
    DrainGrows(s1.(clearPb := false), env.duringFlush);
  }

  lemma {:induction false} PokesOnlyClear(s: State, pokes: seq<Poke>)
    requires s.clearPb
    ensures Poked(s, pokes).clearPb
    decreases |pokes|
  {
    if pokes != [] { PokesOnlyClear(ApplyPoke(s, pokes[0]), pokes[1..]); }
  }

  predicate NoClear(pokes: seq<Poke>) { forall i :: 0 <= i < |pokes| ==> pokes[i] != ClearRequested }

  lemma {:induction false} StaysUnasked(s: State, pokes: seq<Poke>)
    requires !s.clearPb && NoClear(pokes)
    ensures !Poked(s, pokes).clearPb
    decreases |pokes|
  {
    if pokes != [] { StaysUnasked(ApplyPoke(s, pokes[0]), pokes[1..]); }
  }

  lemma {:induction false} DrainAsksNothing(s: State, rounds: seq<seq<Poke>>)
    requires !s.clearPb && forall i :: 0 <= i < |rounds| ==> NoClear(rounds[i])
    ensures !Drain(s, rounds).clearPb
    decreases |rounds|, |s.pbRing|
  {
    hide NoClear;
    if s.pbRing != [] {
      var s1 := Popped(s, Chunk(s));
      if rounds == [] {
        DrainAsksNothing(s1, []);
      } else {
        StaysUnasked(s1, rounds[0]);
        DrainAsksNothing(Poked(s1, rounds[0]), rounds[1..]);
      }
    }
  }

  /** A clear request is served once: only another one, made during the flush, is left behind. */
  lemma ClearIsServedOnce(s: State, env: Env)
    requires Sized(s) && s.clearPb && forall i :: 0 <= i < |env.duringFlush| ==> NoClear(env.duringFlush[i])
    ensures !Fresh(s, env).clearPb
  {
    hide Drain, NoClear, Scratch;
    DrainAsksNothing(s.(clearPb := false), env.duringFlush);
  }

  /**
   After a request to clear playback, or after the announcement moves on, what had been received
   before is played neither by the next tick nor later.
   */
  lemma ClearDropsOld(s: State, env: Env, inputs: seq<Input>)
    requires Inv(s) && s.running
    ensures var cleared := Step(s, PokeInput(ClearRequested));
      var base := Fresh(Poked(cleared, env.start), env);
      base.past.raw == s.past.raw && PlaysFrom(Run(Tick(cleared, env), inputs), base.past.finished, |s.past.pushed|)
    ensures s.pending.generation != env.generationAtStart ==>
      var base := Fresh(Poked(s, env.start), env);
      base.past.raw == s.past.raw && PlaysFrom(Run(Tick(s, env), inputs), base.past.finished, |s.past.pushed|)
  {
    hide Run, Tick, Fresh, RingOk, ReferenceOk, DeviceOk, FramesOk, SpokenOk, PlaysFrom;
    var cleared := Step(s, PokeInput(ClearRequested));
    PokeAround(s, ClearRequested);
    StepKeeps(s, PokeInput(ClearRequested));
    FlushedTick(cleared, env, inputs);
    if s.pending.generation != env.generationAtStart { FlushedTick(s, env, inputs); }
  }

  lemma FlushedTick(s: State, env: Env, inputs: seq<Input>)
    requires Inv(s) && s.running && (s.clearPb || s.pending.generation != env.generationAtStart)
    ensures var base := Fresh(Poked(s, env.start), env);
      base.past.raw == s.past.raw && PlaysFrom(Run(Tick(s, env), inputs), base.past.finished, |s.past.pushed|)
  {
    hide Run, RingOk, ReferenceOk, DeviceOk, FramesOk, SpokenOk, PlaysFrom, ExtendsFrom, PrepareAndPlay, Fresh, Yielded;
    var from := |s.past.pushed|;
    FreshLetsGo(s, env);
    PokesAround(s, env.start);
    var base := Fresh(Poked(s, env.start), env);
    ExtendsItself(base.past.finished, from);
    PokesAround(base, env.beforeActive);
    var s1 := Poked(base, env.beforeActive);
    YieldedKeeps(s1, env);
    YieldedSince(s1, env, base.past.finished, from);
    PrepareAndPlaySince(Yielded(s1, env), env, base.past.finished, from);
    TickKeeps(s, env);
    RunSince(Tick(s, env), inputs, base.past.finished, from);
    RunKeeps(Tick(s, env), inputs);
    SincePlays(Run(Tick(s, env), inputs), base.past.finished, from);
  }

  // -------------------------------------------------------------------------- volume

  /** The gain at a volume: full at 100, silence at 0, else within one step of the exact product. */
  lemma GainIsVolume(volume: int, x: Sample)
    requires 0 <= volume <= 100 && -32768 <= x <= 32767
    ensures -32768 <= Gain(volume, x) <= 32767
    ensures volume * x - 100 <= 100 * Gain(volume, x) <= volume * x + 100
    ensures volume == 100 ==> Gain(volume, x) == x
    ensures volume == 0 ==> Gain(volume, x) == 0
  {
    if 0 < volume < 100 {
      var gain := volume * 65536 / 100;
      var lost := volume * 65536 - 100 * gain;
      Distributes(x, gain, volume, lost);
      SmallProduct(x, lost);
      Rounded(x * gain, volume * x, x * lost);
    }
  }

  lemma Distributes(x: int, gain: int, volume: int, lost: int)
    requires 100 * gain == volume * 65536 - lost
    ensures 100 * (x * gain) == 65536 * (volume * x) - x * lost
  {
    assert x * (100 * gain) == x * (volume * 65536 - lost);
  }

  lemma SmallProduct(x: int, lost: int)
    requires -32768 <= x <= 32767 && 0 <= lost < 100
    ensures -3276800 <= x * lost <= 3276800
  {
    if x >= 0 { assert x * lost <= x * 100; } else { assert x * lost >= x * 100; }
  }

  /** Rounding and cutting off a product that is a little short. */
  lemma Rounded(product: int, exact: int, short: int)
    requires 100 * product == 65536 * exact - short && -3276800 <= short <= 3276800
    ensures var y := FloorDiv(product + 0x8000, 0x10000);
      exact - 100 <= 100 * y <= exact + 100
  {
  }

  /** A write hands over the next samples at the volume in force and remembers which it was. */
  lemma WriteAppliesVolume(s: State, env: Env)
    requires Inv(s) && s.pending.frames > 0 && 0 <= env.written <= s.pending.frames
    ensures var r := WriteOut(s, env);
      var volume := if env.deviceVolume || env.volumeSeen == 100 then 100 else env.volumeUsed;
      var piece := s.pending.buffer[s.pending.offset..s.pending.offset + env.written];
      r.past.gains == s.past.gains + seq(env.written, _ => volume) && |r.past.sent| == |s.past.sent| + env.written &&
      s.past.sent <= r.past.sent &&
      forall i :: 0 <= i < env.written ==> r.past.sent[|s.past.sent| + i] == Gain(volume, piece[i])
  {
    hide RingOk, ReferenceOk, DeviceOk, FramesOk, SpokenOk, Gain, WriteOut;
    WriteRecords(s, env);
  }
}
