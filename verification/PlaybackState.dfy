/**
 The playback worker of mybot_media_pipeline.c as a function of its state and of what it learns
 while it runs. Rings are queues of samples; Past records what has been moved so far.
 */
module PlaybackState {
  type Sample = int

  /** Samples in a frame of 20, 40 or 60 ms; which one is up to the build. */
  type FrameSize = n: nat | n in {320, 640, 960} witness 960

  const FRAME: FrameSize

  const VOLUME_MAX: int := 100

  datatype Source = NoSource | Announced | Rtc

  /** The frame being played: offset samples are with the device, frames are still to go. */
  datatype Pending = Pending(buffer: seq<Sample>, offset: nat, frames: nat, source: Source, generation: nat)

  /** A frame the worker is done with: its place in the RTC stream and how much the device took. */
  datatype Frame = Frame(source: Source, samples: seq<Sample>, at: nat, taken: nat)

  datatype Frames = None | Then(before: Frames, last: Frame)

  /**
   pushed: all RTC samples received; popped: how many left the ring; at: where the frame being
   played was cut; flushed: how many had been received when playback was last flushed; spoken: the
   announcement's PCM, read by read.
   */
  datatype Past = Past(
    pushed: seq<Sample>, popped: nat, at: nat, flushed: nat, spoken: seq<seq<Sample>>, finished: Frames,
    raw: seq<Sample>, gains: seq<int>, sent: seq<Sample>, sentRtc: seq<Sample>,
    refPushed: seq<Sample>, refTaken: seq<Sample>, refFailed: bool)

  datatype State = State(
    running: bool, pbRing: seq<Sample>, refRing: seq<Sample>, refCapacity: nat, pending: Pending,
    rtcConnected: bool, clearPb: bool, past: Past)

  /** The offset and the frames to go stay inside the buffer. */
  predicate Sized(s: State) {
    |s.pending.buffer| == FRAME && s.pending.offset + s.pending.frames <= FRAME
  }

  // ------------------------------------------------------------------ other threads

  datatype Poke =
    | RemoteAudio(samples: seq<Sample>)
    | ReferenceTaken(count: nat)
    | ClearRequested
    | Connected(connected: bool)

  function ApplyPoke(s: State, p: Poke): State {
    match p
    case RemoteAudio(samples) =>
      s.(pbRing := s.pbRing + samples, past := s.past.(pushed := s.past.pushed + samples))
    case ReferenceTaken(count) =>
      var n := if count < |s.refRing| then count else |s.refRing|;
      s.(refRing := s.refRing[n..], past := s.past.(refTaken := s.past.refTaken + s.refRing[..n]))
    case ClearRequested => s.(clearPb := true)
    case Connected(connected) => s.(rtcConnected := connected)
  }

  function Poked(s: State, pokes: seq<Poke>): (r: State)
    ensures r.pending == s.pending
    decreases |pokes|
  {
    if pokes == [] then s else Poked(ApplyPoke(s, pokes[0]), pokes[1..])
  }

  /**
   What one tick learns from the announcement, the volume and the device, and what other threads do
   at each of its steps: duringFlush and duringYield are what they do after each read of a drain.
   */
  datatype Env = Env(
    generationAtStart: nat, active: bool, pcm: seq<Sample>, pcmGeneration: nat,
    generationAtWrite: nat, deviceVolume: bool, volumeSeen: int, volumeUsed: int,
    written: int, generationAtEnd: nat,
    start: seq<Poke>, duringFlush: seq<seq<Poke>>, beforeActive: seq<Poke>, duringYield: seq<seq<Poke>>,
    beforePrepare: seq<Poke>, beforeRoom: seq<Poke>, beforeWrite: seq<Poke>, afterWrite: seq<Poke>)

  // ------------------------------------------------------------------------ volume

  function FloorDiv(x: int, d: int): int
    requires d > 0
  {
    x / d
  }

  /** The 16.16 fixed-point gain of mybot_audio_apply_media_volume on one sample. */
  function Gain(volume: int, x: Sample): Sample {
    if volume == VOLUME_MAX then x
    else if volume == 0 then 0
    else
      var y := FloorDiv(x * (volume * 0x10000 / VOLUME_MAX) + 0x8000, 0x10000);
      if y > 32767 then 32767 else if y < -32768 then -32768 else y
  }

  function Scaled(volume: int, samples: seq<Sample>): (r: seq<Sample>)
    ensures |r| == |samples| && forall i :: 0 <= i < |r| ==> r[i] == Gain(volume, samples[i])
  {
    seq(|samples|, i requires 0 <= i < |samples| => Gain(volume, samples[i]))
  }

  /** The gain in force when the device is written to. */
  function Volume(env: Env): int {
    if !env.deviceVolume && env.volumeSeen != VOLUME_MAX then env.volumeUsed else VOLUME_MAX
  }

  // -------------------------------------------------------------------------- steps

  function Popped(s: State, n: nat): State
    requires n <= |s.pbRing|
  {
    s.(pbRing := s.pbRing[n..], past := s.past.(popped := s.past.popped + n))
  }

  /** How much one read of a drain takes: all there is, up to the scratch space. */
  function Chunk(s: State): (n: nat)
    ensures n <= |s.pbRing| && n <= FRAME && (n == 0 <==> s.pbRing == [])
  {
    if |s.pbRing| < FRAME then |s.pbRing| else FRAME
  }

  /** Read the ring until it is found empty, other threads running after each read. */
  function Drain(s: State, rounds: seq<seq<Poke>>): (r: State)
    ensures r.pending == s.pending
    decreases |rounds|, |s.pbRing|
  {
    if s.pbRing == [] then s
    else if rounds == [] then Drain(Popped(s, Chunk(s)), [])
    else Drain(Poked(Popped(s, Chunk(s)), rounds[0]), rounds[1..])
  }

  /** The scratch space after one read. */
  function Filled(s: State, scratch: seq<Sample>): (r: seq<Sample>)
    requires |scratch| == FRAME
    ensures |r| == FRAME
  {
    s.pbRing[..Chunk(s)] + scratch[Chunk(s)..]
  }

  /** The scratch space after such a drain. */
  function Scratch(s: State, scratch: seq<Sample>, rounds: seq<seq<Poke>>): (r: seq<Sample>)
    requires |scratch| == FRAME
    ensures |r| == FRAME
    decreases |rounds|, |s.pbRing|
  {
    if s.pbRing == [] then scratch
    else
      var s1 := Popped(s, Chunk(s));
      if rounds == [] then Scratch(s1, Filled(s, scratch), [])
      else Scratch(Poked(s1, rounds[0]), Filled(s, scratch), rounds[1..])
  }

  function Discard(s: State): State {
    var p := s.pending;
    var past := if p.source == NoSource then s.past
                else s.past.(finished := Then(s.past.finished, Frame(p.source, p.buffer, s.past.at, p.offset)));
    s.(pending := p.(offset := 0, frames := 0, source := NoSource), past := past)
  }

  /**
   Drop everything buffered. The ring is drained through the pending buffer; the frame on record
   is the one that was in it.
   */
  function Flush(s: State, generation: nat, rounds: seq<seq<Poke>>): (r: State)
    requires Sized(s)
    ensures Sized(r)
  {
    var s1 := Discard(Drain(s, rounds));
    s1.(pending := Pending(Scratch(s, s.pending.buffer, rounds), 0, 0, NoSource, generation),
        past := s1.past.(flushed := s1.past.popped))
  }

  function Zeros(n: nat): (z: seq<Sample>)
    ensures |z| == n
  {
    seq(n, _ => 0)
  }

  function Loaded(s: State, buffer: seq<Sample>, source: Source, generation: nat): State {
    s.(pending := Pending(buffer, 0, FRAME, source, generation))
  }

  /** The next frame of the RTC stream has left the ring. */
  function Framed(s: State): State
    requires |s.pbRing| >= FRAME
  {
    Popped(s, FRAME).(past := s.past.(popped := s.past.popped + FRAME, at := s.past.popped))
  }

  datatype Prepared = Prepared(state: State, ready: bool)

  /** The buffer after reading an announcement into it: silence behind what was read. */
  function Padded(pcm: seq<Sample>): (r: seq<Sample>)
    ensures |r| == FRAME
  {
    if |pcm| <= FRAME then pcm + Zeros(FRAME - |pcm|) else Zeros(FRAME)
  }

  function Prepare(s: State, generation: nat, env: Env): (r: Prepared)
    requires Sized(s)
    ensures Sized(r.state)
  {
    if env.active then
      if |env.pcm| > FRAME || env.pcm == [] then
        Prepared(s.(pending := s.pending.(buffer := Padded(env.pcm), generation := env.pcmGeneration)), false)
      else
        var s1 := s.(past := s.past.(spoken := s.past.spoken + [env.pcm]));
        Prepared(Loaded(s1, Padded(env.pcm), Announced, env.pcmGeneration), true)
    else if |s.pbRing| < FRAME then Prepared(s, false)
    else
      Prepared(Loaded(Framed(s), s.pbRing[..FRAME], Rtc, generation), true)
  }

  function RefFree(s: State): int { s.refCapacity - |s.refRing| }

  /** The device took so many samples, at this gain. */
  function Sent(s: State, written: nat, volume: int): State
    requires s.pending.offset + written <= |s.pending.buffer|
  {
    var p := s.pending;
    var raw := p.buffer[p.offset..p.offset + written];
    var data := Scaled(volume, raw);
    s.(pending := p.(offset := p.offset + written),
       past := s.past.(raw := s.past.raw + raw, gains := s.past.gains + seq(written, _ => volume),
                       sent := s.past.sent + data,
                       sentRtc := if p.source == Rtc then s.past.sentRtc + data else s.past.sentRtc))
  }

  /** Put the written samples of an RTC frame into the reference ring. */
  function Mirror(s: State, data: seq<Sample>): State {
    if data == [] || s.pending.source != Rtc then s
    else if |data| > RefFree(s) then s.(rtcConnected := false, past := s.past.(refFailed := true))
    else s.(refRing := s.refRing + data, past := s.past.(refPushed := s.past.refPushed + data))
  }

  function WriteOut(s: State, env: Env): (r: State)
    requires Sized(s)
    ensures Sized(r)
  {
    var p := s.pending;
    if env.written < 0 || env.written > p.frames then Discard(s)
    else
      var data := Scaled(Volume(env), p.buffer[p.offset..p.offset + env.written]);
      var s1 := Mirror(Poked(Sent(s, env.written, Volume(env)), env.afterWrite), data);
      var s2 := s1.(pending := s1.pending.(frames := p.frames - env.written));
      if s2.pending.frames == 0 || env.generationAtEnd != s2.pending.generation then Discard(s2) else s2
  }

  function Play(s: State, env: Env): (r: State)
    requires Sized(s)
    ensures Sized(r)
  {
    var s1 := Poked(s, env.beforeRoom);
    if s1.pending.source == Rtc && RefFree(s1) < s1.pending.frames then s1
    else
      var s2 := Poked(s1, env.beforeWrite);
      if env.generationAtWrite != s2.pending.generation then Discard(s2) else WriteOut(s2, env)
  }

  function PrepareAndPlay(s: State, env: Env): (r: State)
    requires Sized(s)
    ensures Sized(r)
  {
    var s1 := Poked(s, env.beforePrepare);
    if s1.pending.frames != 0 then Play(s1, env)
    else
      var prepared := Prepare(s1, env.generationAtStart, env);
      if prepared.ready then Play(prepared.state, env) else prepared.state
  }

  /** A new announcement makes room for itself. */
  function Yielded(s: State, env: Env): (r: State)
    requires Sized(s)
    ensures Sized(r)
  {
    if !env.active then s
    else
      var s1 := Drain(s, env.duringYield);
      if s1.pending.frames > 0 && s1.pending.source != Announced then Discard(s1) else s1
  }

  function Fresh(s: State, env: Env): (r: State)
    requires Sized(s)
    ensures Sized(r)
  {
    if s.clearPb || s.pending.generation != env.generationAtStart then
      Flush(s.(clearPb := false), env.generationAtStart, env.duringFlush)
    else s
  }

  function Tick(s: State, env: Env): (r: State)
    requires Sized(s)
    ensures Sized(r)
  {
    if !s.running then s
    else PrepareAndPlay(Yielded(Poked(Fresh(Poked(s, env.start), env), env.beforeActive), env), env)
  }

  function FlushPlayback(s: State, generation: nat, rounds: seq<seq<Poke>>): (r: State)
    requires Sized(s)
    ensures Sized(r)
  {
    Flush(s, generation, rounds).(clearPb := false)
  }

  function Initial(refCapacity: nat, running: bool): (r: State)
    ensures Sized(r)
  {
    State(running, [], [], refCapacity, Pending(Zeros(FRAME), 0, 0, NoSource, 0), false, false,
          Past([], 0, 0, 0, [], None, [], [], [], [], [], [], false))
  }

  datatype Input =
    | TickInput(env: Env)
    | FlushInput(generation: nat, rounds: seq<seq<Poke>>)
    | PokeInput(poke: Poke)

  function Step(s: State, input: Input): (r: State)
    requires Sized(s)
    ensures Sized(r)
  {
    match input
    case TickInput(env) => Tick(s, env)
    case FlushInput(generation, rounds) => FlushPlayback(s, generation, rounds)
    case PokeInput(poke) => ApplyPoke(s, poke)
  }

  function Run(s: State, inputs: seq<Input>): (r: State)
    requires Sized(s)
    ensures Sized(r)
    decreases |inputs|
  {
    if inputs == [] then s else Run(Step(s, inputs[0]), inputs[1..])
  }
}
