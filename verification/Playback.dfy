/**
 The playback worker as an object: rings, the pending frame and the flags are its fields, and
 every method is tied to the function of PlaybackState that specifies it; what every run keeps, every entry point keeps.
 */
module Playback {
  import opened PlaybackState
  import opened PlaybackRuns

  lemma Others(s: State, pokes: seq<Poke>)
    ensures Inv(s) ==> Inv(Poked(s, pokes))
  {
    hide RingOk, ReferenceOk, DeviceOk, FramesOk, SpokenOk;
    if Inv(s) { PokesKeep(s, pokes); }
  }

  /** Other threads do not look at the pending frame. */
  lemma {:induction false} PokedApart(s: State, pending: Pending, pokes: seq<Poke>)
    ensures Poked(s.(pending := pending), pokes) == Poked(s, pokes).(pending := pending)
    decreases |pokes|
  {
    if pokes != [] { PokedApart(ApplyPoke(s, pokes[0]), pending, pokes[1..]); }
  }

  lemma DrainUnfold(s: State, scratch: seq<Sample>, rounds: seq<seq<Poke>>)
    requires s.pbRing != [] && |scratch| == FRAME
    ensures var s1 := Popped(s, Chunk(s));
      var next := if rounds == [] then s1 else Poked(s1, rounds[0]);
      var rest := if rounds == [] then [] else rounds[1..];
      Drain(s, rounds) == Drain(next, rest) && Scratch(s, scratch, rounds) == Scratch(next, Filled(s, scratch), rest)
  {
  }

  lemma DrainedEmpty(s: State, scratch: seq<Sample>, rounds: seq<seq<Poke>>)
    requires s.pbRing == [] && |scratch| == FRAME
    ensures Drain(s, rounds) == s && Scratch(s, scratch, rounds) == scratch
  {
  }

  class Playback {
    const refCapacity: nat
    var running: bool
    var pbRing: seq<Sample>
    var refRing: seq<Sample>
    const buffer: array<Sample>
    const announceFrame: array<Sample>
    var offset: nat
    var frames: nat
    var source: Source
    var generation: nat
    var rtcConnected: bool
    var clearPb: bool
    ghost var past: Past

    ghost predicate Valid()
      reads this, buffer
    {
      buffer.Length == FRAME == announceFrame.Length && buffer != announceFrame && offset + frames <= FRAME
    }

    ghost function Now(): (s: State)
      reads this, buffer
      ensures Valid() ==> Sized(s)
    {
      State(running, pbRing, refRing, refCapacity, Pending(buffer[..], offset, frames, source, generation),
            rtcConnected, clearPb, past)
    }

    constructor (refCapacity: nat, running: bool)
      ensures Valid() && fresh(buffer) && fresh(announceFrame)
      ensures Now() == Initial(refCapacity, running) && Inv(Now())
    {
      this.refCapacity, this.running := refCapacity, running;
      pbRing, refRing, rtcConnected, clearPb := [], [], false, false;
      buffer := new Sample[FRAME](_ => 0);
      announceFrame := new Sample[FRAME](_ => 0);
      offset, frames, source, generation := 0, 0, NoSource, 0;
      past := Past([], 0, 0, 0, [], None, [], [], [], [], [], [], false);
      new;
      assert buffer[..] == Zeros(FRAME);
      InitialKeeps(refCapacity, running);
    }

    /** Other threads run. */
    method Yield(pokes: seq<Poke>)
      modifies this`pbRing, this`refRing, this`rtcConnected, this`clearPb, this`past
      ensures Now() == Poked(old(Now()), pokes) && (old(Inv(Now())) ==> Inv(Now()))
    {
      hide Inv;
      Others(Now(), pokes);
      var i := 0;
      while i < |pokes|
        invariant 0 <= i <= |pokes|
        invariant Poked(Now(), pokes[i..]) == Poked(old(Now()), pokes)
      {
        assert pokes[i..][0] == pokes[i] && pokes[i..][1..] == pokes[i + 1..];
        match pokes[i] {
          case RemoteAudio(samples) =>
            pbRing := pbRing + samples;
            past := past.(pushed := past.pushed + samples);
          case ReferenceTaken(count) =>
            var n := if count < |refRing| then count else |refRing|;
            past := past.(refTaken := past.refTaken + refRing[..n]);
            refRing := refRing[n..];
          case ClearRequested => clearPb := true;
          case Connected(connected) => rtcConnected := connected;
        }
        i := i + 1;
      }
      assert pokes[i..] == [];
    }

    /** This state with another frame pending. */
    ghost function Before(pending: Pending): State
      reads this, buffer
    {
      Now().(pending := pending)
    }

    /** Read into the scratch space until the ring is found empty, a scratch full at a time. */
    method DrainPlaybackRing(scratch: array<Sample>, rounds: seq<seq<Poke>>)
      requires Valid() && (scratch == buffer || scratch == announceFrame)
      modifies this`pbRing, this`refRing, this`rtcConnected, this`clearPb, this`past, scratch
      ensures Valid() && scratch[..] == Scratch(old(Now()), old(scratch[..]), rounds)
      ensures Now() == Drain(old(Now()), rounds).(pending := old(Now().pending).(buffer := buffer[..]))
    {
      hide Poked, Drain, Scratch, Popped, Chunk;
      ghost var pending := Now().pending;
      var i := 0;
      while pbRing != []
        invariant 0 <= i <= |rounds| && Valid() && offset + frames <= FRAME
        invariant scratch == announceFrame ==> buffer[..] == old(buffer[..])
        invariant Drain(Before(pending), rounds[i..]) == Drain(old(Now()), rounds)
        invariant Scratch(Before(pending), scratch[..], rounds[i..]) == Scratch(old(Now()), old(scratch[..]), rounds)
        decreases |rounds| - i, |pbRing|
      {
        DrainUnfold(Before(pending), scratch[..], rounds[i..]);
        ReadChunk(scratch, pending);
        if i < |rounds| {
          assert rounds[i..][0] == rounds[i] && rounds[i..][1..] == rounds[i + 1..];
          PokedApart(Now(), pending, rounds[i]);
          Yield(rounds[i]);
          i := i + 1;
        } else {
          assert rounds[i..] == [];
        }
      }
      DrainedEmpty(Before(pending), scratch[..], rounds[i..]);
    }

    /** One read of a drain. */
    method ReadChunk(scratch: array<Sample>, ghost pending: Pending)
      requires Valid() && (scratch == buffer || scratch == announceFrame) && pbRing != []
      modifies this`pbRing, this`past, scratch
      ensures Valid() && |pbRing| < |old(pbRing)|
      ensures Before(pending) == Popped(old(Before(pending)), Chunk(old(Before(pending))))
      ensures scratch[..] == Filled(old(Before(pending)), old(scratch[..]))
      ensures scratch == announceFrame ==> buffer[..] == old(buffer[..])
    {
      var n := if |pbRing| < FRAME then |pbRing| else FRAME;
      CopyFront(scratch, pbRing[..n]);
      pbRing := pbRing[n..];
      past := past.(popped := past.popped + n);
    }

    method CopyFront(scratch: array<Sample>, data: seq<Sample>)
      requires |data| <= scratch.Length
      modifies scratch
      ensures scratch[..] == data + old(scratch[|data|..])
    {
      var i := 0;
      while i < |data|
        invariant i <= |data| && scratch[..i] == data[..i] && scratch[i..] == old(scratch[..])[i..]
      {
        scratch[i] := data[i];
        i := i + 1;
      }
      assert scratch[..] == scratch[..i] + scratch[i..];
    }

    /** The frame given up is the one that was in the buffer. */
    method DiscardPendingPlayback(ghost frame: seq<Sample>)
      requires Valid()
      modifies this`offset, this`frames, this`source, this`past
      ensures Valid()
      ensures Now() == Discard(old(Now()).(pending := old(Now().pending).(buffer := frame))).(
        pending := Pending(old(buffer[..]), 0, 0, NoSource, old(generation)))
    {
      if source != NoSource {
        past := past.(finished := Then(past.finished, Frame(source, frame, past.at, offset)));
      }
      offset := 0;
      frames := 0;
      source := NoSource;
    }

    /** Drain the ring through the pending buffer, then forget the pending frame. */
    method DrainAndDiscard(to: nat, rounds: seq<seq<Poke>>)
      requires Valid()
      modifies this, buffer
      ensures Valid() && Now() == Flush(old(Now()), to, rounds)
    {
      hide Drain, Scratch;
      ghost var frame := buffer[..];
      DrainPlaybackRing(buffer, rounds);
      DiscardPendingPlayback(frame);
      generation := to;
      past := past.(flushed := past.popped);
    }

    method CopyIn(data: seq<Sample>)
      requires |data| == buffer.Length
      modifies buffer
      ensures buffer[..] == data
    {
      var i := 0;
      while i < |data|
        invariant i <= |data| && buffer[..i] == data[..i]
      {
        buffer[i] := data[i];
        i := i + 1;
      }
      assert buffer[..] == buffer[..i] && data == data[..i];
    }

    method PreparePendingPlayback(active: bool, current: nat, env: Env) returns (ready: bool)
      requires Valid() && active == env.active
      modifies this, buffer
      ensures Valid()
      ensures Prepared(Now(), ready) == Prepare(old(Now()), current, env)
    {
      hide Padded;
      if active {
        CopyIn(Padded(env.pcm));
        generation := env.pcmGeneration;
        if |env.pcm| > FRAME || env.pcm == [] { return false; }
        past := past.(spoken := past.spoken + [env.pcm]);
      } else {
        if |pbRing| < FRAME { return false; }
        CopyIn(pbRing[..FRAME]);
        past := past.(at := past.popped, popped := past.popped + FRAME);
        pbRing := pbRing[FRAME..];
        generation := current;
      }
      offset := 0;
      frames := FRAME;
      source := if active then Announced else Rtc;
      return true;
    }

    method PlaybackTimer(env: Env)
      requires Valid() && Inv(Now())
      modifies this, buffer, announceFrame
      ensures Valid() && Now() == Tick(old(Now()), env) && Inv(Now())
    {
      hide Poked, Fresh, Yielded, PrepareAndPlay, Inv;
      TickKeeps(Now(), env);
      if !running { return; }
      Yield(env.start);
      DropStale(env);
      Yield(env.beforeActive);
      GiveWay(env);
      PlayNext(env);
    }

    method DropStale(env: Env)
      requires Valid()
      modifies this, buffer
      ensures Valid() && Now() == Fresh(old(Now()), env)
    {
      hide Flush;
      if clearPb || generation != env.generationAtStart {
        clearPb := false;
        DrainAndDiscard(env.generationAtStart, env.duringFlush);
      }
    }

    /** An active announcement wins over buffered RTC audio. */
    method GiveWay(env: Env)
      requires Valid()
      modifies this, announceFrame
      ensures Valid() && Now() == Yielded(old(Now()), env)
    {
      hide Discard, Drain, Scratch;
      if env.active {
        DrainPlaybackRing(announceFrame, env.duringYield);
        if frames > 0 && source != Announced { DiscardNow(); }
      }
    }

    method PlayNext(env: Env)
      requires Valid()
      modifies this, buffer
      ensures Valid() && Now() == PrepareAndPlay(old(Now()), env)
    {
      hide Poked, Prepare, Play;
      Yield(env.beforePrepare);
      if frames == 0 {
        var ready := PreparePendingPlayback(env.active, env.generationAtStart, env);
        if !ready { return; }
      }
      PlayPending(env);
    }

    method PlayPending(env: Env)
      requires Valid()
      modifies this
      ensures Valid() && Now() == Play(old(Now()), env)
    {
      hide Poked, WriteOut, Discard;
      Yield(env.beforeRoom);
      if source == Rtc && refCapacity - |refRing| < frames { return; }
      Yield(env.beforeWrite);
      if env.generationAtWrite != generation {
        DiscardNow();
        return;
      }
      WritePending(env);
    }

    method DiscardNow()
      requires Valid()
      modifies this`offset, this`frames, this`source, this`past
      ensures Valid() && Now() == Discard(old(Now()))
    {
      DiscardPendingPlayback(buffer[..]);
    }

    /** Hand the rest of the frame to the device, at the present volume, and mirror what it took. */
    method WritePending(env: Env)
      requires Valid()
      modifies this
      ensures Valid() && Now() == WriteOut(old(Now()), env)
    {
      hide Poked, Scaled, Discard, Mirror, Sent, Volume;
      var written := env.written;
      if written < 0 || written > frames {
        DiscardNow();
        return;
      }
      var raw := buffer[offset..offset + written];
      assert raw == buffer[..][offset..offset + written];
      var data := Scaled(Volume(env), raw);
      DeviceTook(raw, data, Volume(env));
      Yield(env.afterWrite);
      EnqueueReference(data);
      frames := frames - written;
      if frames == 0 || env.generationAtEnd != generation { DiscardNow(); }
    }

    method EnqueueReference(data: seq<Sample>)
      modifies this`rtcConnected, this`refRing, this`past
      ensures Now() == Mirror(old(Now()), data)
    {
      if |data| > 0 && source == Rtc {
        if |data| > refCapacity - |refRing| {
          rtcConnected := false;
          past := past.(refFailed := true);
        } else {
          refRing := refRing + data;
          past := past.(refPushed := past.refPushed + data);
        }
      }
    }

    method DeviceTook(raw: seq<Sample>, data: seq<Sample>, volume: int)
      requires Valid() && |raw| <= frames && raw == buffer[offset..offset + |raw|] && data == Scaled(volume, raw)
      modifies this`offset, this`past
      ensures offset == old(offset) + |raw| && Now() == Sent(old(Now()), |raw|, volume)
    {
      assert raw == buffer[..][offset..offset + |raw|];
      offset := offset + |raw|;
      past := past.(raw := past.raw + raw, gains := past.gains + seq(|raw|, _ => volume),
                    sent := past.sent + data,
                    sentRtc := if source == Rtc then past.sentRtc + data else past.sentRtc);
    }

    method FlushPlaybackNow(to: nat, rounds: seq<seq<Poke>>)
      requires Valid() && Inv(Now())
      modifies this, buffer
      ensures Valid() && Now() == FlushPlayback(old(Now()), to, rounds) && Inv(Now())
    {
      hide Flush, Inv, Poked;
      StepKeeps(Now(), FlushInput(to, rounds));
      DrainAndDiscard(to, rounds);
      clearPb := false;
    }
  }
}
