/**
 The announcement queue of mybot_announce.c: a prompt and digit sounds streamed one after the
 other. What a reader gets does not depend on how much it asks for at a time, and every handle
 the platform opens is closed exactly once.
 */
module Announce {
  import opened CText

  type Sample = int

  datatype Sound = Prompt | Digit(digit: nat)

  const MAX_CODE_LEN: nat := 16
  const MAX_QUEUE: nat := 1 + MAX_CODE_LEN

  // ------------------------------------------------------------------ specification

  function DigitsOf(code: string): seq<nat> {
    if code == [] then []
    else (if '0' <= code[0] <= '9' then [(code[0] - '0') as nat] else []) + DigitsOf(code[1..])
  }

  lemma DigitsStep(code: string, p: nat)
    requires p < |code|
    ensures DigitsOf(code[p..]) ==
      (if '0' <= code[p] <= '9' then [(code[p] - '0') as nat] else []) + DigitsOf(code[p + 1..])
  {
    assert code[p..][0] == code[p] && code[p..][1..] == code[p + 1..];
  }

  lemma DigitsDone(code: string)
    ensures code == [] ==> DigitsOf(code) == []
  {
  }

  function FirstDigits(code: string): (d: seq<nat>)
    ensures |d| <= MAX_CODE_LEN
  {
    var all := DigitsOf(code);
    if |all| <= MAX_CODE_LEN then all else all[..MAX_CODE_LEN]
  }

  function Sounds(digits: seq<nat>): (s: seq<Sound>)
    ensures |s| == |digits|
  {
    if digits == [] then [] else [Digit(digits[0])] + Sounds(digits[1..])
  }

  function Asset(sounds: map<Sound, seq<Sample>>, sound: Sound): seq<Sample> {
    if sound in sounds then sounds[sound] else []
  }

  /** The PCM of a list of sounds; a missing one is passed over. */
  function Heard(sounds: map<Sound, seq<Sample>>, list: seq<Sound>): seq<Sample> {
    if list == [] then [] else Asset(sounds, list[0]) + Heard(sounds, list[1..])
  }

  /** The prompt, then the first sixteen digits of the code. */
  function Spelt(code: string): seq<Sound> { [Prompt] + Sounds(FirstDigits(code)) }

  function Announcement(sounds: map<Sound, seq<Sample>>, code: string): seq<Sample> {
    Heard(sounds, Spelt(code))
  }

  /** The sounds one after the other, each of them perhaps broken off. */
  ghost predicate Abridged(pcm: seq<Sample>, sounds: map<Sound, seq<Sample>>, list: seq<Sound>)
    decreases |list|
  {
    if list == [] then pcm == []
    else
      exists k :: 0 <= k <= |pcm| && Abridged(pcm[..k], sounds, list[..|list| - 1]) &&
                  pcm[k..] <= Asset(sounds, list[|list| - 1])
  }

  lemma AbridgedNext(pcm: seq<Sample>, sounds: map<Sound, seq<Sample>>, list: seq<Sound>, last: Sound,
                     piece: seq<Sample>)
    requires Abridged(pcm, sounds, list) && piece <= Asset(sounds, last)
    ensures Abridged(pcm + piece, sounds, list + [last])
  {
    var k := |pcm|;
    assert (pcm + piece)[..k] == pcm && (pcm + piece)[k..] == piece;
    assert (list + [last])[..|list|] == list;
  }

  lemma {:induction false} HeardLast(sounds: map<Sound, seq<Sample>>, list: seq<Sound>, last: Sound)
    ensures Heard(sounds, list + [last]) == Heard(sounds, list) + Asset(sounds, last)
  {
    hide Asset;
    var longer := list + [last];
    if list == [] {
      assert longer[0] == last && longer[1..] == [];
    } else {
      HeardLast(sounds, list[1..], last);
      assert longer[0] == list[0] && longer[1..] == list[1..] + [last];
    }
  }

  lemma OnlyPrompt(sounds: map<Sound, seq<Sample>>, pcm: seq<Sample>)
    requires Prompt in sounds && pcm <= sounds[Prompt]
    ensures Abridged(pcm, sounds, [Prompt]) && Heard(sounds, [Prompt]) == sounds[Prompt]
  {
    AbridgedNext([], sounds, [], Prompt, pcm);
    assert [] + [Prompt] == [Prompt] && [] + pcm == pcm && [Prompt][1..] == [];
  }

  lemma {:induction false} SoundsLast(digits: seq<nat>, last: nat)
    ensures Sounds(digits + [last]) == Sounds(digits) + [Digit(last)]
  {
    if digits == [] {
      assert [last][1..] == [];
    } else {
      SoundsLast(digits[1..], last);
      assert (digits + [last])[1..] == digits[1..] + [last];
    }
  }

  /** Other characters than digits are dropped, wherever they stand. */
  lemma {:induction false} OthersAreDropped(before: string, c: char, after: string)
    requires !('0' <= c <= '9')
    ensures DigitsOf(before + [c] + after) == DigitsOf(before + after)
    decreases |before|
  {
    var with, without := before + [c] + after, before + after;
    if before == [] {
      assert with[0] == c && with[1..] == after == without;
    } else {
      assert with[1..] == before[1..] + [c] + after && without[1..] == before[1..] + after;
      OthersAreDropped(before[1..], c, after);
    }
  }

  lemma {:induction false} DigitsStay(code: string)
    requires forall i :: 0 <= i < |code| ==> '0' <= code[i] <= '9'
    ensures DigitsOf(code) == seq(|code|, i requires 0 <= i < |code| => (code[i] - '0') as nat)
    decreases |code|
  {
    if code != [] { DigitsStay(code[1..]); }
  }

  lemma {:induction false} SoundsAre(digits: seq<nat>)
    ensures Sounds(digits) == seq(|digits|, i requires 0 <= i < |digits| => Digit(digits[i]))
  {
    if digits != [] { SoundsAre(digits[1..]); }
  }

  /** A code of digits is announced as the prompt and its first sixteen digits, one sound each. */
  lemma CodeIsSpelt(code: string)
    requires forall i :: 0 <= i < |code| ==> '0' <= code[i] <= '9'
    ensures var n := Least(|code|, 16);
      Spelt(code) == [Prompt] + seq(n, i requires 0 <= i < n => Digit((code[i] - '0') as nat))
  {
    DigitsStay(code);
    SoundsAre(FirstDigits(code));
  }

  /** What is left to play of these open handles, in order. */
  function Pcm(streams: map<nat, seq<Sample>>, live: seq<nat>): seq<Sample> {
    if live == [] then []
    else (if live[0] in streams then streams[live[0]] else []) + Pcm(streams, live[1..])
  }

  /** The keys are these distinct handles and, apart from them, the others. */
  predicate Owns(keys: set<nat>, live: seq<nat>, others: set<nat>)
    decreases |live|
  {
    if live == [] then keys == others
    else live[0] in keys && live[0] !in others && Owns(keys - {live[0]}, live[1..], others)
  }

  lemma {:induction false} PcmFrame(a: map<nat, seq<Sample>>, b: map<nat, seq<Sample>>, keys: set<nat>,
                                    live: seq<nat>, others: set<nat>)
    requires Owns(keys, live, others) && keys <= a.Keys && keys <= b.Keys
    requires forall h :: h in keys ==> a[h] == b[h]
    ensures Pcm(a, live) == Pcm(b, live)
    decreases |live|
  {
    if live != [] { PcmFrame(a, b, keys - {live[0]}, live[1..], others); }
  }

  lemma {:induction false} OwnsMore(keys: set<nat>, live: seq<nat>, others: set<nat>, h: nat)
    requires Owns(keys, live, others) && h !in keys
    ensures Owns(keys + {h}, live, others + {h})
    decreases |live|
  {
    if live != [] {
      OwnsMore(keys - {live[0]}, live[1..], others, h);
      assert keys - {live[0]} + {h} == keys + {h} - {live[0]};
    }
  }

  lemma {:induction false} OwnsLast(keys: set<nat>, live: seq<nat>, h: nat)
    requires Owns(keys, live, {}) && h !in keys
    ensures Owns(keys + {h}, live + [h], {})
    decreases |live|
  {
    if live == [] {
      assert keys + {h} - {h} == {} && [h][1..] == [];
    } else {
      OwnsLast(keys - {live[0]}, live[1..], h);
      assert keys - {live[0]} + {h} == keys + {h} - {live[0]};
      assert (live + [h])[1..] == live[1..] + [h];
    }
  }

  lemma {:induction false} PcmLast(streams: map<nat, seq<Sample>>, live: seq<nat>, h: nat)
    requires h in streams
    ensures Pcm(streams, live + [h]) == Pcm(streams, live) + streams[h]
    decreases |live|
  {
    if live == [] {
      assert [h][1..] == [];
    } else {
      PcmLast(streams, live[1..], h);
      assert (live + [h])[1..] == live[1..] + [h];
    }
  }

  lemma PcmHead(streams: map<nat, seq<Sample>>, live: seq<nat>)
    requires live != [] && live[0] in streams
    ensures Pcm(streams, live) == streams[live[0]] + Pcm(streams, live[1..])
  {
  }

  lemma Shift(done: seq<Sample>, head: seq<Sample>, n: nat, rest: seq<Sample>)
    requires n <= |head|
    ensures done + (head + rest) == done + head[..n] + (head[n..] + rest)
  {
  }

  /** The handles that are still there, in order. */
  function LiveOf(handles: seq<Option<nat>>): seq<nat> {
    if handles == [] then []
    else (if handles[0].Some? then [handles[0].value] else []) + LiveOf(handles[1..])
  }

  lemma LiveHead(handles: seq<Option<nat>>)
    requires handles != []
    ensures handles[0].None? ==> LiveOf(handles) == LiveOf(handles[1..])
    ensures handles[0].Some? ==> LiveOf(handles) != [] && LiveOf(handles)[0] == handles[0].value
    ensures handles[0].Some? ==> LiveOf(handles)[1..] == LiveOf(handles[1..])
  {
  }

  lemma PromptFirst(streams: map<nat, seq<Sample>>, prompt: nat)
    requires prompt in streams
    ensures Owns({prompt}, [prompt], {}) && Pcm(streams, [prompt]) == streams[prompt]
  {
    assert {prompt} - {prompt} == {} && [prompt][1..] == [];
  }

  lemma {:induction false} LiveAll(handles: seq<Option<nat>>, issued: seq<nat>)
    requires |handles| == |issued| && forall i :: 0 <= i < |issued| ==> handles[i] == Some(issued[i])
    ensures LiveOf(handles) == issued
    decreases |issued|
  {
    if issued != [] {
      LiveAll(handles[1..], issued[1..]);
      assert issued == [issued[0]] + issued[1..];
    }
  }

  lemma OwnsHead(keys: set<nat>, live: seq<nat>, others: set<nat>)
    requires Owns(keys, live, others) && live != []
    ensures live[0] in keys && live[0] !in others && Owns(keys - {live[0]}, live[1..], others)
  {
  }

  lemma OwnsNone(keys: set<nat>, live: seq<nat>, others: set<nat>)
    requires Owns(keys, live, others) && live == []
    ensures keys == others
  {
  }

  lemma {:induction false} NonesDropped(handles: seq<Option<nat>>, k: nat)
    requires k <= |handles| && forall i :: 0 <= i < k ==> handles[i] == None
    ensures LiveOf(handles) == LiveOf(handles[k..])
    decreases k
  {
    if k > 0 {
      LiveHead(handles);
      NonesDropped(handles[1..], k - 1);
      assert handles[1..][k - 1..] == handles[k..];
    } else {
      assert handles[0..] == handles;
    }
  }

  // ----------------------------------------------------------------------- any sizes

  function Least(a: nat, b: nat): nat { if a < b then a else b }

  /** What readers asking for these sizes one after the other get in all. */
  function Served(pending: seq<Sample>, sizes: seq<nat>): seq<Sample>
    decreases |sizes|
  {
    if sizes == [] then []
    else
      var n := Least(sizes[0], |pending|);
      pending[..n] + Served(pending[n..], sizes[1..])
  }

  function Total(sizes: seq<nat>): nat { if sizes == [] then 0 else sizes[0] + Total(sizes[1..]) }

  /** Only the sum of the sizes matters: the reads concatenate to the front of what was pending. */
  lemma {:induction false} SizesDoNotMatter(pending: seq<Sample>, sizes: seq<nat>)
    ensures Served(pending, sizes) == pending[..Least(Total(sizes), |pending|)]
    decreases |sizes|
  {
    if sizes != [] {
      var n := Least(sizes[0], |pending|);
      SizesDoNotMatter(pending[n..], sizes[1..]);
      var m := Least(Total(sizes[1..]), |pending| - n);
      assert pending[..n] + pending[n..][..m] == pending[..n + m];
    }
  }

  lemma Taken(done: seq<Sample>, pending: seq<Sample>, n: nat, rest: seq<Sample>)
    requires n <= |pending|
    ensures done + pending == (done + pending[..n]) + pending[n..]
    ensures done + (pending[..n] + rest) == (done + pending[..n]) + rest
  {
  }

  lemma ServedStep(pending: seq<Sample>, sizes: seq<nat>, i: nat)
    requires i < |sizes|
    ensures var n := Least(sizes[i], |pending|);
      Served(pending, sizes[i..]) == pending[..n] + Served(pending[n..], sizes[i + 1..])
  {
    assert sizes[i..][0] == sizes[i] && sizes[i..][1..] == sizes[i + 1..];
  }

  // ---------------------------------------------------------------- platform source

  /**
   The platform's sounds. A stream holds what its handle still delivers, up to the end of the sound
   or the first error.
   */
  class SoundSource {
    const sounds: map<Sound, seq<Sample>>
    // Sounds are never broken off by an error.
    const reliable: bool
    // The source never reports more frames than it was asked for.
    const honest: bool
    var streams: map<nat, seq<Sample>>
    var issued: nat
    // How often more frames were reported than asked for.
    ghost var overruns: nat

    ghost predicate Valid()
      reads this
    {
      forall h :: h in streams ==> h < issued
    }

    constructor (sounds: map<Sound, seq<Sample>>, reliable: bool, honest: bool)
      ensures Valid() && streams == map[]
      ensures this.sounds == sounds && this.reliable == reliable && this.honest == honest
    {
      this.sounds, this.reliable, this.honest := sounds, reliable, honest;
      streams, issued, overruns := map[], 0, 0;
    }

    method Open(sound: Sound) returns (handle: Option<nat>)
      requires Valid()
      modifies this
      ensures Valid() && overruns == old(overruns)
      ensures if sound in sounds then
          handle == Some(old(issued)) && issued == old(issued) + 1 && old(issued) in streams &&
          streams == old(streams)[old(issued) := streams[old(issued)]] &&
          streams[old(issued)] <= sounds[sound] && (reliable ==> streams[old(issued)] == sounds[sound])
        else handle == None && issued == old(issued) && streams == old(streams)
    {
      if sound !in sounds { return None; }
      handle := Some(issued);
      var whole := sounds[sound];
      var k: nat :| k <= |whole| && (reliable ==> k == |whole|);
      streams := streams[issued := whole[..k]];
      issued := issued + 1;
    }

    /** Closing is only for an open handle: closing one twice would be an error. */
    method Close(handle: nat)
      requires Valid() && handle in streams
      modifies this
      ensures Valid() && streams == old(streams) - {handle} && issued == old(issued) && overruns == old(overruns)
    {
      streams := streams - {handle};
    }

    /** Any number of frames up to max, none when nothing is left, or too many if not honest. */
    method Read(handle: nat, dst: array<Sample>, at: nat, max: nat) returns (n: int)
      requires Valid() && handle in streams && max > 0 && at + max <= dst.Length
      modifies `streams, `overruns, dst
      ensures Valid() && streams.Keys == old(streams.Keys)
      ensures overruns == old(overruns) + if n > max then 1 else 0
      ensures n > max ==> streams == old(streams)
      ensures forall i :: 0 <= i < dst.Length && !(at <= i < at + max) ==> dst[i] == old(dst[i])
      ensures forall h :: h in streams && h != handle ==> streams[h] == old(streams[h])
      ensures honest ==> n <= max
      ensures n <= max ==>
        (n <= 0 <==> old(streams[handle]) == []) && n <= |old(streams[handle])|
      ensures 0 < n <= max ==>
        dst[at..at + n] == old(streams[handle][..n]) && streams[handle] == old(streams[handle][n..])
      ensures n <= 0 ==> streams == old(streams) && dst[..] == old(dst[..])
    {
      var rest := streams[handle];
      if !honest {
        if * {
          overruns := overruns + 1;
          return max + 1;
        }
      }
      if rest == [] {
        if * { return -1; }
        return 0;
      }
      var k: nat :| 1 <= k <= max && k <= |rest|;
      var i := 0;
      while i < k
        modifies dst
        invariant i <= k && dst[at..at + i] == rest[..i]
        invariant forall j :: 0 <= j < dst.Length && !(at <= j < at + max) ==> dst[j] == old(dst[j])
      {
        dst[at + i] := rest[i];
        i := i + 1;
      }
      streams := streams[handle := rest[k..]];
      return k;
    }
  }

  // ------------------------------------------------------------------------- queue

  class Announce {
    const ops: SoundSource
    const handles: array<Option<nat>>
    var queuePos: nat
    var queueLen: nat
    var generation: nat
    var active: bool

    ghost predicate Shaped()
      reads this, handles
    {
      handles.Length == MAX_QUEUE && queuePos <= queueLen <= MAX_QUEUE &&
      (forall i :: 0 <= i < queuePos ==> handles[i] == None) &&
      forall i :: queuePos <= i < queueLen ==> handles[i].Some?
    }

    /** The handles still queued. */
    ghost function Live(): seq<nat>
      requires Shaped()
      reads this, handles
    {
      LiveOf(handles[queuePos..queueLen])
    }

    /** The open handles are exactly the queued ones, each queued once. */
    ghost predicate Valid()
      reads this, handles, ops
    {
      Shaped() && ops.Valid() && Owns(ops.streams.Keys, Live(), {}) && (!active ==> queueLen == queuePos)
    }

    ghost function Pending(): seq<Sample>
      requires Shaped()
      reads this, handles, ops
    {
      Pcm(ops.streams, Live())
    }

    constructor (ops: SoundSource)
      requires ops.Valid() && ops.streams == map[]
      ensures Valid() && this.ops == ops && fresh(handles) && active && Pending() == []
    {
      this.ops := ops;
      handles := new Option<nat>[MAX_QUEUE](_ => None);
      queuePos, queueLen, generation, active := 0, 0, 0, true;
    }

    method CloseQueuedSounds(ghost others: set<nat>)
      requires Shaped() && ops.Valid() && Owns(ops.streams.Keys, Live(), others)
      modifies this`queuePos, this`queueLen, handles, ops
      ensures Shaped() && ops.Valid() && queueLen == 0 && ops.issued == old(ops.issued)
      ensures ops.streams.Keys == others
      ensures forall h :: h in others && h in old(ops.streams) ==> ops.streams[h] == old(ops.streams[h])
    {
      hide Owns;
      var i := 0;
      NonesDropped(handles[0..queueLen], queuePos);
      assert handles[0..queueLen][queuePos..] == handles[queuePos..queueLen];
      while i < queueLen
        invariant i <= queueLen == old(queueLen) && queuePos == old(queuePos) && handles.Length == MAX_QUEUE
        invariant forall j :: 0 <= j < i ==> handles[j] == None
        invariant ops.Valid() && ops.issued == old(ops.issued)
        invariant Owns(ops.streams.Keys, LiveOf(handles[i..queueLen]), others)
        invariant forall h :: h in ops.streams ==> h in old(ops.streams) && ops.streams[h] == old(ops.streams[h])
      {
        ghost var rest := handles[i..queueLen];
        LiveHead(rest);
        if handles[i].Some? {
          OwnsHead(ops.streams.Keys, LiveOf(rest), others);
          ghost var keys := ops.streams.Keys;
          ops.Close(handles[i].value);
          assert ops.streams.Keys == keys - {rest[0].value};
          handles[i] := None;
        }
        i := i + 1;
        assert handles[i..queueLen] == rest[1..];
      }
      OwnsNone(ops.streams.Keys, LiveOf(handles[i..queueLen]), others);
      queueLen := 0;
      queuePos := 0;
    }

    /** The digit sounds to open after the prompt: the first sixteen digits of the code. */
    static method ListSounds(code: string) returns (list: seq<Sound>)
      ensures list == Sounds(FirstDigits(code)) && |list| < MAX_QUEUE
    {
      hide DigitsOf;
      list := [];
      var p := 0;
      ghost var digits: seq<nat> := [];
      assert code[0..] == code;
      while p < |code|
        invariant p <= |code| && list == Sounds(digits) && |digits| <= MAX_CODE_LEN
        invariant DigitsOf(code) == digits + DigitsOf(code[p..])
      {
        DigitsStep(code, p);
        if code[p] < '0' || code[p] > '9' { p := p + 1; continue; }
        var digit := (code[p] - '0') as nat;
        if 1 + |list| >= MAX_QUEUE {
          assert DigitsOf(code)[..MAX_CODE_LEN] == digits;
          return;
        }
        SoundsLast(digits, digit);
        digits := digits + [digit];
        list := list + [Digit(digit)];
        p := p + 1;
      }
      DigitsDone(code[p..]);
      assert DigitsOf(code) == digits;
    }

    /** These handles have been opened for the wanted sounds, beside what is queued. */
    ghost predicate Opened(issued: seq<nat>, keys: set<nat>, wanted: seq<Sound>)
      reads this, handles, ops
    {
      Shaped() && ops.Valid() && keys <= ops.streams.Keys && |issued| <= |wanted| &&
      Owns(ops.streams.Keys, Live(), keys) && Owns(keys, issued, {}) &&
      Abridged(Pcm(ops.streams, issued), ops.sounds, wanted) &&
      (ops.reliable ==> Pcm(ops.streams, issued) == Heard(ops.sounds, wanted))
    }

    method OpenNext(issued: seq<nat>, ghost keys: set<nat>, ghost wanted: seq<Sound>, sound: Sound)
      returns (more: seq<nat>, ghost all: set<nat>)
      requires Opened(issued, keys, wanted)
      modifies ops
      ensures Opened(more, all, wanted + [sound])
    {
      hide Owns, Heard, Pcm, Abridged;
      ghost var before := ops.streams;
      ghost var pcm := Pcm(before, issued);
      HeardLast(ops.sounds, wanted, sound);
      var handle := ops.Open(sound);
      if handle.None? {
        AbridgedNext(pcm, ops.sounds, wanted, sound, []);
        assert pcm + [] == pcm;
        return issued, keys;
      }
      var h := handle.value;
      OwnsMore(before.Keys, Live(), keys, h);
      OwnsLast(keys, issued, h);
      PcmFrame(before, ops.streams, keys, issued, {});
      PcmLast(ops.streams, issued, h);
      AbridgedNext(pcm, ops.sounds, wanted, sound, ops.streams[h]);
      assert ops.streams.Keys == before.Keys + {h};
      return issued + [h], keys + {h};
    }

    /** Behind the open prompt, open what there is of a list of sounds. */
    method OpenSounds(prompt: nat, list: seq<Sound>) returns (issued: seq<nat>, ghost keys: set<nat>)
      requires Opened([prompt], {prompt}, [Prompt])
      modifies ops
      ensures Opened(issued, keys, [Prompt] + list)
    {
      hide Opened;
      issued, keys := [prompt], {prompt};
      var i := 0;
      assert [Prompt] + list[..0] == [Prompt];
      while i < |list|
        invariant i <= |list| && Opened(issued, keys, [Prompt] + list[..i])
      {
        assert [Prompt] + list[..i + 1] == [Prompt] + list[..i] + [list[i]];
        issued, keys := OpenNext(issued, keys, [Prompt] + list[..i], list[i]);
        i := i + 1;
      }
      assert list[..i] == list;
    }

    /**
     Queue the announcement of a code in place of what was queued. Without the prompt sound
     nothing changes; a missing digit sound only drops that digit, and a sound broken off by an
     error only the rest of that sound.
     */
    method PlayPairCode(code: string) returns (result: int)
      requires Valid()
      modifies this`queuePos, this`queueLen, this`generation, handles, ops
      ensures Valid()
      ensures result == if active && Prompt in ops.sounds then 0 else -1
      ensures result == -1 ==>
        Pending() == old(Pending()) && generation == old(generation) && ops.streams == old(ops.streams)
      ensures result == 0 ==> generation == old(generation) + 1 && Abridged(Pending(), ops.sounds, Spelt(code))
      ensures result == 0 && ops.reliable ==> Pending() == Announcement(ops.sounds, code)
    {
      hide Owns, Pcm, Heard, Abridged;
      if !active { return -1; }
      var list := ListSounds(code);
      ghost var before := ops.streams.Keys;
      var prompt := ops.Open(Prompt);
      if prompt.None? { return -1; }
      OwnsMore(before, Live(), {}, prompt.value);
      assert ops.streams.Keys == before + {prompt.value} && {} + {prompt.value} == {prompt.value};
      PromptFirst(ops.streams, prompt.value);
      OnlyPrompt(ops.sounds, ops.streams[prompt.value]);
      var issued;
      ghost var keys;
      issued, keys := OpenSounds(prompt.value, list);
      ghost var streams := ops.streams;
      CloseQueuedSounds(keys);
      PcmFrame(streams, ops.streams, keys, issued, {});
      Enqueue(issued);
      generation := generation + 1;
      return 0;
    }

    method Enqueue(issued: seq<nat>)
      requires Shaped() && queueLen == 0 && |issued| <= MAX_QUEUE
      modifies this`queueLen, handles
      ensures Shaped() && Live() == issued
    {
      var i := 0;
      while i < |issued|
        modifies handles
        invariant i <= |issued|
        invariant forall j :: 0 <= j < i ==> handles[j] == Some(issued[j])
      {
        handles[i] := Some(issued[i]);
        i := i + 1;
      }
      queueLen := |issued|;
      LiveAll(handles[queuePos..queueLen], issued);
    }

    method Stop()
      requires Valid()
      modifies this, handles, ops
      ensures Valid() && active == old(active)
      ensures active ==> Pending() == [] && ops.streams == map[] && generation == old(generation) + 1
      ensures !active ==>
        Pending() == old(Pending()) && ops.streams == old(ops.streams) && generation == old(generation)
    {
      if !active { return; }
      CloseQueuedSounds({});
      generation := generation + 1;
      assert ops.streams.Keys == {};
    }

    method Deinit()
      requires Valid()
      modifies this, handles, ops
      ensures Valid() && !active && Pending() == [] && ops.streams == map[] && generation == old(generation)
    {
      if active {
        CloseQueuedSounds({});
        active := false;
      }
      assert ops.streams.Keys == {};
    }

    method IsActive() returns (playing: bool)
      requires Valid()
      ensures playing <==> active && Live() != []
    {
      playing := false;
      if active { playing := queuePos < queueLen; }
    }

    method GetGeneration() returns (current: nat)
      ensures current == if active then generation else 0
    {
      current := 0;
      if active { current := generation; }
    }

    /** One read of the first queued sound; at its end it is closed and the next one is first. */
    method ReadHead(dst: array<Sample>, total: nat, max: nat) returns (n: int)
      requires Valid() && active && queuePos < queueLen && total < max <= dst.Length
      modifies this`queuePos, handles, ops, dst
      ensures Valid() && (ops.honest ==> n <= max - total)
      ensures queuePos == if n <= 0 then old(queuePos) + 1 else old(queuePos)
      ensures ops.overruns == old(ops.overruns) + if n > max - total then 1 else 0
      ensures dst[..if 0 < n <= max - total then total + n else total] + Pending() == old(dst[..total] + Pending())
    {
      hide Owns, Pcm;
      var handle := handles[queuePos].value;
      ghost var live := Live();
      LiveHead(handles[queuePos..queueLen]);
      assert handles[queuePos..queueLen][1..] == handles[queuePos + 1..queueLen];
      OwnsHead(ops.streams.Keys, live, {});
      ghost var before := ops.streams;
      ghost var done := dst[..total];
      n := ops.Read(handle, dst, total, max - total);
      if n > max - total {
        assert dst[..total] == done;
        return;
      }
      PcmFrame(before, ops.streams, before.Keys - {handle}, live[1..], {});
      ghost var rest := Pcm(before, live[1..]);
      PcmHead(before, live);
      if n > 0 {
        PcmHead(ops.streams, live);
        assert dst[..total + n] == done + dst[total..total + n];
        Shift(done, before[handle], n, rest);
      } else {
        assert dst[..total] == done;
        ops.Close(handle);
        assert ops.streams.Keys == before.Keys - {handle};
        PcmFrame(before, ops.streams, before.Keys - {handle}, live[1..], {});
        assert [] + rest == rest;
        handles[queuePos] := None;
        queuePos := queuePos + 1;
      }
    }

    /**
     Fill dst with up to max frames: the next frames of what is pending, as many as fit, and the rest
     stays pending. If the source reports more than it was asked for, the reader gets nothing, and what
     had been read before is lost.
     */
    method ReadPcm(dst: array<Sample>, max: int) returns (total: nat, current: nat)
      requires Valid() && max <= dst.Length
      modifies this`queuePos, handles, ops, dst
      ensures Valid() && (ops.honest ==> ops.overruns == old(ops.overruns))
      ensures current == if max > 0 && active then generation else 0
      ensures max <= 0 || !active ==>
        total == 0 && Pending() == old(Pending()) && ops.overruns == old(ops.overruns)
      ensures max > 0 && active && ops.overruns == old(ops.overruns) ==>
        total == (if max < old(|Pending()|) then max else old(|Pending()|)) &&
        dst[..total] == old(Pending())[..total] && Pending() == old(Pending())[total..] &&
        (total < max ==> ops.streams.Keys == {})
      ensures ops.overruns != old(ops.overruns) ==>
        total == 0 && |Pending()| <= |old(Pending())| &&
        Pending() == old(Pending())[|old(Pending())| - |Pending()|..]
    {
      hide Owns, Pcm;
      total, current := 0, 0;
      if max <= 0 || !active { return; }
      current := generation;
      ghost var all := Pending();
      ghost var lost := 0;
      assert dst[..0] + Pending() == all;
      while total < max && queuePos < queueLen
        invariant Valid() && active && total <= max && ops.overruns == old(ops.overruns)
        invariant dst[..total] + Pending() == all
        decreases max - total, queueLen - queuePos
      {
        var n := ReadHead(dst, total, max);
        if n > max - total {
          lost := total;
          total := 0;
          break;
        }
        if n > 0 { total := total + n; }
      }
      if ops.overruns == old(ops.overruns) {
        NothingLive(ops.streams, handles[queuePos..queueLen]);
        assert total < max ==> Pending() == [];
        assert all[..total] == dst[..total] && all[total..] == Pending();
      } else {
        assert all == dst[..lost] + Pending();
      }
    }

    /**
     Any reads one after the other: from an honest source they concatenate to the front of what was
     pending, as long as the sizes are in all.
     */
    method ReadAll(frame: array<Sample>, sizes: seq<nat>) returns (heard: seq<Sample>)
      requires Valid() && forall i :: 0 <= i < |sizes| ==> sizes[i] <= frame.Length
      modifies this`queuePos, handles, ops, frame
      ensures Valid() && generation == old(generation)
      ensures active && ops.honest ==>
        heard == old(Pending())[..Least(Total(sizes), |old(Pending())|)] && old(Pending()) == heard + Pending()
    {
      hide Owns, Pcm;
      heard := [];
      var i := 0;
      ghost var all := Pending();
      SizesDoNotMatter(all, sizes);
      while i < |sizes|
        invariant i <= |sizes| && Valid()
        invariant active && ops.honest ==> all == heard + Pending()
        invariant active && ops.honest ==> Served(all, sizes) == heard + Served(Pending(), sizes[i..])
      {
        hide Served, Total, Owns, Pcm;
        ghost var before := Pending();
        ServedStep(before, sizes, i);
        var total, _ := ReadPcm(frame, sizes[i]);
        if active && ops.honest { Taken(heard, before, total, Served(Pending(), sizes[i + 1..])); }
        heard := heard + frame[..total];
        i := i + 1;
      }
      assert sizes[i..] == [];
    }

    /** The announcement of a code reaches its readers whole and in order, whatever they ask for. */
    method PlayAndRead(code: string, frame: array<Sample>, sizes: seq<nat>)
      returns (result: int, heard: seq<Sample>)
      requires Valid() && forall i :: 0 <= i < |sizes| ==> sizes[i] <= frame.Length
      modifies this, handles, ops, frame
      ensures Valid() && result == if old(active) && Prompt in ops.sounds then 0 else -1
      ensures var whole := Announcement(ops.sounds, code);
        result == 0 && ops.honest && ops.reliable ==> heard == whole[..Least(Total(sizes), |whole|)]
    {
      hide Owns, Pcm, Heard, Abridged;
      result := PlayPairCode(code);
      heard := ReadAll(frame, sizes);
    }
  }

  lemma NothingLive(streams: map<nat, seq<Sample>>, handles: seq<Option<nat>>)
    requires Owns(streams.Keys, LiveOf(handles), {})
    ensures handles == [] ==> Pcm(streams, LiveOf(handles)) == [] && streams.Keys == {}
  {
  }
}
