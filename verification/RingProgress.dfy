/**
 That reads and writes of the ring get done: with room when it starts, a write's own steps publish
 its bytes whatever the reader does in between; with enough bytes there, so do a read's.
 */
module RingProgress {
  import opened CText
  import opened RingMachine

  /** The steps of one side, without those of the other. */
  function Own(actions: seq<Action>, producer: bool): seq<Action> {
    if actions == [] then []
    else (if ByProducer(actions[0]) == producer then [actions[0]] else []) + Own(actions[1..], producer)
  }

  /** Each of n bytes is copied already or still to be copied, in whatever order and however often. */
  predicate CopiesAll(copies: seq<nat>, done: set<nat>, n: nat) {
    forall i :: 0 <= i < n ==> i in done || i in copies
  }

  lemma CopiedOne(copies: seq<nat>, done: set<nat>, more: set<nat>, n: nat)
    requires copies != [] && CopiesAll(copies, done, n) && done <= more && (copies[0] < n ==> copies[0] in more)
    ensures CopiesAll(copies[1..], more, n)
  {
    forall i | 0 <= i < n && i !in more ensures i in copies[1..] {
      var k :| 0 <= k < |copies| && copies[k] == i;
      assert copies[1..][k - 1] == i;
    }
  }

  /** What is still to be copied after a step. */
  function After(a: Action, copies: seq<nat>): seq<nat> {
    if (a.CopyIn? || a.CopyOut?) && copies != [] then copies[1..] else copies
  }

  // ------------------------------------------------------------------------- writes

  function Ins(copies: seq<nat>): seq<Action> {
    if copies == [] then [PublishHead] else [CopyIn(copies[0])] + Ins(copies[1..])
  }

  function WriteScript(src: Str, copies: seq<nat>): seq<Action> { [WriteCall(src)] + ([ReadTail] + Ins(copies)) }

  function Free(r: Ring): int { r.size - 1 - (|r.pushed| - |r.taken|) }

  /** How far a write has got, and which steps it has still to make. */
  predicate WriteLeft(r: Ring, rest: seq<Action>, src: Str, copies: seq<nat>) {
    match r.producer
    case Resting => rest == WriteScript(src, copies) && |src| <= Free(r) && CopiesAll(copies, {}, |src|)
    case HasHead(own, _) =>
      own == src && rest == [ReadTail] + Ins(copies) && |src| <= Free(r) && CopiesAll(copies, {}, |src|)
    case Writing(own, _, done) => own == src && rest == Ins(copies) && CopiesAll(copies, done, |src|)
  }

  lemma {:induction false} NoneLeft(r: Ring, actions: seq<Action>)
    requires Inv(r) && Own(actions, true) == []
    ensures Run(r, actions).producer == r.producer && Run(r, actions).pushed == r.pushed
    decreases |actions|
  {
    hide Counted, Holds, ProducerOk, ConsumerOk, Step, ByProducer;
    if actions != [] {
      StepByReader(r, actions[0]);
      NoneLeft(Step(r, actions[0]), actions[1..]);
    }
  }

  /** The reader leaves the producer alone and only makes room. */
  lemma StepByReader(r: Ring, a: Action)
    requires Inv(r) && !ByProducer(a)
    ensures var n := Step(r, a);
      Inv(n) && n.producer == r.producer && n.pushed == r.pushed && Free(n) >= Free(r)
  {
    hide Slot, Holds, Copied, Used, Counted;
    ConsumerKeeps(r, a);
    TakesOnly(r, a);
  }

  /** One step of the write leads on to the next, or to its end. */
  lemma WriteStep(r: Ring, a: Action, rest: seq<Action>, src: Str, copies: seq<nat>)
    requires Inv(r) && src != [] && WriteLeft(r, [a] + rest, src, copies)
    ensures var n := Step(r, a);
      ByProducer(a) && Inv(n) &&
      (a == PublishHead ==> n.producer == Resting && n.pushed == r.pushed + src && rest == []) &&
      (a != PublishHead ==> n.pushed == r.pushed && WriteLeft(n, rest, src, After(a, copies)))
  {
    hide Slot, Holds, Used, Copied;
    assert ([a] + rest)[0] == a && ([a] + rest)[1..] == rest;
    if r.producer.HasHead? { CheckRoom(r); }
    ProducerKeeps(r, a);
    if r.producer.Writing? && copies != [] {
      CopiedOne(copies, r.producer.copied, Step(r, a).producer.copied, |src|);
    }
  }

  lemma {:induction false} WriteGoesOn(r: Ring, actions: seq<Action>, src: Str, copies: seq<nat>)
    requires Inv(r) && src != [] && WriteLeft(r, Own(actions, true), src, copies)
    ensures Run(r, actions).producer == Resting && Run(r, actions).pushed == r.pushed + src
    decreases |actions|
  {
    hide Counted, Holds, ProducerOk, ConsumerOk, Step, ByProducer;
    if actions == [] {
      assert false;
    } else {
      var a := actions[0];
      var n := Step(r, a);
      if ByProducer(a) {
        WriteStep(r, a, Own(actions[1..], true), src, copies);
        if a == PublishHead { NoneLeft(n, actions[1..]); }
        else { WriteGoesOn(n, actions[1..], src, After(a, copies)); }
      } else {
        StepByReader(r, a);
        WriteGoesOn(n, actions[1..], src, copies);
      }
    }
  }

  /**
   A write that finds room when it starts publishes its bytes, in one piece, whatever the reader does
   between its steps and in whatever order it copies them.
   */
  lemma WriteCompletes(r: Ring, actions: seq<Action>, src: Str, copies: seq<nat>)
    requires Inv(r) && r.producer == Resting && 0 < |src| <= r.size - 1 - (|r.pushed| - |r.taken|)
    requires Own(actions, true) == WriteScript(src, copies) && forall i :: 0 <= i < |src| ==> i in copies
    ensures Run(r, actions).producer == Resting && Run(r, actions).pushed == r.pushed + src
  {
    hide Counted, Holds, ProducerOk, ConsumerOk, Run, Own;
    WriteGoesOn(r, actions, src, copies);
  }

  // -------------------------------------------------------------------------- reads

  function Outs(copies: seq<nat>): seq<Action> {
    if copies == [] then [PublishTail] else [CopyOut(copies[0])] + Outs(copies[1..])
  }

  function ReadScript(wanted: nat, copies: seq<nat>): seq<Action> { [ReadCall(wanted)] + ([CheckTail] + Outs(copies)) }

  /** How far a read has got, and which steps it has still to make. */
  predicate ReadLeft(r: Ring, rest: seq<Action>, wanted: nat, copies: seq<nat>) {
    match r.consumer
    case Waiting =>
      rest == ReadScript(wanted, copies) && wanted <= |r.pushed| - |r.taken| && CopiesAll(copies, {}, wanted)
    case SawHead(own, _, seen) =>
      own == wanted && rest == [CheckTail] + Outs(copies) && wanted <= seen - |r.taken| && CopiesAll(copies, {}, wanted)
    case Reading(own, _, got) => own == wanted && rest == Outs(copies) && CopiesAll(copies, got.Keys, wanted)
  }

  /** The writer leaves the consumer alone and only adds bytes. */
  lemma StepByWriter(r: Ring, a: Action)
    requires Inv(r) && ByProducer(a)
    ensures var n := Step(r, a);
      Inv(n) && n.consumer == r.consumer && n.taken == r.taken && |n.pushed| >= |r.pushed|
  {
    hide Slot, Holds, Copied, Used, Counted;
    ProducerKeeps(r, a);
  }

  lemma {:induction false} NoneWanted(r: Ring, actions: seq<Action>)
    requires Inv(r) && Own(actions, false) == []
    ensures Run(r, actions).consumer == r.consumer && Run(r, actions).taken == r.taken
    decreases |actions|
  {
    hide Counted, Holds, ProducerOk, ConsumerOk, Step, ByProducer;
    if actions != [] {
      StepByWriter(r, actions[0]);
      NoneWanted(Step(r, actions[0]), actions[1..]);
    }
  }

  lemma ReadStep(r: Ring, a: Action, rest: seq<Action>, wanted: nat, copies: seq<nat>)
    requires Inv(r) && wanted > 0 && ReadLeft(r, [a] + rest, wanted, copies)
    ensures var n := Step(r, a);
      !ByProducer(a) && Inv(n) &&
      (a == PublishTail ==> n.consumer == Waiting && |n.taken| == |r.taken| + wanted && rest == []) &&
      (a != PublishTail ==>
         n.taken == r.taken && n.pushed == r.pushed && ReadLeft(n, rest, wanted, After(a, copies)))
  {
    hide Slot, Holds, Used, Copied;
    assert ([a] + rest)[0] == a && ([a] + rest)[1..] == rest;
    if r.consumer.SawHead? { ReadSucceeds(r); }
    ConsumerKeeps(r, a);
    if r.consumer.Reading? && copies != [] {
      CopiedOne(copies, r.consumer.got.Keys, Step(r, a).consumer.got.Keys, wanted);
    }
  }

  lemma {:induction false} ReadGoesOn(r: Ring, actions: seq<Action>, wanted: nat, copies: seq<nat>)
    requires Inv(r) && wanted > 0 && ReadLeft(r, Own(actions, false), wanted, copies)
    ensures Run(r, actions).consumer == Waiting && |Run(r, actions).taken| == |r.taken| + wanted
    decreases |actions|
  {
    hide Counted, Holds, ProducerOk, ConsumerOk, Step, ByProducer;
    if actions == [] {
      assert false;
    } else {
      var a := actions[0];
      var n := Step(r, a);
      if ByProducer(a) {
        StepByWriter(r, a);
        ReadGoesOn(n, actions[1..], wanted, copies);
      } else {
        ReadStep(r, a, Own(actions[1..], false), wanted, copies);
        if a == PublishTail { NoneWanted(n, actions[1..]); }
        else { ReadGoesOn(n, actions[1..], wanted, After(a, copies)); }
      }
    }
  }

  /**
   A read that finds its bytes when it starts takes the next ones ever pushed, whatever the writer
   does between its steps and in whatever order it copies them.
   */
  lemma ReadCompletes(r: Ring, actions: seq<Action>, wanted: nat, copies: seq<nat>)
    requires Inv(r) && r.consumer == Waiting && 0 < wanted <= |r.pushed| - |r.taken|
    requires Own(actions, false) == ReadScript(wanted, copies) && forall i :: 0 <= i < wanted ==> i in copies
    ensures var n := Run(r, actions);
      n.consumer == Waiting && |r.taken| + wanted <= |n.pushed| && n.taken == n.pushed[..|r.taken| + wanted]
  {
    hide Counted, Holds, ProducerOk, ConsumerOk, Run, Own;
    ReadGoesOn(r, actions, wanted, copies);
    RunKeeps(r, actions);
    TakenIsFront(Run(r, actions));
  }

  lemma TakenIsFront(r: Ring)
    requires Inv(r)
    ensures |r.taken| <= |r.pushed| && r.taken == r.pushed[..|r.taken|]
  {
    hide Slot, Holds, ProducerOk, ConsumerOk;
  }
}
