/**
 The single-producer single-consumer ring of mybot_ringbuf.c under every interleaving: index
 reads, single byte copies in any order, and index publications are separate steps. The
 counters of everything ever published are kept beside the wrapped indexes.
 */
module RingMachine {
  import opened Arithmetic
  import opened CText

  /** Where the producer is inside mybot_ringbuf_write. */
  datatype Producer =
    | Resting
    | HasHead(src: Str, head: nat)
    | Writing(src: Str, head: nat, copied: set<nat>)

  /** Where the consumer is inside mybot_ringbuf_read; seen counts the bytes behind its snapshot. */
  datatype Consumer =
    | Waiting
    | SawHead(wanted: nat, head: nat, seen: nat)
    | Reading(wanted: nat, tail: nat, got: map<nat, Byte>)

  /** pushed and taken are all bytes ever published by writes and by reads. */
  datatype Ring = Ring(size: nat, cells: Str, head: nat, tail: nat, producer: Producer,
                       consumer: Consumer, pushed: Str, taken: Str)

  datatype Action =
    | WriteCall(src: Str)
    | ReadTail
    | CopyIn(i: nat)
    | PublishHead
    | ReadCall(wanted: nat)
    | CheckTail
    | CopyOut(i: nat)
    | PublishTail

  predicate Shaped(r: Ring) { r.size >= 2 && |r.cells| == r.size && r.head < r.size && r.tail < r.size }

  /** mybot_ringbuf_create: one more cell than the capacity. */
  function Create(capacity: nat): (r: Ring)
    requires capacity > 0
    ensures Shaped(r)
  {
    Ring(capacity + 1, seq(capacity + 1, _ => 0), 0, 0, Resting, Waiting, [], [])
  }

  /** The cell of the k-th byte ever pushed. */
  function Slot(k: nat, size: nat): (c: nat)
    requires size > 0
    ensures c < size
  {
    k % size
  }

  function Used(size: nat, head: nat, tail: nat): nat
    requires head < size && tail < size
  {
    (head + size - tail) % size
  }

  function ProducerStep(r: Ring, a: Action): (n: Ring)
    requires Shaped(r)
    ensures Shaped(n) && n.size == r.size
  {
    match a
    case WriteCall(src) =>
      if r.producer.Resting? && src != [] then r.(producer := HasHead(src, r.head)) else r
    case ReadTail =>
      if !r.producer.HasHead? || r.producer.head >= r.size then r
      else if r.size - Used(r.size, r.producer.head, r.tail) - 1 < |r.producer.src| then r.(producer := Resting)
      else r.(producer := Writing(r.producer.src, r.producer.head, {}))
    case CopyIn(i) =>
      if !r.producer.Writing? || i >= |r.producer.src| then r
      else r.(cells := r.cells[Slot(r.producer.head + i, r.size) := r.producer.src[i]],
              producer := r.producer.(copied := r.producer.copied + {i}))
    case PublishHead =>
      if !r.producer.Writing? || exists i :: 0 <= i < |r.producer.src| && i !in r.producer.copied then r
      else r.(head := Slot(r.producer.head + |r.producer.src|, r.size), producer := Resting,
              pushed := r.pushed + r.producer.src)
    case _ => r
  }

  function ConsumerStep(r: Ring, a: Action): (n: Ring)
    requires Shaped(r)
    ensures Shaped(n) && n.size == r.size
  {
    match a
    case ReadCall(wanted) =>
      if r.consumer.Waiting? && wanted > 0 then r.(consumer := SawHead(wanted, r.head, |r.pushed|)) else r
    case CheckTail =>
      if !r.consumer.SawHead? || r.consumer.head >= r.size then r
      else if Used(r.size, r.consumer.head, r.tail) < r.consumer.wanted then r.(consumer := Waiting)
      else r.(consumer := Reading(r.consumer.wanted, r.tail, map[]))
    case CopyOut(i) =>
      if !r.consumer.Reading? || i >= r.consumer.wanted then r
      else r.(consumer := r.consumer.(got := r.consumer.got[i := r.cells[Slot(r.consumer.tail + i, r.size)]]))
    case PublishTail =>
      if !r.consumer.Reading? || exists i :: 0 <= i < r.consumer.wanted && i !in r.consumer.got then r
      else r.(tail := Slot(r.consumer.tail + r.consumer.wanted, r.size), consumer := Waiting,
              taken := r.taken + Result(r.consumer.wanted, r.consumer.got))
    case _ => r
  }

  /** The bytes in dst when a read returns. */
  function Result(wanted: nat, got: map<nat, Byte>): (s: Str)
    requires forall i :: 0 <= i < wanted ==> i in got
    ensures |s| == wanted && forall i :: 0 <= i < wanted ==> s[i] == got[i]
  {
    if wanted == 0 then [] else Result(wanted - 1, got) + [got[wanted - 1]]
  }

  predicate ByProducer(a: Action) { a.WriteCall? || a.ReadTail? || a.CopyIn? || a.PublishHead? }

  function Step(r: Ring, a: Action): (n: Ring)
    requires Shaped(r)
    ensures Shaped(n) && n.size == r.size
  {
    if ByProducer(a) then ProducerStep(r, a) else ConsumerStep(r, a)
  }

  function Run(r: Ring, actions: seq<Action>): (n: Ring)
    requires Shaped(r)
    ensures Shaped(n) && n.size == r.size
    decreases |actions|
  {
    if actions == [] then r else Run(Step(r, actions[0]), actions[1..])
  }

  // ------------------------------------------------------------------------- modulo

  lemma ModAdd(b: nat, d: nat, size: nat)
    requires 0 < size && d < size
    ensures (b + d) % size == if b % size + d < size then b % size + d else b % size + d - size
  {
    var q := b / size;
    assert b == size * q + b % size;
    if b % size + d < size {
      ModIs(b + d, size, q, b % size + d);
    } else {
      assert size * (q + 1) == size * q + size;
      ModIs(b + d, size, q + 1, b % size + d - size);
    }
  }

  /** The wrapped difference of two counters less than one lap apart is their difference. */
  lemma Wraps(a: nat, b: nat, size: nat)
    requires size >= 2 && b <= a < b + size
    ensures Used(size, Slot(a, size), Slot(b, size)) == a - b
  {
    ModAdd(b, a - b, size);
    var u := a % size + size - b % size;
    if u >= size { ModIs(u, size, 1, u - size); } else { ModIs(u, size, 0, u); }
  }

  /** An index advanced from a wrapped counter is the wrapped advanced counter. */
  lemma Advances(b: nat, d: nat, size: nat)
    requires 0 < size && d < size
    ensures Slot(Slot(b, size) + d, size) == Slot(b + d, size)
  {
    ModAdd(b, d, size);
    var u := b % size + d;
    if u >= size { ModIs(u, size, 1, u - size); } else { ModIs(u, size, 0, u); }
  }

  lemma Distinct(a: nat, b: nat, size: nat)
    requires size > 0 && b < a < b + size
    ensures Slot(a, size) != Slot(b, size)
  {
    ModAdd(b, a - b, size);
  }

  // ---------------------------------------------------------------------- invariant

  /** Every published byte not yet taken sits in its cell. */
  predicate Holds(r: Ring)
    requires Shaped(r)
  {
    forall k :: |r.taken| <= k < |r.pushed| ==> r.cells[Slot(k, r.size)] == r.pushed[k]
  }

  predicate Counted(r: Ring)
    requires Shaped(r)
  {
    r.head == Slot(|r.pushed|, r.size) && r.tail == Slot(|r.taken|, r.size) &&
    |r.taken| <= |r.pushed| < |r.taken| + r.size && r.taken == r.pushed[..|r.taken|]
  }

  /** What has been copied lies in the cells behind the last published byte. */
  predicate Copied(r: Ring, src: Str, copied: set<nat>)
    requires Shaped(r)
  {
    forall k :: |r.pushed| <= k < |r.pushed| + |src| && k - |r.pushed| in copied ==>
      r.cells[Slot(k, r.size)] == src[k - |r.pushed|]
  }

  predicate ProducerOk(r: Ring)
    requires Shaped(r)
  {
    match r.producer
    case Resting => true
    case HasHead(src, head) => src != [] && head == r.head
    case Writing(src, head, copied) =>
      src != [] && head == r.head && |r.pushed| + |src| < |r.taken| + r.size &&
      Copied(r, src, copied)
  }

  predicate ConsumerOk(r: Ring)
    requires Shaped(r)
  {
    match r.consumer
    case Waiting => true
    case SawHead(wanted, head, seen) => wanted > 0 && |r.taken| <= seen <= |r.pushed| && head == Slot(seen, r.size)
    case Reading(wanted, tail, got) =>
      wanted > 0 && tail == r.tail && |r.taken| + wanted <= |r.pushed| &&
      forall i :: i in got && i < wanted ==> got[i] == r.pushed[|r.taken| + i]
  }

  ghost predicate Inv(r: Ring) {
    Shaped(r) && Counted(r) && Holds(r) && ProducerOk(r) && ConsumerOk(r)
  }

  lemma CreateInv(capacity: nat)
    requires capacity > 0
    ensures Inv(Create(capacity))
  {
  }

  lemma CheckRoom(r: Ring)
    requires Inv(r) && r.producer.HasHead?
    ensures Inv(ProducerStep(r, ReadTail))
    ensures ProducerStep(r, ReadTail).producer.Writing? <==>
      |r.producer.src| <= r.size - 1 - (|r.pushed| - |r.taken|)
  {
    Wraps(|r.pushed|, |r.taken|, r.size);
  }

  lemma CopyInKeeps(r: Ring, i: nat)
    requires Inv(r) && r.producer.Writing? && i < |r.producer.src|
    ensures Inv(ProducerStep(r, CopyIn(i)))
  {
    hide Slot;
    var w := |r.pushed|;
    var at := Slot(w + i, r.size);
    Advances(w, i, r.size);
    forall k | |r.taken| <= k < w ensures Slot(k, r.size) != at { Distinct(w + i, k, r.size); }
    forall k | w <= k < w + |r.producer.src| && k != w + i ensures Slot(k, r.size) != at {
      if k < w + i { Distinct(w + i, k, r.size); } else { Distinct(k, w + i, r.size); }
    }
  }

  lemma PublishHeadKeeps(r: Ring)
    requires Inv(r) && r.producer.Writing?
    ensures Inv(ProducerStep(r, PublishHead))
  {
    hide Slot;
    Advances(|r.pushed|, |r.producer.src|, r.size);
  }

  lemma ProducerKeeps(r: Ring, a: Action)
    requires Inv(r) && ByProducer(a)
    ensures Inv(ProducerStep(r, a))
  {
    if a.ReadTail? && r.producer.HasHead? { CheckRoom(r); }
    if a.CopyIn? && r.producer.Writing? && a.i < |r.producer.src| { CopyInKeeps(r, a.i); }
    if a.PublishHead? && r.producer.Writing? { PublishHeadKeeps(r); }
  }

  lemma CheckDataKeeps(r: Ring)
    requires Inv(r) && r.consumer.SawHead?
    ensures Inv(ConsumerStep(r, CheckTail))
  {
    Wraps(r.consumer.seen, |r.taken|, r.size);
  }

  lemma CopyOutKeeps(r: Ring, i: nat)
    requires Inv(r) && r.consumer.Reading? && i < r.consumer.wanted
    ensures Inv(ConsumerStep(r, CopyOut(i)))
  {
    hide Slot;
    Advances(|r.taken|, i, r.size);
    assert r.cells[Slot(|r.taken| + i, r.size)] == r.pushed[|r.taken| + i];
  }

  lemma PublishTailKeeps(r: Ring)
    requires Inv(r) && r.consumer.Reading?
    ensures Inv(ConsumerStep(r, PublishTail))
  {
    hide Slot;
    Advances(|r.taken|, r.consumer.wanted, r.size);
    var n := ConsumerStep(r, PublishTail);
    if n != r { assert n.taken == r.pushed[..|n.taken|]; }
  }

  lemma ConsumerKeeps(r: Ring, a: Action)
    requires Inv(r) && !ByProducer(a)
    ensures Inv(ConsumerStep(r, a))
  {
    if a.CheckTail? && r.consumer.SawHead? { CheckDataKeeps(r); }
    if a.CopyOut? && r.consumer.Reading? && a.i < r.consumer.wanted { CopyOutKeeps(r, a.i); }
    if a.PublishTail? && r.consumer.Reading? { PublishTailKeeps(r); }
  }

  lemma {:induction false} RunKeeps(r: Ring, actions: seq<Action>)
    requires Inv(r)
    ensures Inv(Run(r, actions))
    decreases |actions|
  {
    hide Counted, Holds, ProducerOk, ConsumerOk, ProducerStep, ConsumerStep;
    if actions != [] {
      var a := actions[0];
      if ByProducer(a) { ProducerKeeps(r, a); } else { ConsumerKeeps(r, a); }
      RunKeeps(Step(r, a), actions[1..]);
    }
  }

  // ----------------------------------------------------------------------- theorems

  function Reached(capacity: nat, actions: seq<Action>): (r: Ring)
    requires capacity > 0
    ensures Shaped(r) && r.size == capacity + 1
  {
    Run(Create(capacity), actions)
  }

  /** Bytes come out in the order they went in, none lost or repeated, never more than fit. */
  lemma ReadsPrefixOfWrites(capacity: nat, actions: seq<Action>)
    requires capacity > 0
    ensures var r := Reached(capacity, actions);
      r.taken <= r.pushed && |r.pushed| - |r.taken| <= capacity &&
      (r.consumer.Reading? ==> forall i :: i in r.consumer.got && i < r.consumer.wanted ==>
         |r.taken| + i < |r.pushed| && r.consumer.got[i] == r.pushed[|r.taken| + i])
  {
    hide Run;
    CreateInv(capacity);
    RunKeeps(Create(capacity), actions);
  }

  /** A cell the producer writes is none the consumer may still read. */
  lemma NoConflict(capacity: nat, actions: seq<Action>, i: nat, k: nat)
    requires capacity > 0
    requires var r := Reached(capacity, actions);
      r.producer.Writing? && i < |r.producer.src| && |r.taken| <= k < |r.pushed|
    ensures var r := Reached(capacity, actions);
      Slot(r.producer.head + i, r.size) != Slot(k, r.size)
  {
    hide Run, Slot;
    CreateInv(capacity);
    RunKeeps(Create(capacity), actions);
    var r := Reached(capacity, actions);
    Advances(|r.pushed|, i, r.size);
    Distinct(|r.pushed| + i, k, r.size);
  }

  /** The ring as the queue it implements. */
  function Queue(r: Ring): Str { if |r.taken| <= |r.pushed| then r.pushed[|r.taken|..] else [] }

  /** A step leaves the queue alone, appends one whole write, or removes one whole read. */
  lemma StepRefinesQueue(r: Ring, a: Action)
    requires Inv(r)
    ensures var n := Step(r, a);
      if n.pushed != r.pushed then r.producer.Writing? && Queue(n) == Queue(r) + r.producer.src
      else if n.taken != r.taken then
        r.consumer.Reading? && |n.taken| == |r.taken| + r.consumer.wanted &&
        Queue(r) == n.taken[|r.taken|..] + Queue(n)
      else Queue(n) == Queue(r)
  {
    hide Slot, Holds, Copied, ConsumerOk;
    if ByProducer(a) {
      ProducerKeeps(r, a);
      if a.PublishHead? && r.producer.Writing? { QueueGrows(r.pushed, |r.taken|, r.producer.src); }
    } else {
      ConsumerKeeps(r, a);
      var n := Step(r, a);
      if n.taken != r.taken { QueueShrinks(r.pushed, |r.taken|, |n.taken|); }
    }
  }

  lemma QueueGrows(pushed: Str, k: nat, src: Str)
    requires k <= |pushed| && src != []
    ensures (pushed + src)[k..] == pushed[k..] + src && pushed + src != pushed
  {
    assert |pushed + src| > |pushed|;
  }

  lemma QueueShrinks(pushed: Str, k: nat, m: nat)
    requires k <= m <= |pushed|
    ensures pushed[k..] == pushed[..m][k..] + pushed[m..]
  {
  }

  /** A read finds its bytes exactly if they had been published at its head snapshot. */
  lemma ReadSucceeds(r: Ring)
    requires Inv(r) && r.consumer.SawHead?
    ensures Step(r, CheckTail).consumer.Reading? <==> r.consumer.wanted <= r.consumer.seen - |r.taken|
  {
    Wraps(r.consumer.seen, |r.taken|, r.size);
  }

  /** mybot_ringbuf_get_free_size. */
  function FreeSize(r: Ring): int
    requires Shaped(r)
  {
    r.size - Used(r.size, r.head, r.tail) - 1
  }

  lemma FreeIs(r: Ring)
    requires Inv(r)
    ensures FreeSize(r) == r.size - 1 - (|r.pushed| - |r.taken|)
  {
    Wraps(|r.pushed|, |r.taken|, r.size);
  }

  lemma {:induction false} ConsumersOnlyFree(r: Ring, actions: seq<Action>)
    requires Inv(r) && forall i :: 0 <= i < |actions| ==> !ByProducer(actions[i])
    ensures var n := Run(r, actions);
      Inv(n) && n.producer == r.producer && n.pushed == r.pushed && FreeSize(n) >= FreeSize(r)
    decreases |actions|
  {
    hide Slot, Holds, Copied, Used, Counted;
    if actions != [] {
      assert !ByProducer(actions[0]);
      ConsumerKeeps(r, actions[0]);
      var n := Step(r, actions[0]);
      TakesOnly(r, actions[0]);
      FreeIs(r);
      FreeIs(n);
      ConsumersOnlyFree(n, actions[1..]);
    }
  }

  lemma TakesOnly(r: Ring, a: Action)
    requires Shaped(r) && !ByProducer(a)
    ensures var n := Step(r, a);
      n.producer == r.producer && n.pushed == r.pushed && |n.taken| >= |r.taken|
  {
  }

  /**
   A producer that found room keeps it: whatever the consumer does before and during the call,
   a write of no more than the free size seen earlier is not refused.
   */
  lemma RoomIsKept(r: Ring, before: seq<Action>, src: Str, during: seq<Action>)
    requires Inv(r) && r.producer.Resting? && 0 < |src| <= FreeSize(r)
    requires forall i :: 0 <= i < |before| ==> !ByProducer(before[i])
    requires forall i :: 0 <= i < |during| ==> !ByProducer(during[i])
    ensures var called := Step(Run(r, before), WriteCall(src));
      Step(Run(called, during), ReadTail).producer.Writing?
  {
    hide Slot, Holds, Used, Counted, Run;
    ConsumersOnlyFree(r, before);
    var r1 := Run(r, before);
    ProducerKeeps(r1, WriteCall(src));
    var called := Step(r1, WriteCall(src));
    ConsumersOnlyFree(called, during);
    var r2 := Run(called, during);
    FreeIs(r2);
    CheckRoom(r2);
  }
}
