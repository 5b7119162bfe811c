/**
 Which device commands mybot_app.c runs: duplicates among the last sixteen accepted ids are
 dropped, and when a command received before a conversation started or stopped can be run after.
 */
module CommandSession {
  import opened CText

  const HISTORY: nat := 16

  // ---------------------------------------------------------------- duplicate filter

  function Recent(accepted: seq<Str>): (r: seq<Str>)
    ensures |r| <= HISTORY
  {
    if |accepted| <= HISTORY then accepted else accepted[|accepted| - HISTORY..]
  }

  /** The ids accepted out of a sequence of offered ones. */
  function Admitted(accepted: seq<Str>, offered: seq<Str>): seq<Str>
    decreases |offered|
  {
    if offered == [] then accepted
    else Admitted(if offered[0] in Recent(accepted) then accepted else accepted + [offered[0]], offered[1..])
  }

  /** Equal ids are more than sixteen places apart. */
  predicate Spaced(accepted: seq<Str>) {
    forall i, j :: 0 <= i < j < |accepted| && j <= i + HISTORY ==> accepted[i] != accepted[j]
  }

  lemma SpacedNext(accepted: seq<Str>, id: Str)
    requires Spaced(accepted) && id !in Recent(accepted)
    ensures Spaced(accepted + [id])
  {
    var n := |accepted|;
    forall i | 0 <= i < n && n <= i + HISTORY ensures accepted[i] != id {
      var first := n - |Recent(accepted)|;
      assert Recent(accepted)[i - first] == accepted[i];
    }
  }

  /** Between two acceptances of one id lie at least sixteen acceptances of others. */
  lemma {:induction false} RepeatsAreFarApart(accepted: seq<Str>, offered: seq<Str>)
    requires Spaced(accepted)
    ensures Spaced(Admitted(accepted, offered))
    decreases |offered|
  {
    if offered != [] {
      if offered[0] !in Recent(accepted) { SpacedNext(accepted, offered[0]); }
      RepeatsAreFarApart(if offered[0] in Recent(accepted) then accepted else accepted + [offered[0]], offered[1..]);
    }
  }

  /** The slots hold the most recent accepted ids, the k-th accepted one in slot k mod 16. */
  predicate Filled(slots: seq<Str>, accepted: seq<Str>) {
    |slots| == HISTORY &&
    (forall k :: 0 <= k < |accepted| && |accepted| <= k + HISTORY ==> slots[k % HISTORY] == accepted[k]) &&
    forall i :: |accepted| <= i < HISTORY ==> slots[i] == []
  }

  lemma Found(slots: seq<Str>, accepted: seq<Str>, i: nat)
    requires Filled(slots, accepted) && i < HISTORY && slots[i] != []
    ensures slots[i] in Recent(accepted)
  {
    var n := |accepted|;
    if n <= HISTORY {
      assert accepted[i] == slots[i % HISTORY];
    } else {
      var base := n - HISTORY;
      var k := base + (i - base) % HISTORY;
      assert k % HISTORY == i;
      assert Recent(accepted)[k - base] == accepted[k];
    }
  }

  lemma NotFound(slots: seq<Str>, accepted: seq<Str>, id: Str)
    requires Filled(slots, accepted) && forall i :: 0 <= i < HISTORY ==> slots[i] != id
    ensures id !in Recent(accepted)
  {
    var recent := Recent(accepted);
    var first := |accepted| - |recent|;
    forall j | 0 <= j < |recent| ensures recent[j] != id {
      assert recent[j] == accepted[first + j];
      assert slots[(first + j) % HISTORY] == accepted[first + j];
    }
  }

  lemma Stored(slots: seq<Str>, accepted: seq<Str>, id: Str)
    requires Filled(slots, accepted)
    ensures Filled(slots[|accepted| % HISTORY := id], accepted + [id])
  {
  }

  /** runtime->command_history and command_history_next. */
  class CommandHistory {
    const slots: array<Str>
    var next: nat
    ghost var accepted: seq<Str>

    ghost predicate Valid()
      reads this, slots
    {
      slots.Length == HISTORY && next == |accepted| % HISTORY && Filled(slots[..], accepted)
    }

    constructor ()
      ensures Valid() && fresh(slots) && accepted == []
    {
      slots := new Str[HISTORY](_ => []);
      next := 0;
      accepted := [];
    }

    /** Start and stop of a conversation forget the history. */
    method Reset()
      requires Valid()
      modifies this, slots
      ensures Valid() && accepted == []
    {
      for i := 0 to HISTORY
        invariant forall j :: 0 <= j < i ==> slots[j] == []
      {
        slots[i] := [];
      }
      next := 0;
      accepted := [];
    }

    /** Accept an id exactly if it is not among the last sixteen accepted ones. */
    method Remember(id: Str) returns (isNew: bool)
      requires Valid() && id != []
      modifies this, slots
      ensures Valid()
      ensures isNew <==> id !in Recent(old(accepted))
      ensures accepted == if isNew then old(accepted) + [id] else old(accepted)
    {
      for i := 0 to HISTORY
        invariant forall j :: 0 <= j < i ==> slots[j] != id
      {
        if slots[i] == id {
          Found(slots[..], accepted, i);
          return false;
        }
      }
      NotFound(slots[..], accepted, id);
      Stored(slots[..], accepted, id);
      slots[next] := id;
      next := (next + 1) % HISTORY;
      accepted := accepted + [id];
      return true;
    }
  }

  // -------------------------------------------------------------------- the session

  datatype Command = Command(id: Str, conversation: Str)

  /** A command that was run, with the conversation generation it was run in. */
  datatype Done = Done(generation: nat, command: Command)

  /** A received command with the conversation generation read when it arrived. */
  datatype Received = Received(generation: nat, sender: Str, channel: Str, command: Command)

  /**
   What the control owner keeps about the conversation; accepted and ran are the ids accepted in it
   and all commands run so far.
   */
  datatype Session = Session(generation: nat, talking: bool, stopRequested: bool, conversation: Str,
                             agent: Str, channel: Str, accepted: seq<Str>, ran: seq<Done>)

  /** What the service answers to a start, and whether the media and the RTC engine go along. */
  datatype Opening = Opening(conversation: Str, agent: Str, channel: Str, ready: bool, joined: bool)

  datatype Action =
    | Start(opening: Opening)
    | Stop
    | StopAsked
    | StopForgotten
    | Handle(received: Received)

  /** handle_device_command lets the command through to the duplicate filter. */
  predicate Admissible(s: Session, r: Received) {
    r.generation == s.generation && s.talking && !s.stopRequested && r.sender == s.agent &&
    (r.channel == [] || r.channel == s.channel) && r.command.conversation == s.conversation
  }

  /** The command would run now. */
  predicate Runs(s: Session, r: Received) { Admissible(s, r) && r.command.id !in Recent(s.accepted) }

  /**
   An answer without a conversation is ignored. A start refused early leaves the generation and
   asks for a stop; any other one begins afresh.
   */
  function Started(s: Session, o: Opening): Session {
    if s.talking || o.conversation == [] then s
    else if !o.ready || o.agent == [] then
      s.(talking := true, conversation := o.conversation, stopRequested := true)
    else Session(s.generation + 1, true, !o.joined, o.conversation, o.agent, o.channel, [], s.ran)
  }

  function Stopped(s: Session): Session {
    if !s.talking then s else Session(s.generation + 1, false, false, [], [], [], [], s.ran)
  }

  function Handled(s: Session, r: Received): Session {
    if !Runs(s, r) then s
    else s.(accepted := s.accepted + [r.command.id], ran := s.ran + [Done(s.generation, r.command)])
  }

  /**
   StopForgotten: a tick that finds the network gone clears a stop request. In a conversation that is
   only while the loss is reported half, as the first tick after the whole report ends it.
   */
  function Step(s: Session, a: Action): Session {
    match a
    case Start(opening) => Started(s, opening)
    case Stop => Stopped(s)
    case StopAsked => if s.talking then s.(stopRequested := true) else s
    case StopForgotten => s.(stopRequested := false)
    case Handle(r) => Handled(s, r)
  }

  function Run(s: Session, actions: seq<Action>): Session
    decreases |actions|
  {
    if actions == [] then s else Run(Step(s, actions[0]), actions[1..])
  }

  const POWER_UP: Session := Session(0, false, false, [], [], [], [], [])

  /** The generations of the commands run never go down, and have not passed the present one. */
  predicate Ordered(ran: seq<Done>, generation: nat) {
    (forall i :: 0 <= i < |ran| ==> ran[i].generation <= generation) &&
    forall i, j :: 0 <= i < j < |ran| ==> ran[i].generation <= ran[j].generation
  }

  /** The ids of the commands run in one conversation, in order. */
  function RunIn(ran: seq<Done>, generation: nat): seq<Str> {
    if ran == [] then []
    else
      var last := ran[|ran| - 1];
      RunIn(ran[..|ran| - 1], generation) + if last.generation == generation then [last.command.id] else []
  }

  /** Equal ids run in one conversation, present or past, are more than sixteen commands apart. */
  predicate FarApart(ran: seq<Done>) {
    forall i, j :: 0 <= i < j < |ran| && j <= i + 16 && ran[i].generation == ran[j].generation ==>
      ran[i].command.id != ran[j].command.id
  }

  /** The commands of the present conversation were sent for it. */
  predicate Meant(ran: seq<Done>, generation: nat, conversation: Str) {
    forall i :: 0 <= i < |ran| && ran[i].generation == generation ==> ran[i].command.conversation == conversation
  }

  /** The ids kept are those of the commands run in the present conversation. */
  predicate Kept(s: Session) {
    s.accepted == RunIn(s.ran, s.generation) && Ordered(s.ran, s.generation) && FarApart(s.ran) &&
    Meant(s.ran, s.generation, s.conversation)
  }

  /** Without an agent there is no channel; between conversations there is no agent and no history. */
  predicate Inv(s: Session) {
    (s.agent == [] ==> s.channel == []) && (!s.talking ==> s.agent == [] && s.accepted == []) &&
    Spaced(s.accepted) && Kept(s)
  }

  lemma {:induction false} NoneAfter(ran: seq<Done>, generation: nat, later: nat)
    requires Ordered(ran, generation) && later > generation
    ensures RunIn(ran, later) == []
  {
    if ran != [] { NoneAfter(ran[..|ran| - 1], generation, later); }
  }

  /** As generations never go down, the commands of the latest one stand at the end. */
  lemma {:induction false} AtTheEnd(ran: seq<Done>, generation: nat, i: nat)
    requires Ordered(ran, generation) && i < |ran| && ran[i].generation == generation
    ensures |ran| - i <= |RunIn(ran, generation)|
    ensures RunIn(ran, generation)[|RunIn(ran, generation)| - (|ran| - i)] == ran[i].command.id
  {
    if i < |ran| - 1 { AtTheEnd(ran[..|ran| - 1], generation, i); }
  }

  lemma HandledKept(s: Session, r: Received)
    requires Inv(s) && Runs(s, r)
    ensures Kept(Handled(s, r))
  {
    var n := Handled(s, r);
    assert n.ran[..|s.ran|] == s.ran;
    forall i | 0 <= i < |s.ran| && |s.ran| <= i + HISTORY && s.ran[i].generation == s.generation
      ensures s.ran[i].command.id != r.command.id
    {
      AtTheEnd(s.ran, s.generation, i);
      InRecent(s.accepted, |s.accepted| - (|s.ran| - i));
    }
  }

  lemma InRecent(accepted: seq<Str>, k: nat)
    requires k < |accepted| && |accepted| <= k + HISTORY
    ensures accepted[k] in Recent(accepted)
  {
    var recent := Recent(accepted);
    assert recent[k - (|accepted| - |recent|)] == accepted[k];
  }

  lemma StepKeeps(s: Session, a: Action)
    requires Inv(s)
    ensures Step(s, a).generation >= s.generation
    ensures Inv(Step(s, a))
  {
    hide Recent, Ordered, FarApart, Spaced, Meant;
    NoneAfter(s.ran, s.generation, s.generation + 1);
    NothingMeant(s, Step(s, a).conversation);
    OrderedOn(s.ran, s.generation);
    NothingSpaced();
    if a.Handle? && Runs(s, a.received) {
      SpacedNext(s.accepted, a.received.command.id);
      HandledKept(s, a.received);
    }
  }

  /** A conversation in which nothing has run may have any name. */
  lemma NothingMeant(s: Session, conversation: Str)
    requires Inv(s)
    ensures Meant(s.ran, s.generation + 1, conversation)
    ensures s.accepted == [] ==> Meant(s.ran, s.generation, conversation)
  {
    hide Recent, Spaced, FarApart;
    forall i | 0 <= i < |s.ran| && s.ran[i].generation == s.generation ensures s.accepted != [] {
      AtTheEnd(s.ran, s.generation, i);
    }
  }

  lemma OrderedOn(ran: seq<Done>, generation: nat)
    requires Ordered(ran, generation)
    ensures Ordered(ran, generation + 1)
  {
  }

  lemma NothingSpaced()
    ensures Spaced([])
  {
  }

  lemma {:induction false} RunKeeps(s: Session, actions: seq<Action>)
    requires Inv(s)
    ensures Inv(Run(s, actions)) && Run(s, actions).generation >= s.generation
    decreases |actions|
  {
    hide Inv, Step;
    if actions != [] {
      StepKeeps(s, actions[0]);
      RunKeeps(Step(s, actions[0]), actions[1..]);
    }
  }

  // ------------------------------------------------------------ across a start or a stop

  /** A conversation starts or stops, even if the start is refused at once. */
  predicate Boundary(s: Session, a: Action) {
    (a.Start? && !s.talking && a.opening.conversation != []) || (a.Stop? && s.talking)
  }

  /** The session has moved on since this command arrived, or has no agent it could have come from. */
  predicate Stale(s: Session, r: Received) {
    r.generation < s.generation ||
    (r.generation == s.generation && s.agent == [] && (r.sender != [] || r.channel != []))
  }

  lemma StaleStays(s: Session, a: Action, r: Received)
    requires Inv(s) && Stale(s, r)
    ensures Stale(Step(s, a), r) && !Runs(s, r)
  {
  }

  lemma {:induction false} StaleForever(s: Session, actions: seq<Action>, r: Received)
    requires Inv(s) && Stale(s, r)
    ensures Stale(Run(s, actions), r) && !Runs(Run(s, actions), r)
    decreases |actions|
  {
    hide Stale, Runs, Inv, Step;
    if actions == [] {
      StaleStays(s, Stop, r);
    } else {
      StepKeeps(s, actions[0]);
      StaleStays(s, actions[0], r);
      StaleForever(Step(s, actions[0]), actions[1..], r);
    }
  }

  lemma {:induction false} Overtakes(s: Session, actions: seq<Action>, r: Received)
    requires Inv(s) && s.talking && r.generation <= s.generation
    ensures var n := Run(s, actions);
      r.generation < n.generation || (r.generation == n.generation && n.talking)
    decreases |actions|
  {
    hide Inv;
    if actions != [] {
      StepKeeps(s, actions[0]);
      var next := Step(s, actions[0]);
      if next.talking { Overtakes(next, actions[1..], r); } else { RunKeeps(next, actions[1..]); }
    }
  }

  /** Some boundary and what may follow it lead to a state in which the command runs. */
  ghost predicate RunsAcross(arrived: Session, r: Received) {
    exists meanwhile: seq<Action>, a: Action, later: seq<Action> ::
      Boundary(Run(arrived, meanwhile), a) && Runs(Run(Step(Run(arrived, meanwhile), a), later), r)
  }

  lemma NotAcross(arrived: Session, r: Received, meanwhile: seq<Action>, a: Action, later: seq<Action>)
    requires Inv(arrived) && r.generation == arrived.generation && Boundary(Run(arrived, meanwhile), a)
    requires arrived.talking || r.sender != [] || r.channel != []
    ensures !Runs(Run(Step(Run(arrived, meanwhile), a), later), r)
  {
    hide Run, Runs;
    RunKeeps(arrived, meanwhile);
    var s := Run(arrived, meanwhile);
    if arrived.talking { Overtakes(arrived, meanwhile, r); }
    StepKeeps(s, a);
    StaleForever(Step(s, a), later, r);
  }

  lemma Across(arrived: Session, r: Received)
    requires Inv(arrived) && r.generation == arrived.generation && r.command.conversation != []
    requires !arrived.talking && r.sender == [] && r.channel == []
    ensures RunsAcross(arrived, r)
  {
    var a := Start(Opening(r.command.conversation, [], [], false, false));
    assert Run(arrived, []) == arrived;
    var s := Step(arrived, a);
    assert Run(s, [StopForgotten]) == Step(s, StopForgotten) by {
      assert [StopForgotten][1..] == [];
      assert Run(Step(s, StopForgotten), []) == Step(s, StopForgotten);
    }
    assert Boundary(Run(arrived, []), a) && Runs(Run(Step(Run(arrived, []), a), [StopForgotten]), r);
  }

  /**
   When a command received before a start or a stop of a conversation can be run after it: exactly
   if it arrived between conversations without a sender's name and not over a channel. The start
   that does it is refused early, so that neither generation nor agent change, and its stop request
   is forgotten.
   */
  lemma RunsAcrossBoundaryExactly(before: seq<Action>, r: Received)
    requires r.generation == Run(POWER_UP, before).generation && r.command.conversation != []
    ensures var arrived := Run(POWER_UP, before);
      RunsAcross(arrived, r) <==> !arrived.talking && r.sender == [] && r.channel == []
  {
    hide Run, Runs;
    RunKeeps(POWER_UP, before);
    var arrived := Run(POWER_UP, before);
    if !arrived.talking && r.sender == [] && r.channel == [] {
      Across(arrived, r);
    } else if RunsAcross(arrived, r) {
      var meanwhile, a, later :|
        Boundary(Run(arrived, meanwhile), a) && Runs(Run(Step(Run(arrived, meanwhile), a), later), r);
      NotAcross(arrived, r, meanwhile, a, later);
    }
  }

  /** The safe half, step by step: such a command is left alone whenever it is handled later. */
  lemma NeverRunAcrossBoundary(before: seq<Action>, meanwhile: seq<Action>, a: Action, later: seq<Action>,
                               r: Received)
    requires var arrived := Run(POWER_UP, before);
      r.generation == arrived.generation && Boundary(Run(arrived, meanwhile), a) &&
      (arrived.talking || r.sender != [] || r.channel != [])
    ensures var s := Run(Step(Run(Run(POWER_UP, before), meanwhile), a), later);
      Step(s, Handle(r)) == s
  {
    hide Run, Runs;
    RunKeeps(POWER_UP, before);
    NotAcross(Run(POWER_UP, before), r, meanwhile, a, later);
  }

  const FIRST: Opening := Opening([1], [2], [3], true, true)
  const REFUSED: Opening := Opening([4], [], [], true, true)

  /**
   The gap on a device that has been in use: after one conversation has ended, an unnamed sender's
   command arrives; the next start lacks an agent and is refused, a tick falls between the two halves
   of a report that the network is gone and forgets its stop request, and the command runs.
   */
  lemma UnnamedSenderSlipsThrough(r: Received)
    requires r == Received(2, [], [], Command([5], [4]))
    ensures var arrived := Run(POWER_UP, [Start(FIRST), Stop]);
      r.generation == arrived.generation && Boundary(arrived, Start(REFUSED)) &&
      Step(Step(Step(arrived, Start(REFUSED)), StopForgotten), Handle(r)).ran == arrived.ran + [Done(2, r.command)]
  {
    assert [Start(FIRST), Stop][1..] == [Stop] && [Stop][1..] == [];
    var arrived := Step(Step(POWER_UP, Start(FIRST)), Stop);
    assert Run(POWER_UP, [Start(FIRST), Stop]) == Run(Step(POWER_UP, Start(FIRST)), [Stop]) == Run(arrived, []);
  }

  // ----------------------------------------------------------------------- duplicates

  lemma PowerUpOk()
    ensures Inv(POWER_UP)
  {
  }

  /** The command is for the open conversation, comes from its agent, and no stop has been asked for. */
  predicate InPlace(s: Session, r: Received) {
    s.talking && !s.stopRequested && r.generation == s.generation && r.command.conversation == s.conversation &&
    r.sender == s.agent && (r.channel == [] || r.channel == s.channel)
  }

  function LastSixteen(ids: seq<Str>): seq<Str> { if |ids| <= 16 then ids else ids[|ids| - 16..] }

  /**
   In every run: equal ids run in one conversation, present or past, are more than sixteen commands
   apart, those of the present one name it, and the next command runs exactly if it is in place and
   its id is not among the last sixteen run in the present conversation.
   */
  lemma RunsExactlyNewOnes(actions: seq<Action>, r: Received)
    ensures var s := Run(POWER_UP, actions);
      FarApart(s.ran) && Meant(s.ran, s.generation, s.conversation) &&
      (Step(s, Handle(r)).ran == s.ran + [Done(s.generation, r.command)] <==>
         InPlace(s, r) && r.command.id !in LastSixteen(RunIn(s.ran, s.generation)))
    ensures var s := Run(POWER_UP, actions);
      !InPlace(s, r) || r.command.id in LastSixteen(RunIn(s.ran, s.generation)) ==> Step(s, Handle(r)) == s
  {
    hide Run, Spaced, RunIn, Ordered, FarApart, Meant;
    assert Inv(POWER_UP) by { PowerUpOk(); }
    RunKeeps(POWER_UP, actions);
    var s := Run(POWER_UP, actions);
    assert |s.ran + [Done(s.generation, r.command)]| == |s.ran| + 1;
  }

  /** The action takes a stop request away. */
  predicate Releases(a: Action) { a == StopForgotten || a == Stop }

  /** Once a stop is asked for, nothing runs any more in that conversation, unless it is forgotten. */
  lemma {:induction false} StopSilences(s: Session, later: seq<Action>)
    requires s.talking && s.stopRequested
    requires forall i :: 0 <= i < |later| ==> !Releases(later[i])
    ensures Run(s, later) == s
    decreases |later|
  {
    if later != [] {
      assert Step(s, later[0]) == s;
      StopSilences(s, later[1..]);
    }
  }

  /** A start that is refused, or whose join fails, runs nothing; nor does a conversation asked to stop. */
  lemma SilencedRunsNothing(s: Session, a: Action, later: seq<Action>)
    requires
      (s.talking && a == StopAsked) ||
      (!s.talking && a.Start? && a.opening.conversation != [] &&
       (!a.opening.ready || a.opening.agent == [] || !a.opening.joined))
    requires forall i :: 0 <= i < |later| ==> !Releases(later[i])
    ensures Run(Step(s, a), later).ran == s.ran && Run(Step(s, a), later).talking
  {
    hide Run;
    StopSilences(Step(s, a), later);
  }

  /** Between a stop and the next start nothing runs. */
  lemma {:induction false} StoppedRunsNothing(s: Session, later: seq<Action>)
    requires forall i :: 0 <= i < |later| ==> !later[i].Start?
    ensures Run(Step(s, Stop), later).ran == s.ran && !Run(Step(s, Stop), later).talking
    decreases |later|
  {
    if later != [] {
      assert Step(Step(s, Stop), later[0]).ran == s.ran;
      assert Step(Step(s, Stop), later[0]) == Step(Step(Step(s, Stop), later[0]), Stop);
      StoppedRunsNothing(Step(Step(s, Stop), later[0]), later[1..]);
    }
  }

  /** A start while talking, or one that names no conversation, changes nothing. */
  lemma StartIgnored(s: Session, o: Opening)
    requires s.talking || o.conversation == []
    ensures Step(s, Start(o)) == s
  {
  }

  /** A conversation that is opened runs its agent's first command. */
  lemma OpenedRunsFirst(s: Session, o: Opening, r: Received)
    requires !s.talking && o.conversation != [] && o.ready && o.agent != [] && o.joined
    requires r.generation == s.generation + 1 && r.sender == o.agent && r.channel in {[], o.channel}
    requires r.command.conversation == o.conversation
    ensures Step(Step(s, Start(o)), Handle(r)).ran == s.ran + [Done(s.generation + 1, r.command)]
  {
  }

  // ------------------------------------------------------------------- the control owner

  /** The runtime fields the control owner works on. */
  class ControlOwner {
    const history: CommandHistory
    var generation: nat
    var talking: bool
    var stopRequested: bool
    var conversation: Str
    var agent: Str
    var channel: Str
    ghost var ran: seq<Done>

    ghost predicate Valid()
      reads this, history, history.slots
    {
      history.Valid() && Inv(Now())
    }

    ghost function Now(): Session
      reads this, history
    {
      Session(generation, talking, stopRequested, conversation, agent, channel, history.accepted, ran)
    }

    constructor ()
      ensures Valid() && fresh(history) && fresh(history.slots) && Now() == POWER_UP
    {
      history := new CommandHistory();
      generation, talking, stopRequested := 0, false, false;
      conversation, agent, channel := [], [], [];
      ran := [];
    }

    /** action_start_conversation and dev_on_conversation_start. */
    method StartConversation(o: Opening)
      requires Valid()
      modifies this, history, history.slots
      ensures Valid() && Now() == Step(old(Now()), Start(o))
    {
      hide Inv;
      StepKeeps(Now(), Start(o));
      if talking || o.conversation == [] { return; }
      conversation := o.conversation;
      talking := true;
      if !o.ready || o.agent == [] {
        stopRequested := true;
        return;
      }
      channel := o.channel;
      agent := o.agent;
      generation := generation + 1;
      history.Reset();
      stopRequested := !o.joined;
    }

    /** complete_conversation_locally and dev_on_conversation_stop. */
    method StopConversation()
      requires Valid()
      modifies this, history, history.slots
      ensures Valid() && Now() == Step(old(Now()), Stop)
    {
      hide Inv;
      StepKeeps(Now(), Stop);
      if !talking { return; }
      conversation := [];
      generation := generation + 1;
      history.Reset();
      channel := [];
      agent := [];
      talking, stopRequested := false, false;
    }

    method HandleDeviceCommand(r: Received)
      requires Valid() && r.command.id != []
      modifies this, history, history.slots
      ensures Valid() && Now() == Step(old(Now()), Handle(r))
    {
      hide Inv;
      StepKeeps(Now(), Handle(r));
      if r.generation != generation || !talking || stopRequested || r.sender != agent ||
         (r.channel != [] && r.channel != channel) || r.command.conversation != conversation {
        return;
      }
      var isNew := history.Remember(r.command.id);
      if !isNew { return; }
      ran := ran + [Done(generation, r.command)];
    }
  }
}
