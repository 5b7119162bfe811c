/**
 Which JSON trees are device commands, told by the literal names and texts of the protocol, and the
 proof that the parser accepts exactly these and reads each part from its own member.
 */
module DeviceCommandMeaning {
  import Arithmetic
  import opened CText
  import opened JsonGrammar
  import opened JsonLiterals
  import opened DeviceCommand

  /** The object has this member. */
  predicate Holds(members: seq<Member>, name: string, v: Value)
    requires forall i :: 0 <= i < |name| ==> name[i] as int < 256
  {
    Member(Bytes(name), v) in members
  }

  /** The value is a number and this whole number is what it means. */
  ghost predicate Means(v: Value, n: int) {
    v == Number(n) || (v.Fraction? && v.mantissa as real * Ten(v.exponent) == n as real)
  }

  predicate OnlyNamed(members: seq<Member>, names: set<Str>) {
    DistinctNames(members) && forall i :: 0 <= i < |members| ==> members[i].name in names
  }

  predicate IsId(id: Str) { 1 <= |id| <= 127 }

  /** An object with this one member, a whole number. */
  ghost predicate IsParameter(v: Value, name: Str, n: int) {
    v.Object? && |v.members| == 1 && v.members[0].name == name && Means(v.members[0].value, n)
  }

  ghost predicate SetsVolume(members: seq<Member>, level: int) {
    Holds(members, "name", String(Bytes("audio.set_volume"))) && 0 <= level <= 100 &&
    exists params :: Holds(members, "params", params) && IsParameter(params, Bytes("level"), level)
  }

  ghost predicate AdjustsVolume(members: seq<Member>, delta: int) {
    Holds(members, "name", String(Bytes("audio.adjust_volume"))) && -100 <= delta <= 100 &&
    exists params :: Holds(members, "params", params) && IsParameter(params, Bytes("delta"), delta)
  }

  ghost predicate IsAction(v: Value, kind: Kind, value: int) {
    v.Object? && OnlyNamed(v.members, {Bytes("type"), Bytes("name"), Bytes("params")}) &&
    Holds(v.members, "type", String(Bytes("action"))) &&
    match kind
    case SetVolume => SetsVolume(v.members, value)
    case AdjustVolume => AdjustsVolume(v.members, value)
  }

  const MAY_BE_NAMED: set<Str> :=
    {Bytes("type"), Bytes("schema"), Bytes("version"), Bytes("message_id"), Bytes("command_id"),
     Bytes("conversation_id"), Bytes("command"), Bytes("issued_at"), Bytes("expires_at")}

  ghost predicate IsEnvelope(members: seq<Member>) {
    Holds(members, "type", String(Bytes("device_command"))) &&
    Holds(members, "schema", String(Bytes("botstation.device-command"))) &&
    exists version :: Holds(members, "version", version) && Means(version, 1)
  }

  predicate NamesIds(members: seq<Member>, c: Command) {
    Holds(members, "message_id", String(c.messageId)) && IsId(c.messageId) &&
    Holds(members, "command_id", String(c.commandId)) && IsId(c.commandId) &&
    Holds(members, "conversation_id", String(c.conversationId)) && IsId(c.conversationId)
  }

  ghost predicate IsCommand(root: Value, c: Command) {
    root.Object? && OnlyNamed(root.members, MAY_BE_NAMED) && IsEnvelope(root.members) &&
    NamesIds(root.members, c) &&
    exists action :: Holds(root.members, "command", action) && IsAction(action, c.kind, c.value)
  }

  // --------------------------------------------------------------------------- parts

  lemma FieldIsMember(members: seq<Member>, name: Str, v: Value)
    requires DistinctNames(members)
    ensures Field(members, name) == Some(v) <==> Member(name, v) in members
  {
    if Member(name, v) in members {
      var i :| 0 <= i < |members| && members[i] == Member(name, v);
      FieldAt(members, i);
    }
  }

  lemma WholeMeans(v: Value, n: int)
    ensures Whole(v) == Some(n) <==> Means(v, n)
  {
    hide Ten, Pow10;
    if v.Fraction? {
      if v.exponent >= 0 {
        TenIsPow10(v.exponent);
        Product(v.mantissa, Pow10(v.exponent));
      } else {
        DividedMeans(v.mantissa, 0 - v.exponent, n);
      }
    }
  }

  lemma DividedMeans(m: int, k: nat, n: int)
    requires k > 0
    ensures (m % Pow10(k) == 0 && m / Pow10(k) == n) <==> m as real * Ten(0 - k) == n as real
  {
    hide Ten, Pow10;
    TenIsPow10(k);
    var power := Pow10(k);
    var x := m as real * Ten(0 - k);
    Regroup(m as real, Ten(0 - k), power as real);
    BoundScales(n, m, x, power);
    BoundScales(n + 1, m, x, power);
    QuotientIs(m, power, n);
    if x == n as real {
      Product(n, power);
      assert m as real == (n * power) as real;
    } else if m == n * power {
      Product(n, power);
      Cancels(x, n as real, power as real);
    }
  }

  lemma Cancels(x: real, y: real, c: real)
    requires c > 0.0 && x * c == y * c
    ensures x == y
  {
    Scaling(x, y, c);
    Scaling(y, x, c);
  }

  lemma QuotientIs(m: int, power: nat, n: int)
    requires power >= 1
    ensures m % power == 0 && m / power == n <==> m == n * power
  {
    assert m == m / power * power + m % power;
    if m == n * power { Arithmetic.DivIs(m, power, n); }
  }

  // ------------------------------------------------------------------------- theorem

  lemma FieldsAre(members: seq<Member>)
    requires DistinctNames(members)
    ensures forall name, v :: Field(members, name) == Some(v) <==> Member(name, v) in members
  {
    forall name, v ensures Field(members, name) == Some(v) <==> Member(name, v) in members {
      FieldIsMember(members, name, v);
    }
  }

  lemma HasField(members: seq<Member>, name: Str)
    ensures Has(members, name) <==> Field(members, name).Some?
  {
  }

  lemma ParameterIs(v: Value, name: Str, minimum: int, n: int)
    ensures Parameter(Some(v), name, minimum) == Some(n) <==> IsParameter(v, name, n) && minimum <= n <= 100
  {
    hide Whole, Means;
    if WellFielded(v, [name], 1) {
      assert Has(v.members, [name][0]);
      OneMember(v.members, name);
      WholeMeans(v.members[0].value, n);
      FieldAt(v.members, 0);
    }
  }

  lemma OneMember(members: seq<Member>, name: Str)
    requires DistinctNames(members) && Known(members, [name]) && Has(members, name)
    ensures |members| == 1 && members[0].name == name
  {
    var second := if |members| > 1 then members[1] else members[0];
    assert members[0].name in [name] && second.name in [name];
  }

  lemma ActionIs(v: Value, kind: Kind, value: int)
    ensures ActionOf(Some(v)) == Some(Action(kind, value)) <==> IsAction(v, kind, value)
  {
    hide Parameter, IsParameter, Field, Bytes;
    if v.Object? && DistinctNames(v.members) {
      var m := v.members;
      FieldsAre(m);
      ThreeNames(m);
      TextsDiffer();
      var params := Field(m, PARAMS);
      if params.Some? {
        ParameterIs(params.value, LEVEL, 0, value);
        ParameterIs(params.value, DELTA, -100, value);
      }
    }
  }

  lemma TextsDiffer()
    ensures SET_VOLUME == Bytes("audio.set_volume") && ADJUST_VOLUME == Bytes("audio.adjust_volume")
    ensures SET_VOLUME != ADJUST_VOLUME
  {
    assert |SET_VOLUME| == 16 && |ADJUST_VOLUME| == 19;
    assert SET_VOLUME == Bytes("audio.set_volume");
    assert ADJUST_VOLUME == Bytes("audio.adjust_volume");
  }

  lemma ThreeNames(members: seq<Member>)
    requires DistinctNames(members)
    ensures WellFielded(Object(members), COMMAND_NAMES, 3) <==>
      OnlyNamed(members, {Bytes("type"), Bytes("name"), Bytes("params")}) &&
      Field(members, TYPE).Some? && Field(members, NAME).Some? && Field(members, PARAMS).Some?
  {
    hide Field, Bytes;
    HasField(members, TYPE);
    HasField(members, NAME);
    HasField(members, PARAMS);
    assert COMMAND_NAMES[0] == TYPE && COMMAND_NAMES[1] == NAME && COMMAND_NAMES[2] == PARAMS;
  }

  lemma NineNames(members: seq<Member>)
    requires DistinctNames(members)
    ensures WellFielded(Object(members), ROOT_NAMES, 7) <==>
      OnlyNamed(members, MAY_BE_NAMED) &&
      Field(members, TYPE).Some? && Field(members, SCHEMA).Some? && Field(members, VERSION).Some? &&
      Field(members, MESSAGE_ID).Some? && Field(members, COMMAND_ID).Some? &&
      Field(members, CONVERSATION_ID).Some? && Field(members, COMMAND).Some?
  {
    hide Field, Bytes;
    HasField(members, TYPE);
    HasField(members, SCHEMA);
    HasField(members, VERSION);
    HasField(members, MESSAGE_ID);
    HasField(members, COMMAND_ID);
    HasField(members, CONVERSATION_ID);
    HasField(members, COMMAND);
    assert ROOT_NAMES[0] == TYPE && ROOT_NAMES[1] == SCHEMA && ROOT_NAMES[2] == VERSION;
    assert ROOT_NAMES[3] == MESSAGE_ID && ROOT_NAMES[4] == COMMAND_ID && ROOT_NAMES[5] == CONVERSATION_ID;
    assert ROOT_NAMES[6] == COMMAND;
  }

  /**
   The parser takes a tree for this command exactly if it is an object with these members, in any
   order, and neither repeated nor unknown ones.
   */
  lemma CommandIsExactly(root: Value, c: Command)
    ensures CommandOf(root) == Some(c) <==> IsCommand(root, c)
  {
    hide Field, Bytes, ActionOf, IsAction, Whole, Means, IsEnvelope, NamesIds, WellFielded, OnlyNamed, Id, IsText,
      Integer;
    if root.Object? && DistinctNames(root.members) {
      var m := root.members;
      NineNames(m);
      EnvelopeIs(m);
      IdsAre(m, c);
      ActionIsThere(m, c.kind, c.value);
    } else {
      NotDistinct(root);
    }
  }

  lemma NotDistinct(root: Value)
    requires !(root.Object? && DistinctNames(root.members))
    ensures !WellFielded(root, ROOT_NAMES, 7) && (root.Object? ==> !OnlyNamed(root.members, MAY_BE_NAMED))
  {
  }

  lemma EnvelopeIs(m: seq<Member>)
    requires DistinctNames(m)
    ensures IsEnvelope(m) <==>
      IsText(Field(m, TYPE), DEVICE_COMMAND) && IsText(Field(m, SCHEMA), COMMAND_SCHEMA) &&
      Integer(Field(m, VERSION), 1, 1).Some?
    ensures IsEnvelope(m) ==> Field(m, TYPE).Some? && Field(m, SCHEMA).Some? && Field(m, VERSION).Some?
  {
    hide Field, Bytes, Whole, Means;
    FieldsAre(m);
    var version := Field(m, VERSION);
    if version.Some? { WholeMeans(version.value, 1); }
  }

  lemma IdsAre(m: seq<Member>, c: Command)
    requires DistinctNames(m)
    ensures NamesIds(m, c) <==>
      Id(Field(m, MESSAGE_ID)) == Some(c.messageId) && Id(Field(m, COMMAND_ID)) == Some(c.commandId) &&
      Id(Field(m, CONVERSATION_ID)) == Some(c.conversationId)
    ensures NamesIds(m, c) ==>
      Field(m, MESSAGE_ID).Some? && Field(m, COMMAND_ID).Some? && Field(m, CONVERSATION_ID).Some?
  {
    hide Field, Bytes;
    FieldsAre(m);
  }

  lemma ActionIsThere(m: seq<Member>, kind: Kind, value: int)
    requires DistinctNames(m)
    ensures (exists action :: Holds(m, "command", action) && IsAction(action, kind, value)) <==>
      Field(m, COMMAND).Some? && ActionOf(Field(m, COMMAND)) == Some(Action(kind, value))
    ensures ActionOf(None).None?
  {
    hide Field, Bytes, ActionOf, IsAction;
    FieldsAre(m);
    NoAction();
    var action := Field(m, COMMAND);
    if action.Some? { ActionIs(action.value, kind, value); }
  }

  lemma NoAction()
    ensures ActionOf(None).None?
  {
  }

  /** An action in the usual order of its members, with a level to set or a delta to adjust by. */
  function SpeltAction(kind: Kind, value: int): Value {
    var name := if kind == SetVolume then Bytes("audio.set_volume") else Bytes("audio.adjust_volume");
    var parameter := if kind == SetVolume then Bytes("level") else Bytes("delta");
    Object([Member(Bytes("type"), String(Bytes("action"))), Member(Bytes("name"), String(name)),
            Member(Bytes("params"), Object([Member(parameter, Number(value))]))])
  }

  function Spelt(messageId: Str, commandId: Str, conversationId: Str, action: Value): Value {
    Object([Member(Bytes("type"), String(Bytes("device_command"))),
            Member(Bytes("schema"), String(Bytes("botstation.device-command"))),
            Member(Bytes("version"), Number(1)), Member(Bytes("message_id"), String(messageId)),
            Member(Bytes("command_id"), String(commandId)), Member(Bytes("conversation_id"), String(conversationId)),
            Member(Bytes("command"), action)])
  }

  lemma SpeltActionIs(kind: Kind, value: int)
    requires (if kind == SetVolume then 0 else -100) <= value <= 100
    ensures IsAction(SpeltAction(kind, value), kind, value)
  {
    hide Bytes, Ten;
    NamesDiffer();
    var action := SpeltAction(kind, value);
    var params := action.members[2].value;
    assert COMMAND_NAMES[0] != COMMAND_NAMES[1] && COMMAND_NAMES[0] != COMMAND_NAMES[2];
    assert COMMAND_NAMES[1] != COMMAND_NAMES[2];
    assert action.members[1] in action.members && action.members[2] in action.members;
    assert IsParameter(params, params.members[0].name, value) && Holds(action.members, "params", params);
  }

  /** Every such command within its range is accepted for what it says. */
  lemma SpeltIsAccepted(kind: Kind, messageId: Str, commandId: Str, conversationId: Str, value: int)
    requires IsId(messageId) && IsId(commandId) && IsId(conversationId)
    requires (if kind == SetVolume then 0 else -100) <= value <= 100
    ensures CommandOf(Spelt(messageId, commandId, conversationId, SpeltAction(kind, value))) ==
      Some(Command(kind, messageId, commandId, conversationId, value))
  {
    hide Bytes, Ten, IsAction, SpeltAction, CommandOf;
    var action := SpeltAction(kind, value);
    var c := Command(kind, messageId, commandId, conversationId, value);
    var root := Spelt(messageId, commandId, conversationId, action);
    SpeltActionIs(kind, value);
    SpeltMembers(messageId, commandId, conversationId, action, c);
    CommandIsExactly(root, c);
  }

  lemma SpeltMembers(messageId: Str, commandId: Str, conversationId: Str, action: Value, c: Command)
    requires IsId(messageId) && IsId(commandId) && IsId(conversationId)
    requires c.messageId == messageId && c.commandId == commandId && c.conversationId == conversationId
    ensures var m := Spelt(messageId, commandId, conversationId, action).members;
      OnlyNamed(m, MAY_BE_NAMED) && IsEnvelope(m) && NamesIds(m, c) && Holds(m, "command", action)
  {
    hide Bytes, Ten, OnlyNamed;
    var m := Spelt(messageId, commandId, conversationId, action).members;
    SpeltNames(messageId, commandId, conversationId, action);
    assert m[0] in m && m[1] in m && m[2] in m && m[3] in m && m[4] in m && m[5] in m && m[6] in m;
    assert Holds(m, "version", Number(1));
  }

  lemma SpeltNames(messageId: Str, commandId: Str, conversationId: Str, action: Value)
    ensures OnlyNamed(Spelt(messageId, commandId, conversationId, action).members, MAY_BE_NAMED)
  {
    hide Bytes;
    DistinctRoot(Spelt(messageId, commandId, conversationId, action).members);
  }

  lemma DistinctRoot(members: seq<Member>)
    requires |members| == 7 && forall i :: 0 <= i < 7 ==> members[i].name == ROOT_NAMES[i]
    ensures DistinctNames(members)
  {
    hide Bytes;
    NamesDiffer();
    forall i, j | 0 <= i < j < |members| ensures members[i].name != members[j].name {
      assert ROOT_NAMES[i] != ROOT_NAMES[j];
    }
  }
}
