/**
 The device-command reader of mybot_device_command.c on JSON values: one pass over an object
 with a bit mask of the names seen, and a parser whose result does not depend on member order.
 */
module DeviceCommand {
  import opened CText
  import opened JsonGrammar

  const ID_CAPACITY: nat := 128

  // ------------------------------------------------------------------ specification

  predicate DistinctNames(members: seq<Member>) {
    forall i, j :: 0 <= i < j < |members| ==> members[i].name != members[j].name
  }

  predicate Known(members: seq<Member>, names: seq<Str>) {
    forall i :: 0 <= i < |members| ==> members[i].name in names
  }

  predicate Has(members: seq<Member>, name: Str) {
    exists i :: 0 <= i < |members| && members[i].name == name
  }

  /** The value of the member with this name. */
  function Field(members: seq<Member>, name: Str): (f: Option<Value>)
    ensures f.None? <==> !Has(members, name)
    ensures f.Some? ==> exists i :: 0 <= i < |members| && members[i] == Member(name, f.value)
  {
    if members == [] then None
    else if members[0].name == name then
      assert members[0] == Member(name, members[0].value);
      Some(members[0].value)
    else
      var f := Field(members[1..], name);
      assert forall i :: 0 <= i < |members[1..]| ==> members[1..][i] == members[i + 1];
      assert Has(members, name) ==> Has(members[1..], name) by {
        if i :| 0 <= i < |members| && members[i].name == name { assert members[1..][i - 1] == members[i]; }
      }
      f
  }

  lemma FieldAt(members: seq<Member>, i: nat)
    requires DistinctNames(members) && i < |members|
    ensures Field(members, members[i].name) == Some(members[i].value)
  {
    var f := Field(members, members[i].name);
    assert Has(members, members[i].name);
    var j :| 0 <= j < |members| && members[j] == Member(members[i].name, f.value);
    assert i == j;
  }

  /** The object has no unknown and no repeated name, and every name of the required front part. */
  predicate WellFielded(root: Value, names: seq<Str>, required: nat) {
    root.Object? && DistinctNames(root.members) && Known(root.members, names) &&
    forall k :: 0 <= k < required && k < |names| ==> Has(root.members, names[k])
  }

  function Fields(root: Value, names: seq<Str>): seq<Option<Value>>
    requires root.Object?
  {
    seq(|names|, k requires 0 <= k < |names| => Field(root.members, names[k]))
  }

  // ----------------------------------------------------------------------- bit mask

  const MAX_FIELDS: nat := 9

  /** 1 << k. */
  function One(k: nat): bv16
    requires k < MAX_FIELDS
  {
    if k == 0 then 1 else if k == 1 then 2 else if k == 2 then 4 else if k == 3 then 8
    else if k == 4 then 16 else if k == 5 then 32 else if k == 6 then 64 else if k == 7 then 128
    else 256
  }

  /** (1 << required) - 1: the mask of the first names. */
  function Front(required: nat): bv16
    requires required < MAX_FIELDS
  {
    One(required) - 1
  }

  /** The mask has this single bit. */
  predicate Bit(mask: bv16, one: bv16) { mask & one != 0 }

  predicate Covers(mask: bv16, front: bv16) { mask & front == front }

  lemma BitIs(mask: bv16, one: bv16)
    ensures Bit(mask, one) <==> mask & one != 0
  {
  }

  lemma CoversIs(mask: bv16, front: bv16)
    ensures Covers(mask, front) <==> mask & front == front
  {
  }

  lemma OrSame(mask: bv16, a: bv16)
    requires a != 0
    ensures (mask | a) & a != 0
  {
  }

  lemma SetSame(mask: bv16, a: bv16)
    requires a != 0
    ensures Bit(mask | a, a)
  {
    hide Bit;
    OrSame(mask, a);
    BitIs(mask | a, a);
  }

  lemma SetOther(mask: bv16, a: bv16, b: bv16)
    requires !Bit(a, b)
    ensures Bit(mask | a, b) <==> Bit(mask, b)
  {
  }

  lemma OrCoversIf(mask: bv16, front: bv16, one: bv16)
    requires mask & one == one && mask & front == front
    ensures mask & (front | one) == front | one
  {
  }

  lemma OrCoversOnlyIf(mask: bv16, front: bv16, one: bv16)
    requires mask & (front | one) == front | one
    ensures mask & front == front && mask & one == one
  {
  }

  lemma OrCovers(mask: bv16, front: bv16, one: bv16)
    requires one != 0 && (mask & one == 0 || mask & one == one)
    ensures mask & (front | one) == front | one <==> mask & front == front && mask & one != 0
  {
    if mask & one == one && mask & front == front { OrCoversIf(mask, front, one); }
    if mask & (front | one) == front | one { OrCoversOnlyIf(mask, front, one); }
  }

  /** One bit at most, which the mask has or has not. */
  predicate Single(mask: bv16, one: bv16) { one != 0 && (mask & one == 0 || mask & one == one) }

  predicate Joined(front: bv16, one: bv16, both: bv16) { both == front | one }

  lemma CoverMore(mask: bv16, front: bv16, one: bv16, both: bv16)
    requires Single(mask, one) && Joined(front, one, both)
    ensures Covers(mask, both) <==> Covers(mask, front) && Bit(mask, one)
  {
    hide Bit, Covers;
    OrCovers(mask, front, one);
    BitIs(mask, one);
    CoversIs(mask, front);
    CoversIs(mask, both);
  }

  lemma OneBit(mask: bv16, k: nat)
    requires k < MAX_FIELDS
    ensures One(k) != 0 && Single(mask, One(k))
  {
  }

  lemma OnesApart(k: nat, j: nat)
    requires k < MAX_FIELDS && j < MAX_FIELDS && k != j
    ensures !Bit(One(k), One(j))
  {
  }

  lemma FrontGrows(required: nat)
    requires 0 < required < MAX_FIELDS
    ensures Joined(Front(required - 1), One(required - 1), Front(required))
  {
  }

  lemma NothingCovered(mask: bv16)
    ensures Covers(mask, Front(0))
  {
  }

  lemma NoBits(one: bv16)
    ensures !Bit(0, one)
  {
  }

  lemma SetBit(mask: bv16, k: nat, j: nat)
    requires k < MAX_FIELDS && j < MAX_FIELDS
    ensures Bit(mask | One(k), One(j)) <==> j == k || Bit(mask, One(j))
  {
    hide One, Bit;
    if j == k {
      OneBit(0, k);
      SetSame(mask, One(k));
    } else {
      OnesApart(k, j);
      SetOther(mask, One(k), One(j));
    }
  }

  lemma FrontStep(mask: bv16, required: nat)
    requires 0 < required < MAX_FIELDS
    ensures Covers(mask, Front(required)) <==>
      Covers(mask, Front(required - 1)) && Bit(mask, One(required - 1))
  {
    hide One, Bit, Front, Covers, Single, Joined;
    FrontGrows(required);
    OneBit(mask, required - 1);
    CoverMore(mask, Front(required - 1), One(required - 1), Front(required));
  }

  lemma {:induction false} FrontCovered(mask: bv16, required: nat)
    requires required < MAX_FIELDS
    ensures Covers(mask, Front(required)) <==> forall k :: 0 <= k < required ==> Bit(mask, One(k))
  {
    hide One, Bit, Front, Covers;
    if required == 0 {
      NothingCovered(mask);
    } else {
      FrontCovered(mask, required - 1);
      FrontStep(mask, required);
    }
  }

  // --------------------------------------------------------------------- read_fields

  /** Member i of the object, once seen, is the field of its name. */
  ghost predicate Noted(members: seq<Member>, names: seq<Str>, done: nat, seen: bv16, fields: seq<Option<Value>>)
    requires |names| <= MAX_FIELDS && done <= |members|
  {
    |fields| == |names| && DistinctNames(members[..done]) && Known(members[..done], names) &&
    forall k :: 0 <= k < |names| ==>
      fields[k] == Field(members[..done], names[k]) && (Bit(seen, One(k)) <==> fields[k].Some?)
  }

  lemma FieldLast(members: seq<Member>, last: Member, name: Str)
    ensures Field(members + [last], name) ==
      if Field(members, name).Some? || last.name != name then Field(members, name) else Some(last.value)
  {
    if members == [] {
      assert [last][1..] == [];
    } else {
      FieldLast(members[1..], last, name);
      assert (members + [last])[1..] == members[1..] + [last];
    }
  }

  predicate Distinct(names: seq<Str>) { forall i, j :: 0 <= i < j < |names| ==> names[i] != names[j] }

  lemma NotedNext(members: seq<Member>, names: seq<Str>, done: nat, seen: bv16, fields: seq<Option<Value>>, k: nat)
    requires |names| <= MAX_FIELDS && done < |members| && Noted(members, names, done, seen, fields)
    requires k < |names| && names[k] == members[done].name && !Bit(seen, One(k))
    requires Distinct(names)
    ensures Noted(members, names, done + 1, seen | One(k), fields[k := Some(members[done].value)])
  {
    hide One, Bit, Field;
    var before := members[..done];
    var last := members[done];
    assert members[..done + 1] == before + [last];
    forall j | 0 <= j < |names|
      ensures Field(before + [last], names[j]) == if j == k then Some(last.value) else fields[j]
      ensures Bit(seen | One(k), One(j)) <==> j == k || Bit(seen, One(j))
    {
      SetBit(seen, k, j);
      FieldLast(before, last, names[j]);
      assert j != k ==> names[j] != names[k];
    }
    assert !Has(before, last.name);
  }

  method ReadFields(root: Value, names: seq<Str>, required: nat) returns (fields: seq<Option<Value>>, ok: bool)
    requires required <= |names| <= MAX_FIELDS && required < MAX_FIELDS
    requires Distinct(names)
    ensures ok <==> WellFielded(root, names, required)
    ensures ok ==> fields == Fields(root, names)
  {
    hide One, Front, Bit, Covers, Field;
    fields := seq(|names|, _ => None);
    if !root.Object? { return fields, false; }
    var members := root.members;
    var seen: bv16 := 0;
    assert Noted(members, names, 0, seen, fields) by { NothingNoted(members, names, fields); }
    var at := 0;
    while at < |members|
      invariant at <= |members| && Noted(members, names, at, seen, fields)
    {
      var item := members[at];
      var index := 0;
      while index < |names| && item.name != names[index]
        invariant index <= |names| && forall k :: 0 <= k < index ==> names[k] != item.name
      {
        index := index + 1;
      }
      if index == |names| { return fields, false; }
      if IsSet(seen, index) {
        Repeated(members, at, names[index]);
        return fields, false;
      }
      NotedNext(members, names, at, seen, fields, index);
      seen := seen | One(index);
      fields := fields[index := Some(item.value)];
      at := at + 1;
    }
    assert members[..at] == members;
    FrontCovered(seen, required);
    ok := IsCovered(seen, required);
    return fields, ok;
  }

  function IsSet(seen: bv16, k: nat): (r: bool)
    requires k < MAX_FIELDS
    ensures r == Bit(seen, One(k))
  {
    seen & One(k) != 0
  }

  function IsCovered(seen: bv16, required: nat): (r: bool)
    requires required < MAX_FIELDS
    ensures r == Covers(seen, Front(required))
  {
    seen & Front(required) == Front(required)
  }

  lemma NothingNoted(members: seq<Member>, names: seq<Str>, fields: seq<Option<Value>>)
    requires |names| <= MAX_FIELDS && fields == seq(|names|, _ => None)
    ensures Noted(members, names, 0, 0, fields)
  {
    hide One, Bit;
    forall k | 0 <= k < |names| ensures !Bit(0, One(k)) { NoBits(One(k)); }
  }

  lemma Repeated(members: seq<Member>, at: nat, name: Str)
    requires at < |members| && members[at].name == name && Field(members[..at], name).Some?
    ensures !DistinctNames(members)
  {
    assert Has(members[..at], name);
    var i :| 0 <= i < at && members[..at][i].name == name;
    assert members[i].name == members[at].name;
  }

  // ------------------------------------------------------------------------ commands

  const TYPE: Str := Bytes("type")
  const SCHEMA: Str := Bytes("schema")
  const VERSION: Str := Bytes("version")
  const MESSAGE_ID: Str := Bytes("message_id")
  const COMMAND_ID: Str := Bytes("command_id")
  const CONVERSATION_ID: Str := Bytes("conversation_id")
  const COMMAND: Str := Bytes("command")
  const ISSUED_AT: Str := Bytes("issued_at")
  const EXPIRES_AT: Str := Bytes("expires_at")
  const NAME: Str := Bytes("name")
  const PARAMS: Str := Bytes("params")
  const LEVEL: Str := Bytes("level")
  const DELTA: Str := Bytes("delta")
  const DEVICE_COMMAND: Str := Bytes("device_command")
  const COMMAND_SCHEMA: Str := Bytes("botstation.device-command")
  const ACTION: Str := Bytes("action")
  const AUDIO: Str := Bytes("audio.")
  const VOLUME: Str := Bytes("_volume")
  const SET: Str := Bytes("set")
  const ADJUST: Str := Bytes("adjust")
  const SET_VOLUME: Str := AUDIO + SET + VOLUME
  const ADJUST_VOLUME: Str := AUDIO + ADJUST + VOLUME

  const ROOT_NAMES: seq<Str> :=
    [TYPE, SCHEMA, VERSION, MESSAGE_ID, COMMAND_ID, CONVERSATION_ID, COMMAND, ISSUED_AT, EXPIRES_AT]
  const COMMAND_NAMES: seq<Str> := [TYPE, NAME, PARAMS]

  /** The names are distinct: no two agree in length and first letter. */
  lemma NamesDiffer()
    ensures Distinct(ROOT_NAMES) && Distinct(COMMAND_NAMES)
  {
    hide Bytes;
    forall i, j | 0 <= i < j < |ROOT_NAMES| ensures ROOT_NAMES[i] != ROOT_NAMES[j] {
      Shape(i);
      Shape(j);
    }
    assert |TYPE| == |NAME| == 4 && |PARAMS| == 6 && TYPE[0] != NAME[0];
  }

  const SHAPES: seq<(nat, char)> :=
    [(4, 't'), (6, 's'), (7, 'v'), (10, 'm'), (10, 'c'), (15, 'c'), (7, 'c'), (9, 'i'), (10, 'e')]

  lemma Shape(k: nat)
    requires k < |ROOT_NAMES|
    ensures |ROOT_NAMES[k]| == SHAPES[k].0 && ROOT_NAMES[k][0] == SHAPES[k].1 as int
  {
  }

  datatype Kind = SetVolume | AdjustVolume

  datatype Command = Command(kind: Kind, messageId: Str, commandId: Str, conversationId: Str, value: int)

  function Id(v: Option<Value>): Option<Str> {
    if v.Some? && v.value.String? && 0 < |v.value.text| < ID_CAPACITY then Some(v.value.text) else None
  }

  predicate IsText(v: Option<Value>, expected: Str) { v == Some(String(expected)) }

  /** The whole number a value stands for, however it was written. */
  function Whole(v: Value): Option<int> {
    match v
    case Number(n) => Some(n)
    case Fraction(mantissa, exponent) =>
      if exponent >= 0 then Some(mantissa * Pow10(exponent))
      else if mantissa % Pow10(0 - exponent) == 0 then Some(mantissa / Pow10(0 - exponent))
      else None
    case _ => None
  }

  function Integer(v: Option<Value>, minimum: int, maximum: int): Option<int> {
    if v.None? then None
    else
      var n := Whole(v.value);
      if n.Some? && minimum <= n.value <= maximum then n else None
  }

  /** The parameter of an action. */
  function Parameter(params: Option<Value>, name: Str, minimum: int): Option<int> {
    if params.Some? && WellFielded(params.value, [name], 1) then
      Integer(Field(params.value.members, name), minimum, 100)
    else None
  }

  datatype Action = Action(kind: Kind, value: int)

  function ActionOf(v: Option<Value>): Option<Action> {
    if v.None? || !WellFielded(v.value, COMMAND_NAMES, 3) then None
    else
      var m := v.value.members;
      if !IsText(Field(m, TYPE), ACTION) then None
      else if IsText(Field(m, NAME), SET_VOLUME) then
        var n := Parameter(Field(m, PARAMS), LEVEL, 0);
        if n.None? then None else Some(Action(SetVolume, n.value))
      else if IsText(Field(m, NAME), ADJUST_VOLUME) then
        var n := Parameter(Field(m, PARAMS), DELTA, -100);
        if n.None? then None else Some(Action(AdjustVolume, n.value))
      else None
  }

  /** mybot_device_command_parse. */
  function CommandOf(root: Value): Option<Command> {
    if !WellFielded(root, ROOT_NAMES, 7) then None
    else
      var m := root.members;
      var messageId := Id(Field(m, MESSAGE_ID));
      var commandId := Id(Field(m, COMMAND_ID));
      var conversationId := Id(Field(m, CONVERSATION_ID));
      var action := ActionOf(Field(m, COMMAND));
      if IsText(Field(m, TYPE), DEVICE_COMMAND) && IsText(Field(m, SCHEMA), COMMAND_SCHEMA) &&
         Integer(Field(m, VERSION), 1, 1).Some? && messageId.Some? && commandId.Some? &&
         conversationId.Some? && action.Some?
      then Some(Command(action.value.kind, messageId.value, commandId.value, conversationId.value,
                        action.value.value))
      else None
  }

  // ------------------------------------------------------------------- implementation

  method ReadId(v: Option<Value>) returns (id: Str, ok: bool)
    ensures ok <==> Id(v).Some?
    ensures ok ==> Id(v) == Some(id)
  {
    id := [];
    if v.None? || !v.value.String? { return id, false; }
    var length := |v.value.text|;
    if length == 0 || length >= ID_CAPACITY { return id, false; }
    return v.value.text, true;
  }

  method ReadInteger(v: Option<Value>, minimum: int, maximum: int) returns (result: int, ok: bool)
    ensures ok <==> Integer(v, minimum, maximum).Some?
    ensures ok ==> Integer(v, minimum, maximum) == Some(result)
  {
    if v.None? { return 0, false; }
    var n := Whole(v.value);
    if n.None? || n.value < minimum || n.value > maximum { return 0, false; }
    return n.value, true;
  }

  method ParseParameter(params: Option<Value>, name: Str, minimum: int) returns (value: int, ok: bool)
    ensures ok <==> Parameter(params, name, minimum).Some?
    ensures ok ==> Parameter(params, name, minimum) == Some(value)
  {
    if params.None? { return 0, false; }
    var fields, read := ReadFields(params.value, [name], 1);
    if !read { return 0, false; }
    value, ok := ReadInteger(fields[0], minimum, 100);
  }

  method ParseAction(v: Option<Value>) returns (action: Option<Action>)
    ensures action == ActionOf(v)
  {
    hide Field, WellFielded, Parameter;
    if v.None? { return None; }
    NamesDiffer();
    var fields, read := ReadFields(v.value, COMMAND_NAMES, 3);
    if !read { return None; }
    if !IsText(fields[0], ACTION) { return None; }
    var kind, name, minimum;
    if IsText(fields[1], SET_VOLUME) {
      kind, name, minimum := SetVolume, LEVEL, 0;
    } else if IsText(fields[1], ADJUST_VOLUME) {
      kind, name, minimum := AdjustVolume, DELTA, -100;
    } else {
      return None;
    }
    var value, ok := ParseParameter(fields[2], name, minimum);
    if !ok { return None; }
    return Some(Action(kind, value));
  }

  method ParseDeviceCommand(root: Value) returns (command: Option<Command>)
    ensures command == CommandOf(root)
  {
    hide Field, WellFielded, ActionOf, Id, Integer;
    NamesDiffer();
    var fields, read := ReadFields(root, ROOT_NAMES, 7);
    if !read { return None; }
    if !IsText(fields[0], DEVICE_COMMAND) || !IsText(fields[1], COMMAND_SCHEMA) { return None; }
    var version, versioned := ReadInteger(fields[2], 1, 1);
    if !versioned { return None; }
    var messageId, hasMessage := ReadId(fields[3]);
    if !hasMessage { return None; }
    var commandId, hasCommand := ReadId(fields[4]);
    if !hasCommand { return None; }
    var conversationId, hasConversation := ReadId(fields[5]);
    if !hasConversation { return None; }
    var action := ParseAction(fields[6]);
    if action.None? { return None; }
    return Some(Command(action.value.kind, messageId, commandId, conversationId, action.value.value));
  }
}
