/**
 Member order never matters to a device command: permuting the members of any of its objects,
 at any depth, leaves the parser's verdict and its result as they were.
 */
module DeviceCommandOrder {
  import opened CText
  import opened JsonGrammar
  import opened DeviceCommand

  /** A rearrangement of n places: places[i] is where the i-th goes. */
  ghost predicate IsPermutation(places: seq<nat>, n: nat) {
    |places| == n && (forall i :: 0 <= i < n ==> places[i] < n) &&
    (forall i, j :: 0 <= i < j < n ==> places[i] != places[j]) &&
    forall k :: 0 <= k < n ==> Taken(places, k)
  }

  predicate Taken(places: seq<nat>, k: nat) { exists i :: 0 <= i < |places| && places[i] == k }

  /** The values of the same members, one by one, up to shuffling again. */
  ghost predicate Matched(a: seq<Member>, b: seq<Member>, places: seq<nat>)
    requires IsPermutation(places, |a|) && |a| == |b|
    decreases a, 0
  {
    forall i :: 0 <= i < |a| ==> a[i].name == b[places[i]].name && Shuffled(a[i].value, b[places[i]].value)
  }

  /** Equal but for the order of members in objects reached through objects. */
  ghost predicate Shuffled(v: Value, w: Value)
    decreases v, 1
  {
    v == w ||
    (v.Object? && w.Object? && |v.members| == |w.members| &&
     exists places :: IsPermutation(places, |v.members|) && Matched(v.members, w.members, places))
  }

  lemma ShuffledNames(a: seq<Member>, b: seq<Member>, places: seq<nat>, names: seq<Str>, required: nat)
    requires |a| == |b| && IsPermutation(places, |a|)
    requires forall i :: 0 <= i < |a| ==> a[i].name == b[places[i]].name
    ensures WellFielded(Object(a), names, required) <==> WellFielded(Object(b), names, required)
  {
    HasSame(a, b, places);
    DistinctSame(a, b, places);
    if Known(a, names) {
      forall k | 0 <= k < |b| ensures b[k].name in names {
        assert Taken(places, k);
        var i :| 0 <= i < |a| && places[i] == k;
        assert a[i].name in names;
      }
    }
    if Known(b, names) {
      forall i | 0 <= i < |a| ensures a[i].name in names { assert b[places[i]].name in names; }
    }
  }

  lemma HasSame(a: seq<Member>, b: seq<Member>, places: seq<nat>)
    requires |a| == |b| && IsPermutation(places, |a|)
    requires forall i :: 0 <= i < |a| ==> a[i].name == b[places[i]].name
    ensures forall name :: Has(a, name) <==> Has(b, name)
  {
    forall name | Has(b, name) ensures Has(a, name) {
      var k :| 0 <= k < |b| && b[k].name == name;
      assert Taken(places, k);
      var i :| 0 <= i < |a| && places[i] == k;
      assert a[i].name == name;
    }
  }

  lemma DistinctSame(a: seq<Member>, b: seq<Member>, places: seq<nat>)
    requires |a| == |b| && IsPermutation(places, |a|)
    requires forall i :: 0 <= i < |a| ==> a[i].name == b[places[i]].name
    ensures DistinctNames(a) <==> DistinctNames(b)
  {
    if DistinctNames(b) {
      forall i, j | 0 <= i < j < |a| ensures a[i].name != a[j].name {
        assert places[i] != places[j];
        if places[i] < places[j] {
          assert b[places[i]].name != b[places[j]].name;
        } else {
          assert b[places[j]].name != b[places[i]].name;
        }
      }
    }
    if DistinctNames(a) {
      forall k, m | 0 <= k < m < |b| ensures b[k].name != b[m].name {
        assert Taken(places, k);
        var i :| 0 <= i < |a| && places[i] == k;
        assert Taken(places, m);
        var j :| 0 <= j < |a| && places[j] == m;
        if i < j { assert a[i].name != a[j].name; } else { assert a[j].name != a[i].name; }
      }
    }
  }

  ghost predicate ShuffledOption(a: Option<Value>, b: Option<Value>) {
    if a.None? then b.None? else b.Some? && Shuffled(a.value, b.value)
  }

  /** The same fields are found, with values equal up to order. */
  lemma FieldShuffled(v: Value, w: Value, names: seq<Str>, required: nat, name: Str)
    requires Shuffled(v, w) && WellFielded(v, names, required)
    ensures WellFielded(w, names, required)
    ensures ShuffledOption(Field(v.members, name), Field(w.members, name))
  {
    if v != w {
      var places :| IsPermutation(places, |v.members|) && Matched(v.members, w.members, places);
      ShuffledNames(v.members, w.members, places, names, required);
      HasSame(v.members, w.members, places);
      if Has(v.members, name) {
        var i :| 0 <= i < |v.members| && v.members[i].name == name;
        FieldAt(v.members, i);
        FieldAt(w.members, places[i]);
      }
    }
  }

  lemma RefusedAlike(v: Value, w: Value, names: seq<Str>, required: nat)
    requires Shuffled(v, w)
    ensures WellFielded(v, names, required) <==> WellFielded(w, names, required)
  {
    if v != w {
      var places :| IsPermutation(places, |v.members|) && Matched(v.members, w.members, places);
      ShuffledNames(v.members, w.members, places, names, required);
    }
  }

  /** Texts and numbers have no order to lose. */
  lemma PlainShuffled(a: Option<Value>, b: Option<Value>, text: Str, minimum: int, maximum: int)
    requires ShuffledOption(a, b)
    ensures IsText(a, text) <==> IsText(b, text)
    ensures Id(a) == Id(b)
    ensures Integer(a, minimum, maximum) == Integer(b, minimum, maximum)
  {
  }

  lemma ParameterShuffled(a: Option<Value>, b: Option<Value>, name: Str, minimum: int)
    requires ShuffledOption(a, b)
    ensures Parameter(a, name, minimum) == Parameter(b, name, minimum)
  {
    hide Field, Shuffled, WellFielded, Integer, IsText, Id;
    if a.Some? {
      RefusedAlike(a.value, b.value, [name], 1);
      if WellFielded(a.value, [name], 1) {
        FieldShuffled(a.value, b.value, [name], 1, name);
        FieldObjects(a.value, b.value, [name], 1);
        PlainShuffled(Field(a.value.members, name), Field(b.value.members, name), [], minimum, 100);
      }
    }
  }

  lemma FieldObjects(v: Value, w: Value, names: seq<Str>, required: nat)
    requires WellFielded(v, names, required) && WellFielded(w, names, required)
    ensures v.Object? && w.Object?
  {
  }

  lemma ActionShuffled(a: Option<Value>, b: Option<Value>)
    requires ShuffledOption(a, b)
    ensures ActionOf(a) == ActionOf(b)
  {
    hide Field, Shuffled, WellFielded, Parameter, IsText, ShuffledOption, Id, Integer;
    OptionAlike(a, b);
    if a.Some? {
      var v, w := a.value, b.value;
      RefusedAlike(v, w, COMMAND_NAMES, 3);
      if WellFielded(v, COMMAND_NAMES, 3) {
        FieldObjects(v, w, COMMAND_NAMES, 3);
        FieldShuffled(v, w, COMMAND_NAMES, 3, TYPE);
        FieldShuffled(v, w, COMMAND_NAMES, 3, NAME);
        FieldShuffled(v, w, COMMAND_NAMES, 3, PARAMS);
        PlainShuffled(Field(v.members, TYPE), Field(w.members, TYPE), ACTION, 0, 0);
        PlainShuffled(Field(v.members, NAME), Field(w.members, NAME), SET_VOLUME, 0, 0);
        PlainShuffled(Field(v.members, NAME), Field(w.members, NAME), ADJUST_VOLUME, 0, 0);
        ParameterShuffled(Field(v.members, PARAMS), Field(w.members, PARAMS), LEVEL, 0);
        ParameterShuffled(Field(v.members, PARAMS), Field(w.members, PARAMS), DELTA, -100);
      }
    }
  }

  lemma OptionAlike(a: Option<Value>, b: Option<Value>)
    requires ShuffledOption(a, b)
    ensures if a.None? then b.None? else b.Some? && Shuffled(a.value, b.value)
  {
  }

  /** The parser's verdict and its command do not depend on the order of members anywhere. */
  lemma CommandIgnoresOrder(v: Value, w: Value)
    requires Shuffled(v, w)
    ensures CommandOf(v) == CommandOf(w)
  {
    hide Field, Shuffled, WellFielded, IsText, ShuffledOption, Id, Integer, ActionOf;
    RefusedAlike(v, w, ROOT_NAMES, 7);
    if WellFielded(v, ROOT_NAMES, 7) {
      FieldObjects(v, w, ROOT_NAMES, 7);
      RootFields(v, w);
      PlainShuffled(Field(v.members, TYPE), Field(w.members, TYPE), DEVICE_COMMAND, 0, 0);
      PlainShuffled(Field(v.members, SCHEMA), Field(w.members, SCHEMA), COMMAND_SCHEMA, 0, 0);
      PlainShuffled(Field(v.members, VERSION), Field(w.members, VERSION), [], 1, 1);
      PlainShuffled(Field(v.members, MESSAGE_ID), Field(w.members, MESSAGE_ID), [], 0, 0);
      PlainShuffled(Field(v.members, COMMAND_ID), Field(w.members, COMMAND_ID), [], 0, 0);
      PlainShuffled(Field(v.members, CONVERSATION_ID), Field(w.members, CONVERSATION_ID), [], 0, 0);
      ActionShuffled(Field(v.members, COMMAND), Field(w.members, COMMAND));
    }
  }

  lemma RootFields(v: Value, w: Value)
    requires Shuffled(v, w) && WellFielded(v, ROOT_NAMES, 7) && v.Object? && w.Object?
    ensures ShuffledOption(Field(v.members, TYPE), Field(w.members, TYPE))
    ensures ShuffledOption(Field(v.members, SCHEMA), Field(w.members, SCHEMA))
    ensures ShuffledOption(Field(v.members, VERSION), Field(w.members, VERSION))
    ensures ShuffledOption(Field(v.members, MESSAGE_ID), Field(w.members, MESSAGE_ID))
    ensures ShuffledOption(Field(v.members, COMMAND_ID), Field(w.members, COMMAND_ID))
    ensures ShuffledOption(Field(v.members, CONVERSATION_ID), Field(w.members, CONVERSATION_ID))
    ensures ShuffledOption(Field(v.members, COMMAND), Field(w.members, COMMAND))
  {
    hide Field, Shuffled, WellFielded, ShuffledOption;
    FieldShuffled(v, w, ROOT_NAMES, 7, TYPE);
    FieldShuffled(v, w, ROOT_NAMES, 7, SCHEMA);
    FieldShuffled(v, w, ROOT_NAMES, 7, VERSION);
    FieldShuffled(v, w, ROOT_NAMES, 7, MESSAGE_ID);
    FieldShuffled(v, w, ROOT_NAMES, 7, COMMAND_ID);
    FieldShuffled(v, w, ROOT_NAMES, 7, CONVERSATION_ID);
    FieldShuffled(v, w, ROOT_NAMES, 7, COMMAND);
  }
}
