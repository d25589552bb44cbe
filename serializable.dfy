/**
 * `Serializable`: schema-driven conversion of dataclass instances to plain
 * dicts (`to_dict`, built on `_serialize`) and back (`from_dict`), with the
 * `non_serializable()` field marker, and the `Command` / `Update` records
 * of the network layer.
 */
module Serialization {
  import opened Values

  /**
   * `non_serializable(repr=..., compare=...)`: a field that defaults to `None`
   * and is flagged in its metadata; `repr` and `compare` are passed through
   * (both default to False in the source).
   */
  function NonSerializable(name: string, hint: TypeHint, repr: bool, compare: bool): (f: FieldDesc)
    ensures f.nonSerializable && f.default == Some(Null)
    ensures f.name == name && f.hint == hint && f.repr == repr && f.compare == compare
  {
    FieldDesc(name, hint, true, Some(Null), repr, compare)
  }

  /** A plain dataclass field (`repr` and `compare` left at their defaults). */
  function PlainField(name: string, hint: TypeHint, default: Option<Value>): FieldDesc
  {
    FieldDesc(name, hint, false, default, true, true)
  }

  predicate Private(name: string)
  {
    |name| > 0 && name[0] == '_'
  }

  /** Whether `to_dict` emits the field: it is neither flagged non-serializable nor underscore-prefixed. */
  predicate Emitted(f: FieldDesc)
  {
    !f.nonSerializable && !Private(f.name)
  }

  /** The keys `to_dict` emits. */
  function EmittedNames(fs: seq<FieldDesc>): (ns: seq<string>)
    ensures forall n :: n in ns <==> exists i :: 0 <= i < |fs| && Emitted(fs[i]) && fs[i].name == n
  {
    if fs == [] then []
    else
      var rest := EmittedNames(fs[1..]);
      assert forall i :: 1 <= i < |fs| ==> fs[i] == fs[1..][i - 1];
      (if Emitted(fs[0]) then [fs[0].name] else []) + rest
  }

  predicate DistinctNames(fs: seq<FieldDesc>)
  {
    forall i, j :: 0 <= i < j < |fs| ==> fs[i].name != fs[j].name
  }

  /** JSON-shaped: built from None, bools, ints, strings, lists and string-keyed dicts only. */
  predicate Plain(v: Value)
  {
    match v
    case List(xs) => forall i :: 0 <= i < |xs| ==> Plain(xs[i])
    case Dict(m) => forall k :: k in m ==> Plain(m[k])
    case Member(_, _) => false
    case Object(_, _) => false
    case _ => true
  }

  /**
   * `_serialize`: an enum member becomes its value, lists and dicts are mapped
   * element-wise and value-wise, a nested `Serializable` becomes its `to_dict()`,
   * and anything else is returned unchanged.
   */
  function Serialize(v: Value): Value
    decreases v, 2
  {
    match v
    case Member(_, s) => Str(s)
    case List(xs) => List(seq(|xs|, i requires 0 <= i < |xs| => Serialize(xs[i])))
    case Dict(m) => Dict(map k | k in m :: Serialize(m[k]))
    case Object(_, _) => Dict(ToDict(v))
    case _ => v
  }

  /** `Serializable.to_dict()`: every emitted field, mapped through `_serialize`. */
  function ToDict(obj: Value): map<string, Value>
    requires obj.Object?
    decreases obj, 1
  {
    FieldsDict(obj.schema.fields, SerializedValues(obj))
  }

  function SerializedValues(obj: Value): (ws: seq<Value>)
    requires obj.Object?
    ensures |ws| == |obj.values|
    decreases obj, 0
  {
    seq(|obj.values|, i requires 0 <= i < |obj.values| => Serialize(obj.values[i]))
  }

  /** The dict the `for f in fields(self)` loop builds: a later field with the same name overwrites an earlier one. */
  function FieldsDict(fs: seq<FieldDesc>, ws: seq<Value>): map<string, Value>
  {
    if fs == [] || ws == [] then map[]
    else (if Emitted(fs[0]) then map[fs[0].name := ws[0]] else map[]) + FieldsDict(fs[1..], ws[1..])
  }

  /** `to_dict` emits exactly the emitted fields, each with its own value. */
  lemma {:induction false} FieldsDictLookup(fs: seq<FieldDesc>, ws: seq<Value>)
    requires |fs| == |ws| && DistinctNames(fs)
    ensures forall n :: n in FieldsDict(fs, ws) <==> n in EmittedNames(fs)
    ensures forall i :: 0 <= i < |fs| && Emitted(fs[i]) ==> FieldsDict(fs, ws)[fs[i].name] == ws[i]
  {
    if fs != [] {
      FieldsDictLookup(fs[1..], ws[1..]);
      var rest := FieldsDict(fs[1..], ws[1..]);
      forall i | 0 <= i < |fs[1..]| ensures fs[1..][i].name != fs[0].name {
        assert fs[1..][i] == fs[i + 1];
      }
      assert fs[0].name !in EmittedNames(fs[1..]);
      forall i | 0 <= i < |fs| && Emitted(fs[i]) ensures FieldsDict(fs, ws)[fs[i].name] == ws[i] {
        if i > 0 {
          assert fs[1..][i - 1] == fs[i] && ws[1..][i - 1] == ws[i];
        }
      }
    }
  }

  /** `to_dict` of a dataclass instance: its keys are the emitted field names, with serialized values. */
  lemma ToDictFields(s: Schema, vs: seq<Value>)
    requires |vs| == |s.fields| && DistinctNames(s.fields)
    ensures forall n :: n in ToDict(Object(s, vs)) <==> n in EmittedNames(s.fields)
    ensures forall i :: 0 <= i < |vs| && Emitted(s.fields[i]) ==> ToDict(Object(s, vs))[s.fields[i].name] == Serialize(vs[i])
  {
    FieldsDictLookup(s.fields, SerializedValues(Object(s, vs)));
  }

  /**
   * `_serialize` always yields JSON-shaped data, keeps list lengths and dict
   * keys, and is the identity on data that is already JSON-shaped.
   */
  lemma {:induction false} SerializeShape(v: Value)
    ensures Plain(Serialize(v))
    ensures Plain(v) ==> Serialize(v) == v
    ensures v.Member? ==> Serialize(v) == Str(v.value)
    ensures v.List? ==> Serialize(v).List? && |Serialize(v).items| == |v.items|
    ensures v.Dict? ==> Serialize(v).Dict? && Serialize(v).entries.Keys == v.entries.Keys
    ensures v.Object? ==> Serialize(v) == Dict(ToDict(v))
    decreases v
  {
    match v
    case List(xs) =>
      forall i | 0 <= i < |xs| ensures Plain(Serialize(xs[i])) && (Plain(xs[i]) ==> Serialize(xs[i]) == xs[i]) {
        SerializeShape(xs[i]);
      }
      if Plain(v) {
        assert Serialize(v).items == xs;
      }
    case Dict(m) =>
      forall k | k in m ensures Plain(Serialize(m[k])) && (Plain(m[k]) ==> Serialize(m[k]) == m[k]) {
        SerializeShape(m[k]);
      }
      if Plain(v) {
        assert Serialize(v).entries == m;
      }
    case Object(s, vs) =>
      var ws := SerializedValues(v);
      forall i | 0 <= i < |ws| ensures Plain(ws[i]) {
        SerializeShape(vs[i]);
      }
      FieldsDictPlain(s.fields, ws);
    case _ =>
  }

  lemma {:induction false} FieldsDictPlain(fs: seq<FieldDesc>, ws: seq<Value>)
    requires forall i :: 0 <= i < |ws| ==> Plain(ws[i])
    ensures forall n :: n in FieldsDict(fs, ws) ==> Plain(FieldsDict(fs, ws)[n])
  {
    if fs != [] && ws != [] {
      assert forall i :: 0 <= i < |ws[1..]| ==> ws[1..][i] == ws[i + 1];
      FieldsDictPlain(fs[1..], ws[1..]);
    }
  }

  /** `EnumType(v)`: look a member up by its value; a `str` enum member equals its value, so members are looked up by value too. */
  function EnumLookup(e: EnumDef, v: Value): (r: Result<Value>)
    ensures r.Ok? <==> (v.Str? && v.s in e.values) || (v.Member? && v.value in e.values)
    ensures r.Ok? ==> r.value.Member? && r.value.enumDef == e
    ensures r.Err? ==> r.failure == ValueError
  {
    if v.Str? && v.s in e.values then Ok(Member(e, v.s))
    else if v.Member? && v.value in e.values then Ok(Member(e, v.value))
    else Err(ValueError)
  }

  predicate IsField(s: Schema, k: string)
  {
    exists i :: 0 <= i < |s.fields| && s.fields[i].name == k
  }

  predicate IsNonSerializable(s: Schema, k: string)
  {
    exists i :: 0 <= i < |s.fields| && s.fields[i].name == k && s.fields[i].nonSerializable
  }

  /**
   * The type-directed conversion `from_dict` applies to the value of field `i`:
   * an enum-typed value is looked up in its enum, a dict under a
   * `Serializable`-typed field is rebuilt by a recursive `from_dict`, and
   * anything else is kept.
   */
  function ConvertValue(s: Schema, i: nat, x: Value): Result<Value>
    requires i < |s.fields|
    decreases s, 0
  {
    match s.fields[i].hint
    case EnumHint(e) => EnumLookup(e, x)
    case RecordHint(nested) =>
      if x.Dict? then
        assert s.fields[i] in s.fields;
        FromDict(nested, x.entries, map[])
      else Ok(x)
    case OtherHint => Ok(x)
  }

  /**
   * The conversions of `from_dict`, field by field from field `i` on; keys of
   * non-serializable fields are left as they are. The first failing
   * conversion's exception propagates.
   */
  function ConvertFields(s: Schema, i: nat, data: map<string, Value>): Result<map<string, Value>>
    decreases s, |s.fields| - i
  {
    if i >= |s.fields| then Ok(data)
    else
      var f := s.fields[i];
      if f.name !in data || f.nonSerializable then ConvertFields(s, i + 1, data)
      else
        match ConvertValue(s, i, data[f.name])
        case Err(x) => Err(x)
        case Ok(y) => ConvertFields(s, i + 1, data[f.name := y])
  }

  /** `{k: v for k, v in data.items() if k is a field and not non_serializable}`. */
  function Filtered(s: Schema, data: map<string, Value>): (r: map<string, Value>)
    ensures forall k :: k in r <==> k in data && IsField(s, k) && !IsNonSerializable(s, k)
    ensures forall k :: k in r ==> r[k] == data[k]
  {
    map k | k in data && IsField(s, k) && !IsNonSerializable(s, k) :: data[k]
  }

  /** `cls(**kwargs)`: an unknown keyword or a missing field without default raises TypeError. */
  function Construct(s: Schema, kwargs: map<string, Value>): (r: Result<Value>)
    ensures r.Ok? <==> (forall k :: k in kwargs ==> IsField(s, k)) &&
                       (forall i :: 0 <= i < |s.fields| ==> s.fields[i].name in kwargs || s.fields[i].default.Some?)
    ensures r.Err? ==> r.failure == TypeError
    ensures r.Ok? ==> r.value.Object? && r.value.schema == s && |r.value.values| == |s.fields|
    ensures r.Ok? ==> forall i :: 0 <= i < |s.fields| ==>
                        r.value.values[i] == if s.fields[i].name in kwargs then kwargs[s.fields[i].name]
                                             else s.fields[i].default.value
  {
    if exists k :: k in kwargs && !IsField(s, k) then Err(TypeError)
    else if exists i :: 0 <= i < |s.fields| && s.fields[i].name !in kwargs && s.fields[i].default.None? then Err(TypeError)
    else
      Ok(Object(s, seq(|s.fields|, i requires 0 <= i < |s.fields| =>
                         if s.fields[i].name in kwargs then kwargs[s.fields[i].name] else s.fields[i].default.value)))
  }

  /**
   * `Serializable.from_dict(data, **kwargs)`: converts a copy of `data`, drops
   * keys that are not serializable fields, lets explicit keyword arguments
   * override the data, and calls the constructor. The input map is a value, so
   * it is never modified.
   */
  function FromDict(s: Schema, data: map<string, Value>, kwargs: map<string, Value>): Result<Value>
    decreases s, |s.fields| + 1
  {
    match ConvertFields(s, 0, data)
    case Err(x) => Err(x)
    case Ok(converted) => Construct(s, Filtered(s, converted) + kwargs)
  }

  /** Explicit keyword arguments win over the data, and a non-serializable field is never taken from the data. */
  lemma FromDictFieldSources(s: Schema, data: map<string, Value>, kwargs: map<string, Value>, i: nat)
    requires i < |s.fields| && FromDict(s, data, kwargs).Ok?
    ensures s.fields[i].name in kwargs ==> FromDict(s, data, kwargs).value.values[i] == kwargs[s.fields[i].name]
    ensures s.fields[i].nonSerializable && s.fields[i].name !in kwargs ==>
              FromDict(s, data, kwargs).value.values[i] == s.fields[i].default.value
  {
  }

  /**
   * A field made by `non_serializable` in a schema with distinct field names
   * never reaches the wire and is never read back: `to_dict` emits no key of
   * its name, the filter of `from_dict` drops such a key from the data, and
   * without an explicit keyword argument the rebuilt instance holds `None`
   * there, whatever the data said.
   */
  lemma NonSerializableHidden(s: Schema, i: nat, repr: bool, compare: bool, data: map<string, Value>)
    requires DistinctNames(s.fields) && i < |s.fields|
    requires s.fields[i] == NonSerializable(s.fields[i].name, s.fields[i].hint, repr, compare)
    ensures s.fields[i].name !in EmittedNames(s.fields)
    ensures s.fields[i].name !in Filtered(s, data)
    ensures FromDict(s, data, map[]).Ok? ==> FromDict(s, data, map[]).value.values[i] == Null
  {
    assert IsNonSerializable(s, s.fields[i].name);
    if FromDict(s, data, map[]).Ok? {
      FromDictFieldSources(s, data, map[], i);
    }
  }

  /** Whether value `v` of field `i` survives the round trip: the field is emitted and restorable, or `v` is its default. */
  predicate FieldRestorable(s: Schema, i: nat, v: Value)
    requires i < |s.fields|
    decreases s, 0
  {
    var f := s.fields[i];
    if !Emitted(f) then f.default == Some(v)
    else match f.hint
      case EnumHint(e) => v.Member? && v.enumDef == e && v.value in e.values
      case RecordHint(nested) =>
        assert f in s.fields;
        v.Object? && v.schema == nested && RoundTrips(nested, v.values)
      case OtherHint => Plain(v)
  }

  /** The instances `from_dict(to_dict(x))` reproduces. */
  predicate RoundTrips(s: Schema, vs: seq<Value>)
    decreases s, 1
  {
    |vs| == |s.fields| && DistinctNames(s.fields) &&
    forall i :: 0 <= i < |vs| ==> FieldRestorable(s, i, vs[i])
  }

  /** Round trip through `to_dict` and `from_dict` for every instance whose fields can be restored. */
  lemma {:induction false} RoundTrip(s: Schema, vs: seq<Value>)
    requires RoundTrips(s, vs)
    ensures FromDict(s, ToDict(Object(s, vs)), map[]) == Ok(Object(s, vs))
    decreases s, |s.fields| + 1
  {
    var d := ToDict(Object(s, vs));
    var r := FieldsDict(s.fields, vs);
    FieldsDictLookup(s.fields, SerializedValues(Object(s, vs)));
    FieldsDictLookup(s.fields, vs);
    assert Staged(s, vs, 0, d);
    ConvertRoundTrip(s, vs, 0, d, r);
    ConstructRestored(s, vs, r);
  }

  /** Constructing from the restored dict rebuilds the instance: every emitted field from the dict, every other one from its default. */
  lemma ConstructRestored(s: Schema, vs: seq<Value>, r: map<string, Value>)
    requires RoundTrips(s, vs)
    requires forall n :: n in r <==> n in EmittedNames(s.fields)
    requires forall j :: 0 <= j < |s.fields| && Emitted(s.fields[j]) ==> r[s.fields[j].name] == vs[j]
    ensures Construct(s, Filtered(s, r) + map[]) == Ok(Object(s, vs))
  {
    assert Filtered(s, r) == r by {
      forall k | k in r ensures IsField(s, k) && !IsNonSerializable(s, k) {
        var i :| 0 <= i < |s.fields| && Emitted(s.fields[i]) && s.fields[i].name == k;
        forall j | 0 <= j < |s.fields| && s.fields[j].name == k ensures !s.fields[j].nonSerializable {
          assert i == j;
        }
      }
    }
    assert r + map[] == r;
    forall i | 0 <= i < |s.fields| ensures s.fields[i].name in r || s.fields[i].default.Some? {
      assert FieldRestorable(s, i, vs[i]);
      if Emitted(s.fields[i]) {
        assert s.fields[i].name in EmittedNames(s.fields);
      }
    }
    var c := Construct(s, r);
    forall i | 0 <= i < |s.fields| ensures c.value.values[i] == vs[i] {
      if !Emitted(s.fields[i]) {
        assert FieldRestorable(s, i, vs[i]);
        forall j | 0 <= j < |s.fields| && Emitted(s.fields[j]) ensures s.fields[j].name != s.fields[i].name {
          assert i != j;
        }
        assert s.fields[i].name !in EmittedNames(s.fields);
      }
    }
    assert c.value.values == vs;
  }

  /** The conversion of an emitted field undoes `_serialize` on every restorable value. */
  lemma {:induction false} FieldRoundTrip(s: Schema, i: nat, v: Value)
    requires i < |s.fields| && Emitted(s.fields[i]) && FieldRestorable(s, i, v)
    ensures ConvertValue(s, i, Serialize(v)) == Ok(v)
    decreases s, 0
  {
    SerializeShape(v);
    match s.fields[i].hint
    case EnumHint(e) =>
    case RecordHint(nested) =>
      assert s.fields[i] in s.fields;
      RoundTrip(nested, v.values);
    case OtherHint =>
  }

  /**
   * The dict `from_dict` holds before converting field `i`: the emitted keys,
   * with original values for fields before `i` and serialized ones from `i` on.
   */
  ghost predicate Staged(s: Schema, vs: seq<Value>, i: nat, data: map<string, Value>)
    requires |vs| == |s.fields|
  {
    (forall n :: n in data <==> n in EmittedNames(s.fields)) &&
    forall j :: 0 <= j < |s.fields| && Emitted(s.fields[j]) ==>
      s.fields[j].name in data && data[s.fields[j].name] == if j < i then vs[j] else Serialize(vs[j])
  }

  /** Restoring field `i` of a staged dict stages it for field `i + 1`. */
  lemma StageAdvance(s: Schema, vs: seq<Value>, i: nat, data: map<string, Value>)
    requires |vs| == |s.fields| && DistinctNames(s.fields) && i < |s.fields|
    requires Staged(s, vs, i, data)
    ensures Emitted(s.fields[i]) ==> Staged(s, vs, i + 1, data[s.fields[i].name := vs[i]])
    ensures !Emitted(s.fields[i]) ==> Staged(s, vs, i + 1, data)
  {
    var n := s.fields[i].name;
    if Emitted(s.fields[i]) {
      assert n in data;
      var d := data[n := vs[i]];
      assert d.Keys == data.Keys;
      forall j | 0 <= j < |s.fields| && Emitted(s.fields[j])
        ensures s.fields[j].name in d && d[s.fields[j].name] == if j < i + 1 then vs[j] else Serialize(vs[j])
      {
        if j != i {
          assert s.fields[j].name != n;
        }
      }
    }
  }

  /** Once every field is restored, the staged dict is the dict of original values. */
  lemma StageComplete(s: Schema, vs: seq<Value>, data: map<string, Value>, r: map<string, Value>)
    requires |vs| == |s.fields|
    requires Staged(s, vs, |s.fields|, data)
    requires forall n :: n in r <==> n in EmittedNames(s.fields)
    requires forall j :: 0 <= j < |s.fields| && Emitted(s.fields[j]) ==> r[s.fields[j].name] == vs[j]
    ensures data == r
  {
    forall n | n in data ensures data[n] == r[n] {
      var j :| 0 <= j < |s.fields| && Emitted(s.fields[j]) && s.fields[j].name == n;
    }
  }

  /** The conversions of `from_dict`, from field `i` on, turn a staged dict into the dict `r` of original values. */
  lemma {:induction false} ConvertRoundTrip(s: Schema, vs: seq<Value>, i: nat, data: map<string, Value>, r: map<string, Value>)
    requires RoundTrips(s, vs) && i <= |s.fields|
    requires Staged(s, vs, i, data)
    requires forall n :: n in r <==> n in EmittedNames(s.fields)
    requires forall j :: 0 <= j < |s.fields| && Emitted(s.fields[j]) ==> r[s.fields[j].name] == vs[j]
    ensures ConvertFields(s, i, data) == Ok(r)
    decreases s, |s.fields| - i
  {
    if i == |s.fields| {
      StageComplete(s, vs, data, r);
    } else {
      var f := s.fields[i];
      StageAdvance(s, vs, i, data);
      if f.name !in data || f.nonSerializable {
        ConvertRoundTrip(s, vs, i + 1, data, r);
      } else {
        var j :| 0 <= j < |s.fields| && Emitted(s.fields[j]) && s.fields[j].name == f.name;
        assert j == i;
        assert data[f.name] == Serialize(vs[i]);
        FieldRoundTrip(s, i, vs[i]);
        ConvertRoundTrip(s, vs, i + 1, data[f.name := vs[i]], r);
      }
    }
  }

  /** The conversions of `from_dict` neither read nor write a key that names no field. */
  lemma {:induction false} ConvertIgnoresUnknownKey(s: Schema, i: nat, data: map<string, Value>, k: string, v: Value)
    requires !IsField(s, k)
    ensures ConvertFields(s, i, data).Err? ==> ConvertFields(s, i, data[k := v]) == ConvertFields(s, i, data)
    ensures ConvertFields(s, i, data).Ok? ==>
              ConvertFields(s, i, data[k := v]) == Ok(ConvertFields(s, i, data).value[k := v])
    decreases |s.fields| - i
  {
    if i < |s.fields| {
      var f := s.fields[i];
      assert f.name != k;
      if f.name in data && !f.nonSerializable {
        var y := ConvertValue(s, i, data[f.name]);
        if y.Ok? {
          assert data[k := v][f.name := y.value] == data[f.name := y.value][k := v];
          ConvertIgnoresUnknownKey(s, i + 1, data[f.name := y.value], k, v);
        }
      } else {
        ConvertIgnoresUnknownKey(s, i + 1, data, k, v);
      }
    }
  }

  /** Adding a key that is not a dataclass field to the data does not change what `from_dict` builds or raises. */
  lemma FromDictIgnoresUnknownKey(s: Schema, data: map<string, Value>, kwargs: map<string, Value>, k: string, v: Value)
    requires !IsField(s, k)
    ensures FromDict(s, data[k := v], kwargs) == FromDict(s, data, kwargs)
  {
    ConvertIgnoresUnknownKey(s, 0, data, k, v);
    var c := ConvertFields(s, 0, data);
    if c.Ok? {
      assert Filtered(s, c.value[k := v]) == Filtered(s, c.value);
    }
  }

  // The Command and Update records of the network layer.

  const CommandTypeEnum: EnumDef := EnumDef("CommandType", ["make_move", "surrender", "create_game", "join_game", "find_game"])
  const UpdateTypeEnum: EnumDef := EnumDef("UpdateType", ["game_created", "game_over", "game_started", "game_state_update", "error"])

  /** A message envelope: a type field holding a member of `e`, and a `data` dict defaulting to `{}`. */
  function Envelope(name: string, typeField: string, e: EnumDef): Schema
  {
    Schema(name, [PlainField(typeField, EnumHint(e), None), PlainField("data", OtherHint, Some(Dict(map[])))])
  }

  /** `Command(command_type: CommandType, data: Dict[str, Any] = field(default_factory=dict))`. */
  const CommandSchema: Schema := Envelope("Command", "command_type", CommandTypeEnum)

  /** `Update(update_type: UpdateType, data: Dict[str, Any] = field(default_factory=dict))`. */
  const UpdateSchema: Schema := Envelope("Update", "update_type", UpdateTypeEnum)

  function NewCommand(commandType: string, data: map<string, Value>): Value
  {
    Object(CommandSchema, [Member(CommandTypeEnum, commandType), Dict(data)])
  }

  function NewUpdate(updateType: string, data: map<string, Value>): Value
  {
    Object(UpdateSchema, [Member(UpdateTypeEnum, updateType), Dict(data)])
  }

  /** An envelope goes on the wire as its type's value and its data. */
  lemma EnvelopeWireForm(name: string, typeField: string, e: EnumDef, t: string, data: map<string, Value>)
    requires typeField != "data" && !Private(typeField)
    requires forall k :: k in data ==> Plain(data[k])
    ensures ToDict(Object(Envelope(name, typeField, e), [Member(e, t), Dict(data)]))
              == map[typeField := Str(t), "data" := Dict(data)]
  {
    var s := Envelope(name, typeField, e);
    var vs := [Member(e, t), Dict(data)];
    assert !Private("data");
    assert Plain(Dict(data));
    SerializeShape(Dict(data));
    var ws := SerializedValues(Object(s, vs));
    assert ws[0] == Serialize(vs[0]) && ws[1] == Serialize(vs[1]);
    assert ws == [Str(t), Dict(data)];
    assert s.fields[1..] == [s.fields[1]] && ws[1..] == [Dict(data)];
    assert FieldsDict([s.fields[1]], [Dict(data)]) == map["data" := Dict(data)];
  }

  /** An envelope whose type is a member of its enum and whose data is JSON-shaped is rebuilt by `from_dict`. */
  lemma EnvelopeRoundTrip(name: string, typeField: string, e: EnumDef, t: string, data: map<string, Value>)
    requires t in e.values && typeField != "data" && !Private(typeField)
    requires forall k :: k in data ==> Plain(data[k])
    ensures FromDict(Envelope(name, typeField, e), ToDict(Object(Envelope(name, typeField, e), [Member(e, t), Dict(data)])), map[])
              == Ok(Object(Envelope(name, typeField, e), [Member(e, t), Dict(data)]))
  {
    var s := Envelope(name, typeField, e);
    var vs := [Member(e, t), Dict(data)];
    assert !Private("data");
    assert Plain(Dict(data));
    assert FieldRestorable(s, 0, vs[0]) && FieldRestorable(s, 1, vs[1]);
    RoundTrip(s, vs);
  }

  /** A command with JSON-shaped data survives `to_dict` and `from_dict`. */
  lemma CommandRoundTrip(commandType: string, data: map<string, Value>)
    requires commandType in CommandTypeEnum.values
    requires forall k :: k in data ==> Plain(data[k])
    ensures ToDict(NewCommand(commandType, data)) == map["command_type" := Str(commandType), "data" := Dict(data)]
    ensures FromDict(CommandSchema, ToDict(NewCommand(commandType, data)), map[]) == Ok(NewCommand(commandType, data))
  {
    EnvelopeWireForm("Command", "command_type", CommandTypeEnum, commandType, data);
    EnvelopeRoundTrip("Command", "command_type", CommandTypeEnum, commandType, data);
  }

  /** An update with JSON-shaped data survives `to_dict` and `from_dict`. */
  lemma UpdateRoundTrip(updateType: string, data: map<string, Value>)
    requires updateType in UpdateTypeEnum.values
    requires forall k :: k in data ==> Plain(data[k])
    ensures ToDict(NewUpdate(updateType, data)) == map["update_type" := Str(updateType), "data" := Dict(data)]
    ensures FromDict(UpdateSchema, ToDict(NewUpdate(updateType, data)), map[]) == Ok(NewUpdate(updateType, data))
  {
    EnvelopeWireForm("Update", "update_type", UpdateTypeEnum, updateType, data);
    EnvelopeRoundTrip("Update", "update_type", UpdateTypeEnum, updateType, data);
  }
}
