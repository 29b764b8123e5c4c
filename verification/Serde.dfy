/**
  The typed JSON encoding of the event log: `_to_jsonable` and `_from_jsonable`, over a universe
  of type hints and a universe of values.

  A decoder is driven by the declared type, and by the two markers that stand for a decimal or a
  datetime whatever the declared type.  Which values come back from a round trip is settled for
  every well-typed value: `Survives` is the exact condition.
 */
module Serde {
  import opened Domain

  const DECIMAL_MARKER := "__decimal__"
  const DATETIME_MARKER := "__datetime__"

  datatype Json =
    | Null
    | Text(text: string)
    | Whole(whole: int)
    | Truth(truth: bool)
    | Floating(floating: real)
    | Array(items: seq<Json>)
    | Object(entries: map<string, Json>)

  /**
    Type hints, as Python resolves them.  `Union` is a `typing.Union` with `None` (so `Optional`
    when there is one other arm), `Pipe` the same written `A | None`, which has a different origin
    before Python 3.14.  Python flattens nested ones, see `Optionally` and `OrNone`.
   */
  datatype Type =
    | StrType | IntType | BoolType | FloatType | DecimalType | DatetimeType
    | EnumType(name: string, values: set<string>)
    | RecordType(name: string, fields: seq<FieldType>)
    | Union(arms: seq<Type>)
    | Pipe(arms: seq<Type>)

  datatype FieldType = FieldType(name: string, declared: Type)

  /** Values; `Plain` is what the encoder leaves alone: `None`, primitives, raw containers. */
  datatype Value =
    | Plain(json: Json)
    | Decimal(number: real)
    | Datetime(time: Time)
    | Member(name: string, text: string)
    | Instance(name: string, slots: seq<Slot>)

  datatype Slot = Slot(name: string, value: Value)

  /** `str`/`Decimal` and `isoformat`/`fromisoformat`; a reader gives `None` where it raises. */
  datatype Formats = Formats(showDecimal: real -> string, readDecimal: Json -> Option<real>,
                             showTime: Time -> string, readTime: Json -> Option<Time>)
  {
    ghost predicate Inverse() {
      && (forall d :: readDecimal(Text(showDecimal(d))) == Some(d))
      && (forall t :: readTime(Text(showTime(t))) == Some(t))
    }
  }

  // ----- Encoding and decoding

  function Encode(fmt: Formats, v: Value): Json
    decreases v
  {
    match v
    case Decimal(d) => Object(map[DECIMAL_MARKER := Text(fmt.showDecimal(d))])
    case Datetime(t) => Object(map[DATETIME_MARKER := Text(fmt.showTime(t))])
    case Member(_, text) => Text(text)
    case Instance(_, slots) => Object(EncodeSlots(fmt, slots))
    case Plain(j) => j
  }

  function EncodeSlots(fmt: Formats, slots: seq<Slot>): map<string, Json>
    decreases slots
  {
    if slots == [] then map[]
    else map[slots[0].name := Encode(fmt, slots[0].value)] + EncodeSlots(fmt, slots[1..])
  }

  /** `None` where the decoder raises. */
  function Decode(fmt: Formats, t: Type, j: Json): Option<Value>
    decreases t
  {
    if j.Null? then Some(Plain(Null))
    else if j.Object? && DECIMAL_MARKER in j.entries then
      var read := fmt.readDecimal(j.entries[DECIMAL_MARKER]);
      if read.Some? then Some(Decimal(read.value)) else None
    else if j.Object? && DATETIME_MARKER in j.entries then
      var read := fmt.readTime(j.entries[DATETIME_MARKER]);
      if read.Some? then Some(Datetime(read.value)) else None
    else
      match t
      case Union(arms) => if |arms| == 1 then Decode(fmt, arms[0], j) else DecodeFirst(fmt, arms, j)
      case EnumType(name, values) => if j.Text? && j.text in values then Some(Member(name, j.text)) else None
      case RecordType(name, fields) =>
        var slots := DecodeFields(fmt, fields, j);
        if slots.Some? then Some(Instance(name, slots.value)) else None
      case _ => Some(Plain(j))
  }

  /** The first arm that does not raise, or the raw value. */
  function DecodeFirst(fmt: Formats, arms: seq<Type>, j: Json): Option<Value>
    decreases arms
  {
    if arms == [] then Some(Plain(j))
    else
      var first := Decode(fmt, arms[0], j);
      if first.Some? then first else DecodeFirst(fmt, arms[1..], j)
  }

  function DecodeFields(fmt: Formats, fields: seq<FieldType>, j: Json): Option<seq<Slot>>
    decreases fields
  {
    if fields == [] then Some([])
    else if !j.Object? || fields[0].name !in j.entries then None
    else
      var value := Decode(fmt, fields[0].declared, j.entries[fields[0].name]);
      var rest := DecodeFields(fmt, fields[1..], j);
      if value.Some? && rest.Some? then Some([Slot(fields[0].name, value.value)] + rest.value) else None
  }

  // ----- Typing

  /** `Optional[t]`: one `typing.Union`, whatever `t` is. */
  function Optionally(t: Type): Type {
    if t.Union? || t.Pipe? then Union(t.arms) else Union([t])
  }

  /** `t | None`: still a `typing.Union` if `t` is one. */
  function OrNone(t: Type): Type {
    if t.Union? || t.Pipe? then t else Pipe([t])
  }

  /** The hints the encoding supports: no union of several types besides `None`, and none nested. */
  predicate Supported(t: Type)
    decreases t
  {
    match t
    case RecordType(_, fields) =>
      && (forall i, j :: 0 <= i < j < |fields| ==> fields[i].name != fields[j].name)
      && (forall i :: 0 <= i < |fields| ==> Supported(fields[i].declared))
    case Union(arms) => |arms| == 1 && !arms[0].Union? && !arms[0].Pipe? && Supported(arms[0])
    case Pipe(arms) => |arms| == 1 && !arms[0].Union? && !arms[0].Pipe? && Supported(arms[0])
    case _ => true
  }

  predicate WellTyped(v: Value, t: Type)
    decreases t
  {
    match t
    case StrType => v.Plain? && v.json.Text?
    case IntType => v.Plain? && v.json.Whole?
    case BoolType => v.Plain? && v.json.Truth?
    case FloatType => v.Plain? && v.json.Floating?
    case DecimalType => v.Decimal?
    case DatetimeType => v.Datetime?
    case EnumType(name, values) => v.Member? && v.name == name && v.text in values
    case RecordType(name, fields) => v.Instance? && v.name == name && WellTypedSlots(v.slots, fields)
    case Union(arms) => v == Plain(Null) || exists k :: 0 <= k < |arms| && WellTyped(v, arms[k])
    case Pipe(arms) => v == Plain(Null) || exists k :: 0 <= k < |arms| && WellTyped(v, arms[k])
  }

  predicate WellTypedSlots(slots: seq<Slot>, fields: seq<FieldType>)
    decreases fields
  {
    && |slots| == |fields|
    && (forall i :: 0 <= i < |fields| ==>
         slots[i].name == fields[i].name && WellTyped(slots[i].value, fields[i].declared))
  }

  // ----- What comes back

  predicate Marker(name: string) {
    name == DECIMAL_MARKER || name == DATETIME_MARKER
  }

  /**
    No dataclass in the value has a field named like a marker, and no enum member or dataclass
    stands where the hint is written `A | None`.
   */
  predicate Survives(v: Value, t: Type)
    decreases t
  {
    match t
    case RecordType(_, fields) =>
      v.Instance? && |v.slots| == |fields| ==>
        forall i :: 0 <= i < |fields| ==> !Marker(fields[i].name) && Survives(v.slots[i].value, fields[i].declared)
    case Union(arms) => v == Plain(Null) || (forall k :: 0 <= k < |arms| ==> Survives(v, arms[k]))
    case Pipe(arms) => !v.Member? && !v.Instance?
    case _ => true
  }

  /** The round trip, both ways: a well-typed value comes back exactly if it survives. */
  lemma {:induction false} RoundTripIff(fmt: Formats, v: Value, t: Type)
    requires fmt.Inverse() && Supported(t) && WellTyped(v, t)
    ensures Decode(fmt, t, Encode(fmt, v)) == Some(v) <==> Survives(v, t)
    decreases t
  {
    hide EncodeSlots, DecodeFields, DecodeFirst, WellTypedSlots;
    match t
    case RecordType(_, fields) => RecordRoundTrip(fmt, v, t);
    case Union(arms) =>
      if v != Plain(Null) {
        RoundTripIff(fmt, v, arms[0]);
      }
    case Pipe(arms) =>
      if v.Plain? && v != Plain(Null) {
        PlainIsScalar(v, arms[0]);
      }
    case _ =>
  }

  lemma {:induction false} RecordRoundTrip(fmt: Formats, v: Value, t: Type)
    requires t.RecordType? && fmt.Inverse() && Supported(t) && WellTyped(v, t)
    ensures Decode(fmt, t, Encode(fmt, v)) == Some(v) <==> Survives(v, t)
    decreases t, 0
  {
    hide Decode, DecodeFields, EncodeSlots, Supported, WellTyped, Marker;
    SupportedFields(t);
    TypedFields(v, t);
    FieldNamesDiffer(v.slots, t.fields);
    var j := Encode(fmt, v);
    forall i | 0 <= i < |v.slots|
      ensures v.slots[i].name in j.entries && j.entries[v.slots[i].name] == Encode(fmt, v.slots[i].value)
    {
      EncodedAt(fmt, v.slots, i);
    }
    if i :| 0 <= i < |t.fields| && Marker(t.fields[i].name) {
      assert v.slots[i].name == t.fields[i].name;
      MarkedIsLost(fmt, t, j, t.fields[i].name);
    } else {
      NoMarkers(fmt, v.slots, t.fields);
      SlotsRoundTrip(fmt, v.slots, t.fields, j);
      UnmarkedByFields(fmt, t, j, v.slots);
    }
  }

  lemma SupportedFields(t: Type)
    requires t.RecordType? && Supported(t)
    ensures forall i, j :: 0 <= i < j < |t.fields| ==> t.fields[i].name != t.fields[j].name
    ensures forall i :: 0 <= i < |t.fields| ==> Supported(t.fields[i].declared)
  {
  }

  lemma TypedFields(v: Value, t: Type)
    requires t.RecordType? && WellTyped(v, t)
    ensures v.Instance? && v.name == t.name && WellTypedSlots(v.slots, t.fields)
    ensures |v.slots| == |t.fields| && forall i :: 0 <= i < |t.fields| ==> v.slots[i].name == t.fields[i].name
  {
  }

  lemma FieldNamesDiffer(slots: seq<Slot>, fields: seq<FieldType>)
    requires WellTypedSlots(slots, fields)
    requires forall i, j :: 0 <= i < j < |fields| ==> fields[i].name != fields[j].name
    ensures forall i, j :: 0 <= i < j < |slots| ==> slots[i].name != slots[j].name
  {
    forall i, j | 0 <= i < j < |slots| ensures slots[i].name != slots[j].name {
      assert slots[i].name == fields[i].name && slots[j].name == fields[j].name;
    }
  }

  /** A marker decides before the declared type does. */
  lemma MarkedIsLost(fmt: Formats, t: Type, j: Json, name: string)
    requires j.Object? && Marker(name) && name in j.entries
    ensures var decoded := Decode(fmt, t, j); decoded.Some? ==> !decoded.value.Instance?
  {
  }

  lemma NoMarkers(fmt: Formats, slots: seq<Slot>, fields: seq<FieldType>)
    requires WellTypedSlots(slots, fields) && forall i :: 0 <= i < |fields| ==> !Marker(fields[i].name)
    ensures DECIMAL_MARKER !in EncodeSlots(fmt, slots) && DATETIME_MARKER !in EncodeSlots(fmt, slots)
  {
    hide EncodeSlots, WellTyped;
    forall i | 0 <= i < |slots|
      ensures !Marker(slots[i].name)
    {
      assert slots[i].name == fields[i].name;
    }
    EncodedOnly(fmt, slots, DECIMAL_MARKER);
    EncodedOnly(fmt, slots, DATETIME_MARKER);
  }

  lemma UnmarkedByFields(fmt: Formats, t: Type, j: Json, slots: seq<Slot>)
    requires t.RecordType? && j.Object? && DECIMAL_MARKER !in j.entries && DATETIME_MARKER !in j.entries
    ensures Decode(fmt, t, j) == Some(Instance(t.name, slots)) <==> DecodeFields(fmt, t.fields, j) == Some(slots)
  {
    hide DecodeFields;
  }

  lemma {:induction false} SlotsRoundTrip(fmt: Formats, slots: seq<Slot>, fields: seq<FieldType>, j: Json)
    requires fmt.Inverse() && WellTypedSlots(slots, fields) && j.Object?
    requires forall i :: 0 <= i < |fields| ==> Supported(fields[i].declared)
    requires forall i :: 0 <= i < |slots| ==>
      slots[i].name in j.entries && j.entries[slots[i].name] == Encode(fmt, slots[i].value)
    ensures DecodeFields(fmt, fields, j) == Some(slots)
            <==> forall i :: 0 <= i < |fields| ==> Survives(slots[i].value, fields[i].declared)
    decreases fields
  {
    hide Encode, Decode, WellTyped, Supported, Survives;
    if fields != [] {
      var first, rest := slots[0], slots[1..];
      assert slots == [first] + rest;
      RoundTripIff(fmt, first.value, fields[0].declared);
      SlotsRoundTrip(fmt, rest, fields[1..], j);
      assert (forall i :: 0 <= i < |fields| ==> Survives(slots[i].value, fields[i].declared))
        <==> Survives(first.value, fields[0].declared)
             && (forall i :: 0 <= i < |fields[1..]| ==> Survives(rest[i].value, fields[1..][i].declared));
      var value := Decode(fmt, fields[0].declared, j.entries[fields[0].name]);
      var others := DecodeFields(fmt, fields[1..], j);
      if value.Some? && others.Some? {
        HeadAndTail(Slot(fields[0].name, value.value), others.value, first, rest);
      }
    }
  }

  lemma HeadAndTail<T>(x: T, xs: seq<T>, y: T, ys: seq<T>)
    ensures [x] + xs == [y] + ys <==> x == y && xs == ys
  {
    if [x] + xs == [y] + ys {
      assert x == ([x] + xs)[0] && xs == ([x] + xs)[1..];
      assert y == ([y] + ys)[0] && ys == ([y] + ys)[1..];
    }
  }

  /** Distinctly named fields keep their own entries. */
  lemma {:induction false} EncodedAt(fmt: Formats, slots: seq<Slot>, i: int)
    requires 0 <= i < |slots|
    requires forall k, l :: 0 <= k < l < |slots| ==> slots[k].name != slots[l].name
    ensures slots[i].name in EncodeSlots(fmt, slots)
    ensures EncodeSlots(fmt, slots)[slots[i].name] == Encode(fmt, slots[i].value)
    decreases slots
  {
    hide Encode;
    if i == 0 {
      EncodedOnly(fmt, slots[1..], slots[0].name);
    } else {
      EncodedAt(fmt, slots[1..], i - 1);
    }
  }

  /** The object has no other entries. */
  lemma {:induction false} EncodedOnly(fmt: Formats, slots: seq<Slot>, key: string)
    requires forall i :: 0 <= i < |slots| ==> slots[i].name != key
    ensures key !in EncodeSlots(fmt, slots)
    decreases slots
  {
    hide Encode;
    if slots != [] {
      EncodedOnly(fmt, slots[1..], key);
    }
  }

  lemma {:induction false} PlainIsScalar(v: Value, t: Type)
    requires WellTyped(v, t) && v.Plain?
    ensures !v.json.Object?
    decreases t
  {
    if (t.Union? || t.Pipe?) && v != Plain(Null) {
      var k :| 0 <= k < |t.arms| && WellTyped(v, t.arms[k]);
      PlainIsScalar(v, t.arms[k]);
    }
  }

  // ----- Which declarations are safe

  /** No enum and no dataclass, however many `None`s are allowed around it. */
  predicate Bare(t: Type)
    decreases t
  {
    match t
    case EnumType(_, _) => false
    case RecordType(_, _) => false
    case Union(arms) => forall k :: 0 <= k < |arms| ==> Bare(arms[k])
    case Pipe(arms) => forall k :: 0 <= k < |arms| ==> Bare(arms[k])
    case _ => true
  }

  /** What a reader of the declaration can check: no marker as a field name, `A | None` only over bare types. */
  predicate Lossless(t: Type)
    decreases t
  {
    match t
    case RecordType(_, fields) =>
      forall i :: 0 <= i < |fields| ==> !Marker(fields[i].name) && Lossless(fields[i].declared)
    case Union(arms) => forall k :: 0 <= k < |arms| ==> Lossless(arms[k])
    case Pipe(arms) => Bare(t)
    case _ => true
  }

  /** Every enum in the type has a member. */
  predicate Inhabited(t: Type)
    decreases t
  {
    match t
    case EnumType(_, values) => values != {}
    case RecordType(_, fields) => forall i :: 0 <= i < |fields| ==> Inhabited(fields[i].declared)
    case Union(arms) => forall k :: 0 <= k < |arms| ==> Inhabited(arms[k])
    case Pipe(arms) => forall k :: 0 <= k < |arms| ==> Inhabited(arms[k])
    case _ => true
  }

  ghost predicate RoundTrips(fmt: Formats, v: Value, t: Type) {
    Decode(fmt, t, Encode(fmt, v)) == Some(v)
  }

  /**
    Written twice, an optional counts as `Optional` in either order: the values of `t` come back from
    `Optional[t] | None` and `Optional[t | None]` exactly if they do from `t`.
   */
  lemma NestedOptionals(fmt: Formats, v: Value, t: Type)
    requires fmt.Inverse() && Supported(t) && !t.Pipe? && WellTyped(v, t)
    ensures Supported(OrNone(Optionally(t))) && OrNone(Optionally(t)) == Optionally(OrNone(t)) == Optionally(t)
    ensures WellTyped(v, Optionally(t))
    ensures v != Plain(Null) ==> (RoundTrips(fmt, v, OrNone(Optionally(t))) <==> RoundTrips(fmt, v, t))
  {
    hide WellTyped, Survives;
    OneArm(v, t);
    RoundTripIff(fmt, v, t);
    RoundTripIff(fmt, v, Optionally(t));
  }

  lemma OneArm(v: Value, t: Type)
    requires Supported(t) && !t.Pipe? && WellTyped(v, t)
    ensures WellTyped(v, Optionally(t))
    ensures v != Plain(Null) ==> (Survives(v, Optionally(t)) <==> Survives(v, t))
  {
    if !t.Union? {
      assert WellTyped(v, Union([t]).arms[0]);
    }
  }

  /** A declaration is lossless exactly if every value it admits comes back. */
  lemma LosslessIff(fmt: Formats, t: Type)
    requires fmt.Inverse() && Supported(t) && Inhabited(t)
    ensures Lossless(t) <==> forall v :: WellTyped(v, t) ==> RoundTrips(fmt, v, t)
  {
    if Lossless(t) {
      forall v | WellTyped(v, t) ensures RoundTrips(fmt, v, t) {
        RoundTripIff(fmt, v, t);
        LosslessSurvives(v, t);
      }
    } else {
      var v := LostValue(t);
      RoundTripIff(fmt, v, t);
      assert !RoundTrips(fmt, v, t);
    }
  }

  /** Two values of one type never share an encoding, even where neither comes back. */
  lemma {:induction false} EncodingIsInjective(fmt: Formats, v: Value, w: Value, t: Type)
    requires fmt.Inverse() && Supported(t) && WellTyped(v, t) && WellTyped(w, t)
    requires Encode(fmt, v) == Encode(fmt, w)
    ensures v == w
    decreases t, 2
  {
    hide EncodeSlots, WellTypedSlots;
    match t
    case DecimalType =>
      assert Encode(fmt, v).entries[DECIMAL_MARKER] == Encode(fmt, w).entries[DECIMAL_MARKER];
      assert Some(v.number) == fmt.readDecimal(Text(fmt.showDecimal(w.number))) == Some(w.number);
    case DatetimeType =>
      assert Encode(fmt, v).entries[DATETIME_MARKER] == Encode(fmt, w).entries[DATETIME_MARKER];
      assert Some(v.time) == fmt.readTime(Text(fmt.showTime(w.time))) == Some(w.time);
    case RecordType(_, _) => RecordIsInjective(fmt, v, w, t);
    case Union(arms) => ArmIsInjective(fmt, v, w, arms[0]);
    case Pipe(arms) => ArmIsInjective(fmt, v, w, arms[0]);
    case _ =>
  }

  /** With one arm besides `None`: only `None` is encoded as null. */
  lemma {:induction false} ArmIsInjective(fmt: Formats, v: Value, w: Value, arm: Type)
    requires fmt.Inverse() && Supported(arm) && Encode(fmt, v) == Encode(fmt, w)
    requires v == Plain(Null) || WellTyped(v, arm)
    requires w == Plain(Null) || WellTyped(w, arm)
    ensures v == w
    decreases arm, 3
  {
    hide WellTyped, Supported;
    if v != Plain(Null) && w != Plain(Null) {
      EncodingIsInjective(fmt, v, w, arm);
    }
  }

  lemma {:induction false} RecordIsInjective(fmt: Formats, v: Value, w: Value, t: Type)
    requires t.RecordType? && fmt.Inverse() && Supported(t) && WellTyped(v, t) && WellTyped(w, t)
    requires Encode(fmt, v) == Encode(fmt, w)
    ensures v == w
    decreases t, 1
  {
    hide EncodeSlots, Supported, WellTyped;
    SupportedFields(t);
    TypedFields(v, t);
    TypedFields(w, t);
    FieldNamesDiffer(v.slots, t.fields);
    FieldNamesDiffer(w.slots, t.fields);
    forall i | 0 <= i < |t.fields|
      ensures v.slots[i] == w.slots[i]
    {
      assert v.slots[i].name == t.fields[i].name == w.slots[i].name;
      EncodedAt(fmt, v.slots, i);
      EncodedAt(fmt, w.slots, i);
      EncodingIsInjective(fmt, v.slots[i].value, w.slots[i].value, t.fields[i].declared);
    }
    assert v.slots == w.slots;
  }

  lemma {:induction false} LosslessSurvives(v: Value, t: Type)
    requires WellTyped(v, t) && Lossless(t) && Supported(t)
    ensures Survives(v, t)
    decreases t
  {
    match t
    case RecordType(_, fields) =>
      forall i | 0 <= i < |fields| ensures Survives(v.slots[i].value, fields[i].declared) {
        LosslessSurvives(v.slots[i].value, fields[i].declared);
      }
    case Union(arms) =>
      if v != Plain(Null) {
        LosslessSurvives(v, arms[0]);
      }
    case Pipe(_) => BareValue(v, t);
    case _ =>
  }

  lemma {:induction false} BareValue(v: Value, t: Type)
    requires WellTyped(v, t) && Bare(t)
    ensures !v.Member? && !v.Instance?
    decreases t
  {
    if (t.Union? || t.Pipe?) && v != Plain(Null) {
      var k :| 0 <= k < |t.arms| && WellTyped(v, t.arms[k]);
      BareValue(v, t.arms[k]);
    }
  }

  /** Some value of the type, other than `None`. */
  ghost function Sample(t: Type): (v: Value)
    requires Supported(t) && Inhabited(t)
    ensures WellTyped(v, t) && v != Plain(Null)
    ensures !Bare(t) ==> v.Member? || v.Instance?
    decreases t
  {
    match t
    case StrType => Plain(Text(""))
    case IntType => Plain(Whole(0))
    case BoolType => Plain(Truth(false))
    case FloatType => Plain(Floating(0.0))
    case DecimalType => Decimal(0.0)
    case DatetimeType => Datetime(0)
    case EnumType(name, values) =>
      var text :| text in values;
      Member(name, text)
    case RecordType(name, fields) =>
      Instance(name, seq(|fields|, i requires 0 <= i < |fields| => Slot(fields[i].name, Sample(fields[i].declared))))
    case Union(arms) => Sample(arms[0])
    case Pipe(arms) => Sample(arms[0])
  }

  /** A value that does not come back, for a declaration that is not lossless. */
  ghost function LostValue(t: Type): (v: Value)
    requires Supported(t) && Inhabited(t) && !Lossless(t)
    ensures WellTyped(v, t) && v != Plain(Null) && !Survives(v, t)
    decreases t
  {
    match t
    case RecordType(name, fields) =>
      var slots := Sample(t).slots;
      if exists i :: 0 <= i < |fields| && Marker(fields[i].name) then Instance(name, slots)
      else
        var i :| 0 <= i < |fields| && !Lossless(fields[i].declared);
        Instance(name, slots[i := Slot(fields[i].name, LostValue(fields[i].declared))])
    case Union(arms) => LostValue(arms[0])
    case Pipe(arms) => Sample(arms[0])
  }

  // ----- The forms, and what decodes

  /** What is written, to the letter: the two markers, an enum's text, a dataclass field by field. */
  lemma {:induction false} WrittenForms(fmt: Formats, v: Value)
    ensures v.Decimal? ==> Encode(fmt, v) == Object(map["__decimal__" := Text(fmt.showDecimal(v.number))])
    ensures v.Datetime? ==> Encode(fmt, v) == Object(map["__datetime__" := Text(fmt.showTime(v.time))])
    ensures v.Member? ==> Encode(fmt, v) == Text(v.text)
    ensures v.Plain? ==> Encode(fmt, v) == v.json
    ensures v.Instance? && (forall i, j :: 0 <= i < j < |v.slots| ==> v.slots[i].name != v.slots[j].name) ==>
              var j := Encode(fmt, v);
              && j.Object?
              && (forall name :: name in j.entries <==> exists i :: 0 <= i < |v.slots| && v.slots[i].name == name)
              && (forall i :: 0 <= i < |v.slots| ==>
                    v.slots[i].name in j.entries && j.entries[v.slots[i].name] == Encode(fmt, v.slots[i].value))
  {
    hide EncodeSlots;
    if v.Instance? && forall i, j :: 0 <= i < j < |v.slots| ==> v.slots[i].name != v.slots[j].name {
      forall i | 0 <= i < |v.slots|
        ensures v.slots[i].name in EncodeSlots(fmt, v.slots)
        ensures EncodeSlots(fmt, v.slots)[v.slots[i].name] == Encode(fmt, v.slots[i].value)
      {
        EncodedAt(fmt, v.slots, i);
      }
      forall name
        ensures name in EncodeSlots(fmt, v.slots) <==> exists i :: 0 <= i < |v.slots| && v.slots[i].name == name
      {
        WrittenNames(fmt, v.slots, name);
      }
    }
  }

  lemma {:induction false} WrittenNames(fmt: Formats, slots: seq<Slot>, name: string)
    ensures name in EncodeSlots(fmt, slots) <==> exists i :: 0 <= i < |slots| && slots[i].name == name
    decreases slots
  {
    hide Encode;
    if slots != [] {
      WrittenNames(fmt, slots[1..], name);
      if i :| 0 <= i < |slots| && slots[i].name == name && i > 0 {
        assert slots[1..][i - 1].name == name;
      }
      if i :| 0 <= i < |slots[1..]| && slots[1..][i].name == name {
        assert slots[i + 1].name == name;
      }
    }
  }

  /** No marker decides for the declared type. */
  predicate Unmarked(j: Json) {
    !j.Null? && (j.Object? ==> "__decimal__" !in j.entries && "__datetime__" !in j.entries)
  }

  /**
    What is read: `null` is `None` at every type; a marked object is that decimal or datetime, or raises; otherwise an
    enum takes exactly its own texts.
   */
  lemma {:induction false} ReadForms(fmt: Formats, t: Type, j: Json)
    ensures j.Null? ==> Decode(fmt, t, j) == Some(Plain(Null))
    ensures j.Object? && "__decimal__" in j.entries ==>
              Decode(fmt, t, j) == (match fmt.readDecimal(j.entries["__decimal__"])
                                    case Some(number) => Some(Decimal(number))
                                    case None => None)
    ensures j.Object? && "__decimal__" !in j.entries && "__datetime__" in j.entries ==>
              Decode(fmt, t, j) == (match fmt.readTime(j.entries["__datetime__"])
                                    case Some(time) => Some(Datetime(time))
                                    case None => None)
    ensures Unmarked(j) && t.EnumType? ==>
              (forall v :: Decode(fmt, t, j) == Some(v)
                           <==> v.Member? && v.name == t.name && v.text in t.values && j == Text(v.text))
    ensures Unmarked(j) && (t.StrType? || t.IntType? || t.BoolType? || t.FloatType? || t.Pipe?) ==>
              Decode(fmt, t, j) == Some(Plain(j))
  {
    hide DecodeFirst, DecodeFields;
  }

  /** A dataclass is read exactly if every field is there and is read; its slots are those, in the declared order. */
  lemma {:induction false} RecordReads(fmt: Formats, t: Type, j: Json, v: Value)
    requires t.RecordType? && Unmarked(j)
    ensures Decode(fmt, t, j) == Some(v)
            <==> && v.Instance? && v.name == t.name && |v.slots| == |t.fields|
                 && (|t.fields| > 0 ==> j.Object?)
                 && (forall i :: 0 <= i < |t.fields| ==>
                       && t.fields[i].name in j.entries && v.slots[i].name == t.fields[i].name
                       && Decode(fmt, t.fields[i].declared, j.entries[t.fields[i].name]) == Some(v.slots[i].value))
  {
    hide DecodeFields;
    if v.Instance? {
      FieldsRead(fmt, t.fields, j, v.slots);
    }
  }

  lemma {:induction false} FieldsRead(fmt: Formats, fields: seq<FieldType>, j: Json, slots: seq<Slot>)
    ensures DecodeFields(fmt, fields, j) == Some(slots)
            <==> && |slots| == |fields|
                 && (|fields| > 0 ==> j.Object?)
                 && (forall i :: 0 <= i < |fields| ==>
                       && fields[i].name in j.entries && slots[i].name == fields[i].name
                       && Decode(fmt, fields[i].declared, j.entries[fields[i].name]) == Some(slots[i].value))
    decreases fields
  {
    hide Decode;
    if fields != [] && slots != [] {
      FieldsRead(fmt, fields[1..], j, slots[1..]);
      assert slots == [slots[0]] + slots[1..];
    }
  }

  /** A union of several types is read as the first of them that does not raise, or left raw if all do. */
  lemma {:induction false} UnionReads(fmt: Formats, arms: seq<Type>, j: Json)
    requires Unmarked(j) && |arms| != 1
    ensures forall k :: 0 <= k < |arms| && Decode(fmt, arms[k], j).Some?
                        && (forall i :: 0 <= i < k ==> Decode(fmt, arms[i], j).None?) ==>
              Decode(fmt, Union(arms), j) == Decode(fmt, arms[k], j)
    ensures (forall i :: 0 <= i < |arms| ==> Decode(fmt, arms[i], j).None?) ==>
              Decode(fmt, Union(arms), j) == Some(Plain(j))
  {
    hide DecodeFirst;
    FirstArm(fmt, arms, j);
  }

  lemma {:induction false} FirstArm(fmt: Formats, arms: seq<Type>, j: Json)
    ensures forall k :: 0 <= k < |arms| && Decode(fmt, arms[k], j).Some?
                        && (forall i :: 0 <= i < k ==> Decode(fmt, arms[i], j).None?) ==>
              DecodeFirst(fmt, arms, j) == Decode(fmt, arms[k], j)
    ensures (forall i :: 0 <= i < |arms| ==> Decode(fmt, arms[i], j).None?) ==>
              DecodeFirst(fmt, arms, j) == Some(Plain(j))
    decreases arms
  {
    hide Decode;
    if arms != [] {
      FirstArm(fmt, arms[1..], j);
      forall k | 0 < k < |arms| && Decode(fmt, arms[k], j).Some?
                 && (forall i :: 0 <= i < k ==> Decode(fmt, arms[i], j).None?)
        ensures DecodeFirst(fmt, arms, j) == Decode(fmt, arms[k], j)
      {
        assert arms[1..][k - 1] == arms[k];
        forall i | 0 <= i < k - 1
          ensures Decode(fmt, arms[1..][i], j).None?
        {
          assert arms[1..][i] == arms[i + 1];
        }
      }
    }
  }
}
