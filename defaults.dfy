/** `Defaults`: the default value of each Java type, as the Java language defines
    it for fields that are never assigned. */
module Defaults {
  import opened Wrappers

  datatype JavaType =
    | BooleanType | CharType | ByteType | ShortType | IntType | LongType | FloatType | DoubleType
    | VoidType
    | ReferenceType(name: string)

  /** A boxed primitive value. Float and double zeros are given as reals. */
  datatype Value =
    | BooleanValue(b: bool)
    | CharValue(c: char)
    | ByteValue(i: int)
    | ShortValue(i: int)
    | IntValue(i: int)
    | LongValue(i: int)
    | FloatValue(r: real)
    | DoubleValue(r: real)

  /** The eight primitive types that have values (every primitive but `void`). */
  predicate HasPrimitiveValues(t: JavaType) {
    !t.ReferenceType? && !t.VoidType?
  }

  function TypeOf(v: Value): JavaType {
    match v
    case BooleanValue(_) => BooleanType
    case CharValue(_) => CharType
    case ByteValue(_) => ByteType
    case ShortValue(_) => ShortType
    case IntValue(_) => IntType
    case LongValue(_) => LongType
    case FloatValue(_) => FloatType
    case DoubleValue(_) => DoubleType
  }

  /** `false`, `'\0'`, or the zero of a numeric type. */
  predicate IsZero(v: Value) {
    match v
    case BooleanValue(b) => !b
    case CharValue(c) => c == '\0'
    case ByteValue(i) => i == 0
    case ShortValue(i) => i == 0
    case IntValue(i) => i == 0
    case LongValue(i) => i == 0
    case FloatValue(r) => r == 0.0
    case DoubleValue(r) => r == 0.0
  }

  /** The table after static initialisation; a Dafny map cannot be modified. */
  const DEFAULTS: map<JavaType, Value> := map[
    BooleanType := BooleanValue(false),
    CharType := CharValue('\0'),
    ByteType := ByteValue(0),
    ShortType := ShortValue(0),
    IntType := IntValue(0),
    LongType := LongValue(0),
    FloatType := FloatValue(0.0),
    DoubleType := DoubleValue(0.0)
  ]

  /** The static initialiser: one `put` per primitive type. */
  method Initialize() returns (table: map<JavaType, Value>)
    ensures table == DEFAULTS
    ensures forall t :: t in table <==> HasPrimitiveValues(t)
    ensures forall t :: t in table ==> TypeOf(table[t]) == t && IsZero(table[t])
  {
    table := map[];
    table := table[BooleanType := BooleanValue(false)];
    table := table[CharType := CharValue('\0')];
    table := table[ByteType := ByteValue(0)];
    table := table[ShortType := ShortValue(0)];
    table := table[IntType := IntValue(0)];
    table := table[LongType := LongValue(0)];
    table := table[FloatType := FloatValue(0.0)];
    table := table[DoubleType := DoubleValue(0.0)];
  }

  /** `defaultValue(type)`: the zero of a primitive type; null for `void` and for
      every non-primitive type. */
  function DefaultValue(t: JavaType): (v: Option<Value>)
    ensures v.Some? <==> HasPrimitiveValues(t)
    ensures v.Some? ==> TypeOf(v.value) == t && IsZero(v.value)
  {
    if t in DEFAULTS then Some(DEFAULTS[t]) else None
  }

  /** A type has one zero, so `DefaultValue`'s contract fixes its answer: `false`,
      `'\0'`, `0`, `0L`, `0f` or `0d`. */
  lemma ZeroUnique(v: Value, w: Value)
    requires TypeOf(v) == TypeOf(w) && IsZero(v) && IsZero(w)
    ensures v == w
  {
  }

  /** The table has exactly eight entries. */
  lemma DefaultsSize()
    ensures |DEFAULTS| == 8
  {
    assert DEFAULTS.Keys == {BooleanType, CharType, ByteType, ShortType, IntType, LongType, FloatType, DoubleType};
  }
}
