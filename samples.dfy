/**
 * Parameter samples as the archive filler receives them (org.yamcs.parameter.ParameterValue),
 * reduced to what ArchiveFillerTask looks at.
 */
module Samples {
  import opened Wrappers

  /** Type tags of engineering and raw values (org.yamcs.protobuf.Yamcs.Value.Type). */
  datatype ValueType =
    | FloatType | DoubleType | Uint32Type | Sint32Type | BinaryType | StringType
    | TimestampType | Uint64Type | Sint64Type | BooleanType | AggregateType | ArrayType | EnumeratedType

  /** A simple value, or an AggregateValue, which the parameter archive does not support. */
  datatype Value =
    | Simple(valueType: ValueType, payload: int)
    | Aggregate(memberNames: seq<string>)

  /** Value.getType() */
  function TypeOf(v: Value): ValueType
  {
    match v
    case Simple(t, _) => t
    case Aggregate(_) => AggregateType
  }

  /** A sample; a null qualified name, engineering value or raw value is None. */
  datatype ParameterValue = ParameterValue(
    qualifiedName: Option<string>,
    generationTime: int,
    engValue: Option<Value>,
    rawValue: Option<Value>)

  /** The triple that ParameterIdDb hands out an id for: name, engineering type, raw type (null when there is no raw value). */
  datatype ParameterKey = ParameterKey(qualifiedName: string, engType: ValueType, rawType: Option<ValueType>)

  /** The key SortedParameterList.add looks up for a sample with a name and an engineering value. */
  function KeyOf(pv: ParameterValue): ParameterKey
    requires pv.qualifiedName.Some? && pv.engValue.Some?
  {
    ParameterKey(pv.qualifiedName.value, TypeOf(pv.engValue.value),
                 if pv.rawValue.None? then None else Some(TypeOf(pv.rawValue.value)))
  }
}
