/** The backend's columnar message: a DataFrame is a list of headers, a parallel
    list of columns and a free-form comment; a column holds one list of values
    of a single kind, or nothing. */
module Frames {
  import opened Base

  datatype Values =
    | BoolValues(bools: seq<bool>)
    | Int32Values(i32s: seq<Int32>)
    | Int64Values(i64s: seq<Int64>)
    | Float32Values(f32s: seq<Bits32>)
    | Float64Values(f64s: seq<Bits64>)
    | StringValues(strs: seq<string>)

  datatype Series = Series(values: Option<Values>)

  datatype DataFrame = DataFrame(headers: seq<string>, columns: seq<Series>, comment: string)

  /** `DataFrame::default()`. */
  const EmptyFrame: DataFrame := DataFrame([], [], "")

  function Len(v: Values): nat {
    match v
    case BoolValues(xs) => |xs|
    case Int32Values(xs) => |xs|
    case Int64Values(xs) => |xs|
    case Float32Values(xs) => |xs|
    case Float64Values(xs) => |xs|
    case StringValues(xs) => |xs|
  }

  /** Two value lists of the same kind. */
  predicate SameKind(a: Values, b: Values) {
    (a.BoolValues? && b.BoolValues?) || (a.Int32Values? && b.Int32Values?)
    || (a.Int64Values? && b.Int64Values?) || (a.Float32Values? && b.Float32Values?)
    || (a.Float64Values? && b.Float64Values?) || (a.StringValues? && b.StringValues?)
  }
}
