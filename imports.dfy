/** The tagged unions exchanged across the sandbox boundary (the wit `imports`
    interface): a value of one of six kinds or nil, a vector of one kind or nil,
    and keyed entries forming rows and tables. The tag numbers are those of the
    guest's C binding. */
module Imports {
  import opened Base

  datatype Value =
    | Nil
    | Bol(b: bool)
    | I32(i32: Int32)
    | I64(i64: Int64)
    | F32(f32: Bits32)
    | F64(f64: Bits64)
    | Txt(txt: string)

  datatype Vector =
    | VNil
    | VBol(bols: seq<bool>)
    | VI32(i32s: seq<Int32>)
    | VI64(i64s: seq<Int64>)
    | VF32(f32s: seq<Bits32>)
    | VF64(f64s: seq<Bits64>)
    | VTxt(txts: seq<string>)

  /** `imports_item_t` (V = Value) and `imports_series_t` (V = Vector). */
  datatype Entry<V> = Entry(key: string, val: V)

  type Item = Entry<Value>
  type Series = Entry<Vector>
  type Row = seq<Item>
  type Table = seq<Series>

  const TagNil: nat := 0
  const TagBol: nat := 1
  const TagI32: nat := 2
  const TagI64: nat := 3
  const TagF32: nat := 4
  const TagF64: nat := 5
  const TagTxt: nat := 6

  /** IMPORTS_VALUE_* of a value. */
  function ValueTag(v: Value): nat {
    match v
    case Nil => TagNil
    case Bol(_) => TagBol
    case I32(_) => TagI32
    case I64(_) => TagI64
    case F32(_) => TagF32
    case F64(_) => TagF64
    case Txt(_) => TagTxt
  }

  /** IMPORTS_VECTOR_* of a vector. */
  function VectorTag(v: Vector): nat {
    match v
    case VNil => TagNil
    case VBol(_) => TagBol
    case VI32(_) => TagI32
    case VI64(_) => TagI64
    case VF32(_) => TagF32
    case VF64(_) => TagF64
    case VTxt(_) => TagTxt
  }

  /** Length of the active list; nil has none. */
  function VectorLen(v: Vector): nat {
    match v
    case VNil => 0
    case VBol(xs) => |xs|
    case VI32(xs) => |xs|
    case VI64(xs) => |xs|
    case VF32(xs) => |xs|
    case VF64(xs) => |xs|
    case VTxt(xs) => |xs|
  }

  /** Element k of a vector, as a value of the vector's kind. */
  function ElementAt(v: Vector, k: nat): (r: Value)
    requires k < VectorLen(v)
    ensures ValueTag(r) == VectorTag(v)
    ensures IsFloat(r) <==> IsFloatVector(v)
  {
    match v
    case VBol(xs) => Bol(xs[k])
    case VI32(xs) => I32(xs[k])
    case VI64(xs) => I64(xs[k])
    case VF32(xs) => F32(xs[k])
    case VF64(xs) => F64(xs[k])
    case VTxt(xs) => Txt(xs[k])
  }

  predicate IsFloat(v: Value) {
    v.F32? || v.F64?
  }

  predicate IsFloatVector(v: Vector) {
    v.VF32? || v.VF64?
  }
}
