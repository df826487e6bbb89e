/** The guest's marshalling of C++ parameters into the tagged unions
    (wasm/include/utils.hpp): a variant becomes the tag of its alternative and
    a copy of its payload; a span becomes a list of the same length; text spans
    get a freshly allocated list of string references, and the returned owner
    is non-null only then. The owner pointer is modelled by whether it is set. */
module ParamUtils {
  import opened Base
  import opened Imports

  /** `value_param`: one alternative of the variant. */
  datatype ValueParam =
    | PBool(b: bool)
    | PInt32(i32: Int32)
    | PInt64(i64: Int64)
    | PFloat(f32: Bits32)
    | PDouble(f64: Bits64)
    | PStringView(sv: string)

  /** `vector_param`: a span of one element type. */
  datatype VectorParam =
    | SpanBool(bools: seq<bool>)
    | SpanInt32(i32s: seq<Int32>)
    | SpanInt64(i64s: seq<Int64>)
    | SpanFloat(f32s: seq<Bits32>)
    | SpanDouble(f64s: seq<Bits64>)
    | SpanStringView(views: seq<string>)
    | SpanString(strs: seq<string>)

  datatype ItemParam = ItemParam(key: string, val: ValueParam)
  datatype SeriesParam = SeriesParam(key: string, val: VectorParam)

  /** The value a parameter becomes. */
  function ValueOf(p: ValueParam): Value {
    match p
    case PBool(b) => Bol(b)
    case PInt32(x) => I32(x)
    case PInt64(x) => I64(x)
    case PFloat(x) => F32(x)
    case PDouble(x) => F64(x)
    case PStringView(s) => Txt(s)
  }

  /** The parameter a non-nil value stands for: the inverse of ValueOf. */
  function ParamOf(v: Value): Option<ValueParam> {
    match v
    case Nil => None
    case Bol(b) => Some(PBool(b))
    case I32(x) => Some(PInt32(x))
    case I64(x) => Some(PInt64(x))
    case F32(x) => Some(PFloat(x))
    case F64(x) => Some(PDouble(x))
    case Txt(s) => Some(PStringView(s))
  }

  /** The tag each alternative selects. */
  function ParamTag(p: ValueParam): nat {
    match p
    case PBool(_) => TagBol
    case PInt32(_) => TagI32
    case PInt64(_) => TagI64
    case PFloat(_) => TagF32
    case PDouble(_) => TagF64
    case PStringView(_) => TagTxt
  }

  /** `__set_value_param`. */
  method SetValueParam(p: ValueParam) returns (ret0: Value)
    ensures ValueTag(ret0) == ParamTag(p)
    ensures ParamOf(ret0) == Some(p)
  {
    match p
    case PBool(b) => ret0 := Bol(b);
    case PInt32(x) => ret0 := I32(x);
    case PInt64(x) => ret0 := I64(x);
    case PFloat(x) => ret0 := F32(x);
    case PDouble(x) => ret0 := F64(x);
    case PStringView(s) => ret0 := Txt(s);
  }

  /** Parameters and values correspond one to one; no parameter becomes nil. */
  lemma ValueParamRoundTrip(p: ValueParam, v: Value)
    ensures ParamOf(ValueOf(p)) == Some(p)
    ensures ValueTag(ValueOf(p)) == ParamTag(p) != TagNil
    ensures !v.Nil? ==> ValueOf(ParamOf(v).value) == v
  {
  }

  function SpanLen(p: VectorParam): nat {
    match p
    case SpanBool(xs) => |xs|
    case SpanInt32(xs) => |xs|
    case SpanInt64(xs) => |xs|
    case SpanFloat(xs) => |xs|
    case SpanDouble(xs) => |xs|
    case SpanStringView(xs) => |xs|
    case SpanString(xs) => |xs|
  }

  predicate IsTextSpan(p: VectorParam) {
    p.SpanStringView? || p.SpanString?
  }

  /** The vector a span becomes: the same elements under the span's tag; both
      kinds of text span become a text vector. */
  function VectorOf(p: VectorParam): (v: Vector)
    ensures VectorLen(v) == SpanLen(p)
    ensures VectorTag(v) != TagNil
    ensures VectorTag(v) == TagTxt <==> IsTextSpan(p)
  {
    match p
    case SpanBool(xs) => VBol(xs)
    case SpanInt32(xs) => VI32(xs)
    case SpanInt64(xs) => VI64(xs)
    case SpanFloat(xs) => VF32(xs)
    case SpanDouble(xs) => VF64(xs)
    case SpanStringView(xs) => VTxt(xs)
    case SpanString(xs) => VTxt(xs)
  }

  /** The string-reference list built for a text span, element by element, in a
      freshly allocated buffer. */
  method StringRefs(xs: seq<string>) returns (refs: seq<string>)
    ensures refs == xs
  {
    var buf := new string[|xs|];
    var i := 0;
    while i < |xs|
      invariant 0 <= i <= |xs|
      invariant buf[..i] == xs[..i]
    {
      buf[i] := xs[i];
      i := i + 1;
    }
    assert buf[..] == buf[..i];
    refs := buf[..];
  }

  /** `__set_vector_param`: the vector and whether an owner was allocated. */
  method SetVectorParam(p: VectorParam) returns (ret0: Vector, owned: bool)
    ensures ret0 == VectorOf(p)
    ensures owned <==> IsTextSpan(p)
  {
    owned := false;
    match p {
      case SpanBool(xs) => ret0 := VBol(xs);
      case SpanInt32(xs) => ret0 := VI32(xs);
      case SpanInt64(xs) => ret0 := VI64(xs);
      case SpanFloat(xs) => ret0 := VF32(xs);
      case SpanDouble(xs) => ret0 := VF64(xs);
      case SpanStringView(xs) =>
        var refs := StringRefs(xs);
        ret0 := VTxt(refs);
        owned := true;
      case SpanString(xs) =>
        var refs := StringRefs(xs);
        ret0 := VTxt(refs);
        owned := true;
    }
  }

  /** Element i of the vector is element i of the span, and the two kinds of
      text span give the same vector. */
  lemma VectorOfKeepsElements(p: VectorParam, i: nat)
    requires i < SpanLen(p)
    ensures ElementAt(VectorOf(p), i) == match p
      case SpanBool(xs) => Bol(xs[i])
      case SpanInt32(xs) => I32(xs[i])
      case SpanInt64(xs) => I64(xs[i])
      case SpanFloat(xs) => F32(xs[i])
      case SpanDouble(xs) => F64(xs[i])
      case SpanStringView(xs) => Txt(xs[i])
      case SpanString(xs) => Txt(xs[i])
    ensures p.SpanString? ==> VectorOf(p) == VectorOf(SpanStringView(p.strs))
  {
  }

  /** `__set_span_string_param` (both overloads). */
  method SetSpanStringParam(params: seq<string>) returns (ret0: seq<string>)
    ensures |ret0| == |params|
    ensures forall i :: 0 <= i < |ret0| ==> ret0[i] == params[i]
  {
    ret0 := StringRefs(params);
  }

  /** `__set_item_param`. */
  method SetItemParam(p: ItemParam) returns (ret0: Item)
    ensures ret0.key == p.key
    ensures ParamOf(ret0.val) == Some(p.val)
  {
    var v := SetValueParam(p.val);
    ret0 := Entry(p.key, v);
  }

  /** `__set_span_item_param` (both overloads): item i from parameter i. */
  method SetSpanItemParam(params: seq<ItemParam>) returns (ret0: Row)
    ensures |ret0| == |params|
    ensures forall i :: 0 <= i < |ret0| ==> ret0[i].key == params[i].key && ParamOf(ret0[i].val) == Some(params[i].val)
  {
    var buf := new Item[|params|](_ => Entry("", Nil));
    var i := 0;
    while i < |params|
      invariant 0 <= i <= |params|
      invariant forall j :: 0 <= j < i ==> buf[j].key == params[j].key && ParamOf(buf[j].val) == Some(params[j].val)
    {
      var item := SetItemParam(params[i]);
      buf[i] := item;
      i := i + 1;
    }
    ret0 := buf[..];
  }

  /** `__set_series_param`: the key, then the vector. */
  method SetSeriesParam(p: SeriesParam) returns (ret0: Series, owned: bool)
    ensures ret0 == Entry(p.key, VectorOf(p.val))
    ensures owned <==> IsTextSpan(p.val)
  {
    var v;
    v, owned := SetVectorParam(p.val);
    ret0 := Entry(p.key, v);
  }
}
