/** The guest's typed views (wasm/include/view.hpp): accessors that return a
    payload only when the tag matches and abort otherwise, the sorted key
    lookup of rows and tables, and the owning row, table, vector and series,
    which take the buffer they are built from and leave an empty one behind.
    An abort yields `Err` with the logged text. The entry comparison the sort
    and the lookup use is the key order of module KeyOrder. */
module View {
  import opened Base
  import opened Imports
  import opened KeyOrder
  import Frames
  import Columnar
  import ParamUtils

  // ---- value_view -------------------------------------------------------------

  function AsBol(v: Value): (r: Result<bool, string>)
    ensures r.Ok? <==> ValueTag(v) == TagBol
    ensures r.Ok? ==> v == Bol(r.value)
    ensures r.Err? ==> r.error == "value_type is not 'bol'"
  {
    if v.Bol? then Ok(v.b) else Err("value_type is not 'bol'")
  }

  function AsI32(v: Value): (r: Result<Int32, string>)
    ensures r.Ok? <==> ValueTag(v) == TagI32
    ensures r.Ok? ==> v == I32(r.value)
    ensures r.Err? ==> r.error == "value_type is not 'i32'"
  {
    if v.I32? then Ok(v.i32) else Err("value_type is not 'i32'")
  }

  function AsI64(v: Value): (r: Result<Int64, string>)
    ensures r.Ok? <==> ValueTag(v) == TagI64
    ensures r.Ok? ==> v == I64(r.value)
    ensures r.Err? ==> r.error == "value_type is not 'i64'"
  {
    if v.I64? then Ok(v.i64) else Err("value_type is not 'i64'")
  }

  function AsF32(v: Value): (r: Result<Bits32, string>)
    ensures r.Ok? <==> ValueTag(v) == TagF32
    ensures r.Ok? ==> v == F32(r.value)
    ensures r.Err? ==> r.error == "value_type is not 'f32'"
  {
    if v.F32? then Ok(v.f32) else Err("value_type is not 'f32'")
  }

  function AsF64(v: Value): (r: Result<Bits64, string>)
    ensures r.Ok? <==> ValueTag(v) == TagF64
    ensures r.Ok? ==> v == F64(r.value)
    ensures r.Err? ==> r.error == "value_type is not 'f64'"
  {
    if v.F64? then Ok(v.f64) else Err("value_type is not 'f64'")
  }

  function AsTxt(v: Value): (r: Result<string, string>)
    ensures r.Ok? <==> ValueTag(v) == TagTxt
    ensures r.Ok? ==> v == Txt(r.value)
    ensures r.Err? ==> r.error == "value_type is not 'txt'"
  {
    if v.Txt? then Ok(v.txt) else Err("value_type is not 'txt'")
  }

  /** Exactly one accessor succeeds on a value that is not nil, and none on nil. */
  lemma OneAccessorSucceeds(v: Value)
    ensures v.Nil? <==> AsBol(v).Err? && AsI32(v).Err? && AsI64(v).Err?
                        && AsF32(v).Err? && AsF64(v).Err? && AsTxt(v).Err?
    ensures (if AsBol(v).Ok? then 1 else 0) + (if AsI32(v).Ok? then 1 else 0)
            + (if AsI64(v).Ok? then 1 else 0) + (if AsF32(v).Ok? then 1 else 0)
            + (if AsF64(v).Ok? then 1 else 0) + (if AsTxt(v).Ok? then 1 else 0)
            == (if v.Nil? then 0 else 1)
  {
  }

  // ---- vector_view ------------------------------------------------------------

  /** `size`: the length of the active list, 0 for nil. */
  function Size(v: Vector): (n: nat)
    ensures v.VNil? ==> n == 0
    ensures !v.VNil? ==> n == VectorLen(v)
  {
    VectorLen(v)
  }

  function Empty(v: Vector): (b: bool)
    ensures b <==> Size(v) == 0
  {
    Size(v) == 0
  }

  /** The guest reads back the size the host sent: a backend column has its
      length, a marshalled span its own length, and is empty exactly then. */
  lemma SizeReadsBack(s: Frames.Series, p: ParamUtils.VectorParam)
    ensures Size(Columnar.ColumnVector(s)) == if s.values.Some? then Frames.Len(s.values.value) else 0
    ensures Empty(Columnar.ColumnVector(s)) <==> s.values.None? || Frames.Len(s.values.value) == 0
    ensures Size(ParamUtils.VectorOf(p)) == ParamUtils.SpanLen(p)
    ensures Empty(ParamUtils.VectorOf(p)) <==> ParamUtils.SpanLen(p) == 0
  {
  }

  function VectorAsBol(v: Vector): (r: Result<seq<bool>, string>)
    ensures r.Ok? <==> VectorTag(v) == TagBol
    ensures r.Ok? ==> v == VBol(r.value) && |r.value| == Size(v)
    ensures r.Err? ==> r.error == "vector_type is not 'bol'"
  {
    if v.VBol? then Ok(v.bols) else Err("vector_type is not 'bol'")
  }

  function VectorAsI32(v: Vector): (r: Result<seq<Int32>, string>)
    ensures r.Ok? <==> VectorTag(v) == TagI32
    ensures r.Ok? ==> v == VI32(r.value) && |r.value| == Size(v)
    ensures r.Err? ==> r.error == "vector_type is not 'i32'"
  {
    if v.VI32? then Ok(v.i32s) else Err("vector_type is not 'i32'")
  }

  function VectorAsI64(v: Vector): (r: Result<seq<Int64>, string>)
    ensures r.Ok? <==> VectorTag(v) == TagI64
    ensures r.Ok? ==> v == VI64(r.value) && |r.value| == Size(v)
    ensures r.Err? ==> r.error == "vector_type is not 'i64'"
  {
    if v.VI64? then Ok(v.i64s) else Err("vector_type is not 'i64'")
  }

  function VectorAsF32(v: Vector): (r: Result<seq<Bits32>, string>)
    ensures r.Ok? <==> VectorTag(v) == TagF32
    ensures r.Ok? ==> v == VF32(r.value) && |r.value| == Size(v)
    ensures r.Err? ==> r.error == "vector_type is not 'f32'"
  {
    if v.VF32? then Ok(v.f32s) else Err("vector_type is not 'f32'")
  }

  function VectorAsF64(v: Vector): (r: Result<seq<Bits64>, string>)
    ensures r.Ok? <==> VectorTag(v) == TagF64
    ensures r.Ok? ==> v == VF64(r.value) && |r.value| == Size(v)
    ensures r.Err? ==> r.error == "vector_type is not 'f64'"
  {
    if v.VF64? then Ok(v.f64s) else Err("vector_type is not 'f64'")
  }

  /** `vector_view::as_txt`: one view per element, in order. */
  method VectorAsTxt(v: Vector) returns (r: Result<seq<string>, string>)
    ensures r.Ok? <==> VectorTag(v) == TagTxt
    ensures r.Ok? ==> |r.value| == Size(v) && forall i :: 0 <= i < |r.value| ==> Txt(r.value[i]) == ElementAt(v, i)
    ensures r.Err? ==> r.error == "vector_type is not 'txt'"
  {
    if !v.VTxt? {
      return Err("vector_type is not 'txt'");
    }
    var views: seq<string> := [];
    var i := 0;
    while i < |v.txts|
      invariant 0 <= i <= |v.txts|
      invariant views == v.txts[..i]
    {
      views := views + [v.txts[i]];
      i := i + 1;
    }
    assert views == v.txts;
    r := Ok(views);
  }

  /** `view_string(i)`: element i of a text vector; the index is not checked
      against the length, so the caller must keep it in range. */
  function ViewString(v: Vector, i: nat): (r: Result<string, string>)
    requires v.VTxt? ==> i < |v.txts|
    ensures r.Ok? <==> VectorTag(v) == TagTxt
    ensures r.Ok? ==> ElementAt(v, i) == Txt(r.value)
    ensures r.Err? ==> r.error == "vector_type is not 'txt'"
  {
    if v.VTxt? then Ok(v.txts[i]) else Err("vector_type is not 'txt'")
  }

  /** `series_view::size`. */
  function SeriesSize(s: Series): (n: nat)
    ensures n == Size(s.val)
  {
    Size(s.val)
  }

  /** A series sent by the host has the size of the column or span it came
      from. */
  lemma SeriesSizeReadsBack(key: string, s: Frames.Series, p: ParamUtils.SeriesParam)
    ensures SeriesSize(Entry(key, Columnar.ColumnVector(s))) == if s.values.Some? then Frames.Len(s.values.value) else 0
    ensures SeriesSize(Entry(p.key, ParamUtils.VectorOf(p.val))) == ParamUtils.SpanLen(p.val)
  {
  }

  // ---- Sorted key lookup --------------------------------------------------------

  /** Entries in non-decreasing key order, as `std::sort` leaves them. */
  predicate SortedByKey<V>(xs: seq<Entry<V>>) {
    forall i, j :: 0 <= i < j < |xs| ==> !Less(xs[j].key, xs[i].key)
  }

  /** `std::lower_bound`: the first position whose key is not before `key`. */
  function LowerBound<V>(xs: seq<Entry<V>>, key: string): (i: nat)
    ensures i <= |xs|
    ensures forall j :: 0 <= j < i ==> Less(xs[j].key, key)
    ensures i < |xs| ==> !Less(xs[i].key, key)
    decreases |xs|
  {
    if xs == [] || !Less(xs[0].key, key) then 0
    else 1 + LowerBound(xs[1..], key)
  }

  /** `row_view[key]` and `table_view[key]`: the value at the lower bound when
      its key is `key`. On sorted entries it finds every key present. */
  function Lookup<V>(xs: seq<Entry<V>>, key: string): (r: Option<V>)
    ensures r.Some? ==> exists i :: 0 <= i < |xs| && xs[i] == Entry(key, r.value)
                                    && forall j :: 0 <= j < i ==> xs[j].key != key
    ensures SortedByKey(xs) ==> (r.Some? <==> exists i :: 0 <= i < |xs| && xs[i].key == key)
  {
    var i := LowerBound(xs, key);
    if i < |xs| && xs[i].key == key then
      LessIrreflexive(key);
      Some(xs[i].val)
    else
      LookupMisses(xs, key);
      None
  }

  /** When the entry at the lower bound has another key, no entry of a sorted
      list has `key`. */
  lemma LookupMisses<V>(xs: seq<Entry<V>>, key: string)
    requires !(LowerBound(xs, key) < |xs| && xs[LowerBound(xs, key)].key == key)
    ensures SortedByKey(xs) ==> forall j :: 0 <= j < |xs| ==> xs[j].key != key
  {
    var i := LowerBound(xs, key);
    LessIrreflexive(key);
    if SortedByKey(xs) {
      forall j | 0 <= j < |xs|
        ensures xs[j].key != key
      {
        if j > i && xs[j].key == key {
          LessTotal(xs[i].key, key);
        }
      }
    }
  }

  // ---- Sorting on construction ------------------------------------------------

  /** One entry placed into sorted entries after all entries not after it. */
  function Insert<V>(e: Entry<V>, xs: seq<Entry<V>>): (r: seq<Entry<V>>)
    ensures multiset(r) == multiset(xs) + multiset{e}
    decreases |xs|
  {
    if xs == [] then [e]
    else if Less(e.key, xs[0].key) then [e] + xs
    else
      assert xs == [xs[0]] + xs[1..];
      [xs[0]] + Insert(e, xs[1..])
  }

  /** Inserting into sorted entries keeps them sorted. */
  lemma {:induction false} InsertSorted<V>(e: Entry<V>, xs: seq<Entry<V>>)
    requires SortedByKey(xs)
    ensures SortedByKey(Insert(e, xs))
    decreases |xs|
  {
    if xs != [] && Less(e.key, xs[0].key) {
      var r := [e] + xs;
      forall i, j | 0 <= i < j < |r|
        ensures !Less(r[j].key, r[i].key)
      {
        if i == 0 && Less(xs[j - 1].key, e.key) {
          LessTransitive(xs[j - 1].key, e.key, xs[0].key);
          LessIrreflexive(xs[0].key);
        }
      }
    } else if xs != [] {
      InsertSorted(e, xs[1..]);
      var rest := Insert(e, xs[1..]);
      var r := [xs[0]] + rest;
      forall i, j | 0 <= i < j < |r|
        ensures !Less(r[j].key, r[i].key)
      {
        if i == 0 {
          assert r[j] in multiset(rest);
          if r[j] != e {
            assert r[j] in xs[1..];
            var k :| 0 <= k < |xs[1..]| && xs[1..][k] == r[j];
            assert xs[k + 1] == r[j];
          }
        } else {
          assert r[i] == rest[i - 1] && r[j] == rest[j - 1];
        }
      }
    }
  }

  /** The entries sorted by key: a permutation of them in key order. */
  function SortByKey<V>(xs: seq<Entry<V>>): (r: seq<Entry<V>>)
    ensures SortedByKey(r)
    ensures multiset(r) == multiset(xs)
    decreases |xs|
  {
    if xs == [] then []
    else
      assert xs == [xs[0]] + xs[1..];
      var sorted := SortByKey(xs[1..]);
      InsertSorted(xs[0], sorted);
      Insert(xs[0], sorted)
  }

  /** After sorting, the lookup finds every key the entries hold, and only those. */
  lemma SortedLookupExact<V>(xs: seq<Entry<V>>, key: string)
    ensures var r := Lookup(SortByKey(xs), key);
            (r.Some? <==> exists i :: 0 <= i < |xs| && xs[i].key == key)
            && (r.Some? ==> Entry(key, r.value) in multiset(xs))
  {
    var s := SortByKey(xs);
    var r := Lookup(s, key);
    KeysOfPermutation(xs, s, key);
    if r.Some? {
      var j :| 0 <= j < |s| && s[j] == Entry(key, r.value);
      assert s[j] in multiset(s);
    }
  }

  /** Two orderings of the same entries hold the same keys. */
  lemma KeysOfPermutation<V>(xs: seq<Entry<V>>, s: seq<Entry<V>>, key: string)
    requires multiset(s) == multiset(xs)
    ensures (exists i :: 0 <= i < |xs| && xs[i].key == key) <==> (exists j :: 0 <= j < |s| && s[j].key == key)
  {
    if exists i :: 0 <= i < |xs| && xs[i].key == key {
      var i :| 0 <= i < |xs| && xs[i].key == key;
      assert xs[i] in multiset(s);
      var j :| 0 <= j < |s| && s[j] == xs[i];
    }
    if exists j :: 0 <= j < |s| && s[j].key == key {
      var j :| 0 <= j < |s| && s[j].key == key;
      assert s[j] in multiset(xs);
      var i :| 0 <= i < |xs| && xs[i] == s[j];
    }
  }

  // ---- Owning wrappers ------------------------------------------------------------

  /** A caller's `imports_row_t` or `imports_table_t`: the entries it points to. */
  class EntriesSlot<V> {
    var entries: seq<Entry<V>>

    constructor (entries: seq<Entry<V>>)
      ensures this.entries == entries
    {
      this.entries := entries;
    }
  }

  /** The owning `row` (V = Value) and `table` (V = Vector). */
  class Owner<V> {
    var data: seq<Entry<V>>

    ghost predicate Valid()
      reads this
    {
      SortedByKey(data)
    }

    /** Takes the slot's entries, leaves it empty, and sorts them by key. */
    constructor Adopt(slot: EntriesSlot<V>)
      modifies slot
      ensures Valid()
      ensures data == SortByKey(old(slot.entries))
      ensures slot.entries == []
    {
      data := SortByKey(slot.entries);
      slot.entries := [];
    }

    /** The move constructor. */
    constructor Move(rhs: Owner<V>)
      requires rhs.Valid()
      modifies rhs
      ensures Valid()
      ensures data == old(rhs.data) && rhs.data == []
    {
      data := rhs.data;
      rhs.data := [];
    }

    /** The move assignment. Moving an owner into itself leaves it empty. */
    method MoveAssign(rhs: Owner<V>)
      requires rhs.Valid()
      modifies this, rhs
      ensures Valid() && rhs.Valid()
      ensures rhs.data == []
      ensures rhs != this ==> data == old(rhs.data)
    {
      data := rhs.data;
      rhs.data := [];
    }

    /** `view()[key]`. */
    function Get(key: string): (r: Option<V>)
      reads this
      requires Valid()
      ensures r.Some? <==> exists i :: 0 <= i < |data| && data[i].key == key
      ensures r.Some? ==> Entry(key, r.value) in data
    {
      Lookup(data, key)
    }
  }

  /** A caller's `imports_vector_t`. */
  class VectorSlot {
    var vec: Vector

    constructor (vec: Vector)
      ensures this.vec == vec
    {
      this.vec := vec;
    }
  }

  /** The owning `vector`: the source is left as nil. */
  class OwnedVector {
    var data: Vector

    constructor Adopt(slot: VectorSlot)
      modifies slot
      ensures data == old(slot.vec) && slot.vec == VNil
    {
      data := slot.vec;
      slot.vec := VNil;
    }

    constructor Move(rhs: OwnedVector)
      modifies rhs
      ensures data == old(rhs.data) && rhs.data == VNil
    {
      data := rhs.data;
      rhs.data := VNil;
    }

    method MoveAssign(rhs: OwnedVector)
      modifies this, rhs
      ensures rhs.data == VNil
      ensures rhs != this ==> data == old(rhs.data)
    {
      data := rhs.data;
      rhs.data := VNil;
    }
  }

  /** A caller's `imports_series_t`. */
  class SeriesSlot {
    var key: string
    var val: Vector

    constructor (key: string, val: Vector)
      ensures this.key == key && this.val == val
    {
      this.key := key;
      this.val := val;
    }
  }

  /** The owning `series`: the source is left with an empty key and a nil vector. */
  class OwnedSeries {
    var key: string
    var val: Vector

    constructor Adopt(slot: SeriesSlot)
      modifies slot
      ensures key == old(slot.key) && val == old(slot.val)
      ensures slot.key == "" && slot.val == VNil
    {
      key := slot.key;
      val := slot.val;
      slot.key := "";
      slot.val := VNil;
    }

    constructor Move(rhs: OwnedSeries)
      modifies rhs
      ensures key == old(rhs.key) && val == old(rhs.val)
      ensures rhs.key == "" && rhs.val == VNil
    {
      key := rhs.key;
      val := rhs.val;
      rhs.key := "";
      rhs.val := VNil;
    }

    method MoveAssign(rhs: OwnedSeries)
      modifies this, rhs
      ensures rhs.key == "" && rhs.val == VNil
      ensures rhs != this ==> key == old(rhs.key) && val == old(rhs.val)
    {
      key := rhs.key;
      val := rhs.val;
      rhs.key := "";
      rhs.val := VNil;
    }
  }

  /** After a move only the destination holds the entries, so only one owner
      frees them; and the row built from a slot finds every key the slot held. */
  method MoveLeavesOneOwner(slot: EntriesSlot<Value>, key: string)
    returns (found: Option<Value>, left: seq<Item>, moved: seq<Item>)
    modifies slot
    ensures left == []
    ensures multiset(moved) == multiset(old(slot.entries))
    ensures found.Some? <==> exists i :: 0 <= i < |old(slot.entries)| && old(slot.entries)[i].key == key
  {
    var row := new Owner.Adopt(slot);
    var other := new Owner.Move(row);
    found := other.Get(key);
    left := row.data;
    moved := other.data;
    SortedLookupExact(old(slot.entries), key);
  }
}
