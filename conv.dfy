/** The guest's conversions between the tagged kinds (wasm/include/conv.hpp),
    integer and boolean parts. Integer text is read as `std::from_chars` reads
    it (ISO C++17 [utility.from.chars], base 10): an optional '-' and a run of
    digits at the start of the text, the rest ignored. A conversion that logs
    and aborts the guest yields `Err` with the logged text. Float values are
    outside the model, so the conversions require a non-float input. */
module Conv {
  import opened Base
  import opened Decimal
  import opened Imports

  // ---- std::from_chars --------------------------------------------------------

  datatype Errc = InvalidArgument | ResultOutOfRange

  /** The length of the run of digits at the start of `s`. */
  function DigitRun(s: string): (n: nat)
    ensures n <= |s| && AllDigits(s[..n])
    ensures n < |s| ==> !IsDigit(s[n])
    decreases |s|
  {
    if s == [] || !IsDigit(s[0]) then 0
    else
      var n := 1 + DigitRun(s[1..]);
      assert s[..n] == [s[0]] + s[1..][..n - 1];
      n
  }

  /** The text starts with what `from_chars` accepts as an integer. */
  predicate StartsWithNumber(s: string) {
    (|s| > 0 && IsDigit(s[0])) || (|s| > 1 && s[0] == '-' && IsDigit(s[1]))
  }

  /** `std::from_chars` into an integer type whose range is `lo ..= hi`. */
  function FromChars(s: string, lo: int, hi: int): (r: Result<int, Errc>)
    ensures r.Ok? ==> lo <= r.value <= hi
    ensures r == Err(InvalidArgument) <==> !StartsWithNumber(s)
  {
    var neg := |s| > 0 && s[0] == '-';
    match LeadingDigits(if neg then s[1..] else s)
    case None => Err(InvalidArgument)
    case Some(mag) =>
      var v: int := if neg then -(mag as int) else mag;
      if lo <= v <= hi then Ok(v) else Err(ResultOutOfRange)
  }

  /** The value of the run of digits at the start of `t`, if there is one. */
  function LeadingDigits(t: string): (r: Option<nat>)
    ensures r.Some? <==> |t| > 0 && IsDigit(t[0])
  {
    var n := DigitRun(t);
    if n == 0 then None else Some(DigitsValue(t[..n]))
  }

  lemma {:induction false} DigitRunOfDigits(d: string, rest: string)
    requires AllDigits(d)
    requires rest == [] || !IsDigit(rest[0])
    ensures DigitRun(d + rest) == |d|
    decreases |d|
  {
    if d != [] {
      assert (d + rest)[1..] == d[1..] + rest;
      DigitRunOfDigits(d[1..], rest);
    }
  }

  /** A run of digits followed by anything that does not continue it has the
      run's value. */
  lemma LeadingDigitsOf(d: string, rest: string)
    requires |d| >= 1 && AllDigits(d)
    requires rest == [] || !IsDigit(rest[0])
    ensures LeadingDigits(d + rest) == Some(DigitsValue(d))
  {
    DigitRunOfDigits(d, rest);
    assert (d + rest)[..|d|] == d;
  }

  lemma SignedSlices(d: string, rest: string)
    ensures var s := "-" + d + rest;
            |s| > 0 && s[0] == '-' && s[1..] == d + rest
  {
    var s := "-" + d + rest;
    assert s[1..] == d + rest;
  }

  lemma NegativeRoundTrip(m: nat, rest: string, lo: int, hi: int)
    requires rest == [] || !IsDigit(rest[0])
    ensures var v: int := -(m as int);
            FromChars("-" + NatToDecimal(m) + rest, lo, hi) == if lo <= v <= hi then Ok(v) else Err(ResultOutOfRange)
  {
    var d := NatToDecimal(m);
    LeadingDigitsOf(d, rest);
    SignedSlices(d, rest);
    DecimalRoundTrip(m);
  }

  /** The decimal form of an in-range integer, followed by anything that does
      not continue the number, reads back as that integer. */
  lemma FromCharsRoundTrip(i: int, rest: string, lo: int, hi: int)
    requires rest == [] || !IsDigit(rest[0])
    ensures FromChars(IntToDecimal(i) + rest, lo, hi) == if lo <= i <= hi then Ok(i) else Err(ResultOutOfRange)
  {
    if i < 0 {
      NegativeRoundTrip(-i, rest, lo, hi);
      assert IntToDecimal(i) + rest == "-" + NatToDecimal(-i) + rest;
    } else {
      var d := NatToDecimal(i);
      LeadingDigitsOf(d, rest);
      DecimalRoundTrip(i);
      assert IntToDecimal(i) + rest == d + rest;
      assert (d + rest)[0] == d[0];
    }
  }

  /** Only the number at the head of the text is read. */
  lemma TrailingTextIgnored(i: int, rest: string, lo: int, hi: int)
    requires rest == [] || !IsDigit(rest[0])
    ensures FromChars(IntToDecimal(i) + rest, lo, hi) == FromChars(IntToDecimal(i), lo, hi)
  {
    FromCharsRoundTrip(i, rest, lo, hi);
    FromCharsRoundTrip(i, [], lo, hi);
    assert IntToDecimal(i) + [] == IntToDecimal(i);
  }

  // ---- txt2* --------------------------------------------------------------------

  predicate StartsWith(s: string, prefix: string) {
    |prefix| <= |s| && s[..|prefix|] == prefix
  }

  /** The text `from_chars` reports for its two errors. */
  function ErrcText(e: Errc): string {
    match e
    case InvalidArgument => "invalid argument"
    case ResultOutOfRange => "result out of range"
  }

  /** `txt2bol`: a leading integer is true when non-zero; otherwise a
      "true"/"True" or "false"/"False" prefix decides; anything else aborts. */
  function TxtToBol(s: string): (r: Result<bool, string>)
    ensures r.Err? ==> r.error == "invalid argument"
    ensures StartsWith(s, "true") || StartsWith(s, "True") ==> r == Ok(true)
    ensures StartsWith(s, "false") || StartsWith(s, "False") ==> r == Ok(false)
  {
    match FromChars(s, MinI64, MaxI64)
    case Ok(v) => Ok(v != 0)
    case Err(_) =>
      if StartsWith(s, "true") || StartsWith(s, "True") then Ok(true)
      else if StartsWith(s, "false") || StartsWith(s, "False") then Ok(false)
      else Err("invalid argument")
  }

  /** `txt2i32`. */
  function TxtToI32(s: string): (r: Result<Int32, string>)
    ensures r.Err? ==> FromChars(s, MinI32, MaxI32).Err? && r.error == ErrcText(FromChars(s, MinI32, MaxI32).error)
    ensures r == Err("invalid argument") <==> !StartsWithNumber(s)
  {
    match FromChars(s, MinI32, MaxI32)
    case Ok(v) => Ok(v)
    case Err(e) => Err(ErrcText(e))
  }

  /** `txt2i64`. */
  function TxtToI64(s: string): (r: Result<Int64, string>)
    ensures r.Err? ==> FromChars(s, MinI64, MaxI64).Err? && r.error == ErrcText(FromChars(s, MinI64, MaxI64).error)
    ensures r == Err("invalid argument") <==> !StartsWithNumber(s)
  {
    match FromChars(s, MinI64, MaxI64)
    case Ok(v) => Ok(v)
    case Err(e) => Err(ErrcText(e))
  }

  /** `txt2txt`: a copy of the text. */
  function TxtToTxt(s: string): (r: string)
    ensures |r| == |s| && forall i :: 0 <= i < |r| ==> r[i] == s[i]
  {
    s[..]
  }

  /** The 32- and 64-bit parses read back every in-range decimal form, and
      report a number beyond the range as out of range. */
  lemma TxtToIntRoundTrip(i: int, rest: string)
    requires rest == [] || !IsDigit(rest[0])
    ensures TxtToI32(IntToDecimal(i) + rest)
            == if MinI32 <= i <= MaxI32 then Ok(i) else Err("result out of range")
    ensures TxtToI64(IntToDecimal(i) + rest)
            == if MinI64 <= i <= MaxI64 then Ok(i) else Err("result out of range")
  {
    FromCharsRoundTrip(i, rest, MinI32, MaxI32);
    FromCharsRoundTrip(i, rest, MinI64, MaxI64);
  }

  /** A number is a boolean by being non-zero; a number too large for 64 bits is
      no boolean at all, since its text starts with neither word. */
  lemma TxtToBolOfNumber(i: int, rest: string)
    requires rest == [] || !IsDigit(rest[0])
    ensures TxtToBol(IntToDecimal(i) + rest)
            == if MinI64 <= i <= MaxI64 then Ok(i != 0) else Err("invalid argument")
  {
    var s := IntToDecimal(i) + rest;
    FromCharsRoundTrip(i, rest, MinI64, MaxI64);
    assert s[0] == '-' || IsDigit(s[0]);
    assert !StartsWith(s, "true") && !StartsWith(s, "True");
    assert !StartsWith(s, "false") && !StartsWith(s, "False");
  }

  /** Text that starts with neither a number nor one of the four words aborts. */
  lemma TxtToBolRejects(s: string)
    requires !StartsWithNumber(s)
    requires !StartsWith(s, "true") && !StartsWith(s, "True")
    requires !StartsWith(s, "false") && !StartsWith(s, "False")
    ensures TxtToBol(s) == Err("invalid argument")
  {
  }

  // ---- __into_number / __into_boolean / __into_string ---------------------------

  /** The integer targets of `__into_number<T>`. */
  datatype IntKind = I32Kind | I64Kind

  predicate InKind(x: int, k: IntKind) {
    match k
    case I32Kind => MinI32 <= x <= MaxI32
    case I64Kind => MinI64 <= x <= MaxI64
  }

  /** `static_cast<T>` of a 64-bit integer: narrowing to 32 bits keeps the
      value modulo 2^32. */
  function Cast(x: Int64, k: IntKind): (r: int)
    ensures InKind(r, k)
    ensures (r - x) % 0x1_0000_0000 == 0
    ensures InKind(x, k) ==> r == x
  {
    match k
    case I64Kind => x
    case I32Kind => (x - MinI32) % 0x1_0000_0000 + MinI32
  }

  /** `__into_number<T>` for an integer T. */
  function IntoNumber(v: Value, k: IntKind): (r: Result<int, string>)
    requires !IsFloat(v)
    ensures r.Ok? ==> InKind(r.value, k)
    ensures v.Nil? ==> r == Err("invalid argument")
    ensures v.Bol? ==> r == Ok(if v.b then 1 else 0)
    ensures v.I32? || v.I64? ==> r.Ok?
  {
    match v
    case Nil => Err("invalid argument")
    case Bol(b) => Ok(if b then 1 else 0)
    case I32(x) => Ok(Cast(x, k))
    case I64(x) => Ok(Cast(x, k))
    case Txt(s) =>
      match k
      case I32Kind => (match TxtToI32(s) case Ok(x) => Ok(x) case Err(e) => Err(e))
      case I64Kind => (match TxtToI64(s) case Ok(x) => Ok(x) case Err(e) => Err(e))
  }

  /** `__into_boolean`. */
  function IntoBoolean(v: Value): (r: Result<bool, string>)
    requires !IsFloat(v)
    ensures v.Nil? ==> r == Err("invalid argument")
    ensures v.Bol? ==> r == Ok(v.b)
  {
    match v
    case Nil => Err("invalid argument")
    case Bol(b) => Ok(b)
    case I32(x) => Ok(x != 0)
    case I64(x) => Ok(x != 0)
    case Txt(s) => TxtToBol(s)
  }

  /** `__into_string` as written: false becomes the text "else". */
  function IntoString(v: Value): (r: Result<string, string>)
    requires !IsFloat(v)
    ensures r.Err? <==> v.Nil?
  {
    match v
    case Nil => Err("invalid argument")
    case Bol(b) => Ok(if b then "true" else "else")
    case I32(x) => Ok(IntToDecimal(x))
    case I64(x) => Ok(IntToDecimal(x))
    case Txt(s) => Ok(TxtToTxt(s))
  }

  /** `__into_string` with false written as "false". */
  function IntoStringCorrected(v: Value): (r: Result<string, string>)
    requires !IsFloat(v)
    ensures r.Err? <==> v.Nil?
    ensures v.Bol? ==> r == Ok(if v.b then "true" else "false")
  {
    match v
    case Nil => Err("invalid argument")
    case Bol(b) => Ok(if b then "true" else "false")
    case I32(x) => Ok(IntToDecimal(x))
    case I64(x) => Ok(IntToDecimal(x))
    case Txt(s) => Ok(TxtToTxt(s))
  }

  /** The two string conversions differ on false only. */
  lemma IntoStringDiffersOnFalseOnly(v: Value)
    requires !IsFloat(v)
    ensures IntoString(v) != IntoStringCorrected(v) <==> v == Bol(false)
  {
    if v == Bol(false) {
      assert IntoString(v).value[0] == 'e';
    }
  }

  /** An integer written as text converts back to the same number. */
  lemma NumberTextRoundTrip(v: Value, k: IntKind)
    requires v.I32? || v.I64?
    requires InKind(if v.I32? then v.i32 else v.i64, k)
    ensures IntoNumber(Txt(IntoStringCorrected(v).value), k) == IntoNumber(v, k)
  {
    var x := if v.I32? then v.i32 else v.i64;
    TxtToIntRoundTrip(x, []);
    assert IntToDecimal(x) + [] == IntToDecimal(x);
  }

  /** A 64-bit integer beyond the 32-bit range is wrapped by the cast but
      rejected by the parse of its text. */
  lemma NarrowingCastWrapsButParseRejects()
    ensures IntoNumber(I64(MaxI32 + 1), I32Kind) == Ok(MinI32)
    ensures IntoNumber(Txt(IntoStringCorrected(I64(MaxI32 + 1)).value), I32Kind) == Err("result out of range")
  {
    TxtToIntRoundTrip(MaxI32 + 1, []);
    assert IntToDecimal(MaxI32 + 1) + [] == IntToDecimal(MaxI32 + 1);
  }

  /** Wherever a value converts to a 64-bit number, its boolean is "not zero". */
  lemma BooleanIsNonZero(v: Value)
    requires !IsFloat(v) && IntoNumber(v, I64Kind).Ok?
    ensures IntoBoolean(v) == Ok(IntoNumber(v, I64Kind).value != 0)
  {
  }

  /** Converting to text and then to a boolean agrees with converting to a
      boolean directly. */
  lemma StringThenBoolean(v: Value)
    requires !IsFloat(v) && !v.Nil?
    ensures IntoBoolean(Txt(IntoStringCorrected(v).value)) == IntoBoolean(v)
  {
    match v
    case Bol(b) =>
      if b {
        assert StartsWith("true", "true");
      } else {
        assert StartsWith("false", "false");
      }
    case I32(x) =>
      TxtToBolOfNumber(x, []);
      assert IntToDecimal(x) + [] == IntToDecimal(x);
    case I64(x) =>
      TxtToBolOfNumber(x, []);
      assert IntToDecimal(x) + [] == IntToDecimal(x);
    case Txt(s) =>
      assert TxtToTxt(s) == s;
  }

  /** As written, false does not survive text: "else" is no boolean. */
  lemma FalseTextIsNoBoolean()
    ensures IntoString(Bol(false)) == Ok("else")
    ensures IntoBoolean(Txt(IntoString(Bol(false)).value)) == Err("invalid argument")
    ensures IntoBoolean(Txt(IntoStringCorrected(Bol(false)).value)) == Ok(false)
  {
    StringThenBoolean(Bol(false));
    var s := "else";
    assert !StartsWithNumber(s);
    assert s[..4] != "true" && s[..4] != "True";
    assert |s| < |"false"|;
    TxtToBolRejects(s);
  }

  // ---- The vector forms -----------------------------------------------------------

  /** A list placed in front of a successful result. */
  function Prefixed<T>(p: seq<T>, r: Result<seq<T>, string>): Result<seq<T>, string> {
    match r
    case Ok(xs) => Ok(p + xs)
    case Err(e) => Err(e)
  }

  lemma PrefixedTwice<T>(p: seq<T>, q: seq<T>, r: Result<seq<T>, string>)
    ensures Prefixed(p, Prefixed(q, r)) == Prefixed(p + q, r)
    ensures Prefixed([], r) == r
  {
    if r.Ok? {
      assert p + (q + r.value) == (p + q) + r.value;
      assert [] + r.value == r.value;
    }
  }

  /** The element conversions of a vector loop taken in order: the list of
      results when all succeed, otherwise the first error, which aborts. */
  function Collect<T>(rs: seq<Result<T, string>>): Result<seq<T>, string>
    decreases |rs|
  {
    if rs == [] then Ok([])
    else
      match rs[0]
      case Err(e) => Err(e)
      case Ok(x) => Prefixed([x], Collect(rs[1..]))
  }

  /** A successful collection holds every result, in order. */
  lemma {:induction false} CollectOk<T>(rs: seq<Result<T, string>>)
    requires Collect(rs).Ok?
    ensures |Collect(rs).value| == |rs|
    ensures forall j :: 0 <= j < |rs| ==> rs[j] == Ok(Collect(rs).value[j])
    decreases |rs|
  {
    if rs != [] {
      CollectOk(rs[1..]);
      assert Collect(rs).value == [rs[0].value] + Collect(rs[1..]).value;
      forall j | 0 <= j < |rs|
        ensures rs[j] == Ok(Collect(rs).value[j])
      {
        if j > 0 {
          assert rs[j] == rs[1..][j - 1];
        }
      }
    }
  }

  /** A failed collection carries the error of the first failing element. */
  lemma {:induction false} CollectErr<T>(rs: seq<Result<T, string>>)
    requires Collect(rs).Err?
    ensures exists j :: 0 <= j < |rs| && rs[j] == Err(Collect(rs).error)
                        && forall m :: 0 <= m < j ==> rs[m].Ok?
    decreases |rs|
  {
    if rs[0].Ok? {
      CollectErr(rs[1..]);
      var j :| 0 <= j < |rs[1..]| && rs[1..][j] == Err(Collect(rs[1..]).error)
                && forall m :: 0 <= m < j ==> rs[1..][m].Ok?;
      assert rs[j + 1] == Err(Collect(rs).error);
      forall m | 0 <= m < j + 1
        ensures rs[m].Ok?
      {
        if m > 0 {
          assert rs[m] == rs[1..][m - 1];
        }
      }
    } else {
      assert rs[0] == Err(Collect(rs).error);
    }
  }

  /** A collection succeeds exactly when every element does. */
  lemma CollectOkIff<T>(rs: seq<Result<T, string>>)
    ensures Collect(rs).Ok? <==> forall j :: 0 <= j < |rs| ==> rs[j].Ok?
  {
    if Collect(rs).Ok? {
      CollectOk(rs);
    } else {
      CollectErr(rs);
    }
  }

  /** When every element succeeds, the collection is the list of values. */
  lemma {:induction false} CollectAllOk<T>(rs: seq<Result<T, string>>, ys: seq<T>)
    requires |ys| == |rs|
    requires forall j :: 0 <= j < |rs| ==> rs[j] == Ok(ys[j])
    ensures Collect(rs) == Ok(ys)
    decreases |rs|
  {
    if rs != [] {
      CollectAllOk(rs[1..], ys[1..]);
      assert ys == [ys[0]] + ys[1..];
    }
  }

  /** One turn of the loop: element `i` either aborts with its error, or is
      appended to the values before it. */
  lemma CollectStep<T>(rs: seq<Result<T, string>>, i: nat, done: seq<T>)
    requires i < |rs|
    ensures rs[i].Err? ==> Collect(rs[i..]) == Err(rs[i].error)
    ensures rs[i].Ok? ==> Prefixed(done, Collect(rs[i..])) == Prefixed(done + [rs[i].value], Collect(rs[i + 1..]))
  {
    assert rs[i..][0] == rs[i];
    assert rs[i..][1..] == rs[i + 1..];
    if rs[i].Ok? {
      PrefixedTwice(done, [rs[i].value], Collect(rs[i + 1..]));
    }
  }

  /** What `__into_number<T>` makes of each element of a vector. */
  function NumberResults(vec: Vector, k: IntKind): (rs: seq<Result<int, string>>)
    requires !IsFloatVector(vec)
    ensures |rs| == VectorLen(vec)
  {
    seq(VectorLen(vec), j requires 0 <= j < VectorLen(vec) => IntoNumber(ElementAt(vec, j), k))
  }

  /** `__into_number<T>` of a vector: nil aborts. */
  function NumbersOf(vec: Vector, k: IntKind): Result<seq<int>, string>
    requires !IsFloatVector(vec)
  {
    if vec.VNil? then Err("invalid argument") else Collect(NumberResults(vec, k))
  }

  /** A vector converts to numbers exactly when it is not nil and every element
      converts; element j of the result is then the number of element j. */
  lemma NumbersOfOk(vec: Vector, k: IntKind)
    requires !IsFloatVector(vec)
    ensures NumbersOf(vec, k).Ok? <==> !vec.VNil? && forall j :: 0 <= j < VectorLen(vec) ==> IntoNumber(ElementAt(vec, j), k).Ok?
    ensures NumbersOf(vec, k).Ok? ==> |NumbersOf(vec, k).value| == VectorLen(vec)
    ensures NumbersOf(vec, k).Ok? ==> forall j :: 0 <= j < VectorLen(vec) ==> IntoNumber(ElementAt(vec, j), k) == Ok(NumbersOf(vec, k).value[j])
  {
    if !vec.VNil? {
      var rs := NumberResults(vec, k);
      assert forall j :: 0 <= j < |rs| ==> rs[j] == IntoNumber(ElementAt(vec, j), k);
      CollectOkIff(rs);
      if Collect(rs).Ok? {
        CollectOk(rs);
      }
    }
  }

  /** Otherwise the error is that of the first element that fails. */
  lemma NumbersOfErr(vec: Vector, k: IntKind)
    requires !IsFloatVector(vec) && !vec.VNil? && NumbersOf(vec, k).Err?
    ensures exists j :: 0 <= j < VectorLen(vec) && IntoNumber(ElementAt(vec, j), k) == Err(NumbersOf(vec, k).error)
                        && forall m :: 0 <= m < j ==> IntoNumber(ElementAt(vec, m), k).Ok?
  {
    var rs := NumberResults(vec, k);
    CollectErr(rs);
    var j :| 0 <= j < |rs| && rs[j] == Err(Collect(rs).error) && forall m :: 0 <= m < j ==> rs[m].Ok?;
    assert forall m :: 0 <= m < j ==> rs[m] == IntoNumber(ElementAt(vec, m), k);
  }

  method IntoNumberVector(vec: Vector, k: IntKind) returns (r: Result<seq<int>, string>)
    requires !IsFloatVector(vec)
    ensures r == NumbersOf(vec, k)
  {
    if vec.VNil? {
      return Err("invalid argument");
    }
    var n := VectorLen(vec);
    var rs := new int[n];
    ghost var results := NumberResults(vec, k);
    var i := 0;
    PrefixedTwice([], [], Collect(results));
    assert results[0..] == results;
    while i < n
      invariant 0 <= i <= n
      invariant Collect(results) == Prefixed(rs[..i], Collect(results[i..]))
    {
      var x := IntoNumber(ElementAt(vec, i), k);
      CollectStep(results, i, rs[..i]);
      assert results[i] == x;
      if x.Err? {
        return Err(x.error);
      }
      rs[i] := x.value;
      assert rs[..i + 1] == rs[..i] + [x.value];
      i := i + 1;
    }
    assert results[i..] == [];
    assert rs[..i] + [] == rs[..];
    r := Ok(rs[..]);
  }

  /** What `__into_boolean` makes of each element of a vector. */
  function BooleanResults(vec: Vector): (rs: seq<Result<bool, string>>)
    requires !IsFloatVector(vec)
    ensures |rs| == VectorLen(vec)
  {
    seq(VectorLen(vec), j requires 0 <= j < VectorLen(vec) => IntoBoolean(ElementAt(vec, j)))
  }

  /** `__into_boolean` of a vector: nil aborts. */
  function BooleansOf(vec: Vector): Result<seq<bool>, string>
    requires !IsFloatVector(vec)
  {
    if vec.VNil? then Err("invalid argument") else Collect(BooleanResults(vec))
  }

  /** A vector converts to booleans exactly when it is not nil and every
      element converts; element j of the result is then the boolean of element j. */
  lemma BooleansOfOk(vec: Vector)
    requires !IsFloatVector(vec)
    ensures BooleansOf(vec).Ok? <==> !vec.VNil? && forall j :: 0 <= j < VectorLen(vec) ==> IntoBoolean(ElementAt(vec, j)).Ok?
    ensures BooleansOf(vec).Ok? ==> |BooleansOf(vec).value| == VectorLen(vec)
    ensures BooleansOf(vec).Ok? ==> forall j :: 0 <= j < VectorLen(vec) ==> IntoBoolean(ElementAt(vec, j)) == Ok(BooleansOf(vec).value[j])
  {
    if !vec.VNil? {
      var rs := BooleanResults(vec);
      assert forall j :: 0 <= j < |rs| ==> rs[j] == IntoBoolean(ElementAt(vec, j));
      CollectOkIff(rs);
      if Collect(rs).Ok? {
        CollectOk(rs);
      }
    }
  }

  /** Otherwise the error is that of the first element that fails. */
  lemma BooleansOfErr(vec: Vector)
    requires !IsFloatVector(vec) && !vec.VNil? && BooleansOf(vec).Err?
    ensures exists j :: 0 <= j < VectorLen(vec) && IntoBoolean(ElementAt(vec, j)) == Err(BooleansOf(vec).error)
                        && forall m :: 0 <= m < j ==> IntoBoolean(ElementAt(vec, m)).Ok?
  {
    var rs := BooleanResults(vec);
    CollectErr(rs);
    var j :| 0 <= j < |rs| && rs[j] == Err(Collect(rs).error) && forall m :: 0 <= m < j ==> rs[m].Ok?;
    assert forall m :: 0 <= m < j ==> rs[m] == IntoBoolean(ElementAt(vec, m));
  }

  method IntoBooleanVector(vec: Vector) returns (r: Result<seq<bool>, string>)
    requires !IsFloatVector(vec)
    ensures r == BooleansOf(vec)
  {
    if vec.VNil? {
      return Err("invalid argument");
    }
    var n := VectorLen(vec);
    var rs := new bool[n];
    ghost var results := BooleanResults(vec);
    var i := 0;
    PrefixedTwice([], [], Collect(results));
    assert results[0..] == results;
    while i < n
      invariant 0 <= i <= n
      invariant Collect(results) == Prefixed(rs[..i], Collect(results[i..]))
    {
      var x := IntoBoolean(ElementAt(vec, i));
      CollectStep(results, i, rs[..i]);
      assert results[i] == x;
      if x.Err? {
        return Err(x.error);
      }
      rs[i] := x.value;
      assert rs[..i + 1] == rs[..i] + [x.value];
      i := i + 1;
    }
    assert results[i..] == [];
    assert rs[..i] + [] == rs[..];
    r := Ok(rs[..]);
  }

  /** `__into_string` of a vector as written: element j is the text
      `__into_string` gives element j, so false is "else"; nil aborts. */
  function StringsOf(vec: Vector): (r: Result<seq<string>, string>)
    requires !IsFloatVector(vec)
    ensures r.Err? <==> vec.VNil?
    ensures r.Err? ==> r.error == "invalid argument"
    ensures r.Ok? ==> |r.value| == VectorLen(vec)
    ensures r.Ok? ==> forall j :: 0 <= j < VectorLen(vec) ==> r.value[j] == IntoString(ElementAt(vec, j)).value
  {
    if vec.VNil? then Err("invalid argument")
    else Ok(seq(VectorLen(vec), j requires 0 <= j < VectorLen(vec) => IntoString(ElementAt(vec, j)).value))
  }

  /** `__into_string` of a vector with false written as "false". */
  function StringsOfCorrected(vec: Vector): (r: Result<seq<string>, string>)
    requires !IsFloatVector(vec)
    ensures r.Err? <==> vec.VNil?
    ensures r.Err? ==> r.error == "invalid argument"
    ensures r.Ok? ==> |r.value| == VectorLen(vec)
    ensures r.Ok? ==> forall j :: 0 <= j < VectorLen(vec) ==> r.value[j] == IntoStringCorrected(ElementAt(vec, j)).value
  {
    if vec.VNil? then Err("invalid argument")
    else Ok(seq(VectorLen(vec), j requires 0 <= j < VectorLen(vec) => IntoStringCorrected(ElementAt(vec, j)).value))
  }

  /** The loop of `__into_string` over a vector, as written. */
  method IntoStringVector(vec: Vector) returns (r: Result<seq<string>, string>)
    requires !IsFloatVector(vec)
    ensures r == StringsOf(vec)
  {
    if vec.VNil? {
      return Err("invalid argument");
    }
    var rs: seq<string> := [];
    var i := 0;
    while i < VectorLen(vec)
      invariant 0 <= i <= VectorLen(vec)
      invariant |rs| == i
      invariant forall j :: 0 <= j < i ==> rs[j] == IntoString(ElementAt(vec, j)).value
    {
      rs := rs + [IntoString(ElementAt(vec, i)).value];
      i := i + 1;
    }
    assert rs == StringsOf(vec).value;
    r := Ok(rs);
  }

  /** The two vector conversions differ exactly on vectors holding a false. */
  lemma StringsOfDiffersOnFalseOnly(vec: Vector)
    requires !IsFloatVector(vec)
    ensures StringsOf(vec) != StringsOfCorrected(vec)
            <==> exists j :: 0 <= j < VectorLen(vec) && ElementAt(vec, j) == Bol(false)
  {
    if exists j :: 0 <= j < VectorLen(vec) && ElementAt(vec, j) == Bol(false) {
      var j :| 0 <= j < VectorLen(vec) && ElementAt(vec, j) == Bol(false);
      IntoStringDiffersOnFalseOnly(ElementAt(vec, j));
      assert StringsOf(vec).value[j] != StringsOfCorrected(vec).value[j];
    } else if !vec.VNil? {
      forall j | 0 <= j < VectorLen(vec)
        ensures StringsOf(vec).value[j] == StringsOfCorrected(vec).value[j]
      {
        IntoStringDiffersOnFalseOnly(ElementAt(vec, j));
      }
      assert StringsOf(vec).value == StringsOfCorrected(vec).value;
    }
  }

  /** An integer vector written as text reads back as the same integers. */
  lemma NumberVectorTextRoundTrip(xs: seq<Int32>)
    ensures NumbersOf(VTxt(StringsOf(VI32(xs)).value), I32Kind) == Ok(xs)
  {
    var ts := StringsOf(VI32(xs)).value;
    var rs := NumberResults(VTxt(ts), I32Kind);
    forall j | 0 <= j < |xs|
      ensures rs[j] == Ok(xs[j])
    {
      NumberTextRoundTrip(I32(xs[j]), I32Kind);
    }
    CollectAllOk(rs, xs);
  }

  /** Converting a vector to text with false written as "false" and then to
      booleans agrees with converting it to booleans directly. */
  lemma StringsThenBooleans(vec: Vector)
    requires !IsFloatVector(vec) && !vec.VNil?
    ensures BooleansOf(VTxt(StringsOfCorrected(vec).value)) == BooleansOf(vec)
  {
    var ts := VTxt(StringsOfCorrected(vec).value);
    forall j | 0 <= j < VectorLen(vec)
      ensures BooleanResults(ts)[j] == BooleanResults(vec)[j]
    {
      StringThenBoolean(ElementAt(vec, j));
    }
    assert BooleanResults(ts) == BooleanResults(vec);
  }

  /** As written, a boolean vector holding false does not survive text: the
      "else" it becomes aborts the conversion back. */
  lemma FalseVectorTextIsNoBoolean()
    ensures StringsOf(VBol([false])) == Ok(["else"])
    ensures BooleansOf(VTxt(StringsOf(VBol([false])).value)) == Err("invalid argument")
    ensures BooleansOf(VBol([false])) == Ok([false])
  {
    FalseTextIsNoBoolean();
    assert ElementAt(VBol([false]), 0) == Bol(false);
    assert StringsOf(VBol([false])).value == ["else"];
    var rs := BooleanResults(VTxt(["else"]));
    assert rs[0] == IntoBoolean(Txt("else"));
    assert rs == [Err("invalid argument")];
    assert Collect(rs) == Err("invalid argument");
    var bs := BooleanResults(VBol([false]));
    CollectAllOk(bs, [false]);
  }
}
