/** The guest's take-once optional (wasm/include/option.hpp): `expect` and
    `unwrap` hand the value out and leave the option empty, so a second one
    aborts. An abort yields `Err` with the logged text. */
module GuestOption {
  import Base

  class Option<T> {
    var data: Base.Option<T>

    constructor Some(o: T)
      ensures data == Base.Some(o)
      ensures IsSome() && !IsNone()
    {
      data := Base.Some(o);
    }

    constructor None()
      ensures data == Base.None
      ensures IsNone() && !IsSome()
    {
      data := Base.None;
    }

    function IsSome(): bool
      reads this
    {
      data.Some?
    }

    /** Always the opposite of IsSome. */
    function IsNone(): (r: bool)
      reads this
      ensures r <==> !IsSome()
    {
      !data.Some?
    }

    /** The value, swapped out for nothing. */
    method Take() returns (tmp: Base.Option<T>)
      modifies this
      ensures tmp == old(data)
      ensures IsNone()
    {
      tmp := data;
      data := Base.None;
    }

    method Expect(msg: string) returns (r: Base.Result<T, string>)
      modifies this
      ensures old(IsNone()) ==> r == Base.Err(msg) && data == old(data)
      ensures old(IsSome()) ==> r == Base.Ok(old(data).value)
      ensures IsNone()
    {
      if IsNone() {
        return Base.Err(msg);
      }
      var tmp := Take();
      r := Base.Ok(tmp.value);
    }

    method Unwrap() returns (r: Base.Result<T, string>)
      modifies this
      ensures old(IsNone()) ==> r == Base.Err("unwrapping none")
      ensures old(IsSome()) ==> r == Base.Ok(old(data).value)
      ensures IsNone()
    {
      r := Expect("unwrapping none");
    }
  }

  /** A full option delivers its value once; the next `expect` aborts with its
      own message. (On an empty option the first `expect` already aborts.) */
  method ExpectTwice<T>(o: Option<T>, first: string, second: string)
    returns (r1: Base.Result<T, string>, r2: Base.Result<T, string>)
    requires o.IsSome()
    modifies o
    ensures r1 == Base.Ok(old(o.data).value)
    ensures r2 == Base.Err(second)
  {
    r1 := o.Expect(first);
    r2 := o.Expect(second);
  }
}
