/** Small value types shared by every module: Option, Result and the fixed-width
    integer ranges of the host (Rust) and the guest (C++). */
module Base {

  datatype Option<+T> = None | Some(value: T)

  datatype Result<+T, +E> = Ok(value: T) | Err(error: E)

  const MinI32: int := -0x8000_0000
  const MaxI32: int := 0x7fff_ffff
  const MinI64: int := -0x8000_0000_0000_0000
  const MaxI64: int := 0x7fff_ffff_ffff_ffff
  const MaxU64: int := 0xffff_ffff_ffff_ffff

  type Int32 = x: int | MinI32 <= x <= MaxI32
  type Int64 = x: int | MinI64 <= x <= MaxI64
  type Byte = x: int | 0 <= x < 0x100

  /** IEEE-754 values are carried as their bit patterns: the model copies them
      and never does arithmetic on them. */
  type Bits32 = x: int | 0 <= x < 0x1_0000_0000
  type Bits64 = x: int | 0 <= x < 0x1_0000_0000_0000_0000

  function Min(a: int, b: int): int {
    if a <= b then a else b
  }

  /** A non-empty slice is its first element followed by the rest. */
  lemma SliceSplit<T>(s: seq<T>, i: nat, j: nat)
    requires i < j <= |s|
    ensures s[i..j] != [] && s[i..j][0] == s[i] && s[i..j][1..] == s[i + 1..j]
  {
  }
}
