/** Shared vocabulary: bytes, machine words, and the usual option and result types. */
module Prelude {

  const U16_MODULUS: nat := 0x1_0000
  const U64_MODULUS: nat := 0x1_0000_0000_0000_0000

  type byte = b: int | 0 <= b < 256
  type u16 = n: int | 0 <= n < U16_MODULUS
  type u64 = n: int | 0 <= n < U64_MODULUS

  datatype Option<+T> = None | Some(value: T)

  datatype Result<+T, +E> = Success(value: T) | Failure(error: E)

  function Last<T>(s: seq<T>): T
    requires s != []
  {
    s[|s| - 1]
  }

  predicate OccursAt(text: string, part: string, at: nat) {
    at + |part| <= |text| && text[at..at + |part|] == part
  }

  /** Substring test, as `str::contains`. */
  predicate Contains(text: string, part: string) {
    exists at: nat :: at <= |text| && OccursAt(text, part, at)
  }

  function Min(a: int, b: int): int {
    if a <= b then a else b
  }
}
