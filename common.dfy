/** Shared value types: optional and fallible results, the Java byte and int. */
module Common {

  datatype Option<+T> = None | Some(value: T)

  datatype Result<+T, +E> = Ok(value: T) | Err(error: E)

  /** A Java `byte`, held as its unsigned bit pattern. */
  newtype byte = x: int | 0 <= x < 0x100

  /** A Java `int`. */
  newtype int32 = x: int | -0x8000_0000 <= x < 0x8000_0000

  /** `String.startsWith`. */
  predicate StartsWith(s: string, prefix: string) {
    |prefix| <= |s| && s[..|prefix|] == prefix
  }

  /** `String.contains`. */
  predicate Contains(s: string, part: string)
    decreases |s|
  {
    StartsWith(s, part) || (|s| > 0 && Contains(s[1..], part))
  }

  function Min(a: int, b: int): int {
    if a <= b then a else b
  }

  /** Multiplying by a non-negative factor keeps the order. */
  lemma MulMonotone(a: int, b: int, m: int)
    requires a <= b && m >= 0
    ensures a * m <= b * m
  {
  }

  /** Splits `x` below `m` whole `w`s into a quotient below `m` and a remainder below `w`. */
  lemma DivideBelow(x: int, w: int, m: int) returns (q: int, r: int)
    requires w > 0 && 0 <= x < m * w
    ensures x == q * w + r && 0 <= r < w && 0 <= q < m
  {
    q, r := x / w, x % w;
    if q >= m {
      MulMonotone(m, q, w);
    }
  }
}
