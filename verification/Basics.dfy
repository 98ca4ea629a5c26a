/** Small functions several modules use. */
module Basics {

  function Min(a: int, b: int): int { if a <= b then a else b }
  function Max(a: int, b: int): int { if a <= b then b else a }

  function Elements<T(==)>(s: seq<T>): set<T> {
    set x | x in s
  }
}
