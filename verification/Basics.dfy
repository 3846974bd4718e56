/** Small functions several parts share. */
module Basics {
  function Min(a: int, b: int): int {
    if a < b then a else b
  }

  function Max(a: int, b: int): int {
    if a < b then b else a
  }

  function Least(a: nat, b: nat): nat {
    if a < b then a else b
  }

  /** The item alone if the condition holds, nothing otherwise. */
  function When<T>(condition: bool, item: T): seq<T> {
    if condition then [item] else []
  }
}
