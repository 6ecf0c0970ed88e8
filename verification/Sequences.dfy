// Sequences shared by the other modules.
module Sequences {
  function Repeat<T>(x: T, n: nat): seq<T> { seq(n, _ => x) }

  /** The parts one after the other. */
  function Concat<T>(parts: seq<seq<T>>): seq<T> {
    if parts == [] then [] else Concat(parts[..|parts| - 1]) + parts[|parts| - 1]
  }
}
