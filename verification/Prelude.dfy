/** Shared vocabulary: optional values and a few facts about sequences. */
module Prelude {
  datatype Option<+T> = None | Some(value: T)

  /** The elements of a sequence, without order or multiplicity. */
  ghost function SetOf<T>(s: seq<T>): set<T> {
    set x | x in s
  }

  /** Two sequences with the same elements the same number of times. */
  ghost predicate Permutation<T>(a: seq<T>, b: seq<T>) {
    multiset(a) == multiset(b)
  }
}
