/** Small types and sequence facts shared by the other modules. */
module Common {
  datatype Option<+T> = None | Some(value: T)

  datatype Result<+T, +E> = Ok(value: T) | Err(error: E)

  type Byte = n: int | 0 <= n < 256

  /** Concatenation of a list of chunks, oldest first. */
  function Flatten<T>(chunks: seq<seq<T>>): (r: seq<T>)
  {
    if chunks == [] then [] else chunks[0] + Flatten(chunks[1..])
  }

  /** True when no two positions of `s` hold the same element. */
  ghost predicate Distinct<T>(s: seq<T>)
  {
    forall i, j :: 0 <= i < j < |s| ==> s[i] != s[j]
  }

  /** The elements of `s`, as a set. */
  function Elements<T(==)>(s: seq<T>): set<T>
  {
    set x | x in s
  }

  /** No two entries of a list have the same key. */
  ghost predicate DistinctKeys<T>(items: seq<T>, key: T -> string)
  {
    forall i, j :: 0 <= i < j < |items| ==> key(items[i]) != key(items[j])
  }
}
