/** Small shared datatypes. */
module Common {

  /** An optional value: a TypeScript `T | undefined` or `T | null`. */
  datatype Option<+T> = None | Some(value: T)

  function Min(a: int, b: int): (m: int)
  {
    if a <= b then a else b
  }

  /** Two appends in a row are one append of both. */
  lemma AppendTwice<T>(s: seq<T>, a: T, b: T)
    ensures (s + [a]) + [b] == s + [a, b]
  {
  }
}
