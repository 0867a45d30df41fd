/** What several components share. */
module Common {

  const NULL: nat := 0
  const WORD: nat := 8                       // sizeof(uintptr_t)
  const POW63: nat := 0x8000_0000_0000_0000  // what a tag with a 63-bit size cannot hold
  const POW64: nat := 0x1_0000_0000_0000_0000

  datatype Option<T> = None | Some(value: T)

  function Tail<T>(xs: seq<T>): seq<T> {
    if xs == [] then [] else xs[1..]
  }

  /** The address at position i of a chain, or NULL behind its end. */
  function At(xs: seq<nat>, i: nat): nat {
    if i < |xs| then xs[i] else NULL
  }
}
