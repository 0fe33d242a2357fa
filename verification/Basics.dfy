/** Small shared vocabulary: optional values, bytes, flattening of slices and tunnel protocols. */
module Basics {

  datatype Option<+T> = None | Some(value: T)

  type Byte = b: int | 0 <= b < 256

  type Positive = n: nat | 0 < n witness 1

  /** What a tunnel carries. */
  datatype Protocol = Http | Https | Tcp | Udp | P2p

  const CR: Byte := 13
  const LF: Byte := 10

  /** Upper bound on a message head, and on one trailer line. */
  const MAX_HEAD := 64 * 1024

  /** The bytes that a sequence of slices carries. */
  function Flatten<T>(slices: seq<seq<T>>): seq<T> {
    if slices == [] then [] else slices[0] + Flatten(slices[1..])
  }

  function Min(a: int, b: int): int {
    if a < b then a else b
  }

  function Max(a: int, b: int): int {
    if a < b then b else a
  }

  /** The last `n` elements, or all of them when there are fewer. */
  function LastOf<T>(s: seq<T>, n: nat): seq<T> {
    if |s| <= n then s else s[|s| - n..]
  }

  lemma Regroup<T>(a: seq<T>, b: seq<T>, c: seq<T>)
    ensures a + b + c == a + (b + c)
  {
  }
}
