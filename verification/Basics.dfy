/** Types every component shares. */
module Basics {

  /** The conventional Some/None datatype. */
  datatype Option<+T> = None | Some(value: T)

  /** A value, or the reason there is none. */
  datatype Result<+T, +E> = Ok(value: T) | Err(error: E)

  /** Raw octets on a wire or in device memory. */
  type Octets = seq<bv8>

  /** Telegram priority (knx-rs-core/src/types.rs). */
  datatype Priority = System | Normal | Urgent | Low

  /** Raw 16-bit individual address; only equality matters here. */
  type Address = nat

  predicate StartsWith(s: string, start: string) {
    start <= s
  }

  lemma EmptyIsUnit<T>(s: seq<T>)
    ensures s + [] == s && [] + s == s
  {
  }

  lemma Associative<T>(x: seq<T>, y: seq<T>, z: seq<T>)
    ensures (x + y) + z == x + (y + z)
  {
  }

  lemma LastApart<T>(a: seq<T>, b: seq<T>)
    requires b != []
    ensures a + b == (a + b[..|b| - 1]) + [b[|b| - 1]]
    ensures b == b[..|b| - 1] + [b[|b| - 1]]
  {
  }
}
