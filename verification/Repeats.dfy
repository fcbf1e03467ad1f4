// The same element over and over.
module Repeats {
  function Repeat<T>(x: T, n: nat): seq<T> { seq(n, _ => x) }
}
