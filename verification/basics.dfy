/** Small shared vocabulary of the simulation model. */
module Basics {

  /** Python's `None`-or-value. */
  datatype Option<T> = None | Some(value: T)

  /** A sampled duration: exponential (and uniform) variates are never negative. */
  type Duration = r: real | 0.0 <= r

  /** Python's `int(a / b)` for a positive divisor: the quotient truncated toward zero. */
  function TruncDiv(a: int, b: int): (q: int)
    requires b > 0
    ensures a >= 0 ==> q * b <= a < q * b + b
    ensures a < 0 ==> q * b - b < a <= q * b
  {
    if a >= 0 then a / b else -((-a) / b)
  }

  /** The client type every driver creates. */
  const TYPE1: int := 1

  /** The random draws one event of a driver may consume: the next
      inter-arrival time, a service time, the station `resolve_MMm` picks and
      the server a random policy picks. */
  datatype Draw = Draw(interArrival: Duration, service: Duration, stationPick: nat, serverPick: nat)

  /** `resolve_MMm`: `random.choice` over the station keys `0 .. n - 1`. */
  function ResolveStation(n: nat, pick: nat): (q: nat)
    requires n > 0
    ensures q < n
  {
    pick % n
  }
}
