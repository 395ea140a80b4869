/**
  Portable instants: UTC, whole microseconds, between the years 1970 and 9999.
 */
module Clock {

  /** Nanoseconds since 1970-01-01T00:00:00Z, and whether the value is held in UTC. */
  datatype Time = Time(nanos: int, utc: bool)

  /** The first instant of the year 10000. */
  const END_OF_TIME: int := 253_402_300_800_000_000_000

  function Normalize(t: Time): (r: Time)
    ensures Canonical(r)
    ensures Canonical(t) ==> r == t
    ensures r.nanos <= t.nanos < r.nanos + 1000
  {
    Time(t.nanos - t.nanos % 1000, true)
  }

  predicate Canonical(t: Time) {
    t.utc && t.nanos % 1000 == 0
  }

  function Max(left: Time, right: Time): (r: Time)
    ensures Canonical(r)
    ensures r == Normalize(left) || r == Normalize(right)
    ensures r.nanos >= Normalize(left).nanos && r.nanos >= Normalize(right).nanos
  {
    if Normalize(left).nanos < Normalize(right).nanos then Normalize(right) else Normalize(left)
  }

  /** The same instant, in whatever location. */
  predicate Same(a: Time, b: Time) {
    a.nanos == b.nanos
  }

  predicate Earlier(a: Time, b: Time) {
    a.nanos < b.nanos
  }

  /** An instant a portable record may carry. */
  predicate Portable(t: Time) {
    0 <= t.nanos < END_OF_TIME && Canonical(t)
  }

  lemma MaxPortable(left: Time, right: Time)
    requires Portable(left) && Portable(right)
    ensures Portable(Max(left, right)) && !Earlier(Max(left, right), left) && !Earlier(Max(left, right), right)
  {
  }

  /** A clock that reads between 1970 and 9999 gives portable instants once normalized. */
  lemma NormalizePortable(t: Time)
    requires 0 <= t.nanos < END_OF_TIME
    ensures Portable(Normalize(t))
  {
  }
}
