/** The monotonic-clock arithmetic of daemon/cmd/symmetry-linux-clone-bootstrap/guard_linux_amd64.go,
    with uint64 wrap-around written out. */
module LeaseGuard {
  import opened Options

  const TWO64: nat := 0x1_0000_0000_0000_0000
  const MAX_INT64: nat := 0x7FFF_FFFF_FFFF_FFFF
  const NANOSECONDS_PER_SECOND: nat := 1_000_000_000
  const MILLISECOND: nat := 1_000_000
  const BOOTSTRAP_LIMIT: nat := 120 * NANOSECONDS_PER_SECOND

  type Uint64 = n: int | 0 <= n < 0x1_0000_0000_0000_0000

  type Int64 = n: int | -0x8000_0000_0000_0000 <= n <= 0x7FFF_FFFF_FFFF_FFFF

  function Sub64(a: Uint64, b: Uint64): Uint64 { (a - b) % TWO64 }

  function Add64(a: Uint64, b: Uint64): Uint64 { (a + b) % TWO64 }

  function Mul64(a: Uint64, b: Uint64): Uint64 { (a * b) % TWO64 }

  /** `monotonicNowNS` on a timespec: every guard is on wrapping arithmetic. */
  function MonotonicNow(sec: Int64, nsec: Int64): (r: Option<Uint64>) {
    if sec < 0 || nsec < 0 || nsec >= NANOSECONDS_PER_SECOND then None
    else if sec > (TWO64 - 1) / NANOSECONDS_PER_SECOND then None
    else
      var base := Mul64(sec, NANOSECONDS_PER_SECOND);
      if nsec > Sub64(TWO64 - 1, base) then None else Some(Add64(base, nsec))
  }

  /** The reading is exact, and refused only when it is not a timespec or does not fit. */
  lemma MonotonicNowExact(sec: Int64, nsec: Int64)
    ensures MonotonicNow(sec, nsec) ==
            if 0 <= sec && 0 <= nsec < NANOSECONDS_PER_SECOND && sec * NANOSECONDS_PER_SECOND + nsec < TWO64
            then Some(sec * NANOSECONDS_PER_SECOND + nsec) else None
  {
  }

  function AddDuration(base: Uint64, duration: Int64): (r: Option<Uint64>) {
    if duration <= 0 then None
    else if duration > Sub64(TWO64 - 1, base) then None
    else Some(Add64(base, duration))
  }

  lemma AddDurationExact(base: Uint64, duration: Int64)
    ensures AddDuration(base, duration) ==
            if 0 < duration && base + duration < TWO64 then Some(base + duration) else None
  {
  }

  datatype Error = ClockFailed | LeaseExpired | Overflow | OwnerStopped | Cancelled

  datatype Result<+T> = Ok(value: T) | Err(error: Error)

  /** The deadline `newOwnerLeaseGuard` fixes: the lease's, or two minutes from now if that is sooner.
      `ownerLive` is what the descriptor check finds. */
  function NewGuard(now: Uint64, leaseDeadline: Uint64, ownerLive: bool): (r: Result<Uint64>)
    ensures r.Ok? <==> now < leaseDeadline && now + 120_000_000_000 < 0x1_0000_0000_0000_0000 && ownerLive
    ensures r.Ok? ==> now < r.value <= now + 120_000_000_000 && r.value <= leaseDeadline
    ensures r.Ok? ==> r.value == leaseDeadline || r.value == now + 120_000_000_000
  {
    if leaseDeadline <= now then Err(LeaseExpired) else
      var limit := AddDuration(now, BOOTSTRAP_LIMIT);
      AddDurationExact(now, BOOTSTRAP_LIMIT);
      if limit.None? then Err(Overflow)
      else if !ownerLive then Err(OwnerStopped)
      else Ok(if leaseDeadline < limit.value then leaseDeadline else limit.value)
  }

  /** The guard object: when it was made, its deadline, and the cause it was cancelled for. */
  class OwnerLeaseGuard {
    ghost const created: Uint64
    const deadline: Uint64
    var cause: Option<Error>

    ghost predicate Valid()
      reads this
    {
      created < deadline <= created + BOOTSTRAP_LIMIT
    }

    constructor (now: Uint64, deadline: Uint64)
      requires now < deadline <= now + BOOTSTRAP_LIMIT
      ensures Valid() && created == now && this.deadline == deadline && cause == None
    {
      this.created, this.deadline, this.cause := now, deadline, None;
    }

    /** `context.WithCancelCause` keeps the first cause. */
    method Cancel(error: Error)
      modifies this
      ensures cause == if old(cause).Some? then old(cause) else Some(error)
    {
      if cause.None? { cause := Some(error); }
    }

    /** `now` is the clock reading, if there was one. */
    method Check(now: Option<Uint64>, ownerLive: bool) returns (error: Option<Error>)
      modifies this
      ensures error.None? <==> old(cause).None? && now.Some? && now.value < deadline && ownerLive
      ensures error == cause
      ensures old(cause).Some? ==> cause == old(cause)
      ensures old(cause).None? && error.Some? ==>
                cause == Some(if now.None? then ClockFailed else
                    if now.value >= deadline then LeaseExpired else OwnerStopped)
    {
      if cause.Some? { return cause; }
      if now.None? {
        Cancel(ClockFailed);
        return Some(ClockFailed);
      }
      if now.value >= deadline {
        Cancel(LeaseExpired);
        return Some(LeaseExpired);
      }
      if !ownerLive {
        Cancel(OwnerStopped);
        return Some(OwnerStopped);
      }
      return None;
    }

    /** The check reads the clock at `t1` and the subtraction reads it again at `t2`. A duration is
        returned exactly when the check passes and the deadline is not behind `t2`, and it is then the
        true difference, at most two minutes: a subtraction that wraps is always refused. */
    method Remaining(t1: Option<Uint64>, t2: Option<Uint64>, ownerLive: bool) returns (r: Result<Int64>)
      requires Valid()
      requires t1.Some? ==> created <= t1.value
      requires t1.Some? && t2.Some? ==> t1.value <= t2.value < t1.value + 0x8000_0000_0000_0000
      modifies this
      ensures r.Ok? <==>
              && old(cause).None? && t1.Some? && t1.value < deadline && ownerLive
              && t2.Some? && t2.value <= deadline
      ensures r.Ok? ==> r.value == deadline - t2.value && 0 <= r.value <= 120_000_000_000 && cause == None
      ensures r.Err? ==>
                || cause == Some(r.error)
                || (r.error == Overflow && cause.None? && t2.Some? && t2.value > deadline)
      ensures old(cause).Some? ==> cause == old(cause)
    {
      var error := Check(t1, ownerLive);
      if error.Some? { return Err(error.value); }
      if t2.None? {
        Cancel(ClockFailed);
        return Err(ClockFailed);
      }
      WrapCaught(deadline, t1.value, t2.value);
      var delta := Sub64(deadline, t2.value);
      if delta > MAX_INT64 { return Err(Overflow); }
      return Ok(delta);
    }

    method RemainingWithoutCheck(now: Option<Uint64>) returns (r: Result<Int64>)
      requires Valid() && (now.Some? ==> created <= now.value)
      ensures r.Ok? <==> cause.None? && now.Some? && now.value < deadline
      ensures r.Ok? ==> r.value == deadline - now.value && 0 < r.value <= 120_000_000_000
      ensures r.Err? ==> r.error == if cause.Some? then cause.value else if now.None? then ClockFailed else LeaseExpired
    {
      if cause.Some? { return Err(cause.value); }
      if now.None? { return Err(ClockFailed); }
      if now.value >= deadline { return Err(LeaseExpired); }
      var delta := Sub64(deadline, now.value);
      if delta > MAX_INT64 { return Err(Overflow); }
      return Ok(delta);
    }
  }

  /** Between readings less than 2^63 ns apart, the MaxInt64 test catches exactly the differences that
      wrapped. */
  lemma WrapCaught(deadline: Uint64, t1: Uint64, t2: Uint64)
    requires t1 < deadline <= t1 + BOOTSTRAP_LIMIT && t1 <= t2 < t1 + 0x8000_0000_0000_0000
    ensures Sub64(deadline, t2) > MAX_INT64 <==> t2 > deadline
    ensures t2 <= deadline ==> Sub64(deadline, t2) == deadline - t2
  {
    if t2 > deadline {
      assert Sub64(deadline, t2) == TWO64 - (t2 - deadline);
    }
  }

  /** The poll timeout of `monitor`: up to 100 ms, rounded up to whole milliseconds. */
  function PollMillis(remaining: Int64): int
    requires remaining > 0
  {
    var pollFor := if remaining < 100 * MILLISECOND then remaining else 100 * MILLISECOND;
    (pollFor + MILLISECOND - 1) / MILLISECOND
  }

  /** The wait is never empty, never over 100 ms, and ends less than a millisecond past the deadline; one
      that does not reach the deadline lasts the full 100 ms. */
  lemma PollOvershoot(now: Uint64, deadline: Uint64)
    requires now < deadline <= now + BOOTSTRAP_LIMIT
    ensures var m := PollMillis(deadline - now);
            && 1 <= m <= 100 && now + m * 1_000_000 < deadline + 1_000_000
            && (now + m * 1_000_000 < deadline ==> m == 100)
  {
  }
}
