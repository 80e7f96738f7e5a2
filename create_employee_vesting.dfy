/** The validation `create_employee_vesting` applies to a new schedule. */
module CreateEmployeeVesting {
  import opened Primitives
  import opened Errors
  import opened Addresses
  import opened State
  import opened ClaimToken

  /** The error a schedule is refused with, if any. The time range is checked
      before the amount, so a schedule wrong in both ways reports the range. */
  function ScheduleError(startTime: I64, endTime: I64, totalAmount: I64): (r: Option<TokenVestingError>)
    ensures r.None? <==> startTime < endTime && 0 < totalAmount
    ensures endTime <= startTime ==> r == Some(InvalidVestingSchedule)
    ensures startTime < endTime && totalAmount <= 0 ==> r == Some(InvalidAmount)
  {
    if startTime >= endTime then Some(InvalidVestingSchedule)
    else if totalAmount <= 0 then Some(InvalidAmount)
    else None
  }

  /** Every record that passes validation starts inside the accounting
      invariant; for it the claim formula never takes its "everything vests
      at once" branch, nothing is claimable at the start time, and
      everything is vested at the end time. */
  lemma AcceptedScheduleVestsLinearly(ev: EmployeeVesting, now: I64)
    requires ScheduleError(ev.startTime, ev.endTime, ev.totalAmount).None?
    requires ev.totalWithdraw == 0
    requires IsI64(ev.endTime - ev.startTime)
    ensures Scheduled(ev) && WithinEntitlement(ev)
    ensures ClaimableAmount(ev, ev.startTime) == Err(Program(InsufficientVestedAmount))
    ensures VestedAt(ev, ev.endTime) == Ok(ev.totalAmount)
    ensures VestedAt(ev, now).Ok? ==> 0 <= VestedAt(ev, now).value <= ev.totalAmount
  {
    NoClaimUntilAfterStart(ev, ev.startTime);
    FullyVestedFromEnd(ev, ev.endTime);
    if VestedAt(ev, now).Ok? {
      VestedWithinTotal(ev, now);
    }
  }

  /** Validation compares the two times but not their distance: a schedule
      whose length does not fit in an i64 is accepted, and every claim on it
      from the start time on overflows computing that length, so nothing is
      ever paid out. One exists: from i64::MIN to 1. */
  lemma OverlongScheduleNeverPays(ev: EmployeeVesting, now: I64)
    requires ScheduleError(ev.startTime, ev.endTime, ev.totalAmount).None?
    requires !IsI64(ev.endTime - ev.startTime)
    ensures now < ev.startTime ==> ClaimableAmount(ev, now) == Err(Program(VestingNotStarted))
    ensures ev.startTime <= now ==> ClaimableAmount(ev, now) == Err(ArithmeticOverflow)
  {
  }

  /** The schedule from i64::MIN to 1 passes validation and cannot be claimed. */
  lemma OverlongScheduleExists()
    ensures var ev := EmployeeVesting(Wallet(0), I64_MIN, 1, 1, 0, Wallet(1));
            ScheduleError(ev.startTime, ev.endTime, ev.totalAmount).None? &&
            !IsI64(ev.endTime - ev.startTime)
  {
  }

  /** Nor does validation bound the start time: on an accepted schedule that
      starts so long ago that `now - start_time` does not fit in an i64, a
      claim at `now` overflows computing the elapsed time, even when the
      schedule's own length fits. */
  lemma EarlyStartNeverPays(ev: EmployeeVesting, now: I64)
    requires ScheduleError(ev.startTime, ev.endTime, ev.totalAmount).None?
    requires ev.startTime <= now && !IsI64(now - ev.startTime)
    ensures ClaimableAmount(ev, now) == Err(ArithmeticOverflow)
  {
  }

  /** The hundred-second schedule starting at i64::MIN passes validation,
      its length fits in an i64, and yet no claim at any clock reading from
      the epoch on pays anything. */
  lemma EarlyStartExists(now: I64)
    requires 0 <= now
    ensures var ev := EmployeeVesting(Wallet(0), I64_MIN, I64_MIN + 100, 1000, 0, Wallet(1));
            && ScheduleError(ev.startTime, ev.endTime, ev.totalAmount).None?
            && IsI64(ev.endTime - ev.startTime)
            && ClaimableAmount(ev, now) == Err(ArithmeticOverflow)
  {
    var ev := EmployeeVesting(Wallet(0), I64_MIN, I64_MIN + 100, 1000, 0, Wallet(1));
    EarlyStartNeverPays(ev, now);
  }
}
