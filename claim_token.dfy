/** The arithmetic of `claim_token`: how much has vested at a given time, how
    much a claim pays out, and the record a successful claim leaves behind. */
module ClaimToken {
  import opened Primitives
  import opened Errors
  import opened Addresses
  import opened State
  import opened TokenProgram

  /** `v` is the floor of `elapsed / duration` of `total`: the linear share
      rounded down, so rounding never favours the beneficiary. */
  predicate FloorShare(v: int, elapsed: int, duration: int, total: int)
  {
    v * duration <= elapsed * total < v * duration + duration
  }

  /** The vested amount at `now` (claim_token.rs, the start check and the
      formula). The elapsed time is capped at the schedule's length; the
      product is taken in i128 and divided with Rust's truncating `/`. The
      two i64 subtractions abort the program when they overflow. */
  function VestedAt(ev: EmployeeVesting, now: I64): (r: Result<I64, Failure>)
    ensures r.Ok? <==>
              ev.startTime <= now && IsI64(ev.endTime - ev.startTime) && IsI64(now - ev.startTime)
    ensures now < ev.startTime ==> r == Err(Program(VestingNotStarted))
    ensures ev.startTime <= now && r.Err? ==> r.error == ArithmeticOverflow
    ensures r.Ok? && ev.endTime <= ev.startTime ==> r.value == ev.totalAmount
    ensures r.Ok? && ev.startTime < ev.endTime && 0 <= ev.totalAmount ==>
              FloorShare(r.value, Min(now - ev.startTime, ev.endTime - ev.startTime),
                         ev.endTime - ev.startTime, ev.totalAmount)
  {
    if now < ev.startTime then Err(Program(VestingNotStarted))
    else
      var totalVestingTime := ev.endTime - ev.startTime;
      var timeSinceStart := now - ev.startTime;
      if !IsI64(totalVestingTime) || !IsI64(timeSinceStart) then Err(ArithmeticOverflow)
      else
        var elapsed := Min(timeSinceStart, totalVestingTime);
        if totalVestingTime <= 0 then Ok(ev.totalAmount)
        else Ok(Share(elapsed, totalVestingTime, ev.totalAmount))
  }

  /** `elapsed * total / duration` with the product in i128 and Rust's
      truncating division: it never overflows, and for a non-negative total
      it is the linear share rounded down. */
  function Share(elapsed: int, duration: int, total: I64): (q: I64)
    requires 0 <= elapsed <= duration <= I64_MAX && 0 < duration
    ensures IsI128(elapsed * total)
    ensures 0 <= total ==> FloorShare(q, elapsed, duration, total)
  {
    ProductFitsI128(elapsed, total);
    ShareWithinTotal(elapsed, duration, total);
    DivTrunc(elapsed * total, duration)
  }

  /** A share of at most the whole duration is at most the whole total, and
      has the total's sign; so the quotient always fits back into an i64. */
  lemma ShareWithinTotal(elapsed: int, duration: int, total: int)
    requires 0 <= elapsed <= duration && 0 < duration
    ensures var q := DivTrunc(elapsed * total, duration);
            (0 <= total ==> 0 <= q <= total) && (total < 0 ==> total <= q <= 0)
  {
    if 0 <= total {
      ShareOfNonNegative(elapsed, duration, total);
    } else {
      ShareOfNegative(elapsed, duration, total);
    }
  }

  lemma ShareOfNonNegative(elapsed: int, duration: int, total: int)
    requires 0 <= elapsed <= duration && 0 < duration && 0 <= total
    ensures 0 <= DivTrunc(elapsed * total, duration) <= total
  {
    var q := DivTrunc(elapsed * total, duration);
    MulMonotone(elapsed, duration, total);
    assert q * duration <= elapsed * total <= duration * total;
    if q > total {
      MulMonotone(total + 1, q, duration);
    }
  }

  lemma ShareOfNegative(elapsed: int, duration: int, total: int)
    requires 0 <= elapsed <= duration && 0 < duration && total < 0
    ensures total <= DivTrunc(elapsed * total, duration) <= 0
  {
    var q := DivTrunc(elapsed * total, duration);
    assert elapsed * total == -(elapsed * -total);
    MulMonotone(elapsed, duration, -total);
    assert duration * total <= elapsed * total <= q * duration;
    if q < total {
      MulMonotone(q + 1, total, duration);
    }
  }

  /** The vested amount does not depend on what was already withdrawn. */
  lemma VestedIgnoresWithdrawn(ev: EmployeeVesting, w: I64, now: I64)
    ensures VestedAt(ev.(totalWithdraw := w), now) == VestedAt(ev, now)
  {
  }

  /** For a schedule that `create_employee_vesting` accepts, the vested
      amount lies between 0 and the total. */
  lemma VestedWithinTotal(ev: EmployeeVesting, now: I64)
    requires Scheduled(ev)
    requires VestedAt(ev, now).Ok?
    ensures 0 <= VestedAt(ev, now).value <= ev.totalAmount
  {
    var d: int := ev.endTime - ev.startTime;
    FloorShareBounds(VestedAt(ev, now).value, Min(now - ev.startTime, d), d, ev.totalAmount);
  }

  /** A rounded-down share of a part of the duration lies between 0 and the total. */
  lemma FloorShareBounds(v: int, elapsed: int, duration: int, total: int)
    requires 0 <= elapsed <= duration && 0 < duration && 0 <= total
    requires FloorShare(v, elapsed, duration, total)
    ensures 0 <= v <= total
  {
    MulMonotone(elapsed, duration, total);
    MulMonotone(0, elapsed, total);
    if v > total {
      MulMonotone(total + 1, v, duration);
    }
    if v < 0 {
      MulMonotone(v + 1, 0, duration);
    }
  }

  /** The rounded-down share is unique: two values that both satisfy
      `FloorShare` for the same inputs are equal. */
  lemma FloorShareUnique(v: int, w: int, elapsed: int, duration: int, total: int)
    requires 0 < duration
    requires FloorShare(v, elapsed, duration, total) && FloorShare(w, elapsed, duration, total)
    ensures v == w
  {
    if v < w {
      MulMonotone(v + 1, w, duration);
    } else if w < v {
      MulMonotone(w + 1, v, duration);
    }
  }

  /** Nothing has vested at the start time itself. */
  lemma NothingVestedAtStart(ev: EmployeeVesting)
    requires ev.startTime < ev.endTime && 0 <= ev.totalAmount
    requires IsI64(ev.endTime - ev.startTime)
    ensures VestedAt(ev, ev.startTime) == Ok(0)
  {
    var d: int := ev.endTime - ev.startTime;
    assert Min(0, d) == 0;
    FloorShareUnique(VestedAt(ev, ev.startTime).value, 0, 0, d, ev.totalAmount);
  }

  /** Everything has vested from the end time on, exactly. */
  lemma FullyVestedFromEnd(ev: EmployeeVesting, now: I64)
    requires ev.startTime < ev.endTime <= now && 0 <= ev.totalAmount
    requires IsI64(now - ev.startTime)
    ensures VestedAt(ev, now) == Ok(ev.totalAmount)
  {
    var d: int := ev.endTime - ev.startTime;
    assert IsI64(d);
    assert Min(now - ev.startTime, d) == d;
    assert FloorShare(ev.totalAmount, d, d, ev.totalAmount);
    FloorShareUnique(VestedAt(ev, now).value, ev.totalAmount, d, d, ev.totalAmount);
  }

  /** The vested amount never decreases as time goes on; and if a later time
      can be evaluated, so can every earlier time from the start on. */
  lemma VestedMonotone(ev: EmployeeVesting, now1: I64, now2: I64)
    requires ev.startTime < ev.endTime && 0 <= ev.totalAmount
    requires ev.startTime <= now1 <= now2
    requires VestedAt(ev, now2).Ok?
    ensures VestedAt(ev, now1).Ok?
    ensures VestedAt(ev, now1).value <= VestedAt(ev, now2).value
  {
    var d := ev.endTime - ev.startTime;
    var e1, e2 := Min(now1 - ev.startTime, d), Min(now2 - ev.startTime, d);
    assert VestedAt(ev, now1).Ok?;
    FloorShareMonotone(VestedAt(ev, now1).value, VestedAt(ev, now2).value, e1, e2, d, ev.totalAmount);
  }

  /** Floor shares grow with the elapsed time. */
  lemma FloorShareMonotone(v1: int, v2: int, e1: int, e2: int, d: int, t: int)
    requires 0 < d && 0 <= t && e1 <= e2
    requires FloorShare(v1, e1, d, t) && FloorShare(v2, e2, d, t)
    ensures v1 <= v2
  {
    MulMonotone(e1, e2, t);
    if v1 > v2 {
      MulMonotone(v2 + 1, v1, d);
    }
  }

  /** One year of 31,536,000 seconds vesting 100,000,000 units: half of it
      after half a year. */
  lemma HalfYearExample(ev: EmployeeVesting)
    requires ev.endTime == ev.startTime + 31_536_000 && ev.totalAmount == 100_000_000
    requires IsI64(ev.startTime + 15_768_000)
    ensures VestedAt(ev, ev.startTime) == Ok(0)
    ensures VestedAt(ev, ev.startTime + 15_768_000) == Ok(50_000_000)
    ensures VestedAt(ev, ev.endTime) == Ok(100_000_000)
  {
    NothingVestedAtStart(ev);
    FullyVestedFromEnd(ev, ev.endTime);
    var d := 31_536_000;
    var v: int := VestedAt(ev, ev.startTime + 15_768_000).value;
    assert v * d <= 15_768_000 * 100_000_000 < v * d + d;
    if v > 50_000_000 {
      MulMonotone(50_000_001, v, d);
    } else if v < 50_000_000 {
      MulMonotone(v + 1, 50_000_000, d);
    }
  }

  /** The amount a claim at `now` transfers: what has vested minus what was
      already withdrawn, which must be positive. */
  function ClaimableAmount(ev: EmployeeVesting, now: I64): (r: Result<I64, Failure>)
    ensures VestedAt(ev, now).Err? ==> r == VestedAt(ev, now)
    ensures r.Ok? <==>
              VestedAt(ev, now).Ok? && ev.totalWithdraw < VestedAt(ev, now).value &&
              IsI64(VestedAt(ev, now).value - ev.totalWithdraw)
    ensures r.Ok? ==> 0 < r.value && ev.totalWithdraw + r.value == VestedAt(ev, now).value
    ensures VestedAt(ev, now).Ok? && VestedAt(ev, now).value <= ev.totalWithdraw &&
            IsI64(VestedAt(ev, now).value - ev.totalWithdraw) ==>
              r == Err(Program(InsufficientVestedAmount))
    ensures VestedAt(ev, now).Ok? && !IsI64(VestedAt(ev, now).value - ev.totalWithdraw) ==>
              r == Err(ArithmeticOverflow)
  {
    match VestedAt(ev, now)
    case Err(f) => Err(f)
    case Ok(vested) =>
      var available := vested - ev.totalWithdraw;
      if !IsI64(available) then Err(ArithmeticOverflow)
      else if available <= 0 then Err(Program(InsufficientVestedAmount))
      else Ok(available)
  }

  /** The record after a successful claim of `amount`: `total_withdraw`
      grows by it, and nothing else about the record changes. */
  function AfterClaim(ev: EmployeeVesting, amount: I64): (ev': EmployeeVesting)
    requires IsI64(ev.totalWithdraw + amount)
    ensures ev'.totalWithdraw - ev.totalWithdraw == amount
    ensures ev' == ev.(totalWithdraw := ev'.totalWithdraw)
  {
    ev.(totalWithdraw := ev.totalWithdraw + amount)
  }

  /** A claim before the start time fails with `VestingNotStarted`; one at
      the start time itself finds nothing vested and fails with
      `InsufficientVestedAmount`. */
  lemma NoClaimUntilAfterStart(ev: EmployeeVesting, now: I64)
    requires Scheduled(ev) && WithinEntitlement(ev)
    requires IsI64(ev.endTime - ev.startTime)
    requires now <= ev.startTime
    ensures now < ev.startTime ==> ClaimableAmount(ev, now) == Err(Program(VestingNotStarted))
    ensures now == ev.startTime ==> ClaimableAmount(ev, now) == Err(Program(InsufficientVestedAmount))
  {
    if now == ev.startTime {
      NothingVestedAtStart(ev);
    }
  }

  /** A successful claim brings `total_withdraw` up to exactly the vested
      amount and keeps the accounting invariant. */
  lemma ClaimKeepsEntitlement(ev: EmployeeVesting, now: I64)
    requires Scheduled(ev) && WithinEntitlement(ev)
    requires ClaimableAmount(ev, now).Ok?
    ensures IsI64(ev.totalWithdraw + ClaimableAmount(ev, now).value)
    ensures var ev' := AfterClaim(ev, ClaimableAmount(ev, now).value);
            Scheduled(ev') && WithinEntitlement(ev') &&
            ev.totalWithdraw < ev'.totalWithdraw &&
            Ok(ev'.totalWithdraw) == VestedAt(ev, now)
  {
    VestedWithinTotal(ev, now);
  }

  /** A second claim at the same time finds nothing left to claim. */
  lemma SecondClaimFails(ev: EmployeeVesting, now: I64)
    requires Scheduled(ev) && WithinEntitlement(ev)
    requires ClaimableAmount(ev, now).Ok?
    ensures IsI64(ev.totalWithdraw + ClaimableAmount(ev, now).value)
    ensures ClaimableAmount(AfterClaim(ev, ClaimableAmount(ev, now).value), now)
              == Err(Program(InsufficientVestedAmount))
  {
    ClaimKeepsEntitlement(ev, now);
    var ev' := AfterClaim(ev, ClaimableAmount(ev, now).value);
    VestedIgnoresWithdrawn(ev, ev'.totalWithdraw, now);
  }

  /** The total of a sequence of amounts. */
  function Sum(s: seq<int>): int
  {
    if s == [] then 0 else s[0] + Sum(s[1..])
  }

  /** `n` claims at the same time `now`. */
  function Repeat(now: I64, n: nat): (times: seq<I64>)
    ensures |times| == n
  {
    if n == 0 then [] else [now] + Repeat(now, n - 1)
  }

  /** The authority `claim_token` names for its transfer as written: the
      treasury account itself. */
  function TransferAuthorityAsWritten(vestingKey: Address, treasuryKey: Address): (a: Address)
    ensures a == treasuryKey
  {
    treasuryKey
  }

  /** The authority the transfer needs: the vesting account, which
      `create_vesting_account` made the treasury's owner. */
  function TransferAuthority(vestingKey: Address, treasuryKey: Address): (a: Address)
    ensures a == vestingKey
  {
    vestingKey
  }

  /** As written, the transfer out of a treasury set up by
      `create_vesting_account` is always refused by the token program: with
      too small a balance for `InsufficientFunds`, otherwise because the
      named authority is not the treasury's owner. */
  lemma AsWrittenTransferAlwaysRefused(name: seq<Byte>, treasury: TokenAccount, to: TokenAccount, amount: U64)
    requires treasury.owner == VestingAddress(name)
    requires to.mint == treasury.mint
    ensures var r := Transfer(treasury, to, TransferAuthorityAsWritten(VestingAddress(name), TreasuryAddress(name)), amount);
            r.Err? && (amount <= treasury.amount ==> r.error == OwnerMismatch)
  {
    VestingIsNotItsTreasury(name);
  }

  /** Signed by the vesting account, the same transfer goes through whenever
      the treasury holds enough and the destination can take it. */
  lemma TransferAuthorityAccepted(name: seq<Byte>, treasury: TokenAccount, to: TokenAccount, amount: U64)
    requires treasury.owner == VestingAddress(name)
    requires to.mint == treasury.mint
    ensures Transfer(treasury, to, TransferAuthority(VestingAddress(name), TreasuryAddress(name)), amount).Ok?
            <==> amount <= treasury.amount && to.amount + amount <= U64_MAX
  {
  }
}
