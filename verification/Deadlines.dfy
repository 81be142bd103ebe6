/** Timeout arithmetic of UnixSocket.cpp and PosixMessageQueue.cpp. */
module Deadlines {
  import opened Basics

  const NANOS_PER_MILLI: int := 1_000_000
  const NANOS_PER_SECOND: int := 1_000_000_000
  const INT64_MAX: int := 0x7FFF_FFFF_FFFF_FFFF

  /** pollTimeout: saturates above, maps every negative count to poll's "wait for ever". */
  function PollTimeout(count: int): (t: int)
    ensures -1 <= t <= INT_MAX
    ensures 0 <= count <= INT_MAX <==> t == count >= 0
    ensures t == -1 <==> count < 0
    ensures count > INT_MAX ==> t == INT_MAX
  {
    if count > INT_MAX then INT_MAX else if count < 0 then -1 else count
  }

  /** duration_cast to milliseconds of the time left: truncation of a nonnegative span. */
  function RemainingMillis(now: int, deadline: int): (ms: nat)
    ensures now >= deadline ==> ms == 0
    ensures now < deadline ==> ms * NANOS_PER_MILLI <= deadline - now < (ms + 1) * NANOS_PER_MILLI
  {
    if now >= deadline then 0 else (deadline - now) / NANOS_PER_MILLI
  }

  /** What a wait that starts at `start` for `deadline` gives up on at the earliest. */
  function EarliestGiveUp(start: int, deadline: int): int {
    Min(deadline, start + INT_MAX * NANOS_PER_MILLI)
  }

  /**
   A poll that ran for its whole timeout ended less than 1 ms before the
   smaller of its deadline and INT_MAX ms after its start.
  */
  lemma TimeoutIsLate(start: int, deadline: int, end: int)
    requires end >= start + PollTimeout(RemainingMillis(start, deadline)) * NANOS_PER_MILLI
    ensures end > EarliestGiveUp(start, deadline) - NANOS_PER_MILLI
  {
    var ms := RemainingMillis(start, deadline);
    if ms > INT_MAX {
      assert PollTimeout(ms) == INT_MAX;
    } else {
      assert PollTimeout(ms) == ms;
    }
  }

  /** struct timespec. */
  datatype Timespec = Timespec(sec: int, nsec: int) {
    ghost predicate Normal() {
      0 <= nsec < NANOS_PER_SECOND
    }

    ghost function Nanos(): int {
      sec * NANOS_PER_SECOND + nsec
    }
  }

  /** Result of loadDeadline: the absolute time, or which of its two checks failed. */
  datatype DeadlineResult = Deadline(at: Timespec) | NegativeTimeout | ClockFailed

  /**
   loadDeadline. `clock` is what clock_gettime returned, or None if it failed.
   The seconds and the sub-second milliseconds are added separately and one
   carry normalises them.
  */
  method LoadDeadline(timeout: int, clock: Option<Timespec>) returns (r: DeadlineResult)
    requires clock.Some? ==> clock.value.Normal()
    ensures r.NegativeTimeout? <==> timeout < 0
    ensures r.ClockFailed? <==> timeout >= 0 && clock.None?
    ensures r.Deadline? ==> r.at.Normal() && r.at.Nanos() == clock.value.Nanos() + timeout * NANOS_PER_MILLI
    ensures r.Deadline? && timeout <= INT64_MAX && 0 <= clock.value.sec < 0x1_0000_0000_0000 ==>
              0 <= r.at.sec <= INT64_MAX
  {
    if timeout < 0 {
      return NegativeTimeout;
    }
    if clock.None? {
      return ClockFailed;
    }
    var deadline := clock.value;
    var seconds := timeout / 1000;
    var milliseconds := timeout - seconds * 1000;
    deadline := deadline.(sec := deadline.sec + seconds);
    deadline := deadline.(nsec := deadline.nsec + milliseconds * 1000 * 1000);
    if deadline.nsec >= NANOS_PER_SECOND {
      deadline := deadline.(sec := deadline.sec + deadline.nsec / NANOS_PER_SECOND);
      deadline := deadline.(nsec := deadline.nsec % NANOS_PER_SECOND);
    }
    return Deadline(deadline);
  }
}
