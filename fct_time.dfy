/**
 * The client's conversion of two CLOCK_MONOTONIC timestamps into the
 * flow completion time: a 64-bit nanosecond difference, then split into
 * whole seconds and leftover nanoseconds.
 */
module FctTime {

  const NANOS_PER_SEC: int := 1000000000
  const INT32_RANGE: int := 0x1_0000_0000
  const INT64_MAX: int := 0x7FFF_FFFF_FFFF_FFFF
  const UINT64_RANGE: int := 0x1_0000_0000_0000_0000

  /** Largest tv_sec for which tv_nsec + tv_sec * 10^9 fits in a signed
      64-bit long for every tv_nsec. */
  const MAX_SEC: int := 9223372035

  /** A struct timespec. */
  datatype Timespec = Timespec(sec: int, nsec: int)

  /** What clock_gettime(CLOCK_MONOTONIC, ...) delivers: a non-negative
      second count and a nanosecond field below one second. */
  predicate Valid(t: Timespec)
  {
    0 <= t.sec <= MAX_SEC && 0 <= t.nsec < NANOS_PER_SEC
  }

  /** tv_nsec + tv_sec * (1000*1000*1000), evaluated in long arithmetic. */
  function Nanos(t: Timespec): (n: int)
    requires Valid(t)
    ensures 0 <= n <= INT64_MAX
    ensures n / NANOS_PER_SEC == t.sec && n % NANOS_PER_SEC == t.nsec
  {
    t.nsec + t.sec * NANOS_PER_SEC
  }

  /** `finish` is not earlier than `start`, compared field by field. */
  predicate NotBefore(start: Timespec, finish: Timespec)
  {
    start.sec < finish.sec || (start.sec == finish.sec && start.nsec <= finish.nsec)
  }

  /** Comparing timestamps field by field agrees with comparing their
      nanosecond counts. */
  lemma NotBeforeIsNanosOrder(start: Timespec, finish: Timespec)
    requires Valid(start) && Valid(finish)
    ensures NotBefore(start, finish) <==> Nanos(start) <= Nanos(finish)
  {
    if start.sec < finish.sec {
      assert Nanos(start) < (start.sec + 1) * NANOS_PER_SEC <= Nanos(finish);
    } else if finish.sec < start.sec {
      assert Nanos(finish) < (finish.sec + 1) * NANOS_PER_SEC <= Nanos(start);
    }
  }

  /** `uint64_t nanodiff = finish - start`: the signed difference (which
      cannot overflow for valid timestamps) converted to 64-bit unsigned,
      i.e. reduced modulo 2^64. */
  function NanoDiff(start: Timespec, finish: Timespec): (d: int)
    requires Valid(start) && Valid(finish)
    ensures 0 <= d < UINT64_RANGE
    ensures Nanos(start) <= Nanos(finish) ==> d == Nanos(finish) - Nanos(start)
    ensures Nanos(finish) < Nanos(start) ==>
      d == UINT64_RANGE - (Nanos(start) - Nanos(finish))
  {
    (Nanos(finish) - Nanos(start)) % UINT64_RANGE
  }

  /** Conversion of an unsigned value to a 32-bit `int`, wrapping modulo
      2^32 as GCC defines it. */
  function ToInt32(x: int): (r: int)
    requires 0 <= x
    ensures -INT32_RANGE / 2 <= r < INT32_RANGE / 2
    ensures (r - x) % INT32_RANGE == 0
    ensures x < INT32_RANGE / 2 ==> r == x
  {
    var m := x % INT32_RANGE;
    if m >= INT32_RANGE / 2 then m - INT32_RANGE else m
  }

  /** The printed pair "secs, nsecs". */
  datatype Duration = Duration(secs: int, nsecs: int)

  /** `int secs = nanodiff / 10^9; long nsecs = nanodiff % 10^9;` */
  function Split(d: int): (r: Duration)
    requires 0 <= d < UINT64_RANGE
    ensures 0 <= r.nsecs < NANOS_PER_SEC
    ensures d < INT32_RANGE / 2 * NANOS_PER_SEC ==>
      r.secs * NANOS_PER_SEC + r.nsecs == d
  {
    Duration(ToInt32(d / NANOS_PER_SEC), d % NANOS_PER_SEC)
  }

  /** Timespec subtraction with a borrow, the usual reference definition of
      an elapsed time. */
  function BorrowDiff(start: Timespec, finish: Timespec): Duration
  {
    if finish.nsec < start.nsec then
      Duration(finish.sec - start.sec - 1, finish.nsec - start.nsec + NANOS_PER_SEC)
    else
      Duration(finish.sec - start.sec, finish.nsec - start.nsec)
  }

  /** For a finish not before the start and less than 2^31 - 1 seconds
      after it, the split of nanodiff is the borrow subtraction of the two
      timestamps, and recombines to the nanosecond difference. */
  lemma ElapsedIsBorrowDiff(start: Timespec, finish: Timespec)
    requires Valid(start) && Valid(finish) && NotBefore(start, finish)
    requires finish.sec - start.sec < INT32_RANGE / 2 - 1
    ensures Split(NanoDiff(start, finish)) == BorrowDiff(start, finish)
    ensures Split(NanoDiff(start, finish)).secs * NANOS_PER_SEC
      + Split(NanoDiff(start, finish)).nsecs == Nanos(finish) - Nanos(start)
  {
    NotBeforeIsNanosOrder(start, finish);
    var d := NanoDiff(start, finish);
    var b := BorrowDiff(start, finish);
    assert d == b.secs * NANOS_PER_SEC + b.nsecs;
    assert 0 <= b.nsecs < NANOS_PER_SEC;
    assert 0 <= b.secs < INT32_RANGE / 2;
    assert d / NANOS_PER_SEC == b.secs && d % NANOS_PER_SEC == b.nsecs;
  }
}
