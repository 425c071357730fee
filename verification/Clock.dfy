/** Go's time arithmetic: instants in nanoseconds, durations that saturate at the ends of a
    signed 64-bit range, and a division that truncates toward zero. */
module Clock {

  type Time = int

  const SECOND := 1_000_000_000
  const MINUTE := 60 * SECOND
  const DAY := 86_400 * SECOND
  const MAX_DURATION := 0x7FFF_FFFF_FFFF_FFFF
  const MIN_DURATION := -0x8000_0000_0000_0000

  /** The largest whole number of seconds a saturated duration can report, in either direction. */
  const MAX_SECONDS := 9_223_372_036

  /** Go's integer division: the quotient is rounded toward zero. */
  function TruncDiv(a: int, b: int): (q: int)
    requires b > 0
    ensures a >= 0 ==> q * b <= a < (q + 1) * b
    ensures a <= 0 ==> (q - 1) * b < a <= q * b
  {
    if a >= 0 then a / b else -((-a) / b)
  }

  /** Time.Sub: the difference, clamped to the range of a Duration. */
  function Sub(t: Time, u: Time): (d: int)
    ensures MIN_DURATION <= d <= MAX_DURATION
    ensures MIN_DURATION <= t - u <= MAX_DURATION ==> d == t - u
  {
    if t - u > MAX_DURATION then MAX_DURATION
    else if t - u < MIN_DURATION then MIN_DURATION
    else t - u
  }

  /** The int64(to.Sub(from) / time.Second) that every metric and every SLA check uses. */
  function SecondsBetween(from: Time, to: Time): (s: int)
    ensures -MAX_SECONDS <= s <= MAX_SECONDS
  {
    TruncDiv(Sub(to, from), SECOND)
  }

  /** What a store keeps of an instant: a DATE column the day in UTC, a TIMESTAMPTZ column the
      microsecond, memory the instant. */
  datatype Precision = Days | Microseconds | Instants

  function Grain(p: Precision): (g: int)
    ensures g > 0
  {
    match p
    case Days => DAY
    case Microseconds => 1_000
    case Instants => 1
  }

  function Kept(t: Time, p: Precision): (k: Time)
    ensures k <= t < k + Grain(p)
    ensures k == t <==> t % Grain(p) == 0
  {
    match p
    case Days => t - t % DAY
    case Microseconds => t - t % 1_000
    case Instants => t
  }

  lemma KeptTwice(t: Time, p: Precision)
    ensures Kept(Kept(t, p), p) == Kept(t, p)
  {
    assert (t - t % DAY) % DAY == 0 && (t - t % 1_000) % 1_000 == 0;
  }

  /** Shortening an elapsed time `d` by `e`, less than a second either way, leaves its whole seconds as they
      are: it takes no more than what is beyond the last whole second, unless there is none or the seconds
      are past counting, and it does not lengthen the time into the next second, unless they are. */
  predicate CutHarmless(d: int, e: int) {
    if d >= 0 then CutLeavesSeconds(d, e) else CutLeavesSeconds(-d, -e)
  }

  predicate CutLeavesSeconds(d: nat, e: int) {
    var q, r := d / SECOND, d % SECOND;
    && (1 <= q <= MAX_SECONDS ==> e <= r)
    && (q < MAX_SECONDS ==> r - e < SECOND)
  }

  /** What a store takes off an instant. */
  function Cut(t: Time, p: Precision): (c: int)
    ensures 0 <= c < Grain(p)
  {
    t - Kept(t, p)
  }

  /** Exactly when the elapsed seconds between two instants are also those between what a store keeps of
      them. */
  lemma KeptSecondsExactly(from: Time, to: Time, p: Precision)
    requires !p.Days?
    ensures SecondsBetween(Kept(from, p), Kept(to, p)) == SecondsBetween(from, to)
       <==> CutHarmless(to - from, Cut(to, p) - Cut(from, p))
  {
  }

  /** Cutting both ends down to the microsecond changes the elapsed seconds by at most one. */
  lemma KeptSeconds(from: Time, to: Time, p: Precision)
    requires !p.Days?
    ensures -1 <= SecondsBetween(Kept(from, p), Kept(to, p)) - SecondsBetween(from, to) <= 1
  {
  }

  /** Moving the end later never lowers the elapsed seconds, saturation and truncation included. */
  lemma SecondsMonotone(from: Time, to: Time, later: Time)
    requires to <= later
    ensures SecondsBetween(from, to) <= SecondsBetween(from, later)
  {
  }

  /** Exactly when the elapsed seconds are the true truncated difference: when that difference
      is a number of seconds a Duration can hold. */
  lemma SecondsExact(from: Time, to: Time)
    ensures SecondsBetween(from, to) == TruncDiv(to - from, SECOND)
       <==> -MAX_SECONDS <= TruncDiv(to - from, SECOND) <= MAX_SECONDS
  {
  }

  /** The other direction is the same number of seconds, negative. */
  lemma SecondsNegate(a: Time, b: Time)
    ensures SecondsBetween(b, a) == -SecondsBetween(a, b)
  {
  }

  function Min(a: int, b: int): int {
    if a <= b then a else b
  }

  function Max(a: int, b: int): int {
    if a <= b then b else a
  }

  /** Of three instants in any order, how far the first lies from the middle one and the middle one from
      the last. */
  function Gaps(a: Time, b: Time, c: Time): (g: (int, int))
    ensures g.0 >= 0 && g.1 >= 0
  {
    var lo, hi := Min(a, Min(b, c)), Max(a, Max(b, c));
    var mid := a + b + c - lo - hi;
    (mid - lo, hi - mid)
  }

  /** The three instants on which splitting costs no more than the second that truncating twice can lose.
      When no difference saturates it is all of them; when only the largest does, those whose two gaps
      add up to hardly more than a Duration; when a gap does too, those whose other gap is below two
      seconds; and none when all three saturate. */
  predicate SplitKeepsSeconds(a: Time, b: Time, c: Time) {
    var (p, q) := Gaps(a, b, c);
    if p + q <= MAX_DURATION then true
    else if p <= MAX_DURATION && q <= MAX_DURATION then p / SECOND + q / SECOND <= MAX_SECONDS + 1
    else Min(p, q) < 2 * SECOND
  }

  /** What splitting an interval at an instant costs, in seconds. */
  function SplitLoss(a: Time, b: Time, c: Time): int {
    SecondsBetween(a, c) - (SecondsBetween(a, b) + SecondsBetween(b, c))
  }

  lemma SplitInOrder(a: Time, b: Time, c: Time)
    requires a <= b <= c
    ensures SplitKeepsSeconds(a, b, c) <==> -1 <= SplitLoss(a, b, c) <= 1
  {
  }

  /** Exchanging two neighbours turns a loss into a gain. */
  lemma SplitExchanged(a: Time, b: Time, c: Time)
    ensures SplitLoss(b, a, c) == SplitLoss(a, c, b) == -SplitLoss(a, b, c)
  {
    assert SecondsBetween(b, a) == -SecondsBetween(a, b) by {
      SecondsNegate(a, b);
    }
    assert SecondsBetween(c, b) == -SecondsBetween(b, c) by {
      SecondsNegate(b, c);
    }
  }

  /** The gaps do not depend on the order the instants are given in. */
  lemma GapsExchanged(a: Time, b: Time, c: Time)
    ensures Gaps(b, a, c) == Gaps(a, c, b) == Gaps(a, b, c)
  {
  }

  lemma ExchangedKeeps(a: Time, b: Time, c: Time)
    ensures SplitKeepsSeconds(b, a, c) == SplitKeepsSeconds(a, c, b) == SplitKeepsSeconds(a, b, c)
  {
    GapsExchanged(a, b, c);
  }

  /** Exactly when the seconds of an interval and of its two parts agree to within one second, for three
      instants in any order. */
  lemma {:induction false} SecondsSplit(a: Time, b: Time, c: Time)
    ensures SplitKeepsSeconds(a, b, c) <==> -1 <= SplitLoss(a, b, c) <= 1
    decreases (if a > b then 1 else 0) + (if b > c then 1 else 0) + (if a > c then 1 else 0)
  {
    SplitExchanged(a, b, c);
    ExchangedKeeps(a, b, c);
    if a > b {
      SecondsSplit(b, a, c);
    } else if b > c {
      SecondsSplit(a, c, b);
    } else {
      SplitInOrder(a, b, c);
    }
  }
}
