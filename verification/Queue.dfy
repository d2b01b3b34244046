/** The queue client's arithmetic, and how its calls may fail. */
module QueueModel {
  import opened Prelude
  import opened Writes

  /** How a remote call fares: it answers, it takes effect but its answer is lost, or it fails without effect. */
  datatype Call = Answered | Lost | Refused

  const MINUTE := 60 * SECOND

  /** RetryDelay: doubling from one second, the shift capped at eight, the delay at five minutes. */
  function Backoff(attempt: int): int {
    if attempt < 1 then SECOND
    else
      var delay := SECOND * Shl(if attempt - 1 < 8 then attempt - 1 else 8);
      if delay > 5 * MINUTE then 5 * MINUTE else delay
  }

  /** Second by second: one below the second attempt, doubled by each further one up to the ninth, then constant. */
  lemma BackoffExact(attempt: int)
    ensures attempt < 1 ==> Backoff(attempt) == 1_000_000_000
    ensures 1 <= attempt <= 9 ==> Backoff(attempt) == [1, 2, 4, 8, 16, 32, 64, 128, 256][attempt - 1] * 1_000_000_000
    ensures attempt > 9 ==> Backoff(attempt) == 256_000_000_000
  {
    assert Shl(0) == 1 && Shl(1) == 2 && Shl(2) == 4 && Shl(3) == 8 && Shl(4) == 16 && Shl(5) == 32 && Shl(6) == 64 && Shl(7) == 128 && Shl(8) == 256;
  }

  lemma ShlGrows(a: nat, b: nat)
    requires a <= b
    ensures 1 <= Shl(a) <= Shl(b)
  {
    if a < b {
      ShlGrows(a, b - 1);
    } else if a > 0 {
      ShlGrows(a - 1, a - 1);
    }
  }

  /** It never shrinks with the attempt, lasts from one second to 256, and so never meets the five-minute cap. */
  lemma BackoffBounds(a: int, b: int)
    requires a <= b
    ensures SECOND <= Backoff(a) <= Backoff(b) <= 256 * SECOND
    ensures b >= 9 ==> Backoff(b) == 256 * SECOND
  {
    assert Shl(2) == 4 && Shl(4) == 16 && Shl(6) == 64 && Shl(8) == 256;
    var x, y := if a < 1 then 0 else if a - 1 < 8 then a - 1 else 8, if b < 1 then 0 else if b - 1 < 8 then b - 1 else 8;
    ShlGrows(0, x);
    ShlGrows(x, y);
    ShlGrows(y, 8);
  }
}
