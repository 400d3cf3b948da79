/** The minute arithmetic of index.ts: the earned-rest share
    (`calculateRestTime`) and moment's whole-minute difference of two instants.

    Instants are integer milliseconds since the epoch, as JavaScript keeps them. */
module RestTime {

  /** `restProcent`: rest earned per 100 minutes of work. */
  const RestPercent: int := 20

  /** `MS_IN_MINUTES`. */
  const MsInMinute: int := 60 * 1000

  /** `calculateRestTime(t) = Math.round(t * (restProcent / 100))` on a whole
      number of minutes: the integer nearest to t * 20 / 100, halves rounded up
      as `Math.round` does.

      Assumption: the floating-point product t * 0.2 rounds like the exact one.
      The exact t / 5 has a fractional part of 0, .2, .4, .6 or .8, never a
      half, so an error far below 0.1 (all the product of a realistic minute
      count can carry) cannot move it across a rounding boundary. */
  function CalculateRestTime(minutes: int): (r: int)
    ensures 100 * r - 50 <= minutes * RestPercent < 100 * r + 50
  {
    (minutes * RestPercent + 50) / 100
  }

  /** The nearest-integer condition pins the result down: no other integer
      is within half a minute of the exact share. */
  lemma RestTimeUnique(minutes: int, r: int)
    requires 100 * r - 50 <= minutes * RestPercent < 100 * r + 50
    ensures r == CalculateRestTime(minutes)
  {
    var q := CalculateRestTime(minutes);
    assert 100 * q - 50 <= minutes * RestPercent < 100 * q + 50;
  }

  /** The integer form: round(t / 5) is (2t + 5) / 10 with flooring division. */
  lemma RestTimeIntegerForm(minutes: int)
    ensures CalculateRestTime(minutes) == (2 * minutes + 5) / 10
  {
    var r := (2 * minutes + 5) / 10;
    assert 10 * r <= 2 * minutes + 5 < 10 * r + 10;
    RestTimeUnique(minutes, r);
  }

  /** Earned rest for a non-negative working time is non-negative and never
      longer than the work itself. */
  lemma RestTimeBounds(minutes: int)
    requires minutes >= 0
    ensures 0 <= CalculateRestTime(minutes) <= minutes
  {
  }

  /** Working longer never earns less rest. */
  lemma RestTimeMonotone(m1: int, m2: int)
    requires m1 <= m2
    ensures CalculateRestTime(m1) <= CalculateRestTime(m2)
  {
  }

  /** Whole minutes from `earlier` to `later`, as moment's
      `diff(…, 'minutes')` computes them: the millisecond difference divided by
      a minute and truncated toward zero. */
  function DiffMinutes(later: int, earlier: int): (r: int)
    ensures later >= earlier ==> 0 <= r && r * MsInMinute <= later - earlier < (r + 1) * MsInMinute
    ensures later < earlier ==> r <= 0 && (r - 1) * MsInMinute < later - earlier <= r * MsInMinute
  {
    var d := later - earlier;
    if d >= 0 then d / MsInMinute else -((-d) / MsInMinute)
  }

  /** An interval of whole minutes plus less than a minute counts as those
      whole minutes. */
  lemma DiffMinutesOfWholeMinutes(start: int, minutes: nat, extra: int)
    requires 0 <= extra < MsInMinute
    ensures DiffMinutes(start + minutes * MsInMinute + extra, start) == minutes
  {
    var r := DiffMinutes(start + minutes * MsInMinute + extra, start);
    assert r * MsInMinute <= minutes * MsInMinute + extra < (r + 1) * MsInMinute;
  }

  /** A whole number of minutes, in either direction, is exactly that many
      minutes. */
  lemma DiffMinutesOfMinutes(start: int, minutes: int)
    ensures DiffMinutes(start + minutes * MsInMinute, start) == minutes
  {
    if minutes >= 0 {
      DiffMinutesOfWholeMinutes(start, minutes, 0);
    } else {
      var r := DiffMinutes(start + minutes * MsInMinute, start);
      assert (r - 1) * MsInMinute < minutes * MsInMinute <= r * MsInMinute;
    }
  }

  /** A countdown to an instant `minutes` whole minutes after `start`, read
      `elapsed` milliseconds after `start` and before the end: every minute
      begun counts as spent, so the reading is the minutes minus the elapsed
      time rounded up to whole minutes. */
  lemma MinutesLeft(start: int, minutes: int, elapsed: int)
    requires 0 <= elapsed <= minutes * MsInMinute
    ensures DiffMinutes(start + minutes * MsInMinute, start + elapsed)
            == minutes - (elapsed + MsInMinute - 1) / MsInMinute
  {
    var spent := (elapsed + MsInMinute - 1) / MsInMinute;
    assert spent * MsInMinute <= elapsed + MsInMinute - 1 < spent * MsInMinute + MsInMinute;
    var left := minutes - spent;
    DiffMinutesOfWholeMinutes(start + elapsed, left, spent * MsInMinute - elapsed);
    assert start + elapsed + left * MsInMinute + (spent * MsInMinute - elapsed) == start + minutes * MsInMinute;
  }
}
