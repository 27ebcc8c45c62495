/** Relative labels for movement dates (script.js, `formatMovementDate`). Timestamps
    are whole milliseconds; the current time is a parameter. */
module Dates {
  import opened Digits

  const DayMs: nat := 1000 * 60 * 60 * 24

  function Distance(a: int, b: int): nat
  {
    if a <= b then b - a else a - b
  }

  /** `Math.round(Math.abs(now - date) / DayMs)`: the distance in days, rounded to the
      nearest whole day with halves rounded up. */
  function DaysPassed(date: int, now: int): (days: nat)
    ensures days * DayMs <= Distance(date, now) + DayMs / 2 < days * DayMs + DayMs
  {
    (Distance(date, now) + DayMs / 2) / DayMs
  }

  /** The label kinds of the if-chain: 0 days, 1 day, up to 7 days, otherwise a date. */
  datatype DayLabel = Today | Yesterday | DaysAgo(days: nat) | OnDate

  function Label(days: nat): DayLabel
  {
    if days == 0 then Today
    else if days == 1 then Yesterday
    else if days <= 7 then DaysAgo(days)
    else OnDate
  }

  /** The label's text; `formatted` is what the locale formatter makes of the date,
      which this model does not compute. */
  function LabelText(tag: DayLabel, formatted: string): string
  {
    match tag
    case Today => "Today"
    case Yesterday => "Yesterday"
    case DaysAgo(n) => Decimal(n) + " days ago"
    case OnDate => formatted
  }

  function FormatMovementDate(date: int, now: int, formatted: string): string
  {
    LabelText(Label(DaysPassed(date, now)), formatted)
  }

  /** The rounded day count is the unique whole number of days within half a day
      of the elapsed time, whichever of the two instants is later. */
  lemma DaysPassedUnique(date: int, now: int, d: nat)
    ensures DaysPassed(date, now) == d <==>
      d * DayMs <= Distance(date, now) + DayMs / 2 < d * DayMs + DayMs
    ensures DaysPassed(date, now) == DaysPassed(now, date)
  {
  }

  /** Which label a movement gets, in terms of the elapsed time itself: under half a
      day is "Today", under a day and a half "Yesterday", under seven and a half days
      "N days ago" with 2 <= N <= 7, and from then on the formatted date. */
  lemma LabelByElapsed(date: int, now: int)
    ensures var elapsed, tag := Distance(date, now), Label(DaysPassed(date, now));
      && (tag == Today <==> elapsed < DayMs / 2)
      && (tag == Yesterday <==> DayMs / 2 <= elapsed < 3 * DayMs / 2)
      && (tag.DaysAgo? <==> 3 * DayMs / 2 <= elapsed < 15 * DayMs / 2)
      && (tag.DaysAgo? ==> 2 <= tag.days <= 7)
      && (tag == OnDate <==> 15 * DayMs / 2 <= elapsed)
  {
    var days := DaysPassed(date, now);
    var elapsed := Distance(date, now);
    if days >= 8 {
      assert 8 * DayMs <= days * DayMs;
    }
    if days <= 7 {
      assert days * DayMs <= 7 * DayMs;
    }
    if days >= 2 {
      assert 2 * DayMs <= days * DayMs;
    }
  }

  /** Two to seven days read "N days ago" with the single digit N. */
  lemma DaysAgoText(n: nat, formatted: string)
    requires 2 <= n <= 7
    ensures LabelText(Label(n), formatted) == [Digit(n)] + " days ago"
  {
  }
}
