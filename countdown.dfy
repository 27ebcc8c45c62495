/** The logout countdown's display: `MM:SS` from whole seconds (script.js, `tick`). */
module Countdown {
  import opened Digits

  /** Seconds a session lasts without qualifying activity. */
  const Start: nat := 300

  /** `${Math.trunc(t/60)}`.padStart(2, 0) + ':' + `${t % 60}`.padStart(2, 0); `t` is never
      negative when shown, so truncation and Dafny's division agree. */
  function TimerText(t: nat): string
  {
    PadStart2(Decimal(t / 60)) + ":" + PadStart2(Decimal(t % 60))
  }

  /** Reads an `MM:SS` label back into seconds. */
  function ParseTimer(s: string): nat
    requires |s| == 5 && AllDigits(s[..2]) && AllDigits(s[3..])
  {
    Value(s[..2]) * 60 + Value(s[3..])
  }

  /** Two two-digit fields joined by a colon read back field by field. */
  lemma ParseFields(m: string, s: string)
    requires |m| == 2 && |s| == 2 && AllDigits(m) && AllDigits(s)
    ensures var text := m + ":" + s;
      && |text| == 5 && text[2] == ':' && text[..2] == m && text[3..] == s
      && ParseTimer(text) == Value(m) * 60 + Value(s)
  {
    var text := m + ":" + s;
    assert text[..2] == m && text[3..] == s;
  }

  /** Whole minutes and the seconds left over. */
  lemma SplitClock(t: nat)
    requires t < 6000
    ensures t / 60 < 100 && t % 60 < 60 && (t / 60) * 60 + t % 60 == t
  {
  }

  /** Every time below 100 minutes is shown as five characters `MM:SS` that read back
      as the same number of seconds. */
  lemma TimerTextRoundTrip(t: nat)
    requires t < 6000
    ensures |TimerText(t)| == 5 && TimerText(t)[2] == ':'
    ensures AllDigits(TimerText(t)[..2]) && AllDigits(TimerText(t)[3..])
    ensures ParseTimer(TimerText(t)) == t
  {
    SplitClock(t);
    TwoDigits(t / 60);
    TwoDigits(t % 60);
    ParseFields(PadStart2(Decimal(t / 60)), PadStart2(Decimal(t % 60)));
  }

  /** The first label of a session and the last one before logout. */
  lemma TimerTextEnds()
    ensures TimerText(Start) == "05:00"
    ensures TimerText(0) == "00:00"
  {
    assert Digit(5) == '5' && Digit(0) == '0';
    assert Decimal(5) == ['5'];
    assert Decimal(0) == ['0'];
    assert PadStart2(['5']) == ['0', '5'];
    assert PadStart2(['0']) == ['0', '0'];
    assert Start / 60 == 5 && Start % 60 == 0;
  }
}
