/**
 * The cue timestamp format `HH:MM:SS.mmm` (app.py `format_timestamp`), on a
 * time given as a whole number of milliseconds. Hours take as many digits as
 * they need but at least two; minutes and seconds take two, milliseconds three.
 */
module Timestamp {
  import opened Wrappers
  import opened Decimal

  // Milliseconds per second, minute and hour are written out as 1000, 60000
  // and 3600000, so that division by them stays linear arithmetic.

  /** `{secs:06.3f}` for `secs` in `[0, 60)`: two digits, a dot, three digits. */
  function SecondsField(ms: nat): string
    requires ms < 60000
  {
    PadDecimal(ms / 1000, 2) + "." + PadDecimal(ms % 1000, 3)
  }

  function FormatTimestamp(t: nat): string {
    PadDecimal(t / 3600000, 2) + ":" + PadDecimal((t % 3600000) / 60000, 2) + ":"
      + SecondsField(t % 60000)
  }

  // The fields of a timestamp `s`, located from its end.
  function HoursOf(s: string): string requires |s| >= 12 { s[..|s| - 10] }
  function MinutesOf(s: string): string requires |s| >= 12 { s[|s| - 9..|s| - 7] }
  function SecondsOf(s: string): string requires |s| >= 12 { s[|s| - 6..|s| - 4] }
  function MillisOf(s: string): string requires |s| >= 12 { s[|s| - 3..] }

  predicate Separators(s: string) requires |s| >= 12 {
    s[|s| - 10] == ':' && s[|s| - 7] == ':' && s[|s| - 4] == '.'
  }

  /**
   * Reads `H..H:MM:SS.mmm` back: at least two hour digits, minutes and seconds
   * below 60. Anything else is not a timestamp.
   */
  function ParseTimestamp(s: string): Option<nat> {
    if |s| < 12 || !Separators(s) then None
    else if !AllDigits(HoursOf(s)) || !AllDigits(MinutesOf(s)) || !AllDigits(SecondsOf(s)) || !AllDigits(MillisOf(s)) then None
    else if ValueOf(MinutesOf(s)) >= 60 || ValueOf(SecondsOf(s)) >= 60 then None
    else Some(ValueOf(HoursOf(s)) * 3600000 + ValueOf(MinutesOf(s)) * 60000
              + ValueOf(SecondsOf(s)) * 1000 + ValueOf(MillisOf(s)))
  }

  /** The four fields of `HH:MM:SS.mmm` sit at fixed distances from its end. */
  lemma {:induction false} FieldLayout(hs: string, mins: string, ss: string, mss: string)
    requires |hs| >= 2 && |mins| == 2 && |ss| == 2 && |mss| == 3
    ensures var r := hs + ":" + mins + ":" + ss + "." + mss;
      && |r| >= 12 && Separators(r)
      && HoursOf(r) == hs && MinutesOf(r) == mins && SecondsOf(r) == ss && MillisOf(r) == mss
  {
  }

  /** Minutes, seconds and milliseconds of `t` put back together give `t`. */
  lemma {:induction false} Recompose(t: nat)
    ensures t == (t / 3600000) * 3600000 + ((t % 3600000) / 60000) * 60000
                 + ((t % 60000) / 1000) * 1000 + (t % 60000) % 1000
  {
    var r := t % 3600000;
    assert t == (t / 3600000) * 3600000 + r;
    assert r == (r / 60000) * 60000 + r % 60000;
    ModOfMod(t);
    var q := t % 60000;
    assert q == (q / 1000) * 1000 + q % 1000;
  }

  /** A minute divides an hour, so the remainder modulo a minute can be taken from the remainder modulo an hour. */
  lemma {:induction false} ModOfMod(t: nat)
    ensures (t % 3600000) % 60000 == t % 60000
  {
    var q, r := t / 3600000, t % 3600000;
    assert t == r + 60000 * (60 * q);
  }

  /**
   * The fields of a formatted time: hours `t div 3600000` in at least two
   * digits, minutes `(t mod 3600000) div 60000` in `0..59`, seconds
   * `(t mod 60000) div 1000` in `0..59` and milliseconds `t mod 1000`, each in
   * its fixed width, separated by `:`, `:` and `.`.
   */
  lemma TimestampFields(t: nat)
    ensures |FormatTimestamp(t)| >= 12 && Separators(FormatTimestamp(t))
    ensures AllDigits(HoursOf(FormatTimestamp(t))) && ValueOf(HoursOf(FormatTimestamp(t))) == t / 3600000
    ensures AllDigits(MinutesOf(FormatTimestamp(t))) && ValueOf(MinutesOf(FormatTimestamp(t))) == (t % 3600000) / 60000 < 60
    ensures AllDigits(SecondsOf(FormatTimestamp(t))) && ValueOf(SecondsOf(FormatTimestamp(t))) == (t % 60000) / 1000 < 60
    ensures AllDigits(MillisOf(FormatTimestamp(t))) && ValueOf(MillisOf(FormatTimestamp(t))) == (t % 60000) % 1000
  {
    var h, m, sec, milli := t / 3600000, (t % 3600000) / 60000, (t % 60000) / 1000, (t % 60000) % 1000;
    assert m < 60 && sec < 60 && milli < 1000;
    var hs, mins, ss, mss := PadDecimal(h, 2), PadDecimal(m, 2), PadDecimal(sec, 2), PadDecimal(milli, 3);
    assert |hs| >= 2 && AllDigits(hs) && ValueOf(hs) == h by { PadDecimalFacts(h, 2); }
    assert |mins| == 2 && AllDigits(mins) && ValueOf(mins) == m by { PadDecimalFacts(m, 2); }
    assert |ss| == 2 && AllDigits(ss) && ValueOf(ss) == sec by { PadDecimalFacts(sec, 2); }
    assert |mss| == 3 && AllDigits(mss) && ValueOf(mss) == milli by { PadDecimalFacts(milli, 3); }
    var r := FormatTimestamp(t);
    assert r == hs + ":" + mins + ":" + ss + "." + mss;
    FieldLayout(hs, mins, ss, mss);
  }

  /** Parsing a formatted time gives the time back. */
  lemma FormatThenParse(t: nat)
    ensures ParseTimestamp(FormatTimestamp(t)) == Some(t)
  {
    TimestampFields(t);
    Recompose(t);
  }

  /** Formatting is one-to-one: distinct times give distinct timestamps. */
  lemma FormatInjective(t: nat, u: nat)
    requires FormatTimestamp(t) == FormatTimestamp(u)
    ensures t == u
  {
    FormatThenParse(t);
    FormatThenParse(u);
  }

  /** A formatted time holds only digits, `:` and `.`; in particular no space and no newline. */
  lemma TimestampAlphabet(t: nat)
    ensures forall i :: 0 <= i < |FormatTimestamp(t)| ==>
      var c := FormatTimestamp(t)[i]; IsDigit(c) || c == ':' || c == '.'
  {
    var h, m, ms := t / 3600000, (t % 3600000) / 60000, t % 60000;
    PadDecimalFacts(h, 2);
    PadDecimalFacts(m, 2);
    PadDecimalFacts(ms / 1000, 2);
    PadDecimalFacts(ms % 1000, 3);
  }

  lemma ZeroTimestamp()
    ensures FormatTimestamp(0) == "00:00:00.000"
  {
  }

  lemma FractionalTimestamp()
    ensures FormatTimestamp(3661250) == "01:01:01.250"
  {
    assert 3661250 / 3600000 == 1 && (3661250 % 3600000) / 60000 == 1;
    assert (3661250 % 60000) / 1000 == 1 && (3661250 % 60000) % 1000 == 250;
    assert Digits(250) == "250";
  }
}
