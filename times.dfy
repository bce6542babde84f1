/** Clock times as the data preparation reads them: `norm_time` tidies a raw
    cell into `HH:MM`, `tmin` turns `HH:MM` into minutes after midnight. */
module Times {
  import opened Wrappers
  import opened Text

  /** The `10**9` the source uses for "no usable time". */
  const Billion: nat := 1_000_000_000

  function ReplaceDots(s: string): string
  {
    seq(|s|, i requires 0 <= i < |s| => if s[i] == '.' then ':' else s[i])
  }

  /** `str(x).strip().replace(".", ":")`. */
  function Clean(x: string): string
  {
    ReplaceDots(Strip(x))
  }

  /** `H:MM`, one hour digit. */
  predicate ShortClock(b: string)
  {
    |b| == 4 && IsDigit(b[0]) && b[1] == ':' && IsDigit(b[2]) && IsDigit(b[3])
  }

  /** `HH:MM`, two hour digits. */
  predicate LongClock(b: string)
  {
    |b| == 5 && IsDigit(b[0]) && IsDigit(b[1]) && b[2] == ':' && IsDigit(b[3]) && IsDigit(b[4])
  }

  /** The whole string matches `(\d{1,2}):(\d{2})`. */
  predicate ClockPattern(b: string)
  {
    ShortClock(b) || LongClock(b)
  }

  function HourDigits(b: string): string
    requires ClockPattern(b)
  {
    b[..|b| - 3]
  }

  function MinuteDigits(b: string): string
    requires ClockPattern(b)
  {
    b[|b| - 2..]
  }

  /** Python's `f"{n:02d}"` for `n < 100`. */
  function TwoDigits(n: nat): string
    requires n < 100
  {
    [Digit(n / 10), Digit(n % 10)]
  }

  /** `norm_time`: a cleaned cell matching `^(\d{1,2}):(\d{2})$` is rewritten
      as zero-padded `HH:MM`; anything else is returned cleaned but otherwise
      unchanged. (Python's `$` would also accept a final line feed, but the
      cleaned cell has none: see `CleanHasNoFinalNewline`.) */
  function NormTime(x: string): string
  {
    var s := Clean(x);
    if ClockPattern(s) then
      ShortDigitsValue(HourDigits(s));
      ShortDigitsValue(MinuteDigits(s));
      TwoDigits(DigitsValue(HourDigits(s))) + ":" + TwoDigits(DigitsValue(MinuteDigits(s)))
    else s
  }

  /** The text matched by `^(\d{2}):(\d{2})$`, where Python's `$` also matches
      just before one final line feed. */
  function ClockText(x: string): Option<string>
  {
    if LongClock(x) then Some(x)
    else if |x| == 6 && x[5] == '\n' && LongClock(x[..5]) then Some(x[..5])
    else None
  }

  /** `tmin`: `hours * 60 + minutes` for `HH:MM`, with no range check, and
      `None` for anything else. */
  function TMin(x: string): Option<nat>
  {
    match ClockText(x)
    case None => None
    case Some(b) => Some(DigitsValue(b[..2]) * 60 + DigitsValue(b[3..]))
  }

  /** `tmin(t) or 10**9`: both `None` and `0` (the time `00:00`) are falsy in
      Python, so both become `10**9`. */
  function FalsyOrBillion(t: string): nat
  {
    match TMin(t)
    case Some(m) => if m == 0 then Billion else m
    case None => Billion
  }

  /** `tmin(t) if tmin(t) is not None else 10**9`: only `None` is replaced. */
  function NoneOrBillion(t: string): nat
  {
    match TMin(t)
    case Some(m) => m
    case None => Billion
  }

  // ---------------------------------------------------------------- lemmas

  /** The two defaults differ only at `00:00`: there the `or` form gives
      `10**9` and the `is not None` form gives `0`; elsewhere they agree,
      and an unparseable time is `10**9` under both. */
  lemma BillionDefaults(t: string)
    ensures TMin(t) != Some(0) ==> FalsyOrBillion(t) == NoneOrBillion(t)
    ensures TMin(t) == Some(0) ==> FalsyOrBillion(t) == Billion && NoneOrBillion(t) == 0
    ensures TMin(t).None? ==> FalsyOrBillion(t) == Billion && NoneOrBillion(t) == Billion
    ensures TMin(t).Some? && TMin(t).value != 0 ==> FalsyOrBillion(t) == NoneOrBillion(t) == TMin(t).value
  {
  }

  lemma TwoDigitsRoundTrip(n: nat)
    requires n < 100
    ensures AllDigits(TwoDigits(n)) && DigitsValue(TwoDigits(n)) == n
  {
    ShortDigitsValue(TwoDigits(n));
  }

  lemma TwoDigitsOfDigits(s: string)
    requires |s| == 2 && AllDigits(s)
    ensures DigitsValue(s) < 100 && TwoDigits(DigitsValue(s)) == s
  {
    ShortDigitsValue(s);
  }

  /** `tmin` accepts exactly two-digit hours and minutes, and never gives
      more than 99 hours and 99 minutes. */
  lemma TMinSpec(x: string)
    ensures TMin(x).Some? <==> LongClock(x) || (|x| == 6 && x[5] == '\n' && LongClock(x[..5]))
    ensures LongClock(x) ==> TMin(x) == Some(DigitsValue(x[..2]) * 60 + DigitsValue(x[3..]))
    ensures TMin(x).Some? ==> TMin(x) == Some(DigitsValue(x[..2]) * 60 + DigitsValue(x[3..5]))
    ensures TMin(x).Some? ==> TMin(x).value <= 99 * 60 + 99
  {
    if ClockText(x).Some? {
      var b := ClockText(x).value;
      TwoDigitsOfDigits(b[..2]);
      TwoDigitsOfDigits(b[3..]);
    }
  }

  /** A cleaned cell never ends in a line feed, so `norm_time`'s `$` never
      needs its line-feed allowance. */
  lemma CleanHasNoFinalNewline(x: string)
    ensures Clean(x) == [] || Clean(x)[|Clean(x)| - 1] != '\n'
    ensures Stripped(Clean(x)) && !('.' in Clean(x))
  {
    StripSpec(x);
  }

  /** Cleaning is idempotent. */
  lemma CleanIdempotent(x: string)
    ensures Clean(Clean(x)) == Clean(x)
  {
    CleanHasNoFinalNewline(x);
    StripOfStripped(Clean(x));
  }

  /** When the cleaned cell matches, `norm_time` gives a two-digit `HH:MM`:
      the cleaned cell itself, with a `0` in front when it has one hour
      digit. Its minutes are the matched hours times 60 plus the matched
      minutes. */
  lemma NormTimeMatched(x: string)
    requires ClockPattern(Clean(x))
    ensures LongClock(NormTime(x))
    ensures NormTime(x) == (if ShortClock(Clean(x)) then "0" + Clean(x) else Clean(x))
    ensures TMin(NormTime(x)) == Some(DigitsValue(HourDigits(Clean(x))) * 60 + DigitsValue(MinuteDigits(Clean(x))))
  {
    NormTimePadded(x);
    NormTimeValue(x);
  }

  /** The text `norm_time` gives for a matching cell. */
  lemma NormTimePadded(x: string)
    requires ClockPattern(Clean(x))
    ensures NormTime(x) == (if ShortClock(Clean(x)) then "0" + Clean(x) else Clean(x))
  {
    var s := Clean(x);
    if ShortClock(s) {
      ShortDigitsValue(s[..1]);
      TwoDigitsOfDigits(s[2..]);
      var h := TwoDigits(DigitsValue(s[..1]));
      assert h == ['0', s[0]];
      assert NormTime(x) == h + ":" + s[2..];
      assert "0" + s == ['0', s[0]] + ":" + s[2..];
    } else {
      NormTimeKeepsTwoDigitClock(x);
    }
  }

  /** The minutes of what `norm_time` gives for a matching cell. */
  lemma NormTimeValue(x: string)
    requires ClockPattern(Clean(x))
    ensures LongClock(NormTime(x))
    ensures TMin(NormTime(x)) == Some(DigitsValue(HourDigits(Clean(x))) * 60 + DigitsValue(MinuteDigits(Clean(x))))
  {
    var s := Clean(x);
    var h := DigitsValue(HourDigits(s));
    var m := DigitsValue(MinuteDigits(s));
    ShortDigitsValue(HourDigits(s));
    ShortDigitsValue(MinuteDigits(s));
    TwoDigitsRoundTrip(h);
    TwoDigitsRoundTrip(m);
    var r := NormTime(x);
    assert r[..2] == TwoDigits(h) && r[3..] == TwoDigits(m);
  }

  /** A cleaned cell that does not match is returned as it is. */
  lemma NormTimeUnmatched(x: string)
    requires !ClockPattern(Clean(x))
    ensures NormTime(x) == Clean(x)
  {
  }

  /** `tmin(norm_time(x))` is defined exactly when `norm_time` matched. */
  lemma NormTimeParsesIffMatched(x: string)
    ensures TMin(NormTime(x)).Some? <==> ClockPattern(Clean(x))
  {
    if ClockPattern(Clean(x)) {
      NormTimeMatched(x);
    } else {
      CleanHasNoFinalNewline(x);
    }
  }

  /** A cell already written as `HH:MM` (after cleaning) is kept as it is. */
  lemma NormTimeKeepsTwoDigitClock(x: string)
    requires LongClock(Clean(x))
    ensures NormTime(x) == Clean(x)
  {
    var s := Clean(x);
    TwoDigitsOfDigits(s[..2]);
    TwoDigitsOfDigits(s[3..]);
  }

  /** `norm_time` is idempotent. */
  lemma NormTimeIdempotent(x: string)
    ensures NormTime(NormTime(x)) == NormTime(x)
  {
    var y := NormTime(x);
    if ClockPattern(Clean(x)) {
      NormTimeMatched(x);
      assert Clean(y) == y by {
        assert forall i :: 0 <= i < |y| ==> y[i] != '.' && !IsSpace(y[i]);
        StripOfStripped(y);
      }
      NormTimeKeepsTwoDigitClock(y);
    } else {
      CleanIdempotent(x);
    }
  }
}
