/** The invoice's `time` field, `"YYYY/MM/DD HH:MM"`, as each renderer prints it:
    `DD-MM-YYYY` on a silver invoice, `DD/MM/YY h:MM AM|PM` on a gold one. Both
    take the field apart with `split`, so a malformed field does not fail but prints
    `undefined` for a missing part, except that a gold invoice whose time has no
    space fails outright (`time.split` on `undefined`). */
module InvoiceDate {
  import opened Wrappers
  import opened Text

  /** The date of a silver invoice. */
  function SilverDate(time: string): (d: string)
    ensures var ymd := Split(Split(time, ' ')[0], '/');
      |ymd| >= 3 ==> d == ymd[2] + "-" + ymd[1] + "-" + ymd[0]
    ensures var ymd := Split(Split(time, ' ')[0], '/');
      |ymd| < 3 ==> |d| >= 9 && d[..9] == "undefined"
  {
    var datePart := Split(time, ' ')[0];
    var ymd := Split(datePart, '/');
    FirstOfFive(Show(At(ymd, 2)), "-", Show(At(ymd, 1)), "-", ymd[0]);
    Show(At(ymd, 2)) + "-" + Show(At(ymd, 1)) + "-" + ymd[0]
  }

  /** `hours % 12 || 12` on the parsed hour; NaN (`None`) is falsy too. */
  function ClockHour(hours: Option<nat>): (h: nat)
    ensures 1 <= h <= 12
    ensures hours.Some? ==> h % 12 == hours.value % 12
    ensures hours.None? ==> h == 12
  {
    match hours
    case None => 12
    case Some(v) => if v % 12 == 0 then 12 else v % 12
  }

  /** `hours >= 12 ? "PM" : "AM"`; NaN compares false. */
  function Meridiem(hours: Option<nat>): (s: string)
    ensures s == "AM" || s == "PM"
    ensures s == "PM" <==> hours.Some? && hours.value >= 12
  {
    if hours.Some? && hours.value >= 12 then "PM" else "AM"
  }

  /** A string splits at a space into at least two pieces exactly when it has one. */
  lemma SpaceSplits(s: string)
    ensures |Split(s, ' ')| >= 2 <==> ' ' in s
  {
    if ' ' in s {
      var i :| 0 <= i < |s| && s[i] == ' ';
      assert s == s[..i] + [' '] + s[i + 1..];
      SplitConcat(s[..i], s[i + 1..], ' ');
    } else {
      SplitWithout(s, ' ');
    }
  }

  /** `DD/MM/YY` from the date part of a gold invoice's time. */
  function GoldDate(datePart: string): (d: string)
    ensures var ymd := Split(datePart, '/');
      |ymd| >= 3 ==> d == ymd[2] + "/" + ymd[1] + "/" + SliceFromEnd(ymd[0], 2)
    ensures var ymd := Split(datePart, '/');
      |ymd| < 3 ==> |d| >= 9 && d[..9] == "undefined"
  {
    var ymd := Split(datePart, '/');
    FirstOfFive(Show(At(ymd, 2)), "/", Show(At(ymd, 1)), "/", SliceFromEnd(ymd[0], 2));
    Show(At(ymd, 2)) + "/" + Show(At(ymd, 1)) + "/" + SliceFromEnd(ymd[0], 2)
  }

  /** `h:MM AM|PM` from the clock part of a gold invoice's time. */
  function GoldClock(clock: string): (c: string)
    ensures |c| >= 3 && (c[|c| - 3..] == " AM" || c[|c| - 3..] == " PM")
    ensures var hours := ParseInt(Split(clock, ':')[0]);
      c[|c| - 3..] == " PM" <==> hours.Some? && hours.value >= 12
  {
    var hm := Split(clock, ':');
    var hours := ParseInt(hm[0]);
    EndsWithMeridiem(Decimal(ClockHour(hours)) + ":" + Show(At(hm, 1)), Meridiem(hours));
    Decimal(ClockHour(hours)) + ":" + Show(At(hm, 1)) + " " + Meridiem(hours)
  }

  /** A clock string ends with a space and its two-letter meridiem. */
  lemma EndsWithMeridiem(front: string, m: string)
    requires m == "AM" || m == "PM"
    ensures var c := front + " " + m; |c| >= 3 && c[|c| - 3..] == " " + m
    ensures var c := front + " " + m; c[|c| - 3..] == " PM" <==> m == "PM"
  {
    var c := front + " " + m;
    assert c == front + (" " + m);
    assert c[|c| - 2] == m[0];
  }

  /** The date and time of a gold invoice; `None` when the renderer throws. */
  function GoldDateTime(time: string): (r: Option<string>)
    ensures r.Some? <==> ' ' in time
  {
    SpaceSplits(time);
    var halves := Split(time, ' ');
    if |halves| < 2 then None
    else Some(GoldDate(halves[0]) + " " + GoldClock(halves[1]))
  }

  predicate DateParts(y: string, mo: string, d: string)
  {
    AllDigits(y) && AllDigits(mo) && AllDigits(d)
  }

  /** `y/mo/d` of digit strings splits back into its three parts and holds no space. */
  lemma DatePartSplits(y: string, mo: string, d: string)
    requires DateParts(y, mo, d)
    ensures Split(y + "/" + mo + "/" + d, '/') == [y, mo, d]
    ensures ' ' !in y + "/" + mo + "/" + d
  {
    DigitsWithout(y, '/');
    DigitsWithout(mo, '/');
    DigitsWithout(d, '/');
    DigitsWithout(y, ' ');
    DigitsWithout(mo, ' ');
    DigitsWithout(d, ' ');
    JoinSnoc([y], mo, '/');
    JoinSnoc([y, mo], d, '/');
    assert [y, mo] + [d] == [y, mo, d];
    SplitJoin([y, mo, d], '/');
  }

  /** A silver invoice prints day, month and year of a well-formed date, whatever
      follows the first space. */
  lemma SilverDateOfParts(y: string, mo: string, d: string, rest: string)
    requires DateParts(y, mo, d)
    ensures SilverDate(y + "/" + mo + "/" + d + " " + rest) == d + "-" + mo + "-" + y
    ensures SilverDate(y + "/" + mo + "/" + d) == d + "-" + mo + "-" + y
  {
    var datePart := y + "/" + mo + "/" + d;
    DatePartSplits(y, mo, d);
    SplitWithout(datePart, ' ');
    SplitConcat(datePart, rest, ' ');
    assert y + "/" + mo + "/" + d + " " + rest == datePart + [' '] + rest;
  }

  /** The time of a well-formed field: the date part before the space, the clock
      part after it. */
  lemma TimeSplits(y: string, mo: string, d: string, hh: string, mi: string)
    requires DateParts(y, mo, d) && AllDigits(hh) && AllDigits(mi)
    ensures Split(y + "/" + mo + "/" + d + " " + hh + ":" + mi, ' ') == [y + "/" + mo + "/" + d, hh + ":" + mi]
  {
    var datePart := y + "/" + mo + "/" + d;
    var clock := hh + ":" + mi;
    DatePartSplits(y, mo, d);
    DigitsWithout(hh, ' ');
    DigitsWithout(mi, ' ');
    SplitWithout(datePart, ' ');
    SplitWithout(clock, ' ');
    SplitConcat(datePart, clock, ' ');
    var spaced := datePart + " ";
    Assoc(spaced, hh, ":");
    Assoc(spaced, hh + ":", mi);
    assert y + "/" + mo + "/" + d + " " + hh + ":" + mi == datePart + [' '] + clock;
  }

  /** The clock part `HH:MM` on the twelve-hour clock, minutes unchanged. */
  lemma GoldClockOfParts(hh: string, mi: string)
    requires AllDigits(hh) && AllDigits(mi) && hh != ""
    ensures GoldClock(hh + ":" + mi) ==
      Decimal(ClockHour(Some(DigitsValue(hh)))) + ":" + mi + " " + Meridiem(Some(DigitsValue(hh)))
  {
    DigitsWithout(hh, ':');
    DigitsWithout(mi, ':');
    SplitWithout(hh, ':');
    SplitWithout(mi, ':');
    SplitConcat(hh, mi, ':');
    assert hh + ":" + mi == hh + [':'] + mi;
    ParseIntDigits(hh);
    var hm := Split(hh + ":" + mi, ':');
    assert hm == [hh, mi];
    assert ParseInt(hm[0]) == Some(DigitsValue(hh));
    assert Show(At(hm, 1)) == mi;
  }

  /** The date part `YYYY/MM/DD` as `DD/MM/YY`. */
  lemma GoldDateOfParts(y: string, mo: string, d: string)
    requires DateParts(y, mo, d)
    ensures GoldDate(y + "/" + mo + "/" + d) == d + "/" + mo + "/" + SliceFromEnd(y, 2)
  {
    DatePartSplits(y, mo, d);
  }

  /** A gold invoice prints `DD/MM/YY h:MM AM|PM` for a well-formed time: the last two
      digits of the year, the hour on the twelve-hour clock, the minutes unchanged. */
  lemma GoldDateTimeOfParts(y: string, mo: string, d: string, hh: string, mi: string)
    requires DateParts(y, mo, d) && AllDigits(hh) && AllDigits(mi) && hh != ""
    ensures GoldDateTime(y + "/" + mo + "/" + d + " " + hh + ":" + mi) ==
      Some(d + "/" + mo + "/" + SliceFromEnd(y, 2) + " "
        + Decimal(ClockHour(Some(DigitsValue(hh)))) + ":" + mi + " " + Meridiem(Some(DigitsValue(hh))))
  {
    var datePart, clock := y + "/" + mo + "/" + d, hh + ":" + mi;
    var time := y + "/" + mo + "/" + d + " " + hh + ":" + mi;
    TimeSplits(y, mo, d, hh, mi);
    assert Split(time, ' ') == [datePart, clock];
    assert GoldDateTime(time) == Some(GoldDate(datePart) + " " + GoldClock(clock));
    GoldDateOfParts(y, mo, d);
    GoldClockOfParts(hh, mi);
    var hour, noon := Decimal(ClockHour(Some(DigitsValue(hh)))), Meridiem(Some(DigitsValue(hh)));
    var yy := SliceFromEnd(y, 2);
    var front := d + "/" + mo + "/" + yy + " ";
    Assoc(front, hour + ":" + mi + " ", noon);
    Assoc(front, hour + ":" + mi, " ");
    Assoc(front, hour + ":", mi);
    Assoc(front, hour, ":");
  }

  /** A five-part date string starts with its first part. */
  lemma FirstOfFive(a: string, b: string, c: string, d: string, e: string)
    ensures |a + b + c + d + e| >= |a| && (a + b + c + d + e)[..|a|] == a
  {
    assert a + b + c + d + e == a + (b + c + d + e);
  }

  lemma Assoc(a: string, b: string, c: string)
    ensures a + (b + c) == a + b + c
  {
  }

  /** Midnight is 12 AM. */
  lemma MidnightIsTwelveAm()
    ensures GoldClock("00:07") == "12:07 AM"
  {
    ClockExample("00", "07", 0, "12", "AM");
    assert "00" + ":" + "07" == "00:07";
    assert "12" + ":" + "07" + " " + "AM" == "12:07 AM";
  }

  /** Noon is 12 PM. */
  lemma NoonIsTwelvePm()
    ensures GoldClock("12:30") == "12:30 PM"
  {
    ClockExample("12", "30", 12, "12", "PM");
    assert "12" + ":" + "30" == "12:30";
    assert "12" + ":" + "30" + " " + "PM" == "12:30 PM";
  }

  /** Thirteen hundred is 1 PM. */
  lemma ThirteenIsOnePm()
    ensures GoldClock("13:45") == "1:45 PM"
  {
    ClockExample("13", "45", 13, "1", "PM");
    assert "13" + ":" + "45" == "13:45";
    assert "1" + ":" + "45" + " " + "PM" == "1:45 PM";
  }

  lemma ClockExample(hh: string, mi: string, v: nat, hour: string, noon: string)
    requires |hh| == 2 && AllDigits(hh) && AllDigits(mi)
    requires 10 * DigitValue(hh[0]) + DigitValue(hh[1]) == v
    requires Decimal(ClockHour(Some(v))) == hour && Meridiem(Some(v)) == noon
    ensures GoldClock(hh + ":" + mi) == hour + ":" + mi + " " + noon
  {
    GoldClockOfParts(hh, mi);
    var tens := hh[..1];
    assert tens[..0] == [];
    assert DigitsValue(tens) == DigitValue(hh[0]);
    assert hh[..|hh| - 1] == tens;
    assert DigitsValue(hh) == v;
  }
}
