/** `DateTime.formatUptime`: an uptime in milliseconds written as days, hours, minutes,
    seconds and milliseconds, leaving out every part that is not positive. */
module DateTime {
  import opened JavaLang

  const UnitSecond: int := 1000
  const UnitMinute: int := 60 * UnitSecond
  const UnitHour: int := 60 * UnitMinute
  const UnitDay: int := 24 * UnitHour

  /** The five parts of an uptime. */
  datatype Parts = Parts(days: int, hours: int, minutes: int, seconds: int, millis: int)

  function Total(p: Parts): int
  {
    p.days * UnitDay + p.hours * UnitHour + p.minutes * UnitMinute + p.seconds * UnitSecond + p.millis
  }

  /** Each part is what is left after the larger ones, divided by its unit with Java's
      truncating division. The products stay within `long` because each is at most the
      uptime in magnitude. */
  function Decompose(uptime: int): (p: Parts)
    ensures Total(p) == uptime
    ensures uptime >= 0 ==>
              p.days >= 0 && 0 <= p.hours < 24 && 0 <= p.minutes < 60 && 0 <= p.seconds < 60 && 0 <= p.millis < 1000
    ensures uptime <= 0 ==>
              p.days <= 0 && p.hours <= 0 && p.minutes <= 0 && p.seconds <= 0 && p.millis <= 0
  {
    var days := TruncDiv(uptime, UnitDay);
    var hours := TruncDiv(uptime - days * UnitDay, UnitHour);
    var minutes := TruncDiv(uptime - (days * UnitDay + hours * UnitHour), UnitMinute);
    var seconds := TruncDiv(uptime - (days * UnitDay + hours * UnitHour + minutes * UnitMinute), UnitSecond);
    var millis := uptime - (days * UnitDay + hours * UnitHour + minutes * UnitMinute + seconds * UnitSecond);
    TruncDivSplit(uptime, UnitDay);
    TruncDivSplit(uptime - days * UnitDay, UnitHour);
    TruncDivSplit(uptime - (days * UnitDay + hours * UnitHour), UnitMinute);
    TruncDivSplit(uptime - (days * UnitDay + hours * UnitHour + minutes * UnitMinute), UnitSecond);
    Parts(days, hours, minutes, seconds, millis)
  }

  /** Truncating division by a positive unit leaves a remainder of the dividend's sign
      and smaller than the unit. */
  lemma TruncDivSplit(a: int, unit: int)
    requires unit > 0
    ensures a >= 0 ==> 0 <= a - TruncDiv(a, unit) * unit < unit && TruncDiv(a, unit) >= 0
    ensures a <= 0 ==> -unit < a - TruncDiv(a, unit) * unit <= 0 && TruncDiv(a, unit) <= 0
  {
    var q := TruncDiv(a, unit);
    if a >= 0 {
      assert q == a / unit;
    } else {
      assert -q == (-a) / unit;
    }
  }

  /** One part of the text: its value and suffix when positive, nothing otherwise. */
  function Piece(value: int, suffix: string): string
  {
    if value > 0 then DecimalString(value) + suffix else ""
  }

  /** `formatUptime(uptime)`; a null `Long` fails when it is unboxed. */
  function FormatUptime(uptime: Nullable<int>): (r: Result<string>)
    ensures uptime.Null? <==> r.Err?
    ensures uptime.Null? ==> r.error.kind == NullPointer
  {
    if uptime.Null? then Throw(NullPointer, "null")
    else
      var p := Decompose(uptime.value);
      Ok(Piece(p.days, "d ") + Piece(p.hours, "h ") + Piece(p.minutes, "m ") + Piece(p.seconds, "s ")
         + Piece(p.millis, "ms"))
  }

  // ------------------------------------------------------------------ lemmas

  /** The text is empty exactly when the uptime is not positive. */
  lemma EmptyIffNotPositive(uptime: int)
    ensures FormatUptime(NonNull(uptime)) == Ok("") <==> uptime <= 0
  {
    var p := Decompose(uptime);
    var text := Piece(p.days, "d ") + Piece(p.hours, "h ") + Piece(p.minutes, "m ") + Piece(p.seconds, "s ")
                + Piece(p.millis, "ms");
    assert FormatUptime(NonNull(uptime)) == Ok(text);
    if uptime > 0 {
      assert p.days > 0 || p.hours > 0 || p.minutes > 0 || p.seconds > 0 || p.millis > 0;
      assert |text| > 0;
    }
  }

  /** A whole second has no millisecond part, so its text ends with a space. */
  lemma OneSecond()
    ensures FormatUptime(NonNull(1000)) == Ok("1s ")
  {
    DecomposeUnique(1000, Parts(0, 0, 0, 1, 0));
    assert Piece(1, "s ") == "1s ";
    assert FormatUptime(NonNull(1000)).value == "" + "" + "" + "1s " + "";
    assert "" + "" + "" + "1s " + "" == "1s ";
  }

  /** One of each unit gives every part, in order. */
  lemma OneOfEach()
    ensures FormatUptime(NonNull(UnitDay + UnitHour + UnitMinute + UnitSecond + 1)) == Ok("1d 1h 1m 1s 1ms")
  {
    DecomposeUnique(UnitDay + UnitHour + UnitMinute + UnitSecond + 1, Parts(1, 1, 1, 1, 1));
    assert Piece(1, "d ") == "1d " && Piece(1, "h ") == "1h " && Piece(1, "m ") == "1m ";
    assert Piece(1, "s ") == "1s " && Piece(1, "ms") == "1ms";
    assert "1d " + "1h " + "1m " + "1s " + "1ms" == "1d 1h 1m 1s 1ms";
  }

  /** Division by a positive unit has one quotient and remainder. */
  lemma DivUnique(a: int, unit: int, q: int, r: int)
    requires unit > 0 && q >= 0 && a == q * unit + r && 0 <= r < unit
    ensures TruncDiv(a, unit) == q
  {
    if q > 0 {
      MulAtLeast(q, unit);
    }
    assert a >= 0;
    var t := TruncDiv(a, unit);
    TruncDivSplit(a, unit);
    if t < q {
      MulAtLeast(q - t, unit);
      assert false;
    } else if t > q {
      MulAtLeast(t - q, unit);
      assert false;
    }
  }

  lemma MulAtLeast(x: int, unit: int)
    requires x >= 1 && unit > 0
    ensures x * unit >= unit
  {
    assert x * unit == (x - 1) * unit + unit;
  }

  /** The parts are the unique mixed-radix digits of a non-negative uptime: any parts
      within the same bounds that add up to it are these. */
  lemma DecomposeUnique(uptime: int, q: Parts)
    requires uptime >= 0 && Total(q) == uptime
    requires q.days >= 0 && 0 <= q.hours < 24 && 0 <= q.minutes < 60 && 0 <= q.seconds < 60 && 0 <= q.millis < 1000
    ensures Decompose(uptime) == q
  {
    var afterSeconds := q.millis;
    var afterMinutes := q.seconds * UnitSecond + afterSeconds;
    var afterHours := q.minutes * UnitMinute + afterMinutes;
    var afterDays := q.hours * UnitHour + afterHours;
    assert 0 <= afterMinutes < UnitMinute;
    assert 0 <= afterHours < UnitHour;
    assert 0 <= afterDays < UnitDay;
    DivUnique(uptime, UnitDay, q.days, afterDays);
    DivUnique(uptime - q.days * UnitDay, UnitHour, q.hours, afterHours);
    DivUnique(uptime - (q.days * UnitDay + q.hours * UnitHour), UnitMinute, q.minutes, afterMinutes);
    DivUnique(uptime - (q.days * UnitDay + q.hours * UnitHour + q.minutes * UnitMinute), UnitSecond, q.seconds, afterSeconds);
  }
}
