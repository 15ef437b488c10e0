/** convertVnpDate: the `yyyyMMddHHmmss` timestamp of a payment reply cut
    into the six numbers handed to the `Date` constructor. A field that is
    not all digits converts to NaN, written `None`; the `Date` constructor
    itself (range normalisation, local time zone) is not part of this model. */
module DateUtil {
  import opened Wrappers
  import opened Text

  /** The arguments of `new Date(year, month, day, hour, minute, second)`. */
  datatype DateArgs = DateArgs(
    year: Option<int>, month: Option<int>, day: Option<int>,
    hour: Option<int>, minute: Option<int>, second: Option<int>)

  /** `+text` for a run of decimal digits; the empty string gives 0. */
  function NumberOf(text: string): (n: Option<int>)
    ensures n.Some? <==> AllDigits(text)
    ensures n.Some? ==> n.value == DigitsValue(text) && n.value >= 0
  {
    if AllDigits(text) then Some(DigitsValue(text)) else None
  }

  /** `+text - 1`: NaN stays NaN. */
  function MinusOne(n: Option<int>): Option<int> {
    if n.Some? then Some(n.value - 1) else None
  }

  /** `+text.slice(start, end)`. */
  function Field(text: string, start: nat, end: nat): Option<int> {
    NumberOf(Slice(text, start, end))
  }

  /** convertVnpDate: a field is NaN exactly when its slice holds a
      non-digit; the month is the two digits minus one, so zero-based. */
  function ConvertVnpDate(text: string): (d: DateArgs)
    ensures d.year.Some? <==> AllDigits(Slice(text, 0, 4))
    ensures d.year.Some? ==> d.year.value == DigitsValue(Slice(text, 0, 4))
    ensures d.month.Some? <==> AllDigits(Slice(text, 4, 6))
    ensures d.month.Some? ==> d.month.value == DigitsValue(Slice(text, 4, 6)) - 1 && d.month.value >= -1
    ensures d.day.Some? <==> AllDigits(Slice(text, 6, 8))
    ensures d.day.Some? ==> d.day.value == DigitsValue(Slice(text, 6, 8))
    ensures d.hour.Some? <==> AllDigits(Slice(text, 8, 10))
    ensures d.hour.Some? ==> d.hour.value == DigitsValue(Slice(text, 8, 10))
    ensures d.minute.Some? <==> AllDigits(Slice(text, 10, 12))
    ensures d.minute.Some? ==> d.minute.value == DigitsValue(Slice(text, 10, 12))
    ensures d.second.Some? <==> AllDigits(Slice(text, 12, 14))
    ensures d.second.Some? ==> d.second.value == DigitsValue(Slice(text, 12, 14))
  {
    DateArgs(
      Field(text, 0, 4),
      MinusOne(Field(text, 4, 6)),
      Field(text, 6, 8),
      Field(text, 8, 10),
      Field(text, 10, 12),
      Field(text, 12, 14))
  }

  /** Only the first fourteen characters are read. */
  lemma IgnoresTail(text: string, extra: string)
    requires |text| >= 14
    ensures ConvertVnpDate(text + extra) == ConvertVnpDate(text)
  {
    assert forall a, b :: 0 <= a <= b <= 14 ==> Field(text + extra, a, b) == Field(text, a, b) by {
      forall a, b | 0 <= a <= b <= 14
        ensures Slice(text + extra, a, b) == Slice(text, a, b)
      {
        assert (text + extra)[a..b] == text[a..b];
      }
    }
  }

  // ---------------------------------------------------------------- rendering

  function Pow10(k: nat): (p: nat)
    ensures p >= 1
  {
    if k == 0 then 1 else 10 * Pow10(k - 1)
  }

  /** `n` written with exactly `width` digits, zero-padded on the left. */
  function Padded(n: nat, width: nat): (s: string)
    requires n < Pow10(width)
    ensures |s| == width && AllDigits(s)
  {
    if width == 0 then [] else Padded(n / 10, width - 1) + [DigitChar(n % 10)]
  }

  /** A padded rendering reads back as the number. */
  lemma {:induction false} PaddedValue(n: nat, width: nat)
    requires n < Pow10(width)
    ensures DigitsValue(Padded(n, width)) == n
  {
    if width > 0 {
      var s := Padded(n, width);
      assert s[..|s| - 1] == Padded(n / 10, width - 1);
      PaddedValue(n / 10, width - 1);
    }
  }

  /** The reply's `vnp_PayDate`: year, month (1-12), day, hour, minute and second, zero-padded. */
  function Render(year: nat, month: nat, day: nat, hour: nat, minute: nat, second: nat): (s: string)
    requires year < 10000 && month < 100 && day < 100 && hour < 100 && minute < 100 && second < 100
    ensures |s| == 14
  {
    assert Pow10(2) == 100 && Pow10(4) == 10000;
    Padded(year, 4) + (Padded(month, 2) + (Padded(day, 2) + (Padded(hour, 2) + (Padded(minute, 2) + Padded(second, 2)))))
  }

  /** Slicing behind a prefix is slicing the rest. */
  lemma SliceShift(prefix: string, rest: string, start: nat, end: nat)
    requires start <= end <= |rest|
    ensures Slice(prefix + rest, |prefix| + start, |prefix| + end) == Slice(rest, start, end)
  {
    assert (prefix + rest)[|prefix| + start..|prefix| + end] == rest[start..end];
  }

  /** A padded number at the front of a text reads back as the number. */
  lemma ReadHead(n: nat, width: nat, rest: string)
    requires n < Pow10(width)
    ensures Field(Padded(n, width) + rest, 0, width) == Some(n)
  {
    assert (Padded(n, width) + rest)[0..width] == Padded(n, width);
    PaddedValue(n, width);
  }

  /** A text whose six fields read as the given numbers converts to them, the month one lower. */
  lemma ConvertFromFields(text: string, year: int, month: int, day: int, hour: int, minute: int, second: int)
    requires Field(text, 0, 4) == Some(year) && Field(text, 4, 6) == Some(month) && Field(text, 6, 8) == Some(day)
    requires Field(text, 8, 10) == Some(hour) && Field(text, 10, 12) == Some(minute) && Field(text, 12, 14) == Some(second)
    ensures ConvertVnpDate(text) == DateArgs(Some(year), Some(month - 1), Some(day), Some(hour), Some(minute), Some(second))
  {
  }

  /** Reading a rendered timestamp gives back its fields, the month one lower (zero-based). */
  lemma RenderRoundTrip(year: nat, month: nat, day: nat, hour: nat, minute: nat, second: nat)
    requires year < 10000 && month < 100 && day < 100 && hour < 100 && minute < 100 && second < 100
    ensures ConvertVnpDate(Render(year, month, day, hour, minute, second))
            == DateArgs(Some(year), Some(month - 1), Some(day), Some(hour), Some(minute), Some(second))
  {
    assert Pow10(2) == 100 && Pow10(4) == 10000;
    var y, mo, d, h, mi, se := Padded(year, 4), Padded(month, 2), Padded(day, 2), Padded(hour, 2), Padded(minute, 2), Padded(second, 2);
    var t5 := mi + se;
    var t4 := h + t5;
    var t3 := d + t4;
    var t2 := mo + t3;
    var s := y + t2;
    assert s == Render(year, month, day, hour, minute, second);
    ReadHead(year, 4, t2);
    SliceShift(y, t2, 0, 2); ReadHead(month, 2, t3);
    SliceShift(y, t2, 2, 4); SliceShift(mo, t3, 0, 2); ReadHead(day, 2, t4);
    SliceShift(y, t2, 4, 6); SliceShift(mo, t3, 2, 4); SliceShift(d, t4, 0, 2); ReadHead(hour, 2, t5);
    SliceShift(y, t2, 6, 8); SliceShift(mo, t3, 4, 6); SliceShift(d, t4, 2, 4); SliceShift(h, t5, 0, 2);
    ReadHead(minute, 2, se);
    SliceShift(y, t2, 8, 10); SliceShift(mo, t3, 6, 8); SliceShift(d, t4, 4, 6); SliceShift(h, t5, 2, 4);
    SliceShift(mi, se, 0, 2); ReadHead(second, 2, []);
    assert se + [] == se;
    ConvertFromFields(s, year, month, day, hour, minute, second);
  }
}
