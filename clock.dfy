/**
 * The clock of clocks: each decimal digit is drawn as a 6 x 4 grid of small
 * analogue clocks, each cell naming a shape whose two hand angles are given in
 * degrees; the current time in GMT+7 is split into six digit characters.
 */
module Clock {
  import JsString

  /** The two hand angles of one small clock, in degrees. */
  datatype Handles = Handles(handle1: int, handle2: int)

  /** `handleMap`: corner, straight and idle ("i") shapes. */
  const HandleMap: map<string, Handles> := map[
    "tl" := Handles(270, 0),
    "tr" := Handles(90, 0),
    "bl" := Handles(270, 180),
    "br" := Handles(90, 180),
    "v" := Handles(180, 0),
    "h" := Handles(270, 90),
    "i" := Handles(45, 45)
  ]

  type Grid = seq<seq<string>>

  /** The grid of `digitMap["0"]`. */
  const ZeroGrid: Grid := [
    ["tl", "h", "h", "tr"],
    ["v", "tl", "tr", "v"],
    ["v", "v", "v", "v"],
    ["v", "v", "v", "v"],
    ["v", "bl", "br", "v"],
    ["bl", "h", "h", "br"]]

  /** The grid of `digitMap["1"]`. */
  const OneGrid: Grid := [
    ["i", "i", "tl", "tr"],
    ["i", "i", "v", "v"],
    ["i", "i", "v", "v"],
    ["i", "i", "v", "v"],
    ["i", "i", "v", "v"],
    ["i", "i", "bl", "br"]]

  /** The grid of `digitMap["2"]`. */
  const TwoGrid: Grid := [
    ["tl", "h", "h", "tr"],
    ["bl", "h", "tr", "v"],
    ["tl", "h", "br", "v"],
    ["v", "tl", "h", "br"],
    ["v", "bl", "h", "tr"],
    ["bl", "h", "h", "br"]]

  /** The grid of `digitMap["3"]`. */
  const ThreeGrid: Grid := [
    ["tl", "h", "h", "tr"],
    ["bl", "h", "tr", "v"],
    ["tl", "h", "br", "v"],
    ["bl", "h", "tr", "v"],
    ["tl", "h", "br", "v"],
    ["bl", "h", "h", "br"]]

  /** The grid of `digitMap["4"]`. */
  const FourGrid: Grid := [
    ["tl", "tr", "tl", "tr"],
    ["v", "v", "v", "v"],
    ["v", "bl", "br", "v"],
    ["bl", "h", "tr", "v"],
    ["i", "i", "v", "v"],
    ["i", "i", "bl", "br"]]

  /** The grid of `digitMap["5"]`. */
  const FiveGrid: Grid := [
    ["tl", "h", "h", "tr"],
    ["v", "tl", "h", "br"],
    ["v", "bl", "h", "tr"],
    ["bl", "h", "tr", "v"],
    ["tl", "h", "br", "v"],
    ["bl", "h", "h", "br"]]

  /** The grid of `digitMap["6"]`. */
  const SixGrid: Grid := [
    ["tl", "h", "h", "tr"],
    ["v", "tl", "h", "br"],
    ["v", "bl", "h", "tr"],
    ["v", "tl", "tr", "v"],
    ["v", "bl", "br", "v"],
    ["bl", "h", "h", "br"]]

  /** The grid of `digitMap["7"]`. */
  const SevenGrid: Grid := [
    ["tl", "h", "h", "tr"],
    ["bl", "h", "tr", "v"],
    ["i", "i", "v", "v"],
    ["i", "i", "v", "v"],
    ["i", "i", "v", "v"],
    ["i", "i", "bl", "br"]]

  /** The grid of `digitMap["8"]`. */
  const EightGrid: Grid := [
    ["tl", "h", "h", "tr"],
    ["v", "tl", "tr", "v"],
    ["v", "bl", "br", "v"],
    ["v", "tl", "tr", "v"],
    ["v", "bl", "br", "v"],
    ["bl", "h", "h", "br"]]

  /** The grid of `digitMap["9"]`. */
  const NineGrid: Grid := [
    ["tl", "h", "h", "tr"],
    ["v", "tl", "tr", "v"],
    ["v", "bl", "br", "v"],
    ["bl", "h", "tr", "v"],
    ["tl", "h", "br", "v"],
    ["bl", "h", "h", "br"]]

  /** `digitMap`: the grid that draws each of the ten digits. */
  const DigitMap: map<string, Grid> := map[
    "0" := ZeroGrid,
    "1" := OneGrid,
    "2" := TwoGrid,
    "3" := ThreeGrid,
    "4" := FourGrid,
    "5" := FiveGrid,
    "6" := SixGrid,
    "7" := SevenGrid,
    "8" := EightGrid,
    "9" := NineGrid
  ]

  const Rows: nat := 6
  const Columns: nat := 4

  /** Every angle a hand can take. */
  predicate IsHandAngle(a: int) {
    a == 0 || a == 45 || a == 90 || a == 180 || a == 270
  }

  /** A drawable grid: 6 rows of 4 cells, each cell a shape of `handleMap`. */
  predicate WellFormedGrid(g: Grid) {
    |g| == Rows && forall r :: 0 <= r < |g| ==> |g[r]| == Columns && forall c :: 0 <= c < |g[r]| ==> g[r][c] in HandleMap
  }

  /** Every shape points its hands at one of the five hand angles. */
  lemma HandleAngles()
    ensures forall s :: s in HandleMap ==> IsHandAngle(HandleMap[s].handle1) && IsHandAngle(HandleMap[s].handle2)
  {
    assert HandleMap.Keys == {"tl", "tr", "bl", "br", "v", "h", "i"};
  }

  /** A one-character decimal string. */
  predicate IsDigitKey(k: string) {
    |k| == 1 && JsString.IsDigit(k[0])
  }

  /** The ten one-character decimal strings are exactly the keys of `digitMap`. */
  lemma DigitMapKeys()
    ensures forall k :: k in DigitMap <==> IsDigitKey(k)
  {
    assert DigitMap.Keys == {"0", "1", "2", "3", "4", "5", "6", "7", "8", "9"};
    forall k | IsDigitKey(k)
      ensures k in DigitMap
    {
      var d := k[0] as int - '0' as int;
      assert k == ["0123456789"[d]];
    }
  }

  /** Every digit's grid is a well-formed 6 x 4 grid of known shapes. */
  lemma DigitGridsWellFormed()
    ensures forall k :: k in DigitMap ==> WellFormedGrid(DigitMap[k])
  {
    ZeroGridWellFormed(); OneGridWellFormed(); TwoGridWellFormed(); ThreeGridWellFormed();
    FourGridWellFormed(); FiveGridWellFormed(); SixGridWellFormed(); SevenGridWellFormed();
    EightGridWellFormed(); NineGridWellFormed();
    assert DigitMap.Keys == {"0", "1", "2", "3", "4", "5", "6", "7", "8", "9"};
  }

  lemma ShapeKeys()
    ensures HandleMap.Keys == {"tl", "tr", "bl", "br", "v", "h", "i"}
  {
  }

  lemma ZeroGridWellFormed()
    ensures WellFormedGrid(ZeroGrid)
  {
    ShapeKeys();
  }

  lemma OneGridWellFormed()
    ensures WellFormedGrid(OneGrid)
  {
    ShapeKeys();
  }

  lemma TwoGridWellFormed()
    ensures WellFormedGrid(TwoGrid)
  {
    ShapeKeys();
  }

  lemma ThreeGridWellFormed()
    ensures WellFormedGrid(ThreeGrid)
  {
    ShapeKeys();
  }

  lemma FourGridWellFormed()
    ensures WellFormedGrid(FourGrid)
  {
    ShapeKeys();
  }

  lemma FiveGridWellFormed()
    ensures WellFormedGrid(FiveGrid)
  {
    ShapeKeys();
  }

  lemma SixGridWellFormed()
    ensures WellFormedGrid(SixGrid)
  {
    ShapeKeys();
  }

  lemma SevenGridWellFormed()
    ensures WellFormedGrid(SevenGrid)
  {
    ShapeKeys();
  }

  lemma EightGridWellFormed()
    ensures WellFormedGrid(EightGrid)
  {
    ShapeKeys();
  }

  lemma NineGridWellFormed()
    ensures WellFormedGrid(NineGrid)
  {
    ShapeKeys();
  }

  /**
   * `Date.getUTCHours` and friends on a time value in milliseconds since the
   * epoch: whole hours, minutes and seconds since the epoch, each taken modulo
   * its range. Dafny's division by a positive constant rounds down and its
   * remainder is never negative, so times before the epoch are covered too.
   */
  function UtcHours(t: int): (h: nat)
    ensures h < 24
  {
    (t / 3600000) % 24
  }

  function UtcMinutes(t: int): (m: nat)
    ensures m < 60
  {
    (t / 60000) % 60
  }

  function UtcSeconds(t: int): (s: nat)
    ensures s < 60
  {
    (t / 1000) % 60
  }

  /** A positive multiple of a positive number is at least that number. */
  lemma {:induction false} MultipleAtLeast(a: int, c: int)
    requires a >= 1 && c > 0
    ensures a * c >= c
  {
    if a > 1 {
      MultipleAtLeast(a - 1, c);
      assert a * c == (a - 1) * c + c;
    }
  }

  /** Quotient and remainder are the only ones: `x == q * c + r` with `0 <= r < c` fixes both. */
  lemma DivModUnique(x: int, q: int, r: int, c: int)
    requires c > 0 && x == q * c + r && 0 <= r < c
    ensures x / c == q && x % c == r
  {
    var q', r' := x / c, x % c;
    assert x == q' * c + r';
    assert (q' - q) * c == r - r' by {
      assert (q' - q) * c == q' * c - q * c;
    }
    if q' > q {
      MultipleAtLeast(q' - q, c);
    } else if q' < q {
      assert (q - q') * c == r' - r;
      MultipleAtLeast(q - q', c);
    }
  }

  /** Hours, minutes, seconds and milliseconds recompose the time of day. */
  lemma {:induction false} TimeOfDay(t: int)
    ensures UtcHours(t) * 3600000 + UtcMinutes(t) * 60000 + UtcSeconds(t) * 1000 + t % 1000 == t % 86400000
  {
    var d, rd := t / 86400000, t % 86400000;
    var h, rh := rd / 3600000, rd % 3600000;
    var m, rm := rh / 60000, rh % 60000;
    var s, ms := rm / 1000, rm % 1000;
    var hs := d * 24 + h;
    DivModUnique(t, hs, m * 60000 + rm, 3600000);
    DivModUnique(hs, d, h, 24);
    DivModUnique(t, hs * 60 + m, rm, 60000);
    DivModUnique(hs * 60 + m, hs, m, 60);
    DivModUnique(t, (hs * 60 + m) * 60 + s, ms, 1000);
    DivModUnique((hs * 60 + m) * 60 + s, hs * 60 + m, s, 60);
  }

  /** `getGMTPlus7Time`, with the clock reading passed in: seven hours later. */
  function GmtPlus7Time(now: int): (t: int)
    ensures t - now == 25200000
  {
    now + 7 * 60 * 60 * 1000
  }

  /** Shifting by seven hours moves the hour by 7 modulo 24 and keeps minutes and seconds. */
  lemma {:induction false} GmtPlus7Fields(now: int)
    ensures UtcHours(GmtPlus7Time(now)) == (UtcHours(now) + 7) % 24
    ensures UtcMinutes(GmtPlus7Time(now)) == UtcMinutes(now)
    ensures UtcSeconds(GmtPlus7Time(now)) == UtcSeconds(now)
  {
    var t := GmtPlus7Time(now);
    var hs, ms, ss := now / 3600000, now / 60000, now / 1000;
    DivModUnique(t, hs + 7, now % 3600000, 3600000);
    DivModUnique(t, ms + 420, now % 60000, 60000);
    DivModUnique(t, ss + 25200, now % 1000, 1000);
    if hs % 24 + 7 < 24 {
      DivModUnique(hs + 7, hs / 24, hs % 24 + 7, 24);
      DivModUnique(hs % 24 + 7, 0, hs % 24 + 7, 24);
    } else {
      DivModUnique(hs + 7, hs / 24 + 1, hs % 24 + 7 - 24, 24);
      DivModUnique(hs % 24 + 7, 1, hs % 24 + 7 - 24, 24);
    }
    DivModUnique(ms + 420, ms / 60 + 7, ms % 60, 60);
    DivModUnique(ss + 25200, ss / 60 + 420, ss % 60, 60);
  }

  /** A one-character string. */
  function Char(c: char): string { [c] }

  /** Two decimal characters for each of three fields below 100, split into six one-character strings. */
  function PaddedDigits(hours: nat, minutes: nat, seconds: nat): (r: seq<string>)
    requires hours < 100 && minutes < 100 && seconds < 100
    ensures r == [
      Char(JsString.DigitChar(hours / 10)), Char(JsString.DigitChar(hours % 10)),
      Char(JsString.DigitChar(minutes / 10)), Char(JsString.DigitChar(minutes % 10)),
      Char(JsString.DigitChar(seconds / 10)), Char(JsString.DigitChar(seconds % 10))]
  {
    var h := JsString.PadStart(JsString.NatToString(hours), 2, '0');
    var m := JsString.PadStart(JsString.NatToString(minutes), 2, '0');
    var s := JsString.PadStart(JsString.NatToString(seconds), 2, '0');
    JsString.TwoDigitPadding(hours);
    JsString.TwoDigitPadding(minutes);
    JsString.TwoDigitPadding(seconds);
    [Char(h[0]), Char(h[1]), Char(m[0]), Char(m[1]), Char(s[0]), Char(s[1])]
  }

  /**
   * `formatTimeToDigits`: the UTC hours, minutes and seconds, each padded to two
   * decimal characters, split into six one-character strings.
   */
  function FormatTimeToDigits(t: int): (r: seq<string>)
    ensures |r| == 6
    ensures r == [
      Char(JsString.DigitChar(UtcHours(t) / 10)), Char(JsString.DigitChar(UtcHours(t) % 10)),
      Char(JsString.DigitChar(UtcMinutes(t) / 10)), Char(JsString.DigitChar(UtcMinutes(t) % 10)),
      Char(JsString.DigitChar(UtcSeconds(t) / 10)), Char(JsString.DigitChar(UtcSeconds(t) % 10))]
  {
    PaddedDigits(UtcHours(t), UtcMinutes(t), UtcSeconds(t))
  }

  /** Every string `formatTimeToDigits` returns is a key of `digitMap`, so it can be drawn. */
  lemma FormattedDigitsDrawable(t: int)
    ensures forall i :: 0 <= i < |FormatTimeToDigits(t)| ==> FormatTimeToDigits(t)[i] in DigitMap
  {
    PaddedDigitsDrawable(UtcHours(t), UtcMinutes(t), UtcSeconds(t));
  }

  lemma PaddedDigitsDrawable(hours: nat, minutes: nat, seconds: nat)
    requires hours < 100 && minutes < 100 && seconds < 100
    ensures forall i :: 0 <= i < |PaddedDigits(hours, minutes, seconds)| ==> PaddedDigits(hours, minutes, seconds)[i] in DigitMap
  {
    var r := PaddedDigits(hours, minutes, seconds);
    DigitMapKeys();
    assert IsDigitKey(r[0]) && IsDigitKey(r[1]) && IsDigitKey(r[2]);
    assert IsDigitKey(r[3]) && IsDigitKey(r[4]) && IsDigitKey(r[5]);
  }

  /** Each pair of digits reads back as the hours, the minutes and the seconds. */
  lemma FormattedDigitsDenoteTime(t: int)
    ensures JsString.AllDigits(FormatTimeToDigits(t)[0] + FormatTimeToDigits(t)[1])
         && JsString.DigitsValue(FormatTimeToDigits(t)[0] + FormatTimeToDigits(t)[1]) == UtcHours(t)
    ensures JsString.AllDigits(FormatTimeToDigits(t)[2] + FormatTimeToDigits(t)[3])
         && JsString.DigitsValue(FormatTimeToDigits(t)[2] + FormatTimeToDigits(t)[3]) == UtcMinutes(t)
    ensures JsString.AllDigits(FormatTimeToDigits(t)[4] + FormatTimeToDigits(t)[5])
         && JsString.DigitsValue(FormatTimeToDigits(t)[4] + FormatTimeToDigits(t)[5]) == UtcSeconds(t)
  {
    TwoDigitsValue(UtcHours(t));
    TwoDigitsValue(UtcMinutes(t));
    TwoDigitsValue(UtcSeconds(t));
  }

  /** Two digit characters read back as the number they were cut from. */
  lemma TwoDigitsValue(n: nat)
    requires n < 100
    ensures JsString.AllDigits(Char(JsString.DigitChar(n / 10)) + Char(JsString.DigitChar(n % 10)))
    ensures JsString.DigitsValue(Char(JsString.DigitChar(n / 10)) + Char(JsString.DigitChar(n % 10))) == n
  {
    var s := Char(JsString.DigitChar(n / 10)) + Char(JsString.DigitChar(n % 10));
    assert s[..1] == Char(JsString.DigitChar(n / 10));
    assert s[..0] == [];
  }
}
