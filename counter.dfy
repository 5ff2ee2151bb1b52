/**
 * The clock-of-clocks counter: a count kept between 0 and 999 by increment,
 * decrement and reset, drawn as three zero-padded clock digits.
 */
module Counter {
  import JsString
  import Clock

  const MaxCount: int := 999

  /** `Math.min(prev + 1, 999)`. */
  function Incremented(c: int): (r: int)
    ensures 0 <= c <= MaxCount ==> 0 <= r <= MaxCount
    ensures r == c <==> c == MaxCount
    ensures c < MaxCount ==> r == c + 1
  {
    if c + 1 < MaxCount then c + 1 else MaxCount
  }

  /** `Math.max(prev - 1, 0)`. */
  function Decremented(c: int): (r: int)
    ensures 0 <= c <= MaxCount ==> 0 <= r <= MaxCount
    ensures r == c <==> c == 0
    ensures c > 0 ==> r == c - 1
  {
    if c - 1 > 0 then c - 1 else 0
  }

  /** Below the ceiling, a decrement undoes an increment; above the floor, an increment undoes a decrement. */
  lemma StepsUndo(c: int)
    requires 0 <= c <= MaxCount
    ensures c < MaxCount ==> Decremented(Incremented(c)) == c
    ensures c > 0 ==> Incremented(Decremented(c)) == c
  {
  }

  /**
   * `count.toString().padStart(3, "0").split("")`: the characters of the
   * count, padded on the left with zeros to at least three.
   */
  function Digits(c: nat): (r: seq<string>)
    ensures c < 1000 ==> |r| == 3
    ensures c < 1000 ==> r == [
      Clock.Char(JsString.DigitChar(c / 100)),
      Clock.Char(JsString.DigitChar(c / 10 % 10)),
      Clock.Char(JsString.DigitChar(c % 10))]
  {
    var padded := JsString.PadStart(JsString.NatToString(c), 3, '0');
    if c < 1000 then JsString.ThreeDigitPadding(c); Chars(padded) else Chars(padded)
  }

  /** `s.split("")`: one single-character string per character. */
  function Chars(s: string): (r: seq<string>)
    ensures |r| == |s| && forall i :: 0 <= i < |s| ==> r[i] == Clock.Char(s[i])
  {
    seq(|s|, i requires 0 <= i < |s| => Clock.Char(s[i]))
  }

  /** Every digit of a count in range can be drawn. */
  lemma DigitsDrawable(c: nat)
    requires c <= MaxCount
    ensures forall i :: 0 <= i < |Digits(c)| ==> Digits(c)[i] in Clock.DigitMap
  {
    Clock.DigitMapKeys();
  }

  /** The three digits of a count in range read back as the count. */
  lemma DigitsDenoteCount(c: nat)
    requires c <= MaxCount
    ensures JsString.AllDigits(Digits(c)[0] + Digits(c)[1] + Digits(c)[2])
         && JsString.DigitsValue(Digits(c)[0] + Digits(c)[1] + Digits(c)[2]) == c
  {
    ThreeDigitsValue(c);
  }

  /** Three digit characters read back as the number below 1000 they were cut from. */
  lemma ThreeDigitsValue(c: nat)
    requires c < 1000
    ensures JsString.AllDigits(Clock.Char(JsString.DigitChar(c / 100)) + Clock.Char(JsString.DigitChar(c / 10 % 10)) + Clock.Char(JsString.DigitChar(c % 10)))
    ensures JsString.DigitsValue(Clock.Char(JsString.DigitChar(c / 100)) + Clock.Char(JsString.DigitChar(c / 10 % 10)) + Clock.Char(JsString.DigitChar(c % 10))) == c
  {
    var head := Clock.Char(JsString.DigitChar(c / 100)) + Clock.Char(JsString.DigitChar(c / 10 % 10));
    var s := head + Clock.Char(JsString.DigitChar(c % 10));
    assert c / 10 / 10 == c / 100;
    Clock.TwoDigitsValue(c / 10);
    assert s[..2] == head;
    assert c == c / 10 * 10 + c % 10;
  }

  /** The counter component's state. */
  class CounterState {
    var count: int

    ghost predicate Valid()
      reads this
    {
      0 <= count <= MaxCount
    }

    /** `useState(0)`. */
    constructor ()
      ensures Valid() && count == 0
    {
      count := 0;
    }

    method Increment()
      requires Valid()
      modifies this
      ensures Valid() && count == Incremented(old(count))
    {
      count := Incremented(count);
    }

    method Decrement()
      requires Valid()
      modifies this
      ensures Valid() && count == Decremented(old(count))
    {
      count := Decremented(count);
    }

    method Reset()
      modifies this
      ensures Valid() && count == 0
    {
      count := 0;
    }

    /** The three digit strings drawn for the current count. */
    function Display(): (r: seq<string>)
      requires Valid()
      reads this
      ensures |r| == 3 && forall i :: 0 <= i < 3 ==> r[i] in Clock.DigitMap
    {
      DigitsDrawable(count);
      Digits(count)
    }
  }
}
