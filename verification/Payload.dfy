/**
 MQTT text of values and commands: src/broker/payload-utils.ts.

 Characters are compared as code units and integers are unbounded. The text of
 a number that is not whole is not modelled.
 */
module Payload {
  import opened Wrappers
  import opened Field

  datatype CommandValue = BoolArgument(flag: bool) | NumberArgument(number: int) | TextArgument(text: string)

  const ON := "ON"
  const OFF := "OFF"

  /** The text published for a bool, a whole non-negative number, a big integer or an enum value. */
  function SerializeValue(value: ParsedValue): Option<string> {
    match value
    case BoolValue(b) => Some(if b then ON else OFF)
    case NumberValue(x) => if x >= 0.0 && x.Floor as real == x then Some(Digits(x.Floor)) else None
    case BigIntValue(n) => Some(Digits(n))
    case EnumValue(name, _) => Some(name)
    case TextValue(_) => None
    case ListValue(_) => None
  }

  predicate IsDigit(c: char) { '0' <= c <= '9' }

  predicate AllDigits(text: string) {
    forall i :: 0 <= i < |text| ==> IsDigit(text[i])
  }

  /** The pattern `^-?\d+$`. */
  predicate IsInteger(text: string) {
    if text != "" && text[0] == '-' then |text| > 1 && AllDigits(text[1..]) else text != "" && AllDigits(text)
  }

  function DigitsValue(text: string): nat
    requires AllDigits(text)
  {
    if text == "" then 0
    else 10 * DigitsValue(text[..|text| - 1]) + (text[|text| - 1] as int - '0' as int)
  }

  function IntegerValue(text: string): int
    requires IsInteger(text)
  {
    if text[0] == '-' then 0 - (DigitsValue(text[1..]) as int) else DigitsValue(text)
  }

  function ParseCommandValue(payload: string): CommandValue {
    if payload == ON then BoolArgument(true)
    else if payload == OFF then BoolArgument(false)
    else if IsInteger(payload) then NumberArgument(IntegerValue(payload))
    else TextArgument(payload)
  }

  /** The words of a switch, published and understood. */
  lemma SwitchWords()
    ensures SerializeValue(BoolValue(true)) == Some("ON") && SerializeValue(BoolValue(false)) == Some("OFF")
    ensures ParseCommandValue("ON") == BoolArgument(true) && ParseCommandValue("OFF") == BoolArgument(false)
  {
  }

  /** A payload is a number iff it is digits, at least one, perhaps after a minus sign. */
  lemma NumberTexts(text: string)
    ensures ParseCommandValue(text).NumberArgument? <==>
            exists digits: string :: AllDigits(digits) && digits != "" && (text == digits || text == "-" + digits)
    ensures forall c: char :: IsDigit(c) <==> c in "0123456789"
  {
    if ParseCommandValue(text).NumberArgument? {
      var digits := if text[0] == '-' then text[1..] else text;
      assert AllDigits(digits);
    }
    forall digits: string | AllDigits(digits) && digits != "" && (text == digits || text == "-" + digits)
      ensures ParseCommandValue(text).NumberArgument?
    {
      assert IsDigit(digits[0]);
      assert text == "-" + digits ==> text[1..] == digits;
    }
  }

  /** Numbers are written without leading zeros. */
  lemma {:induction false} DigitsCanonical(n: nat)
    ensures n > 0 ==> Digits(n)[0] != '0'
    ensures n < 10 ==> |Digits(n)| == 1
    ensures n >= 10 ==> |Digits(n)| == |Digits(n / 10)| + 1
  {
    if n >= 10 {
      DigitsCanonical(n / 10);
    } else {
      DigitIsDigit(n);
    }
  }

  lemma DigitIsDigit(d: nat)
    requires d < 10
    ensures IsDigit(Digit(d)) && Digit(d) as int - '0' as int == d
  {
  }

  lemma {:induction false} DigitsAreDigits(n: nat)
    ensures AllDigits(Digits(n)) && DigitsValue(Digits(n)) == n
  {
    DigitIsDigit(n % 10);
    hide Digit;
    if n < 10 {
      assert Digits(n)[..0] == "";
    } else {
      DigitsAreDigits(n / 10);
      assert Digits(n)[..|Digits(n)| - 1] == Digits(n / 10);
    }
  }

  /** A published number is read back as the same number. */
  lemma NumberRoundTrip(n: nat)
    ensures SerializeValue(NumberValue(n as real)) == Some(Digits(n))
    ensures ParseCommandValue(Digits(n)) == NumberArgument(n)
  {
    DigitsAreDigits(n);
    hide Digits, DigitsValue;
    var text := Digits(n);
    assert IsDigit(text[0]);
  }

  /** So is a negative one, which only a command can hold. */
  lemma NegativeNumber(n: nat)
    ensures ParseCommandValue("-" + Digits(n)) == NumberArgument(0 - (n as int))
  {
    DigitsAreDigits(n);
    hide Digits, DigitsValue;
    var text := "-" + Digits(n);
    assert text[1..] == Digits(n) && text[0] == '-';
  }

  /** "UNKNOWN_…" is neither a switch word nor an integer. */
  lemma UnknownIsText(n: nat)
    ensures ParseCommandValue("UNKNOWN_" + Digits(n)) == TextArgument("UNKNOWN_" + Digits(n))
  {
    var text := "UNKNOWN_" + Digits(n);
    assert text[0] == 'U' && text[1] == 'N' && !IsDigit(text[0]);
  }
}
