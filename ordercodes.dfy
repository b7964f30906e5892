/**
 * Order codes `FZ-MID-CHECK`: MID is the hour of the year, T = day_of_year * 24
 * + hour, written in base 36 and padded to three characters; CHECK is
 * (order id + T) mod 100 padded to two digits. The calendar enters as the day
 * of the year and the hour of the order date.
 */
module OrderCodes {
  import opened Text

  const Alphabet: string := "0123456789ABCDEFGHIJKLMNOPQRSTUVWXYZ"

  predicate InAlphabet(c: char)
  {
    '0' <= c <= '9' || 'A' <= c <= 'Z'
  }

  /** `chars[d]`: the character for a base-36 digit. */
  function DigitChar36(d: nat): (c: char)
    requires d < 36
    ensures InAlphabet(c)
  {
    if d < 10 then ('0' as int + d) as char else ('A' as int + d - 10) as char
  }

  /** The alphabet string is exactly the digit characters in order. */
  lemma AlphabetAgrees()
    ensures |Alphabet| == 36 && forall d :: 0 <= d < 36 ==> Alphabet[d] == DigitChar36(d)
  {
  }

  /** The position of an alphabet character: its digit value in base 36. */
  function DigitValue(c: char): (d: nat)
    requires InAlphabet(c)
    ensures d < 36 && DigitChar36(d) == c
  {
    if '0' <= c <= '9' then c as int - '0' as int else c as int - 'A' as int + 10
  }

  /** The base-36 digits of n, most significant first, none for 0. */
  function Digits(n: nat): (s: string)
    ensures forall i :: 0 <= i < |s| ==> InAlphabet(s[i])
    ensures n > 0 ==> |s| > 0 && s[0] != '0'
    ensures n == 0 <==> s == []
  {
    if n == 0 then [] else Digits(n / 36) + [DigitChar36(n % 36)]
  }

  /** What `base36_encode(n)` returns: "0" for zero, the digits otherwise. */
  function Base36(n: nat): string
  {
    if n == 0 then "0" else Digits(n)
  }

  /** `base36_encode`: peel off the last digit with `divmod` and prepend it until nothing is left. */
  method Base36Encode(number: nat) returns (s: string)
    ensures s == Base36(number)
  {
    if number == 0 {
      return "0";
    }
    var n := number;
    s := "";
    while n != 0
      invariant Digits(n) + s == Digits(number)
      decreases n
    {
      var d := n % 36;
      n := n / 36;
      s := [DigitChar36(d)] + s;
    }
  }

  /** Reads a base-36 string back into a number. */
  function Base36Value(s: string): nat
    requires forall i :: 0 <= i < |s| ==> InAlphabet(s[i])
  {
    if s == [] then 0 else Base36Value(s[..|s| - 1]) * 36 + DigitValue(s[|s| - 1])
  }

  lemma {:induction false} DigitsRoundTrip(n: nat)
    ensures Base36Value(Digits(n)) == n
  {
    if n > 0 {
      var s := Digits(n);
      assert s[..|s| - 1] == Digits(n / 36);
      DigitsRoundTrip(n / 36);
    }
  }

  /**
   * `base36_encode` is `"0"` for zero; otherwise it uses only `0-9A-Z`, has no
   * leading '0', and reads back as the number it encodes.
   */
  lemma Base36Properties(n: nat)
    ensures Base36(0) == "0"
    ensures forall i :: 0 <= i < |Base36(n)| ==> InAlphabet(Base36(n)[i])
    ensures n > 0 ==> Base36(n)[0] != '0'
    ensures Base36Value(Base36(n)) == n
  {
    if n > 0 {
      DigitsRoundTrip(n);
    }
  }

  /** A number below 36^k has at most k base-36 digits. */
  lemma {:induction false} DigitsLength(n: nat, k: nat)
    requires n < Pow36(k)
    ensures |Digits(n)| <= k
  {
    if n > 0 {
      assert k > 0;
      DigitsLength(n / 36, k - 1);
    }
  }

  function Pow36(k: nat): (p: nat)
    ensures p >= 1
  {
    if k == 0 then 1 else 36 * Pow36(k - 1)
  }

  /** `str.upper` does nothing to the base-36 alphabet. */
  lemma UpperKeepsAlphabet(s: string)
    requires forall i :: 0 <= i < |s| ==> InAlphabet(s[i])
    ensures UpperString(s) == s
  {
  }

  /** T = day_of_year * 24 + hour. */
  function HourOfYear(dayOfYear: int, hour: int): (t: int)
    requires 1 <= dayOfYear <= 366 && 0 <= hour <= 23
    ensures 24 <= t <= 8807 && t < Pow36(3)
  {
    assert Pow36(3) == 46656;
    dayOfYear * 24 + hour
  }

  /** MID: T in base 36, padded to three characters and upper-cased. */
  function Mid(t: nat): (mid: string)
    requires t < Pow36(3)
    ensures |mid| == 3 && forall i :: 0 <= i < 3 ==> InAlphabet(mid[i])
  {
    MidShape(t);
    UpperString(ZFill(Base36(t), 3))
  }

  /** CHECK: c in decimal, padded to two digits. */
  function Check(c: nat): (check: string)
    requires c < 100
    ensures |check| == 2 && AllDigits(check)
  {
    CheckShape(c);
    ZFill(NatToString(c), 2)
  }

  /** The number behind CHECK: (order id + T) mod 100. */
  function CheckNumber(orderId: nat, t: nat): (c: nat)
    ensures c < 100
  {
    (orderId + t) % 100
  }

  /** `generate_order_code(order_id, dt)`; no uniqueness check is made here. */
  function GenerateOrderCode(orderId: nat, dayOfYear: int, hour: int): (code: string)
    requires 1 <= dayOfYear <= 366 && 0 <= hour <= 23
    ensures |code| == 9
  {
    var t := HourOfYear(dayOfYear, hour);
    "FZ-" + Mid(t) + "-" + Check(CheckNumber(orderId, t))
  }

  /** The padded, upper-cased base-36 form of T has three alphabet characters and reads back as T. */
  lemma {:induction false} MidShape(t: nat)
    requires t < Pow36(3)
    ensures var mid := UpperString(ZFill(Base36(t), 3));
            && |mid| == 3 && (forall i :: 0 <= i < 3 ==> InAlphabet(mid[i]))
            && Base36Value(mid) == t
  {
    var b := Base36(t);
    Base36Properties(t);
    if t > 0 { DigitsLength(t, 3); }
    var padded := ZFill(b, 3);
    var z := padded[..3 - |b|];
    assert padded == z + b;
    LeadingZerosBase36(z, b);
    UpperKeepsAlphabet(padded);
  }

  /** The padded decimal form of c < 100 has two digits and reads back as c. */
  lemma {:induction false} CheckShape(c: nat)
    requires c < 100
    ensures var check := ZFill(NatToString(c), 2);
            |check| == 2 && AllDigits(check) && DecimalValue(check) == c
  {
    var digits := NatToString(c);
    if c >= 10 {
      assert Pow10(1) == 10 && Pow10(2) == 100;
      NatToStringLength(c, 2);
    } else {
      assert digits == [DigitChar(c)];
    }
    NatToStringRoundTrip(c);
    ZFillDigits(digits, 2);
  }

  /**
   * Every order code is `FZ-`, MID, `-`, CHECK at fixed positions; MID reads
   * back (base 36) as T = day_of_year * 24 + hour and CHECK reads back
   * (decimal) as (order id + T) mod 100.
   */
  lemma {:induction false} OrderCodeShape(orderId: nat, dayOfYear: int, hour: int)
    requires 1 <= dayOfYear <= 366 && 0 <= hour <= 23
    ensures var code := GenerateOrderCode(orderId, dayOfYear, hour);
            var t := HourOfYear(dayOfYear, hour);
            var c := CheckNumber(orderId, t);
            && t == dayOfYear * 24 + hour && c == (orderId + t) % 100
            && code[..3] == "FZ-" && code[3..6] == Mid(t) && code[6] == '-' && code[7..] == Check(c)
            && Base36Value(Mid(t)) == t && DecimalValue(Check(c)) == c
  {
    var t := HourOfYear(dayOfYear, hour);
    var c := CheckNumber(orderId, t);
    MidShape(t);
    CheckShape(c);
    Cut("FZ-", Mid(t), Check(c));
  }

  lemma Cut(prefix: string, mid: string, check: string)
    requires |prefix| == 3 && |mid| == 3 && |check| == 2
    ensures var s := prefix + mid + "-" + check;
            s[..3] == prefix && s[3..6] == mid && s[6] == '-' && s[7..] == check
  {
    var s := prefix + mid + "-" + check;
    assert s[3..6] == mid;
    assert s[7..] == check;
  }

  /** Zeros on the left do not change a base-36 value. */
  lemma {:induction false} LeadingZerosBase36(z: string, s: string)
    requires forall i :: 0 <= i < |z| ==> z[i] == '0'
    requires forall i :: 0 <= i < |s| ==> InAlphabet(s[i])
    ensures forall i :: 0 <= i < |z + s| ==> InAlphabet((z + s)[i])
    ensures Base36Value(z + s) == Base36Value(s)
  {
    if s == [] {
      assert z + s == z;
      ZerosBase36(z);
    } else {
      var t := z + s;
      assert t[..|t| - 1] == z + s[..|s| - 1];
      LeadingZerosBase36(z, s[..|s| - 1]);
    }
  }

  lemma {:induction false} ZerosBase36(z: string)
    requires forall i :: 0 <= i < |z| ==> z[i] == '0'
    ensures Base36Value(z) == 0
  {
    if z != [] {
      ZerosBase36(z[..|z| - 1]);
    }
  }

  /** T = 1090 is "UA" in base 36, padded to "0UA". */
  lemma MidExample()
    ensures Mid(1090) == "0UA"
  {
    assert DigitChar36(30) == 'U' && DigitChar36(10) == 'A';
    assert Digits(30) == Digits(0) + ['U'];
    assert Digits(1090) == Digits(30) + ['A'];
    assert Base36(1090) == "UA";
    assert Zeros(1) == "0";
    assert ZFill("UA", 3) == "0UA";
    var up := UpperString("0UA");
    assert up[0] == '0' && up[1] == 'U' && up[2] == 'A';
    assert up == "0UA";
  }

  /** The check number 97 is written "97". */
  lemma CheckExample()
    ensures Check(97) == "97"
  {
    assert NatToString(9) == "9";
    assert NatToString(97) == NatToString(9) + [DigitChar(7)];
    assert NatToString(97) == "97";
    assert ZFill("97", 2) == "97";
  }

  /** Order 7 at T = 1090 has check number 97. */
  lemma CheckNumberExample()
    ensures CheckNumber(7, 1090) == 97
  {
  }

  /** Step of OrderCodeExample: day 45 at 10:00 is T = 1090, and order 7 then has check number 97. */
  lemma OrderCodeExampleStep()
    ensures GenerateOrderCode(7, 45, 10) == "FZ-" + Mid(1090) + "-" + Check(97)
  {
    assert HourOfYear(45, 10) == 1090;
    CheckNumberExample();
  }

  /** Order 7 on day 45 at 10:00 gets `FZ-0UA-97`: T = 1090 is "UA" in base 36. */
  lemma OrderCodeExample()
    ensures GenerateOrderCode(7, 45, 10) == "FZ-" + Mid(1090) + "-" + Check(97)
    ensures Mid(1090) == "0UA" && Check(97) == "97"
  {
    OrderCodeExampleStep();
    MidExample();
    CheckExample();
  }
}
