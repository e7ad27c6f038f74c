/** The "HH:MM" text stored in an alarm's `time` field: each number is
    rendered with `toString()` and left-padded with "0" to two characters
    by `padStart(2, "0")`, and the two are joined by ":". */
module TimeFormat {
  import opened Seqs

  predicate IsDigit(c: char) {
    '0' <= c <= '9'
  }

  function DigitChar(d: int): (c: char)
    requires 0 <= d <= 9
    ensures IsDigit(c)
  {
    (d + '0' as int) as char
  }

  function DigitValue(c: char): int {
    c as int - '0' as int
  }

  /** The decimal digits of a natural number, most significant first. */
  function NatToString(n: nat): (r: string)
    ensures |r| >= 1
    ensures forall i :: 0 <= i < |r| ==> IsDigit(r[i])
    ensures n < 10 <==> |r| == 1
    ensures 10 <= n < 100 ==> |r| == 2
  {
    if n < 10 then [DigitChar(n)] else NatToString(n / 10) + [DigitChar(n % 10)]
  }

  /** `Number.prototype.toString()` for an integer. */
  function IntToString(n: int): string {
    if n < 0 then "-" + NatToString(-n) else NatToString(n)
  }

  /** `s.padStart(2, "0")`: strings shorter than two characters get "0"s
      in front; longer ones are left alone. */
  function PadStart2(s: string): string {
    if |s| < 2 then seq(2 - |s|, _ => '0') + s else s
  }

  /** One number of the time text: `n.toString().padStart(2, "0")`. */
  function Pad2(n: int): (r: string)
    ensures 0 <= n <= 99 ==> |r| == 2
  {
    PadStart2(IntToString(n))
  }

  /** The `formattedTime` of `addManualAlarm`. */
  function FormatTime(hour: int, minute: int): (r: string)
    ensures 0 <= hour <= 99 && 0 <= minute <= 99 ==> |r| == 5 && r[2] == ':'
  {
    Pad2(hour) + ":" + Pad2(minute)
  }

  /** Reads back "HH:MM" text: two digits, a colon, two digits. */
  function ParseTime(t: string): Option<(int, int)> {
    if |t| == 5 && IsDigit(t[0]) && IsDigit(t[1]) && t[2] == ':' && IsDigit(t[3]) && IsDigit(t[4])
    then Some((10 * DigitValue(t[0]) + DigitValue(t[1]), 10 * DigitValue(t[3]) + DigitValue(t[4])))
    else None
  }

  /** Every number from 0 to 99 pads to exactly its tens digit followed
      by its units digit. */
  lemma Pad2Digits(n: int)
    requires 0 <= n <= 99
    ensures Pad2(n) == [DigitChar(n / 10), DigitChar(n % 10)]
  {
    if n < 10 {
      assert seq(1, _ => '0') == ['0'];
    } else {
      assert NatToString(n) == NatToString(n / 10) + [DigitChar(n % 10)];
    }
  }

  /** Formatting then reading back recovers hour and minute, for every
      pair the two-digit padding covers. */
  lemma FormatThenParse(hour: int, minute: int)
    requires 0 <= hour <= 99 && 0 <= minute <= 99
    ensures ParseTime(FormatTime(hour, minute)) == Some((hour, minute))
  {
    Pad2Digits(hour);
    Pad2Digits(minute);
  }

  /** Every text that reads as "HH:MM" is exactly what formatting the
      numbers it reads gives back, so the format is canonical. */
  lemma ParseThenFormat(t: string)
    requires ParseTime(t).Some?
    ensures var (hour, minute) := ParseTime(t).value;
      0 <= hour <= 99 && 0 <= minute <= 99 && FormatTime(hour, minute) == t
  {
    var (hour, minute) := ParseTime(t).value;
    Pad2Digits(hour);
    Pad2Digits(minute);
    assert FormatTime(hour, minute) == [t[0], t[1], ':', t[3], t[4]];
  }

  /** The example from the form: 9 and 5 give "09:05". */
  lemma NineOhFive()
    ensures FormatTime(9, 5) == "09:05"
  {
    Pad2Digits(9);
    Pad2Digits(5);
  }
}
