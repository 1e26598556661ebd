/** Values shared by the converter, the file-list helpers and the plotter.
    The source keeps its records in loosely typed Python dictionaries; here a
    dictionary value is one of the three kinds the modelled code stores. */
module Common {

  datatype Option<+T> = None | Some(value: T) {
    function GetOr(default: T): T {
      match this
      case Some(v) => v
      case None => default
    }
  }

  /** A scalar stored in a detection list or a configuration entry.
      Numbers are integers: the modelled code only copies and compares them. */
  datatype Value = Num(n: int) | Text(s: string) | Flag(b: bool)

  /** `d.get(key, default)` on a Python dictionary. */
  function Get<K, V>(d: map<K, V>, key: K, default: V): (r: V)
    ensures key in d ==> r == d[key]
    ensures key !in d ==> r == default
  {
    if key in d then d[key] else default
  }

  function DigitChar(d: nat): (c: char)
    requires d < 10
  {
    "0123456789"[d]
  }

  /** Decimal digits of a natural number, most significant first, no leading zeros. */
  function NatToString(n: nat): (s: string)
    ensures |s| >= 1
    ensures forall i :: 0 <= i < |s| ==> '0' <= s[i] <= '9'
    ensures n == 0 <==> s == "0"
    decreases n
  {
    if n < 10 then [DigitChar(n)] else NatToString(n / 10) + [DigitChar(n % 10)]
  }

  /** Python's `str(n)` for an integer. */
  function IntToString(n: int): (s: string)
    ensures |s| >= 1
    ensures n < 0 <==> s[0] == '-'
  {
    if n < 0 then "-" + NatToString(-n) else NatToString(n)
  }

  /** Python's `str(v)` for the value kinds modelled here. */
  function ValueToString(v: Value): (r: string)
    ensures v.Num? ==> |r| >= 1 && (r[0] == '-' <==> v.n < 0)
    ensures v.Flag? ==> r == "True" || r == "False"
  {
    match v
    case Num(n) => IntToString(n)
    case Text(s) => s
    case Flag(b) => if b then "True" else "False"
  }

  /** Reading the digits back gives the number: `str` on integers loses nothing. */
  function ParseDigits(s: string): int {
    if |s| == 0 then 0
    else ParseDigits(s[..|s| - 1]) * 10 + ((s[|s| - 1] as int) - ('0' as int))
  }

  lemma {:induction false} NatToStringRoundTrip(n: nat)
    ensures ParseDigits(NatToString(n)) == n
    decreases n
  {
    var s := NatToString(n);
    if n < 10 {
      DigitValue(n);
      assert s[..0] == "";
    } else {
      NatToStringRoundTrip(n / 10);
      DigitValue(n % 10);
      assert s[..|s| - 1] == NatToString(n / 10);
      assert ParseDigits(s) == (n / 10) * 10 + n % 10;
    }
  }

  lemma DigitValue(d: nat)
    requires d < 10
    ensures (DigitChar(d) as int) - ('0' as int) == d
  {
    if d == 0 { assert DigitChar(0) == '0'; }
    else if d == 1 { assert DigitChar(1) == '1'; }
    else if d == 2 { assert DigitChar(2) == '2'; }
    else if d == 3 { assert DigitChar(3) == '3'; }
    else if d == 4 { assert DigitChar(4) == '4'; }
    else if d == 5 { assert DigitChar(5) == '5'; }
    else if d == 6 { assert DigitChar(6) == '6'; }
    else if d == 7 { assert DigitChar(7) == '7'; }
    else if d == 8 { assert DigitChar(8) == '8'; }
    else { assert DigitChar(9) == '9'; }
  }
}
