/** The two textual forms that become keys and file names. Both are injective. */
module Text {
  import opened Prelude
  import opened Bytes
  import opened Media

  // ---- std::to_string of an integer

  function Digits(n: nat): (s: string)
    ensures |s| >= 1 && '0' <= s[0] <= '9'
  {
    (if n < 10 then "" else Digits(n / 10)) + [('0' as int + n % 10) as char]
  }

  function ToString(v: int): string {
    if v < 0 then "-" + Digits(-v) else Digits(v)
  }

  function DigitsValue(s: string): int {
    if s == "" then 0 else 10 * DigitsValue(s[..|s| - 1]) + (s[|s| - 1] as int - '0' as int)
  }

  lemma {:induction false} DigitsReadBack(n: nat)
    ensures DigitsValue(Digits(n)) == n
  {
    if n >= 10 {
      DigitsReadBack(n / 10);
      assert Digits(n)[..|Digits(n)| - 1] == Digits(n / 10);
    } else {
      assert Digits(n)[..0] == "";
    }
  }

  /** Different integers print differently. */
  lemma ToStringInjective(v: int, w: int)
    requires ToString(v) == ToString(w)
    ensures v == w
  {
    DigitsReadBack(if v < 0 then -v else v);
    DigitsReadBack(if w < 0 then -w else w);
    assert v < 0 <==> w < 0;
    if v < 0 {
      assert Digits(-v) == ToString(v)[1..] == ToString(w)[1..] == Digits(-w);
    }
  }

  /** Decimal digits, and no zero in front of another. */
  predicate IsNumeral(s: string) {
    && s != ""
    && (forall i :: 0 <= i < |s| ==> '0' <= s[i] <= '9')
    && (|s| > 1 ==> s[0] != '0')
  }

  lemma {:induction false} DigitsAreNumeral(n: nat)
    ensures IsNumeral(Digits(n)) && (n > 0 ==> Digits(n)[0] != '0')
  {
    if n >= 10 {
      DigitsAreNumeral(n / 10);
    }
  }

  lemma {:induction false} NumeralIsDigits(s: string)
    requires IsNumeral(s)
    ensures DigitsValue(s) >= 0 && Digits(DigitsValue(s)) == s
    ensures s[0] != '0' ==> DigitsValue(s) > 0
  {
    var n := |s| - 1;
    var front, last := s[..n], s[n] as int - '0' as int;
    assert s == front + [s[n]];
    if n > 0 {
      NumeralIsDigits(front);
      assert DigitsValue(s) / 10 == DigitsValue(front) && DigitsValue(s) % 10 == last;
    } else {
      assert DigitsValue(front) == 0;
    }
  }

  /** What is printed is the one decimal numeral of the integer, behind a minus sign if it
      is negative. */
  lemma ToStringExactly(v: int, s: string)
    ensures s == ToString(v) <==>
            if v < 0 then s != "" && s[0] == '-' && IsNumeral(s[1..]) && DigitsValue(s[1..]) == -v
            else IsNumeral(s) && DigitsValue(s) == v
  {
    hide Digits, DigitsValue, IsNumeral;
    var n := if v < 0 then -v else v;
    DigitsAreNumeral(n);
    DigitsReadBack(n);
    if v < 0 {
      assert ToString(v)[1..] == Digits(n);
      if s != "" && s[0] == '-' && IsNumeral(s[1..]) {
        NumeralIsDigits(s[1..]);
        assert s == "-" + s[1..];
      }
    } else if IsNumeral(s) {
      NumeralIsDigits(s);
    }
  }

  // ---- uuid_unparse

  function HexDigit(n: nat): char
    requires n < 16
  {
    "0123456789abcdef"[n]
  }

  /** The bytes from position i on; a dash stands in front of bytes 4, 6, 8 and 10. */
  function HexFrom(bytes: seq<byte>, i: nat): string {
    if bytes == [] then ""
    else
      (if i == 4 || i == 6 || i == 8 || i == 10 then "-" else "")
      + [HexDigit(bytes[0] / 16), HexDigit(bytes[0] % 16)]
      + HexFrom(bytes[1..], i + 1)
  }

  /** The usual 8-4-4-4-12 form. */
  function Unparse(id: Uuid): string {
    HexFrom(id, 0)
  }

  lemma HexDigitInjective(m: nat, n: nat)
    requires m < 16 && n < 16 && HexDigit(m) == HexDigit(n)
    ensures m == n
  {
  }

  lemma {:induction false} HexFromInjective(a: seq<byte>, b: seq<byte>, i: nat)
    requires HexFrom(a, i) == HexFrom(b, i)
    ensures a == b
  {
    if a != [] && b != [] {
      var s, t := HexFrom(a, i), HexFrom(b, i);
      var n := if i == 4 || i == 6 || i == 8 || i == 10 then 1 else 0;
      assert s[n] == t[n] && s[n + 1] == t[n + 1];
      HexDigitInjective(a[0] / 16, b[0] / 16);
      HexDigitInjective(a[0] % 16, b[0] % 16);
      assert s[n + 2..] == HexFrom(a[1..], i + 1) && t[n + 2..] == HexFrom(b[1..], i + 1);
      HexFromInjective(a[1..], b[1..], i + 1);
      assert a == [a[0]] + a[1..] && b == [b[0]] + b[1..];
    }
  }

  /** Different identifiers print differently. */
  lemma UnparseInjective(a: Uuid, b: Uuid)
    requires Unparse(a) == Unparse(b)
    ensures a == b
  {
    HexFromInjective(a, b, 0);
  }

  /** Where byte i begins: two characters for each byte before it, and the dashes. */
  function Column(i: nat): nat {
    2 * i + (if i < 4 then 0 else if i < 6 then 1 else if i < 8 then 2 else if i < 10 then 3 else 4)
  }

  /** Where the bytes from i on begin, a dash included. */
  function Start(i: nat): nat {
    if i == 4 || i == 6 || i == 8 || i == 10 then Column(i) - 1 else Column(i)
  }

  lemma {:induction false} HexFromAt(bytes: seq<byte>, i: nat, j: nat)
    requires j < |bytes|
    ensures var s := HexFrom(bytes, i);
            && |s| >= Column(i + j) - Start(i) + 2 && Column(i + j) >= Start(i + j) >= Start(i)
            && s[Column(i + j) - Start(i)] == HexDigit(bytes[j] / 16)
            && s[Column(i + j) - Start(i) + 1] == HexDigit(bytes[j] % 16)
            && (Start(i + j) < Column(i + j) ==> s[Start(i + j) - Start(i)] == '-')
  {
    hide Column, Start, HexDigit;
    ColumnFollows(i);
    ColumnFollows(i + j);
    if j > 0 {
      HexFromAt(bytes[1..], i + 1, j - 1);
    }
  }

  lemma ColumnFollows(i: nat)
    ensures Column(i) == Start(i) + if i == 4 || i == 6 || i == 8 || i == 10 then 1 else 0
    ensures Start(i + 1) == Column(i) + 2
  {
  }

  lemma {:induction false} HexFromLength(bytes: seq<byte>, i: nat)
    ensures |HexFrom(bytes, i)| == if bytes == [] then 0 else Column(i + |bytes| - 1) + 2 - Start(i)
  {
    if bytes != [] {
      HexFromLength(bytes[1..], i + 1);
    }
  }

  /** What is printed: 36 characters, dashes in the usual four places, and each byte as two
      hexadecimal digits, high half first. */
  lemma UnparseExactly(id: Uuid, i: nat)
    requires i < 16
    ensures var s := Unparse(id);
            && |s| == 36 && s[8] == '-' && s[13] == '-' && s[18] == '-' && s[23] == '-'
            && s[Column(i)] == "0123456789abcdef"[id[i] / 16] && s[Column(i) + 1] == "0123456789abcdef"[id[i] % 16]
  {
    hide HexFrom;
    HexFromLength(id, 0);
    HexFromAt(id, 0, 4);
    HexFromAt(id, 0, 6);
    HexFromAt(id, 0, 8);
    HexFromAt(id, 0, 10);
    HexFromAt(id, 0, i);
  }
}
