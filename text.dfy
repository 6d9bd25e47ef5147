/** Decimal rendering of naturals (`n.toString()`), `padStart(2, '0')`, and the
    reading back of digit strings. */
module Text {

  predicate IsDigit(c: char) {
    '0' <= c <= '9'
  }

  predicate AllDigits(s: string) {
    forall i :: 0 <= i < |s| ==> IsDigit(s[i])
  }

  function DigitChar(d: nat): (c: char)
    requires d < 10
    ensures IsDigit(c) && c as int - '0' as int == d
  {
    ('0' as int + d) as char
  }

  /** The decimal digits of `n`, most significant first, with no leading zero. */
  function Show(n: nat): (s: string)
    ensures 1 <= |s| && AllDigits(s)
    ensures n < 10 ==> |s| == 1
    ensures 10 <= n < 100 ==> |s| == 2
  {
    if n < 10 then [DigitChar(n)] else Show(n / 10) + [DigitChar(n % 10)]
  }

  /** The value of a digit string. */
  function ParseDigits(s: string): nat
    requires AllDigits(s)
  {
    if s == [] then 0
    else ParseDigits(s[..|s| - 1]) * 10 + (s[|s| - 1] as int - '0' as int)
  }

  lemma {:induction false} ParseShow(n: nat)
    ensures ParseDigits(Show(n)) == n
  {
    if n >= 10 {
      var s := Show(n);
      assert s[..|s| - 1] == Show(n / 10);
      ParseShow(n / 10);
    }
  }

  /** `padStart(2, '0')`: left-pad with zeros to at least two characters. */
  function Pad2(s: string): (r: string)
    ensures |r| == if |s| >= 2 then |s| else 2
    ensures AllDigits(s) ==> AllDigits(r)
  {
    if |s| >= 2 then s else seq(2 - |s|, _ => '0') + s
  }

  lemma {:induction false} LeadingZero(s: string)
    requires AllDigits(s)
    ensures AllDigits("0" + s) && ParseDigits("0" + s) == ParseDigits(s)
    decreases |s|
  {
    if s != [] {
      var t := "0" + s;
      assert t[..|t| - 1] == "0" + s[..|s| - 1];
      LeadingZero(s[..|s| - 1]);
    }
  }

  /** Padding adds only leading zeros, so the value is kept. */
  lemma ParsePad2(s: string)
    requires AllDigits(s)
    ensures ParseDigits(Pad2(s)) == ParseDigits(s)
  {
    if |s| == 1 {
      assert Pad2(s) == "0" + s;
      LeadingZero(s);
    } else if |s| == 0 {
      assert Pad2(s) == "0" + "0";
      LeadingZero("0");
      LeadingZero("");
    }
  }

  /** The rendering of a number below 100, padded: exactly two digits. */
  lemma ShowPad2(n: nat)
    requires n < 100
    ensures |Pad2(Show(n))| == 2 && AllDigits(Pad2(Show(n))) && ParseDigits(Pad2(Show(n))) == n
  {
    ParseShow(n);
    ParsePad2(Show(n));
  }
}
