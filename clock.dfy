/** The `mm:ss` formatter of the focus timer and the app blocker:
    `Math.floor(s / 60)` and `s % 60`, each written in decimal and padded on
    the left with '0' to two characters (`padStart(2, '0')`). */
module Clock {
  import opened Wrappers

  predicate IsDigit(c: char) {
    '0' <= c <= '9'
  }

  predicate AllDigits(s: string) {
    forall i :: 0 <= i < |s| ==> IsDigit(s[i])
  }

  function DigitChar(d: nat): (c: char)
    requires d < 10
    ensures IsDigit(c) && c as int - '0' as int == d
  {
    ('0' as int + d) as char
  }

  /** The number a string of decimal digits denotes (leading zeros allowed). */
  function DigitsValue(s: string): nat
    requires AllDigits(s)
  {
    if s == [] then 0 else DigitsValue(s[..|s| - 1]) * 10 + (s[|s| - 1] as int - '0' as int)
  }

  /** `n.toString()` for a non-negative integer: its decimal digits, with no
      leading zero except for 0 itself. */
  function NatToString(n: nat): (r: string)
    ensures |r| >= 1 && AllDigits(r)
    ensures |r| > 1 ==> r[0] != '0'
    ensures n < 10 <==> |r| == 1
    ensures DigitsValue(r) == n
  {
    if n < 10 then [DigitChar(n)]
    else
      var r := NatToString(n / 10) + [DigitChar(n % 10)];
      assert r[..|r| - 1] == NatToString(n / 10);
      r
  }

  /** `padStart(2, '0')`. */
  function Pad2(s: string): (r: string)
    ensures |s| >= 2 ==> r == s
    ensures |s| < 2 ==> |r| == 2 && r[2 - |s|..] == s && forall i :: 0 <= i < 2 - |s| ==> r[i] == '0'
    decreases 2 - |s|
  {
    if |s| >= 2 then s else Pad2(['0'] + s)
  }

  /** Zeros in front of a digit string do not change its value. */
  lemma {:induction false} LeadingZerosValue(z: string, s: string)
    requires forall i :: 0 <= i < |z| ==> z[i] == '0'
    requires AllDigits(s)
    ensures AllDigits(z + s) && DigitsValue(z + s) == DigitsValue(s)
  {
    if s == [] {
      if z != [] {
        assert (z + s)[..|z + s| - 1] == z[..|z| - 1] + s;
        LeadingZerosValue(z[..|z| - 1], s);
      }
    } else {
      assert (z + s)[..|z + s| - 1] == z + s[..|s| - 1];
      LeadingZerosValue(z, s[..|s| - 1]);
    }
  }

  /** Padding a digit string keeps it a digit string with the same value. */
  lemma Pad2DigitsValue(s: string)
    requires AllDigits(s)
    ensures AllDigits(Pad2(s)) && DigitsValue(Pad2(s)) == DigitsValue(s)
  {
    if |s| < 2 {
      var p := Pad2(s);
      assert p == p[..2 - |s|] + s;
      LeadingZerosValue(p[..2 - |s|], s);
    }
  }

  /** Padding a number's decimal digits keeps its value. */
  lemma Pad2Value(n: nat)
    ensures AllDigits(Pad2(NatToString(n)))
    ensures DigitsValue(Pad2(NatToString(n))) == n
    ensures n < 100 ==> |Pad2(NatToString(n))| == 2
  {
    Pad2DigitsValue(NatToString(n));
    if n < 100 {
      NatToStringBound(n);
    }
  }

  /** A number below 100 has at most two digits. */
  lemma {:induction false} NatToStringBound(n: nat)
    requires n < 100
    ensures |NatToString(n)| <= 2
  {
  }

  /** `formatTime(seconds)`: minutes, a colon, and the two-digit seconds. The
      text reads back as the number it was made from, so no two second counts
      show the same way. */
  function FormatTime(seconds: nat): (r: string)
    ensures |r| >= 5 && r[|r| - 3] == ':'
    ensures AllDigits(r[..|r| - 3]) && DigitsValue(r[..|r| - 3]) == seconds / 60
    ensures AllDigits(r[|r| - 2..]) && DigitsValue(r[|r| - 2..]) == seconds % 60
    ensures seconds < 6000 ==> |r| == 5
    ensures |r| > 5 ==> r[0] != '0'
    ensures ParseTime(r) == Some(seconds)
  {
    var mm := Pad2(NatToString(seconds / 60));
    var ss := Pad2(NatToString(seconds % 60));
    Pad2Value(seconds / 60);
    Pad2Value(seconds % 60);
    JoinFields(mm, ss);
    mm + ":" + ss
  }

  /** Joining two digit fields with a colon keeps both readable. */
  lemma JoinFields(mm: string, ss: string)
    requires |mm| >= 2 && |ss| == 2 && AllDigits(mm) && AllDigits(ss)
    ensures var r := mm + ":" + ss;
      && |r| == |mm| + 3 && r[|r| - 3] == ':'
      && r[..|r| - 3] == mm && r[|r| - 2..] == ss
      && ParseTime(r) == Some(DigitsValue(mm) * 60 + DigitsValue(ss))
  {
    var r := mm + ":" + ss;
    assert r[..|r| - 3] == mm;
    assert r[|r| - 2..] == ss;
  }

  /** Reads `m...m:ss` back as a number of seconds. */
  function ParseTime(t: string): Option<nat> {
    if |t| >= 5 && t[|t| - 3] == ':' && AllDigits(t[..|t| - 3]) && AllDigits(t[|t| - 2..])
    then Some(DigitsValue(t[..|t| - 3]) * 60 + DigitsValue(t[|t| - 2..]))
    else None
  }

  /** Two second counts format the same exactly when they are equal. */
  lemma FormatTimeInjective(a: nat, b: nat)
    ensures FormatTime(a) == FormatTime(b) <==> a == b
  {
  }
}
