/**
 The few java.lang.String and Integer operations the modelled code relies on,
 restricted to ASCII: decimal rendering ("%d"), Integer.parseInt, String.trim,
 equalsIgnoreCase and contains.
 */
module Text {
  import opened Wrappers

  const INT_MIN: int := -0x8000_0000
  const INT_MAX: int := 0x7fff_ffff

  predicate IsDigit(c: char) {
    '0' <= c <= '9'
  }

  predicate AllDigits(s: string) {
    forall i :: 0 <= i < |s| ==> IsDigit(s[i])
  }

  function DigitChar(d: nat): (c: char)
    requires d < 10
    ensures IsDigit(c) && c as int - '0' as int == d
  {
    ('0' as int + d) as char
  }

  /** The decimal digits of n, most significant first, without leading zeros. */
  function NatToString(n: nat): (s: string)
    ensures |s| >= 1 && AllDigits(s)
    decreases n
  {
    if n < 10 then [DigitChar(n)] else NatToString(n / 10) + [DigitChar(n % 10)]
  }

  /** Java's decimal rendering of an int, as String.format("%d", n) gives it. */
  function IntToString(n: int): string {
    if n < 0 then "-" + NatToString(-n) else NatToString(n)
  }

  /** The number a string of decimal digits denotes. */
  function DigitsValue(s: string): nat
    requires AllDigits(s)
    decreases |s|
  {
    if s == [] then 0 else DigitsValue(s[..|s| - 1]) * 10 + (s[|s| - 1] as int - '0' as int)
  }

  function InIntRange(n: int): Option<int> {
    if INT_MIN <= n <= INT_MAX then Some(n) else None
  }

  /** Integer.parseInt(s) for ASCII digits: an optional sign, then at least one
      digit, and a value that fits in 32 bits. None stands for the
      NumberFormatException it throws otherwise. */
  function ParseInt(s: string): (r: Option<int>)
    ensures r.Some? ==> INT_MIN <= r.value <= INT_MAX
    ensures s == "" ==> r == None
  {
    if s == "" then None
    else if s[0] == '-' || s[0] == '+' then
      var digits := s[1..];
      if digits == "" || !AllDigits(digits) then None
      else
        var magnitude: int := DigitsValue(digits);
        InIntRange(if s[0] == '-' then -magnitude else magnitude)
    else if AllDigits(s) then InIntRange(DigitsValue(s))
    else None
  }

  lemma {:induction false} DigitsValueOfNatToString(n: nat)
    ensures DigitsValue(NatToString(n)) == n
    decreases n
  {
    var s := NatToString(n);
    if n >= 10 {
      DigitsValueOfNatToString(n / 10);
      assert s[..|s| - 1] == NatToString(n / 10);
    }
  }

  /** Integer.parseInt reads back every int that "%d" writes. */
  lemma ParseIntRoundTrip(n: int)
    requires INT_MIN <= n <= INT_MAX
    ensures ParseInt(IntToString(n)) == Some(n)
  {
    var s := IntToString(n);
    if n < 0 {
      DigitsValueOfNatToString(-n);
      assert s[1..] == NatToString(-n);
    } else {
      DigitsValueOfNatToString(n);
      assert !IsDigit('-') && !IsDigit('+');
    }
  }

  /** Conversely, whatever Integer.parseInt accepts is an optional sign then
      at least one ASCII digit, denoting the value it returns; a plus sign
      and leading zeros are accepted, so "+10" and "010" both read as 10. */
  lemma ParseIntAccepts(s: string)
    requires ParseInt(s).Some?
    ensures |s| >= 1
    ensures s[0] == '-' ==> |s| >= 2 && AllDigits(s[1..]) && ParseInt(s).value + DigitsValue(s[1..]) == 0
    ensures s[0] == '+' ==> |s| >= 2 && AllDigits(s[1..]) && ParseInt(s).value == DigitsValue(s[1..])
    ensures s[0] != '-' && s[0] != '+' ==> AllDigits(s) && ParseInt(s).value == DigitsValue(s)
  {
  }

  lemma ParseIntExamples()
    ensures ParseInt("+10") == Some(10) && ParseInt("010") == Some(10) && ParseInt("-7") == Some(-7)
    ensures ParseInt(" 10") == None && ParseInt("+") == None && ParseInt("2147483648") == None
  {
    assert "+10"[1..] == "10" && "10"[..1] == "1";
    assert DigitsValue("10") == 10;
    assert ParseInt("+10") == Some(10);
    assert "010"[..2] == "01" && "01"[..1] == "0";
    assert DigitsValue("010") == 10;
    assert "-7"[1..] == "7";
    assert !IsDigit(' ');
    assert AllDigits("2147483648");
    assert DigitsValue("2147483648") == 2147483648 by {
      assert "2147483648"[..9] == "214748364";
      assert "214748364"[..8] == "21474836";
      assert "21474836"[..7] == "2147483";
      assert "2147483"[..6] == "214748";
      assert "214748"[..5] == "21474";
      assert "21474"[..4] == "2147";
      assert "2147"[..3] == "214";
      assert "214"[..2] == "21";
      assert "21"[..1] == "2";
    }
  }

  /** Characters that String.trim removes: every char at or below U+0020. */
  predicate IsTrimmable(c: char) {
    c <= ' '
  }

  predicate AllTrimmable(s: string) {
    forall i :: 0 <= i < |s| ==> IsTrimmable(s[i])
  }

  function TrimStart(s: string): (t: string)
    decreases |s|
  {
    if s != [] && IsTrimmable(s[0]) then TrimStart(s[1..]) else s
  }

  function TrimEnd(s: string): (t: string)
    decreases |s|
  {
    if s != [] && IsTrimmable(s[|s| - 1]) then TrimEnd(s[..|s| - 1]) else s
  }

  /** Java's String.trim. */
  function Trim(s: string): string {
    TrimEnd(TrimStart(s))
  }

  lemma {:induction false} TrimStartEmptyIff(s: string)
    ensures TrimStart(s) == [] <==> AllTrimmable(s)
    ensures TrimStart(s) != [] ==> !IsTrimmable(TrimStart(s)[0])
    decreases |s|
  {
    if s != [] && IsTrimmable(s[0]) {
      TrimStartEmptyIff(s[1..]);
      assert AllTrimmable(s) <==> AllTrimmable(s[1..]) by {
        if AllTrimmable(s[1..]) {
          forall i | 0 <= i < |s| ensures IsTrimmable(s[i]) {
            if i > 0 { assert s[i] == s[1..][i - 1]; }
          }
        }
      }
    }
  }

  lemma {:induction false} TrimEndKeepsFirst(s: string)
    requires s != [] && !IsTrimmable(s[0])
    ensures TrimEnd(s) != [] && TrimEnd(s)[0] == s[0]
    decreases |s|
  {
    if IsTrimmable(s[|s| - 1]) {
      TrimEndKeepsFirst(s[..|s| - 1]);
    }
  }

  /** `s.trim().isEmpty()` holds exactly when every character of s is at or
      below U+0020 (the empty string included). */
  lemma TrimIsEmptyIff(s: string)
    ensures Trim(s) == [] <==> AllTrimmable(s)
  {
    TrimStartEmptyIff(s);
    if TrimStart(s) != [] {
      TrimEndKeepsFirst(TrimStart(s));
    }
  }

  function LowerAscii(c: char): char {
    if 'A' <= c <= 'Z' then (c as int + 32) as char else c
  }

  /** String.equalsIgnoreCase, restricted to ASCII letters. */
  predicate EqualsIgnoreCase(a: string, b: string) {
    |a| == |b| && forall i :: 0 <= i < |a| ==> LowerAscii(a[i]) == LowerAscii(b[i])
  }

  /** part occurs in s starting at index i. */
  predicate OccursAt(s: string, part: string, i: int) {
    0 <= i <= |s| - |part| && s[i..i + |part|] == part
  }

  /** String.contains: tries each starting position from the left. */
  predicate Contains(s: string, part: string)
    decreases |s|
  {
    if |s| < |part| then false
    else s[..|part|] == part || Contains(s[1..], part)
  }

  lemma {:induction false} ContainsIff(s: string, part: string)
    ensures Contains(s, part) <==> exists i :: OccursAt(s, part, i)
    decreases |s|
  {
    if |s| >= |part| && s[..|part|] != part {
      assert |s| > 0;
      ContainsIff(s[1..], part);
      if Contains(s[1..], part) {
        var i :| OccursAt(s[1..], part, i);
        assert s[i + 1..i + 1 + |part|] == part;
        assert OccursAt(s, part, i + 1);
      }
      if exists i :: OccursAt(s, part, i) {
        var i :| OccursAt(s, part, i);
        assert i != 0;
        assert s[1..][i - 1..i - 1 + |part|] == part;
        assert OccursAt(s[1..], part, i - 1);
      }
    } else if |s| >= |part| {
      assert OccursAt(s, part, 0);
    }
  }
}
