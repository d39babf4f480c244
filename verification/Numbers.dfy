/** Decimal text: six-digit build names and the wrapping number parser of the core. */
module Numbers {
  import opened Text

  const TWO32 := 0x1_0000_0000
  const TWO64 := 0x1_0000_0000_0000_0000
  const MAX_BUILD := 999999

  predicate IsDigit(c: char) { '0' <= c <= '9' }

  predicate AllDigits(s: string) { forall c :: c in s ==> IsDigit(c) }

  function DigitChar(d: nat): (c: char)
    requires d < 10
    ensures IsDigit(c)
  {
    ('0' as int + d) as char
  }

  function DigitValue(c: char): (d: nat)
    requires IsDigit(c)
    ensures d < 10
  {
    c as int - '0' as int
  }

  /** Decimal digits of n without leading zeros, as operator<< prints an unsigned number. */
  function Digits(n: nat): (s: string)
    ensures s != "" && AllDigits(s)
  {
    if n < 10 then [DigitChar(n)] else Digits(n / 10) + [DigitChar(n % 10)]
  }

  /** How operator<< prints an int. */
  function Print(e: int): string
  {
    if e < 0 then "-" + Digits(-e) else Digits(e)
  }

  /** The number a run of digits denotes. */
  function Value(s: string): nat
    requires AllDigits(s)
  {
    if s == "" then 0 else 10 * Value(s[..|s| - 1]) + DigitValue(s[|s| - 1])
  }

  function Zeros(k: nat): (s: string)
    ensures |s| == k && AllDigits(s)
  {
    if k == 0 then "" else Zeros(k - 1) + "0"
  }

  /** setfill('0') << setw(6) << n: padded to six characters, never cut. */
  function NumberString(n: nat): (s: string)
    ensures AllDigits(s)
  {
    var d := Digits(n);
    if |d| < 6 then Zeros(6 - |d|) + d else d
  }

  predicate IsBuild(name: string) { |name| == 6 && AllDigits(name) }

  // ---- build names ---------------------------------------------------------------------

  function Pow10(k: nat): (p: nat)
    ensures p >= 1
  {
    if k == 0 then 1 else 10 * Pow10(k - 1)
  }

  lemma {:induction false} DigitsValue(n: nat)
    ensures Value(Digits(n)) == n
  {
    if n >= 10 {
      DigitsValue(n / 10);
      var s := Digits(n);
      assert s[..|s| - 1] == Digits(n / 10);
    } else {
      assert Digits(n)[..0] == "";
    }
  }

  lemma {:induction false} DigitsBounds(n: nat)
    ensures n < Pow10(|Digits(n)|)
    ensures n == 0 || Pow10(|Digits(n)| - 1) <= n
  {
    if n >= 10 { DigitsBounds(n / 10); }
  }

  lemma {:induction false} ValueBelow(s: string)
    requires AllDigits(s)
    ensures Value(s) < Pow10(|s|)
  {
    if s != "" { ValueBelow(s[..|s| - 1]); }
  }

  lemma ValueSnoc(s: string, c: char)
    requires AllDigits(s) && IsDigit(c)
    ensures AllDigits(s + [c]) && Value(s + [c]) == 10 * Value(s) + DigitValue(c)
  {
    assert (s + [c])[..|s|] == s;
  }

  lemma {:induction false} ZerosValue(k: nat)
    ensures Value(Zeros(k)) == 0
  {
    if k > 0 {
      ZerosValue(k - 1);
      ValueSnoc(Zeros(k - 1), '0');
    }
  }

  lemma {:induction false} ValuePadded(k: nat, s: string)
    requires AllDigits(s)
    ensures Value(Zeros(k) + s) == Value(s)
  {
    if s == "" {
      assert Zeros(k) + s == Zeros(k);
      ZerosValue(k);
    } else {
      var rest, c := s[..|s| - 1], s[|s| - 1];
      ValuePadded(k, rest);
      ValueSnoc(Zeros(k) + rest, c);
      assert Zeros(k) + s == Zeros(k) + rest + [c];
    }
  }

  /** Two digit runs of one length that denote one number are the same text. */
  lemma {:induction false} ValueInjective(s: string, t: string)
    requires AllDigits(s) && AllDigits(t) && |s| == |t|
    requires Value(s) == Value(t)
    ensures s == t
  {
    if s != "" {
      var k := |s| - 1;
      assert Value(s[..k]) == Value(t[..k]) && DigitValue(s[k]) == DigitValue(t[k]);
      ValueInjective(s[..k], t[..k]);
      assert s == s[..k] + [s[k]] && t == t[..k] + [t[k]];
    }
  }

  /** Printed numbers parse back, and the print is a build name exactly up to 999999. */
  lemma NumberStringRoundTrip(n: nat)
    ensures Value(NumberString(n)) == n
    ensures IsBuild(NumberString(n)) <==> n <= MAX_BUILD
  {
    DigitsValue(n);
    DigitsBounds(n);
    var d := Digits(n);
    if |d| < 6 { ValuePadded(6 - |d|, d); }
    PowersOfTen();
    if |d| > 6 { PowMonotone(6, |d| - 1); }
    if |d| <= 6 { PowMonotone(|d|, 6); }
  }

  lemma PowersOfTen()
    ensures Pow10(6) == 1000000
  {
    assert Pow10(1) == 10;
    assert Pow10(2) == 100;
    assert Pow10(3) == 1000;
    assert Pow10(4) == 10000;
    assert Pow10(5) == 100000;
  }

  lemma {:induction false} PowMonotone(i: nat, j: nat)
    requires i <= j
    ensures Pow10(i) <= Pow10(j)
  {
    if i < j { PowMonotone(i, j - 1); }
  }

  /** Every build name is the print of exactly one number, which is at most 999999. */
  lemma BuildNameRoundTrip(name: string)
    requires IsBuild(name)
    ensures Value(name) <= MAX_BUILD
    ensures NumberString(Value(name)) == name
  {
    ValueBelow(name);
    PowersOfTen();
    NumberStringRoundTrip(Value(name));
    ValueInjective(NumberString(Value(name)), name);
  }

  /** What a build name looks like: six digits and nothing else. */
  lemma BuildNameShape(name: string)
    ensures IsBuild(name) <==> |name| == 6 && forall i :: 0 <= i < 6 ==> '0' <= name[i] <= '9'
    ensures forall n: nat :: n <= 999999 ==> |NumberString(n)| == 6
  {
    if |name| == 6 {
      assert AllDigits(name) <==> forall i :: 0 <= i < 6 ==> IsDigit(name[i]);
    }
    forall n: nat | n <= 999999 ensures |NumberString(n)| == 6 { NumberStringRoundTrip(n); }
  }

  /** Directory order of build names is numeric order. */
  lemma {:induction false} BuildNameOrder(s: string, t: string)
    requires AllDigits(s) && AllDigits(t) && |s| == |t|
    ensures Less(s, t) <==> Value(s) < Value(t)
  {
    if s != "" {
      ValueHead(s);
      ValueHead(t);
      ValueBelow(s[1..]);
      ValueBelow(t[1..]);
      BuildNameOrder(s[1..], t[1..]);
      Positional(DigitValue(s[0]), DigitValue(t[0]), Pow10(|s| - 1), Value(s[1..]), Value(t[1..]));
    }
  }

  lemma Positional(a: nat, b: nat, p: nat, x: nat, y: nat)
    requires x < p && y < p
    ensures a * p + x < b * p + y <==> a < b || (a == b && x < y)
  {
    if a < b {
      assert (a + 1) * p <= b * p;
    } else if b < a {
      assert (b + 1) * p <= a * p;
    }
  }

  lemma {:induction false} ValueHead(s: string)
    requires AllDigits(s) && s != ""
    ensures Value(s) == DigitValue(s[0]) * Pow10(|s| - 1) + Value(s[1..])
  {
    if |s| > 1 {
      var k := |s| - 1;
      ValueHead(s[..k]);
      var middle := s[1..k];
      assert s[..k][1..] == middle && s[1..][..k - 1] == middle && s[1..][k - 1] == s[k];
      Horner(DigitValue(s[0]), Pow10(k - 1), Value(middle), DigitValue(s[k]));
    }
  }

  lemma Horner(a: nat, p: nat, x: nat, d: nat)
    ensures 10 * (a * p + x) + d == a * (10 * p) + (10 * x + d)
  {
  }

  // ---- u32_from_string -----------------------------------------------------------------

  predicate IsSpace(c: char) { c == ' ' || '\t' <= c <= '\r' }

  function SkipSpace(s: string): string
  {
    if s != "" && IsSpace(s[0]) then SkipSpace(s[1..]) else s
  }

  /** The longest leading run of digits. */
  function DigitRun(s: string): (d: string)
    ensures AllDigits(d)
  {
    if s != "" && IsDigit(s[0]) then [s[0]] + DigitRun(s[1..]) else ""
  }

  /** std::stoul with 64-bit unsigned long: white space, one optional sign, digits; anything
      after them is ignored. None stands for the exceptions it throws. */
  function StrToUl(s: string): Option<nat>
  {
    var t := SkipSpace(s);
    var negative := t != "" && t[0] == '-';
    var d := DigitRun(if negative || (t != "" && t[0] == '+') then t[1..] else t);
    if d == "" || Value(d) >= TWO64 then None
    else Some(if negative then (TWO64 - Value(d)) % TWO64 else Value(d))
  }

  /** u32_from_string: the conversion to uint32_t keeps the low 32 bits. */
  function U32FromString(s: string): Option<nat>
  {
    match StrToUl(s)
    case None => None
    case Some(v) => Some(v % TWO32)
  }

  lemma {:induction false} DigitRunAll(d: string)
    requires AllDigits(d)
    ensures DigitRun(d) == d
  {
    if d != "" { DigitRunAll(d[1..]); }
  }

  /** A text that starts with a sign or digit has no space to skip. */
  lemma NumberText(s: string)
    requires s != "" && (s[0] == '-' || IsDigit(s[0]))
    ensures SkipSpace(s) == s
  {
  }

  lemma {:induction false} SpacesSkipped(b: string, s: string)
    requires forall c :: c in b ==> IsSpace(c)
    requires s == "" || !IsSpace(s[0])
    ensures SkipSpace(b + s) == s
  {
    if b == "" {
      assert b + s == s;
    } else {
      SpacesSkipped(b[1..], s);
      assert (b + s)[1..] == b[1..] + s;
    }
  }

  lemma {:induction false} DigitRunEnds(d: string, rest: string)
    requires AllDigits(d) && (rest == "" || !IsDigit(rest[0]))
    ensures DigitRun(d + rest) == d
  {
    if d == "" {
      assert d + rest == rest;
    } else {
      DigitRunEnds(d[1..], rest);
      assert (d + rest)[1..] == d[1..] + rest;
    }
  }

  /** The digits behind an optional sign. */
  lemma DigitsBehind(sign: string, d: string, rest: string, t: string)
    requires sign == "" || sign == "+" || sign == "-"
    requires AllDigits(d) && (rest == "" || !IsDigit(rest[0])) && t == sign + d + rest
    requires sign == "" && d == "" && rest != "" ==> rest[0] != '+' && rest[0] != '-'
    ensures DigitRun(if t != "" && (t[0] == '-' || t[0] == '+') then t[1..] else t) == d
    ensures t != "" && t[0] == '-' <==> sign == "-"
  {
    DigitRunEnds(d, rest);
    if sign == "" {
      assert t == d + rest;
      assert d != "" ==> d[0] in d && t[0] == d[0];
      assert d == "" ==> t == rest;
    } else {
      assert t[0] == sign[0] && t[1..] == d + rest;
    }
  }

  /** The number in any text: blanks, an optional sign, digits, and anything that does not go on with a
      digit. Without a digit in that place there is none. */
  lemma NumberInText(b: string, sign: string, d: string, rest: string)
    requires (forall c :: c in b ==> IsSpace(c)) && (sign == "" || sign == "+" || sign == "-")
    requires AllDigits(d) && (rest == "" || !IsDigit(rest[0]))
    requires sign == "" && d == "" && rest != "" ==> rest[0] != '+' && rest[0] != '-' && !IsSpace(rest[0])
    ensures U32FromString(b + (sign + d + rest)) ==
            if d == "" || Value(d) >= TWO64 then None
            else if sign == "-" then Some((TWO64 - Value(d)) % TWO64 % TWO32) else Some(Value(d) % TWO32)
  {
    var t := sign + d + rest;
    FirstIsNoSpace(sign, d, rest, t);
    SpacesSkipped(b, t);
    DigitsBehind(sign, d, rest, t);
  }

  lemma FirstIsNoSpace(sign: string, d: string, rest: string, t: string)
    requires sign == "" || sign == "+" || sign == "-"
    requires AllDigits(d) && t == sign + d + rest
    requires sign == "" && d == "" && rest != "" ==> !IsSpace(rest[0])
    ensures t == "" || !IsSpace(t[0])
  {
    if sign == "" {
      assert t == d + rest;
      assert d != "" ==> d[0] in d && t[0] == d[0];
      assert d == "" ==> t == rest;
    } else {
      assert t[0] == sign[0];
    }
  }

  /** A printed number reads back modulo 2^32 if it fits 64 bits and not at all otherwise; a keep count
      in job.conf therefore counts as 0 exactly for multiples of 2^32 below 2^64. */
  lemma PrintedNumber(n: nat)
    ensures U32FromString(Digits(n)) == if n < TWO64 then Some(n % TWO32) else None
  {
    DigitsValue(n);
    DigitRunAll(Digits(n));
    NumberText(Digits(n));
  }

  lemma Negated(m: nat)
    requires 0 < m <= 0x8000_0000
    ensures (TWO64 - m) % TWO64 % TWO32 == TWO32 - m
    ensures (0 - m) % TWO32 == TWO32 - m
  {
    assert TWO64 == TWO32 * TWO32;
  }

  /** A printed exit code reads back modulo 2^32, so it reads back as 0 exactly when it is 0. */
  lemma ExitCodeRoundTrip(e: int)
    requires -0x8000_0000 <= e < 0x8000_0000
    ensures U32FromString(Print(e)) == Some(e % TWO32)
    ensures U32FromString(Print(e)) == Some(0) <==> e == 0
  {
    if e < 0 {
      var m := -e;
      DigitsValue(m);
      DigitRunAll(Digits(m));
      NumberText(Print(e));
      assert Print(e)[1..] == Digits(m);
      Negated(m);
    } else {
      PrintedNumber(e);
    }
  }

  /** The text of exitcode.txt: the code and a line end, of which getline takes the code. */
  function FirstLine(text: string): string { text[..IndexOf(text, '\n')] }

  /** The first line is what stands before the first newline, or everything. */
  lemma FirstLineIs(a: string, rest: string)
    requires '\n' !in a
    ensures FirstLine(a) == a && FirstLine(a + "\n" + rest) == a
  {
    IndexOfUnique(a, '\n', |a|);
    assert a[..|a|] == a;
    var s := a + "\n" + rest;
    assert s[..|a|] == a;
    IndexOfUnique(s, '\n', |a|);
  }

  lemma ExitFileRoundTrip(e: int)
    requires -0x8000_0000 <= e < 0x8000_0000
    ensures U32FromString(FirstLine(Print(e) + "\n")) == Some(e % TWO32)
    ensures e % TWO32 == 0 <==> e == 0
  {
    var s := Print(e);
    assert forall c :: c in s ==> c == '-' || IsDigit(c);
    assert (s + "\n")[..|s|] == s;
    IndexOfUnique(s + "\n", '\n', |s|);
    ExitCodeRoundTrip(e);
  }

  /** The empty text is no number: a missing or empty exit code file means "pending". */
  lemma NoNumber()
    ensures U32FromString("") == None
  {
    assert DigitRun("") == "";
  }
}
