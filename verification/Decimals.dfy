/** `strconv.Itoa`, `strconv.Atoi` and `strings.Split(s, ".")` on 64-bit machine integers. */
module Decimals {
  import opened Characters
  import opened Wrappers

  const MIN_INT := -0x8000_0000_0000_0000
  const MAX_INT := 0x7FFF_FFFF_FFFF_FFFF

  type Int64 = n: int | MIN_INT <= n <= MAX_INT

  function Digit(d: nat): (c: char)
    requires d < 10
    ensures IsDigit(c) && c as int == '0' as int + d
  {
    '0' + d as char
  }

  function Digits(n: nat): string {
    if n < 10 then [Digit(n)] else Digits(n / 10) + [Digit(n % 10)]
  }

  function Itoa(n: Int64): string {
    if n < 0 then "-" + Digits(-(n as int)) else Digits(n)
  }

  function Value(s: string): nat
    requires AllDigits(s)
  {
    if s == [] then 0
    else
      assert s[|s| - 1] in s;
      10 * Value(s[..|s| - 1]) + (s[|s| - 1] as int - '0' as int)
  }

  /** An optional sign and at least one digit, in range; everything else is an error. */
  function Atoi(s: string): Option<Int64> {
    var body := if s != [] && (s[0] == '-' || s[0] == '+') then s[1..] else s;
    if body == [] || !AllDigits(body) then None
    else if s[0] == '-' then (if Value(body) > -MIN_INT then None else Some(-(Value(body) as int)))
    else if Value(body) > MAX_INT then None
    else Some(Value(body))
  }

  lemma {:induction false} ValueOfDigits(n: nat)
    ensures Digits(n) != [] && AllDigits(Digits(n)) && Value(Digits(n)) == n
    decreases n
  {
    var s := Digits(n);
    if n < 10 {
      assert s[..0] == [];
      assert Value(s) == s[0] as int - '0' as int;
    } else {
      ValueOfDigits(n / 10);
      assert s[..|s| - 1] == Digits(n / 10);
    }
  }

  /** Decimal notation: the ten digits, and ten times as much for each place further left. */
  lemma ValueIsDecimal(s: string, c: char)
    requires AllDigits(s) && IsDigit(c)
    ensures AllDigits(s + [c]) && Value(s + [c]) == 10 * Value(s) + Value([c])
    ensures Value("0") == 0 && Value("1") == 1 && Value("2") == 2 && Value("3") == 3 && Value("4") == 4
    ensures Value("5") == 5 && Value("6") == 6 && Value("7") == 7 && Value("8") == 8 && Value("9") == 9
  {
    assert (s + [c])[..|s|] == s;
    assert Value([]) == 0;
    assert forall d: char | IsDigit(d) :: [d][..0] == [] && Value([d]) == d as int - '0' as int;
  }

  lemma {:induction false} NoLeadingZero(n: nat)
    ensures |Digits(n)| > 1 ==> Digits(n)[0] != '0'
    ensures n > 0 ==> Digits(n)[0] != '0'
    decreases n
  {
    if n >= 10 {
      NoLeadingZero(n / 10);
    }
  }

  /** What is printed: a minus sign if it is negative, and then the digits without leading zeros. */
  lemma ItoaIsCanonical(n: Int64)
    ensures var digits := if n < 0 then Itoa(n)[1..] else Itoa(n);
            && Itoa(n) == (if n < 0 then "-" else "") + digits
            && digits != "" && AllDigits(digits) && (|digits| > 1 ==> digits[0] != '0')
            && Value(digits) == if n < 0 then -(n as int) else n
  {
    var m: int := if n < 0 then -(n as int) else n;
    ValueOfDigits(m);
    NoLeadingZero(m);
    assert n < 0 ==> Itoa(n)[1..] == Digits(m);
  }

  /** What is a number: an optional sign of either kind and one digit or more, leading zeros included,
      if the value is in range. */
  lemma AtoiIff(s: string, n: Int64)
    ensures Atoi(s) == Some(n) <==>
            exists sign, digits ::
              && s == sign + digits && sign in {"", "+", "-"} && digits != "" && AllDigits(digits)
              && n == if sign == "-" then -(Value(digits) as int) else Value(digits)
  {
    if Atoi(s) == Some(n) {
      var sign := if s[0] == '-' || s[0] == '+' then s[..1] else "";
      assert s == sign + s[|sign|..];
    }
    forall sign, digits | s == sign + digits && sign in {"", "+", "-"} && digits != "" && AllDigits(digits)
      ensures s[|sign|..] == digits && (sign == "" ==> IsDigit(s[0])) && (sign != "" ==> s[0] == sign[0])
    {
      assert digits[0] in digits;
    }
  }

  /** Parsing undoes printing on every machine integer, the smallest one included. */
  lemma AtoiOfItoa(n: Int64)
    ensures Atoi(Itoa(n)) == Some(n)
    ensures '.' !in Itoa(n)
  {
    var m: int := if n < 0 then -(n as int) else n;
    ValueOfDigits(m);
    var digits := Digits(m);
    assert digits[0] in digits;
    assert ("-" + digits)[1..] == digits;
  }

  /** The parts between the dots; always at least one. */
  function Split(s: string): (parts: seq<string>)
    ensures parts != []
  {
    if s == [] then [[]]
    else if s[0] == '.' then [[]] + Split(s[1..])
    else
      var rest := Split(s[1..]);
      [[s[0]] + rest[0]] + rest[1..]
  }

  function Join(parts: seq<string>): string
    requires parts != []
  {
    if |parts| == 1 then parts[0] else parts[0] + "." + Join(parts[1..])
  }

  /** Splitting loses nothing and leaves no dot inside a part. */
  lemma {:induction false} JoinOfSplit(s: string)
    ensures Join(Split(s)) == s
    ensures forall part <- Split(s) :: '.' !in part
    decreases |s|
  {
    if s != [] {
      JoinOfSplit(s[1..]);
      var rest := Split(s[1..]);
      if s[0] == '.' {
        assert ([[]] + rest)[1..] == rest;
        assert s == "." + s[1..];
      } else {
        var parts := [[s[0]] + rest[0]] + rest[1..];
        assert parts[1..] == rest[1..] && rest[0] in rest;
        assert s == [s[0]] + s[1..];
        forall part <- parts ensures '.' !in part {
          if part != parts[0] {
            assert part in rest[1..];
          }
        }
      }
    }
  }

  lemma {:induction false} SplitAtFirstDot(part: string, rest: string)
    requires '.' !in part
    ensures Split(part) == [part]
    ensures Split(part + "." + rest) == [part] + Split(rest)
    decreases |part|
  {
    if part == [] {
      assert part + "." + rest == "." + rest;
      assert ("." + rest)[1..] == rest;
    } else {
      assert part[0] in part && '.' !in part[1..];
      SplitAtFirstDot(part[1..], rest);
      assert (part + "." + rest)[1..] == part[1..] + "." + rest;
      assert [part[0]] + part[1..] == part;
    }
  }

  lemma SplitTwo(a: string, b: string)
    requires '.' !in a && '.' !in b
    ensures Split(a + "." + b) == [a, b]
  {
    SplitAtFirstDot(a, b);
    SplitAtFirstDot(b, "");
  }

  lemma SplitThree(a: string, b: string, c: string)
    requires '.' !in a && '.' !in b && '.' !in c
    ensures Split(a + "." + b + "." + c) == [a, b, c]
  {
    SplitAtFirstDot(a, b + "." + c);
    SplitTwo(b, c);
    assert a + "." + b + "." + c == a + "." + (b + "." + c);
  }
}
