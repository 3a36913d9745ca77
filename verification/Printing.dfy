/**
 * Numbers as text: the printing helpers of src/internal/service/errors.go, and the process handles
 * that src/internal/aion/process.go prints and src/internal/agentfactory/agent_factory.go parses.
 */
module Printing {
  import opened Specs

  const MIN64 := -0x8000_0000_0000_0000
  const MAX64 := 0x7FFF_FFFF_FFFF_FFFF

  type Int64 = n: int | MIN64 <= n <= MAX64 witness 0

  /** Go's unary minus on an int64: the least one is its own negation. */
  function Negate(n: Int64): Int64 {
    if n == MIN64 then MIN64 else -n
  }

  // ------------------------------------------------------------------ decimal text

  function DigitChar(d: nat): char
    requires d < 10
  {
    '0' + d as char
  }

  predicate IsDigit(c: char) {
    '0' <= c <= '9'
  }

  function DigitValue(c: char): (d: nat)
    requires IsDigit(c)
    ensures d < 10
  {
    (c - '0') as nat
  }

  /** Decimal digits without leading zeros; none for zero. */
  function Digits(n: nat): string {
    if n == 0 then "" else Digits(n / 10) + [DigitChar(n % 10)]
  }

  /** The number a text of digits spells. */
  function Value(s: string): nat
    requires forall c :: c in s ==> IsDigit(c)
  {
    if s == "" then 0 else 10 * Value(s[..|s| - 1]) + DigitValue(s[|s| - 1])
  }

  function Power(k: nat): nat {
    if k == 0 then 1 else 10 * Power(k - 1)
  }

  lemma {:induction false} DigitsSpell(n: nat)
    ensures forall c :: c in Digits(n) ==> IsDigit(c)
    ensures Value(Digits(n)) == n && (n > 0 ==> Digits(n) != "")
  {
    if n > 0 {
      DigitsSpell(n / 10);
      var s := Digits(n);
      assert s[..|s| - 1] == Digits(n / 10);
    }
  }

  lemma {:induction false} DigitsFit(n: nat, k: nat)
    requires n < Power(k)
    ensures |Digits(n)| <= k
  {
    if n > 0 {
      DigitsFit(n / 10, k - 1);
    }
  }

  lemma Int64HasNineteenDigits(n: nat)
    requires n <= MAX64
    ensures |Digits(n)| <= 19
  {
    assert Power(3) == 1_000 && Power(5) == 100_000 && Power(7) == 10_000_000 && Power(9) == 1_000_000_000;
    assert Power(11) == 100_000_000_000 && Power(13) == 10_000_000_000_000 && Power(15) == 1_000_000_000_000_000;
    assert Power(17) == 100_000_000_000_000_000 && Power(19) == 10_000_000_000_000_000_000;
    DigitsFit(n, 19);
  }

  /** What intToString writes. */
  function Decimal(n: Int64): string {
    if n == 0 then "0" else if n < 0 then "-" + Digits(if n == MIN64 then 0 else -n) else Digits(n)
  }

  /** The 20-byte buffer is filled from its end; no index leaves it. */
  method IntToString(n: Int64) returns (s: string)
    ensures s == Decimal(n)
  {
    if n == 0 {
      return "0";
    }
    var neg, m: Int64 := false, n;
    if n < 0 {
      neg := true;
      m := Negate(n);
    }
    var buf := new char[20](_ => '0');
    var i := buf.Length;
    ghost var whole: nat := if m > 0 then m else 0;
    Int64HasNineteenDigits(whole);
    while m > 0
      invariant 0 <= i <= 20 && |Digits(if m > 0 then m else 0)| <= i - 1
      invariant Digits(whole) == Digits(if m > 0 then m else 0) + buf[i..]
      decreases if m > 0 then m else 0
    {
      i := i - 1;
      buf[i] := DigitChar(m % 10);
      assert buf[i..] == [buf[i]] + buf[i + 1..];
      m := m / 10;
    }
    if neg {
      i := i - 1;
      buf[i] := '-';
      assert buf[i..] == ['-'] + buf[i + 1..];
    }
    s := buf[i..];
  }

  // ------------------------------------------------------------------ parsing it back

  /** strconv.Atoi: an optional sign, at least one digit, nothing else, and a value in range. */
  function Atoi(s: string): Option<Int64> {
    var signed := s != "" && (s[0] == '+' || s[0] == '-');
    var digits := if signed then s[1..] else s;
    if digits == "" || exists c :: c in digits && !IsDigit(c) then None
    else
      var v: int := if signed && s[0] == '-' then 0 - Value(digits) else Value(digits);
      if MIN64 <= v <= MAX64 then Some(v) else None
  }

  /** Printing and parsing give the number back exactly when it is not the least int64, which prints as "-". */
  lemma ParseOfPrint(n: Int64)
    ensures Atoi(Decimal(n)) == Some(n) <==> n != MIN64
    ensures n == MIN64 ==> Decimal(n) == "-" && Atoi(Decimal(n)) == None
  {
    if n != 0 && n != MIN64 {
      ParseOfDigits(if n < 0 then -n else n);
      hide Atoi, Digits;
    } else if n == 0 {
      assert Value("0") == 10 * Value("0"[..0]) + 0;
    }
  }

  lemma ParseOfDigits(m: int)
    requires 0 < m <= MAX64
    ensures Atoi(Digits(m)) == Some(m) && Atoi("-" + Digits(m)) == Some(-m)
  {
    DigitsSpell(m);
    assert Digits(m)[0] in Digits(m);
    assert ("-" + Digits(m))[1..] == Digits(m);
  }

  /** Different numbers print differently. */
  lemma PrintIsInjective(m: Int64, n: Int64)
    requires Decimal(m) == Decimal(n)
    ensures m == n
  {
    ParseOfPrint(m);
    ParseOfPrint(n);
  }

  // ------------------------------------------------------------------ sizes

  const KIB := 1024
  const MIB := 1024 * KIB

  function Padded(n: Int64): string {
    if n < 10 then "0" + Decimal(n) else Decimal(n)
  }

  method PadTwo(n: Int64) returns (s: string)
    ensures s == Padded(n)
  {
    s := IntToString(n);
    if n < 10 {
      s := "0" + s;
    }
  }

  lemma ValueOfTwo(a: char, b: char)
    requires IsDigit(a) && IsDigit(b)
    ensures Value([a, b]) == 10 * DigitValue(a) + DigitValue(b)
  {
    assert [a, b][..1] == [a] && [a][..0] == "";
    assert Value([a]) == DigitValue(a);
  }

  lemma PaddedHasTwoDigits(n: Int64)
    requires 0 <= n < 100
    ensures Padded(n) == [DigitChar(n / 10), DigitChar(n % 10)]
    ensures |Padded(n)| == 2 && IsDigit(Padded(n)[0]) && IsDigit(Padded(n)[1]) && Value(Padded(n)) == n
  {
    ValueOfTwo(DigitChar(n / 10), DigitChar(n % 10));
    assert n / 10 / 10 == 0 && Digits(0) == "";
    if n >= 10 {
      assert Digits(n / 10) == Digits(n / 10 / 10) + [DigitChar(n / 10 % 10)] == [DigitChar(n / 10)];
    } else if n > 0 {
      assert n / 10 == 0 && Digits(n) == [DigitChar(n)];
    }
    hide Value;
  }

  /** The hundredths of a unit that whole units leave over. */
  function Leftover(n: nat, size: nat): (f: nat)
    requires size > 0
    ensures f < 100
  {
    HundredthsFloor(n, size);
    n % size * 100 / size
  }

  /** Whole units, two fraction digits and the unit. */
  function Fractional(n: Int64, size: Int64, unit: string): string
    requires size > 0 && n >= 0
  {
    AtMost(n, size);
    Decimal(n / size) + "." + Padded(Leftover(n, size)) + unit
  }

  method FormatBytes(n: Int64) returns (s: string)
    ensures n >= MIB && n % MIB == 0 ==> s == Decimal(n / MIB) + ".00 MiB"
    ensures n >= MIB && n % MIB != 0 ==> s == Fractional(n, MIB, " MiB")
    ensures KIB <= n < MIB && n % KIB == 0 ==> s == Decimal(n / KIB) + " KiB"
    ensures KIB <= n < MIB && n % KIB != 0 ==> s == Fractional(n, KIB, " KiB")
    ensures n < KIB ==> s == Decimal(n) + " B"
  {
    if n >= MIB && n % MIB == 0 {
      s := IntToString(n / MIB);
      s := s + ".00 MiB";
    } else if n >= MIB {
      var whole := n / MIB;
      var frac := n % MIB * 100 / MIB;
      var w := IntToString(whole);
      var f := PadTwo(frac);
      s := w + "." + f + " MiB";
    } else if n >= KIB && n % KIB == 0 {
      s := IntToString(n / KIB);
      s := s + " KiB";
    } else if n >= KIB {
      var whole := n / KIB;
      var frac := n % KIB * 100 / KIB;
      var w := IntToString(whole);
      var f := PadTwo(frac);
      s := w + "." + f + " KiB";
    } else {
      s := IntToString(n);
      s := s + " B";
    }
  }

  function Floor(x: nat, size: nat): nat
    requires size > 0
  {
    x / size
  }

  lemma FloorBounds(x: nat, size: nat)
    requires size > 0
    ensures x == Floor(x, size) * size + x % size && x % size < size
  {
  }

  lemma Distribute(a: nat, b: nat, size: nat)
    ensures (a + b) * size == a * size + b * size
  {
  }

  lemma FloorMonotone(a: nat, b: nat, size: nat)
    requires a <= b
    ensures a * size <= b * size
  {
    Distribute(a, b - a, size);
  }

  /** The floor is the one number whose multiple comes within `size` below. */
  lemma FloorUnique(x: nat, f: nat, rest: nat, size: nat)
    requires size > 0 && x == f * size + rest && rest < size
    ensures Floor(x, size) == f
  {
    FloorBounds(x, size);
    var g := Floor(x, size);
    hide Floor;
    if g < f {
      FloorMonotone(g + 1, f, size);
      Distribute(g, 1, size);
    } else if f < g {
      FloorMonotone(f + 1, g, size);
      Distribute(f, 1, size);
    }
  }

  lemma HundredthsFloor(n: nat, size: nat)
    requires size > 0
    ensures n % size * 100 / size < 100
    ensures 100 * (n / size) + n % size * 100 / size == 100 * n / size
  {
    var q, r := Floor(n, size), n % size;
    var f, rest := Floor(r * 100, size), r * 100 % size;
    assert n / size == q && r * 100 / size == f && 100 * n / size == Floor(100 * n, size);
    FloorBounds(n, size);
    FloorBounds(r * 100, size);
    hide Floor;
    if f >= 100 {
      FloorMonotone(100, f, size);
    }
    calc {
      100 * n;
      100 * (q * size) + r * 100;
      100 * (q * size) + f * size + rest;
      { Hundredfold(q, size); Distribute(100 * q, f, size); }
      (100 * q + f) * size + rest;
    }
    FloorUnique(100 * n, 100 * q + f, rest, size);
  }

  lemma Hundredfold(q: nat, size: nat)
    ensures (100 * q) * size == 100 * (q * size)
  {
  }

  lemma MoveTen(v: nat, p: nat)
    ensures v * (10 * p) == 10 * (v * p)
  {
  }

  lemma {:induction false} ValueAppend(s: string, t: string)
    requires forall c :: c in s + t ==> IsDigit(c)
    ensures (forall c :: c in s ==> IsDigit(c)) && (forall c :: c in t ==> IsDigit(c))
    ensures Value(s + t) == Value(s) * Power(|t|) + Value(t)
  {
    assert forall c :: c in s ==> c in s + t;
    assert forall c :: c in t ==> c in s + t;
    if t == "" {
      assert s + t == s;
    } else {
      var front := t[..|t| - 1];
      assert (s + t)[..|s + t| - 1] == s + front;
      assert forall c :: c in s + front ==> c in s + t;
      ValueAppend(s, front);
      MoveTen(Value(s), Power(|front|));
    }
  }

  /**
   * In its fractional cases formatBytes prints exactly two digits after the point, and the digits
   * before and after it, read as one number, are the size in hundredths of a unit rounded down.
   */
  lemma FractionIsFloorOfHundredths(n: Int64, size: Int64, unit: string)
    requires n >= size > 0
    ensures n / size <= MAX64
    ensures var whole, two := Decimal(n / size), Padded(Leftover(n, size));
      && Fractional(n, size, unit) == whole + "." + two + unit && |two| == 2
      && (forall c :: c in whole + two ==> IsDigit(c)) && Value(whole + two) == 100 * n / size
  {
    HundredthsFloor(n, size);
    AtLeastOne(n, size);
    AtMost(n, size);
    hide Decimal, Padded, Value;
    ReadsAsHundredths(n / size, Leftover(n, size));
  }

  lemma AtMost(n: nat, size: nat)
    requires size > 0
    ensures n / size <= n
  {
    FloorBounds(n, size);
    FloorMonotone(1, size, Floor(n, size));
  }

  lemma AtLeastOne(n: nat, size: nat)
    requires n >= size > 0
    ensures n / size >= 1
  {
    FloorBounds(n, size);
  }

  /** The text of the whole units followed by the two digits, read as one number. */
  lemma ReadsAsHundredths(w: Int64, f: Int64)
    requires w > 0 && 0 <= f < 100
    ensures |Padded(f)| == 2 && (forall c :: c in Decimal(w) + Padded(f) ==> IsDigit(c))
    ensures Value(Decimal(w) + Padded(f)) == 100 * w + f
  {
    DigitsSpell(w);
    PaddedHasTwoDigits(f);
    assert Decimal(w) == Digits(w);
    var two := Padded(f);
    assert forall c :: c in two ==> c == two[0] || c == two[1];
    assert Power(2) == 100;
    ValueAppend(Digits(w), two);
  }

  // ------------------------------------------------------------------ process handles

  const PREFIX := "proc-"

  /** fmt's "proc-%d-%s". */
  function ProcessHandle(pid: Int64, uuid: string): string {
    PREFIX + Decimal(pid) + "-" + uuid
  }

  /** fmt's "mock-%d-%s". */
  function MockHandle(counter: Int64, uuid: string): string {
    "mock-" + Decimal(counter) + "-" + uuid
  }

  function IndexOf(s: string, c: char): (k: nat)
    ensures k <= |s| && c !in s[..k] && (k < |s| ==> s[k] == c)
  {
    if s == "" || s[0] == c then 0
    else
      var k := 1 + IndexOf(s[1..], c);
      assert s[..k] == [s[0]] + s[1..][..k - 1];
      k
  }

  function ParsePID(handle: string): Option<Int64> {
    if !(PREFIX <= handle) then None
    else
      var rest := handle[|PREFIX|..];
      var dash := IndexOf(rest, '-');
      if dash == |rest| then None else Atoi(rest[..dash])
  }

  /** The PID of a handle that the process runtime printed comes back exactly if it is not negative. */
  lemma PidRoundTrips(pid: Int64, uuid: string)
    requires pid > MIN64
    ensures ParsePID(ProcessHandle(pid, uuid)) == Some(pid) <==> pid >= 0
    ensures pid < 0 ==> ParsePID(ProcessHandle(pid, uuid)) == None
  {
    var handle, d := ProcessHandle(pid, uuid), Decimal(pid);
    var rest := handle[|PREFIX|..];
    assert rest == d + "-" + uuid;
    if pid < 0 {
      IndexIs(rest, '-', 0);
    } else {
      DigitsSpell(pid);
      assert rest[..|d|] == d && '-' !in d && rest[|d|] == '-';
      IndexIs(rest, '-', |d|);
      ParseOfPrint(pid);
    }
  }

  lemma {:induction false} IndexIs(s: string, c: char, j: nat)
    requires j < |s| && s[j] == c && c !in s[..j]
    ensures IndexOf(s, c) == j
  {
    if j > 0 {
      assert s[0] in s[..j];
      assert s[1..][..j - 1] == s[..j][1..];
      IndexIs(s[1..], c, j - 1);
    }
  }

  lemma MockHandlesHaveNoPid(counter: Int64, uuid: string)
    ensures ParsePID(MockHandle(counter, uuid)) == None
  {
    assert MockHandle(counter, uuid)[0] == 'm' && PREFIX[0] == 'p';
  }
}
