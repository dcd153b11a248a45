/** Revision numerals: `v<n>` strings, read with `strconv.Atoi` into a uint64 and written back with
    `strconv.Itoa` (pkg/pkgrev/util.go). All machine arithmetic is spelled out. */
module Numerals {
  import opened Options
  import opened Strings

  const TWO_63: int := 0x8000_0000_0000_0000
  const TWO_64: int := 0x1_0000_0000_0000_0000

  // ---------- the conversions uint64(int) and int(uint64) ----------

  function ToUint64(i: int): nat {
    i % TWO_64
  }

  function ToInt64(u: int): int {
    var w := u % TWO_64;
    if w < TWO_63 then w else w - TWO_64
  }

  // ---------- strconv ----------

  predicate IsDigit(c: char) {
    '0' <= c <= '9'
  }

  predicate AllDigits(s: string) {
    forall i :: 0 <= i < |s| ==> IsDigit(s[i])
  }

  function Digit(d: nat): (c: char)
    requires d < 10
    ensures IsDigit(c) && c as int - '0' as int == d
  {
    '0' + d as char
  }

  function Decimal(n: nat): string {
    if n < 10 then [Digit(n)] else Decimal(n / 10) + [Digit(n % 10)]
  }

  function ParseDigits(s: string): nat
    requires AllDigits(s)
  {
    if s == "" then 0
    else 10 * ParseDigits(s[..|s| - 1]) + (s[|s| - 1] as int - '0' as int)
  }

  /** `strconv.Itoa`. */
  function Itoa(i: int): string {
    if i < 0 then "-" + Decimal(-i) else Decimal(i)
  }

  /** `strconv.Atoi` on a 64-bit platform: an optional sign, then at least one digit, in range. */
  function Atoi(s: string): Option<int> {
    var signed := s != "" && (s[0] == '-' || s[0] == '+');
    var digits := if signed then s[1..] else s;
    if digits == "" || !AllDigits(digits) then None
    else
      var magnitude: int := ParseDigits(digits);
      var i := if signed && s[0] == '-' then -magnitude else magnitude;
      if -TWO_63 <= i < TWO_63 then Some(i) else None
  }

  /** `strings.ReplaceAll(s, "v", "")`. */
  function DropV(s: string): string {
    if s == "" then "" else (if s[0] == 'v' then "" else [s[0]]) + DropV(s[1..])
  }

  // ---------- pkg/pkgrev/util.go ----------

  function GetRevisionNumber(revision: string): (n: nat)
    ensures n < TWO_64
  {
    if HasPrefix(revision, "v") then
      match Atoi(DropV(revision))
      case None => 0
      case Some(rev) => ToUint64(rev)
    else 0
  }

  /** The number printed into the next revision: `int(nbr) + 1`, wrapping. */
  function Successor(n: nat): (next: int)
    requires n < TWO_64
    ensures -TWO_63 <= next < TWO_63
    ensures ToUint64(next) == (n + 1) % TWO_64
    ensures next == n + 1 <==> n < TWO_63 - 1
    ensures next >= 0 <==> n < TWO_63 - 1 || n == TWO_64 - 1
  {
    ToInt64(ToInt64(n) + 1)
  }

  function GetNewRevision(revision: string): string {
    "v" + Itoa(Successor(GetRevisionNumber(revision)))
  }

  // ---------- round trips ----------

  lemma {:induction false} DecimalParses(n: nat)
    ensures Decimal(n) != "" && AllDigits(Decimal(n)) && ParseDigits(Decimal(n)) == n
  {
    if n >= 10 {
      DecimalParses(n / 10);
      var s := Decimal(n);
      assert s[..|s| - 1] == Decimal(n / 10);
    }
  }

  lemma AtoiItoa(i: int)
    requires -TWO_63 <= i < TWO_63
    ensures Atoi(Itoa(i)) == Some(i)
  {
    if i < 0 {
      DecimalParses(-i);
      assert Itoa(i)[1..] == Decimal(-i);
    } else {
      DecimalParses(i);
      assert IsDigit(Itoa(i)[0]);
    }
  }

  lemma {:induction false} DropVKeeps(s: string)
    requires 'v' !in s
    ensures DropV(s) == s
  {
    if s != "" { DropVKeeps(s[1..]); }
  }

  lemma ItoaHasNoV(i: int)
    ensures 'v' !in Itoa(i)
  {
    DecimalParses(if i < 0 then -i else i);
  }

  lemma SignOf(i: int)
    ensures Itoa(i) != "" && (Itoa(i)[0] == '-' <==> i < 0)
  {
    DecimalParses(if i < 0 then -i else i);
    if i >= 0 { assert IsDigit(Itoa(i)[0]); }
  }

  /** Reading back a printed revision gives its number, wrapped to a uint64, for every int. */
  lemma NumberOfPrinted(i: int)
    requires -TWO_63 <= i < TWO_63
    ensures GetRevisionNumber("v" + Itoa(i)) == ToUint64(i)
  {
    var s := "v" + Itoa(i);
    assert s[1..] == Itoa(i);
    ItoaHasNoV(i);
    DropVKeeps(Itoa(i));
    assert DropV(s) == Itoa(i);
    AtoiItoa(i);
  }

  /** The number of the next revision is one more, modulo 2^64, whatever the revision string. */
  lemma NextNumber(revision: string)
    ensures GetRevisionNumber(GetNewRevision(revision)) == (GetRevisionNumber(revision) + 1) % TWO_64
  {
    PrintedSuccessor(GetRevisionNumber(revision));
  }

  lemma PrintedSuccessor(n: nat)
    requires n < TWO_64
    ensures GetRevisionNumber("v" + Itoa(Successor(n))) == (n + 1) % TWO_64
  {
    NumberOfPrinted(Successor(n));
  }

  /** So the next revision is really higher exactly when the current number is not the largest
      uint64, that is, unless the revision reads as -1. */
  lemma NextIsHigher(revision: string)
    ensures GetRevisionNumber(GetNewRevision(revision)) > GetRevisionNumber(revision)
            <==> GetRevisionNumber(revision) != TWO_64 - 1
  {
    NextNumber(revision);
    HigherUnlessLast(GetRevisionNumber(revision), GetRevisionNumber(GetNewRevision(revision)));
  }

  lemma HigherUnlessLast(n: nat, next: nat)
    requires n < TWO_64 && next == (n + 1) % TWO_64
    ensures next > n <==> n != TWO_64 - 1
  {
  }

  /** The next revision is written `v` and the decimal successor exactly below 2^63 - 1. Above, it
      is a negative numeral, except that the largest uint64 starts again from `v0`. */
  lemma NextIsCanonical(revision: string)
    ensures GetNewRevision(revision) == "v" + Decimal(GetRevisionNumber(revision) + 1)
            <==> GetRevisionNumber(revision) < TWO_63 - 1
    ensures GetNewRevision(revision)[1] == '-'
            <==> TWO_63 - 1 <= GetRevisionNumber(revision) < TWO_64 - 1
  {
    CanonicalSuccessor(GetRevisionNumber(revision));
  }

  lemma CanonicalSuccessor(n: nat)
    requires n < TWO_64
    ensures "v" + Itoa(Successor(n)) == "v" + Decimal(n + 1) <==> n < TWO_63 - 1
    ensures ("v" + Itoa(Successor(n)))[1] == '-' <==> TWO_63 - 1 <= n < TWO_64 - 1
  {
    var next := Successor(n);
    SignOf(next);
    SignOf(n + 1);
    assert ("v" + Itoa(next))[1..] == Itoa(next);
    assert ("v" + Decimal(n + 1))[1..] == Itoa(n + 1);
    if Itoa(next) == Itoa(n + 1) {
      DecimalParses(next);
      DecimalParses(n + 1);
    }
  }

  // ---------- the printed form ----------

  /** Digits as they are printed: no zero in front of others. */
  predicate PlainDigits(s: string) {
    s != "" && AllDigits(s) && (|s| > 1 ==> s[0] != '0')
  }

  /** A numeral without leading zeros, plus sign or negative zero. */
  predicate PlainNumeral(s: string) {
    if s != "" && s[0] == '-' then PlainDigits(s[1..]) && s[1] != '0' else PlainDigits(s)
  }

  lemma {:induction false} ParsesPositive(s: string)
    requires s != "" && AllDigits(s) && s[0] != '0'
    ensures ParseDigits(s) > 0
  {
    if |s| > 1 { ParsesPositive(s[..|s| - 1]); }
  }

  /** Printing undoes parsing of plain digits. */
  lemma {:induction false} PlainDigitsPrint(s: string)
    requires PlainDigits(s)
    ensures Decimal(ParseDigits(s)) == s
  {
    var front, last := s[..|s| - 1], s[|s| - 1];
    assert s == front + [last];
    if |s| > 1 {
      PlainDigitsPrint(front);
      ParsesPositive(front);
    }
  }

  /** A number of more than one digit is not printed with a zero in front. */
  lemma {:induction false} DecimalIsPlain(n: nat)
    ensures PlainDigits(Decimal(n)) && (Decimal(n)[0] == '0' <==> n == 0)
  {
    DecimalParses(n);
    if n >= 10 { DecimalIsPlain(n / 10); }
  }

  /** Printing undoes parsing exactly on plain numerals: every number has one of them. */
  lemma ItoaAtoiIff(s: string)
    requires Atoi(s).Some?
    ensures Itoa(Atoi(s).value) == s <==> PlainNumeral(s)
  {
    var i := Atoi(s).value;
    if PlainNumeral(s) {
      var digits := if s[0] == '-' then s[1..] else s;
      PlainDigitsPrint(digits);
      if s[0] == '-' {
        ParsesPositive(digits);
        assert s == "-" + digits;
      }
    }
    ItoaIsPlain(i);
  }

  lemma ItoaIsPlain(i: int)
    ensures PlainNumeral(Itoa(i))
  {
    if i < 0 {
      DecimalIsPlain(-i);
      assert Itoa(i)[1..] == Decimal(-i);
    } else {
      DecimalIsPlain(i);
    }
  }

  lemma SmallNumber(i: int, next: nat)
    requires -TWO_63 <= i < TWO_63 && 0 < next < TWO_63
    ensures ToUint64(i) == next <==> i == next
  {
  }

  /** Below 2^63 - 1 the next revision is the one plain numeral after a `v` that has the next number. */
  lemma NextIsThePlainOne(revision: string, s: string)
    requires GetRevisionNumber(revision) < TWO_63 - 1 && PlainNumeral(s)
    ensures "v" + s == GetNewRevision(revision) <==> GetRevisionNumber("v" + s) == GetRevisionNumber(revision) + 1
  {
    PlainOne(GetRevisionNumber(revision) + 1, s);
    assert Successor(GetRevisionNumber(revision)) == GetRevisionNumber(revision) + 1;
  }

  lemma PlainOne(next: nat, s: string)
    requires 0 < next < TWO_63 && PlainNumeral(s)
    ensures "v" + s == "v" + Itoa(next) <==> GetRevisionNumber("v" + s) == next
  {
    assert 'v' !in s;
    NumberOfSpelling(s);
    AtoiItoa(next);
    assert ("v" + s)[1..] == s && ("v" + Itoa(next))[1..] == Itoa(next);
    if Atoi(s).Some? {
      ItoaAtoiIff(s);
      SmallNumber(Atoi(s).value, next);
    }
  }

  /** And there is one: the next revision is a `v` and a plain numeral, for every string. */
  lemma NextIsPlain(revision: string)
    ensures GetNewRevision(revision) != "" && GetNewRevision(revision)[0] == 'v'
    ensures PlainNumeral(GetNewRevision(revision)[1..])
  {
    var next := Successor(GetRevisionNumber(revision));
    ItoaIsPlain(next);
    assert ("v" + Itoa(next))[1..] == Itoa(next);
  }

  lemma NumberOfDigit(c: char)
    requires IsDigit(c)
    ensures GetRevisionNumber(['v', c]) == c as int - '0' as int
  {
    var d := c as int - '0' as int;
    assert Itoa(d) == [c];
    NumberOfPrinted(d);
    assert "v" + [c] == ['v', c];
  }

  /** One digit counts up, so that `v1` is followed by `v2`; and `v9` is followed by `v10`. */
  lemma NextOfDigit(c: char)
    requires IsDigit(c)
    ensures GetNewRevision(['v', c]) == if c == '9' then "v10" else ['v', c + 1 as char]
  {
    NumberOfDigit(c);
    NextIsCanonical(['v', c]);
    DecimalAfter(c);
  }

  lemma DecimalAfter(c: char)
    requires IsDigit(c)
    ensures Decimal(c as int - '0' as int + 1) == if c == '9' then "10" else [c + 1 as char]
  {
    if c == '9' {
      DecimalOfTwo(1, 0);
    } else {
      assert Digit(c as int - '0' as int + 1) == c + 1 as char;
    }
  }

  lemma DecimalOfTwo(tens: nat, ones: nat)
    requires 0 < tens < 10 && ones < 10
    ensures Decimal(10 * tens + ones) == [Digit(tens), Digit(ones)]
  {
    var n := 10 * tens + ones;
    assert n / 10 == tens && n % 10 == ones;
    assert Decimal(tens) == [Digit(tens)];
  }

  // ---------- other spellings ----------

  lemma {:induction false} DropVAppend(a: string, b: string)
    ensures DropV(a + b) == DropV(a) + DropV(b)
  {
    if a == "" {
      assert a + b == b;
    } else {
      assert (a + b)[0] == a[0] && (a + b)[1..] == a[1..] + b;
      DropVAppend(a[1..], b);
    }
  }

  /** Every `v` in a revision counts for nothing, wherever it stands. */
  lemma InnerVIsIgnored(a: string, b: string)
    ensures GetRevisionNumber("v" + a + "v" + b) == GetRevisionNumber("v" + a + b)
  {
    var v := "v";
    assert v[1..] == "" && DropV(v) == "";
    DropVAppend(v + a + v, b);
    DropVAppend(v + a, v);
    DropVAppend(v + a, b);
    assert (v + a + v + b)[0] == 'v' && (v + a + b)[0] == 'v';
    assert DropV(v + a) + DropV(v) == DropV(v + a);
  }

  lemma {:induction false} ZeroInFront(digits: string)
    requires AllDigits(digits)
    ensures AllDigits("0" + digits) && ParseDigits("0" + digits) == ParseDigits(digits)
  {
    var s := "0" + digits;
    if digits == "" {
      assert s == "0" && s[..0] == "";
    } else {
      ZeroInFront(digits[..|digits| - 1]);
      assert s[..|s| - 1] == "0" + digits[..|digits| - 1];
    }
  }

  /** Nor do zeros in front and a plus sign: revisions that are spelled differently can share a number. */
  lemma OtherSpellings(digits: string)
    requires digits != "" && AllDigits(digits)
    ensures Atoi("0" + digits) == Atoi(digits) && Atoi("+" + digits) == Atoi(digits)
    ensures GetRevisionNumber("v" + ("0" + digits)) == GetRevisionNumber("v" + digits)
    ensures GetRevisionNumber("v" + ("+" + digits)) == GetRevisionNumber("v" + digits)
  {
    ZeroInFront(digits);
    assert ("+" + digits)[1..] == digits && ("0" + digits)[0] == '0';
    assert IsDigit(digits[0]);
    NumberOfSpelling(digits);
    NumberOfSpelling("0" + digits);
    NumberOfSpelling("+" + digits);
  }

  lemma NumberOfSpelling(s: string)
    requires 'v' !in s
    ensures GetRevisionNumber("v" + s) == if Atoi(s).Some? then ToUint64(Atoi(s).value) else 0
  {
    assert ("v" + s)[1..] == s;
    DropVKeeps(s);
    assert DropV("v" + s) == s;
  }

  /** The first revision. */
  lemma FirstNumber()
    ensures GetRevisionNumber("v1") == 1
  {
    assert Itoa(1) == "1";
    NumberOfPrinted(1);
    assert "v" + "1" == "v1";
  }

  /** A revision without the prefix, such as `main`, reads as zero; `v-1` reads as the largest
      uint64 and is followed by `v0`. */
  lemma UnreadableRevisions()
    ensures GetRevisionNumber("main") == 0
    ensures GetRevisionNumber("v-1") == TWO_64 - 1
    ensures GetNewRevision("v-1") == "v0"
  {
    assert Itoa(-1) == "-1";
    NumberOfPrinted(-1);
    assert "v" + "-1" == "v-1";
    assert Successor(TWO_64 - 1) == 0;
  }
}
