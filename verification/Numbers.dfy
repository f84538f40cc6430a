/** Printing and parsing numbers: `printnum` (lib/printfmt.c) and `strtol` (lib/string.c).
    `long` has 32 bits and wraps around. */
module Numbers {

  const DIGITS: string := "0123456789abcdef"
  const NUL: char := '\0'

  function Quot(n: nat, base: nat): (q: nat)
    requires base >= 2
    ensures q <= n && (n > 0 ==> q < n)
  {
    QuotLess(n, base);
    n / base
  }

  lemma QuotLess(n: nat, base: nat)
    requires base >= 2
    ensures n / base <= n && (n > 0 ==> n / base < n)
  {
  }

  function Last(n: nat, base: nat): (d: nat)
    requires base >= 2
    ensures d < base && n == Quot(n, base) * base + d && (n < base ==> d == n)
  {
    n % base
  }

  /** The digits of `n`, most significant first */
  function Numeral(n: nat, base: nat): (s: string)
    requires 2 <= base <= 16
    ensures |s| >= 1
  {
    if n >= base then Numeral(Quot(n, base), base) + [DIGITS[Last(n, base)]] else [DIGITS[n]]
  }

  function Pad(n: int, c: char): string {
    if n <= 0 then "" else Pad(n - 1, c) + [c]
  }

  lemma {:induction false} PadFacts(n: int, c: char)
    ensures |Pad(n, c)| == (if n <= 0 then 0 else n) && forall i :: 0 <= i < |Pad(n, c)| ==> Pad(n, c)[i] == c
  {
    if n > 0 { PadFacts(n - 1, c); }
  }

  /** What `printnum` writes: the numeral, padded on the left to `width` */
  function Printed(n: nat, base: nat, width: int, c: char): string
    requires 2 <= base <= 16
  {
    Pad(width - |Numeral(n, base)|, c) + Numeral(n, base)
  }

  lemma PrintedStep(n: nat, base: nat, width: int, c: char)
    requires 2 <= base <= 16
    ensures n >= base ==>
              Printed(n, base, width, c) == Printed(Quot(n, base), base, width - 1, c) + [DIGITS[Last(n, base)]]
    ensures n < base ==> Printed(n, base, width, c) == Pad(width - 1, c) + [DIGITS[Last(n, base)]]
  {
  }

  class Console {
    /** everything `putch` was given */
    var out: string

    /** `printnum`: the recursion pads before the first digit. */
    method Printnum(n: nat, base: nat, width: int, c: char)
      requires 2 <= base <= 16
      modifies this
      ensures out == old(out) + Printed(n, base, width, c)
      decreases n
    {
      PrintedStep(n, base, width, c);
      if n >= base {
        Printnum(Quot(n, base), base, width - 1, c);
      } else {
        PutPad(width, c);
      }
      out := out + [DIGITS[Last(n, base)]];
      assert out == old(out) + Printed(n, base, width, c);
    }

    method PutPad(width: int, c: char)
      modifies this
      ensures out == old(out) + Pad(width - 1, c)
    {
      var w := width - 1;
      while w > 0
        invariant w <= width - 1 && (if width >= 1 then 0 <= w else w == width - 1)
        invariant out == old(out) + Pad(width - 1 - w, c)
      {
        out := out + [c];
        w := w - 1;
      }
      assert width < 1 ==> Pad(width - 1, c) == "";
    }
  }

  lemma PrintedLength(n: nat, base: nat, width: int, c: char)
    requires 2 <= base <= 16
    ensures |Printed(n, base, width, c)| == if width > |Numeral(n, base)| then width else |Numeral(n, base)|
    ensures var s, k := Printed(n, base, width, c), |Printed(n, base, width, c)| - |Numeral(n, base)|;
            s[k..] == Numeral(n, base) && forall i :: 0 <= i < k ==> s[i] == c
  {
    PadFacts(width - |Numeral(n, base)|, c);
  }

  // ----- parsing

  /** The value of a digit, or 36 */
  function Digit(c: char): nat {
    if '0' <= c <= '9' then c as nat - '0' as nat
    else if 'a' <= c <= 'z' then c as nat - 'a' as nat + 10
    else if 'A' <= c <= 'Z' then c as nat - 'A' as nat + 10
    else 36
  }

  predicate IsDigit(c: char, base: nat) {
    Digit(c) < 36 && Digit(c) < base
  }

  function At(s: string, i: nat): char {
    if i < |s| then s[i] else NUL
  }

  /** Two's complement, 32 bits */
  function Signed(x: int): int {
    (x + 0x8000_0000) % 0x1_0000_0000 - 0x8000_0000
  }

  /** The value of `s[i..j]` in `base` */
  function Value(s: string, base: nat): nat {
    if s == "" then 0 else Value(s[..|s| - 1], base) * base + Digit(s[|s| - 1])
  }

  ghost predicate AllDigits(s: string, base: nat) {
    forall i :: 0 <= i < |s| ==> IsDigit(s[i], base)
  }

  function SkipBlank(s: string, i: nat): (j: nat)
    requires i <= |s|
    ensures i <= j <= |s| && (j < |s| ==> s[j] != ' ' && s[j] != '\t')
    ensures forall x :: i <= x < j ==> s[x] == ' ' || s[x] == '\t'
    decreases |s| - i
  {
    if i < |s| && (s[i] == ' ' || s[i] == '\t') then SkipBlank(s, i + 1) else i
  }

  function DigitsEnd(s: string, i: nat, base: nat): (j: nat)
    requires i <= |s|
    ensures i <= j <= |s| && (j < |s| ==> !IsDigit(s[j], base))
    ensures forall x :: i <= x < j ==> IsDigit(s[x], base)
    decreases |s| - i
  {
    if i < |s| && IsDigit(s[i], base) then DigitsEnd(s, i + 1, base) else i
  }

  /** The length of an optional sign, and of a "0x" or "0" prefix with the base it selects */
  function SignEnd(s: string, i: nat): (j: nat)
    requires i <= |s|
    ensures i <= j <= |s|
  {
    if At(s, i) == '+' || At(s, i) == '-' then i + 1 else i
  }

  function Prefix(s: string, i: nat, base: nat): (r: (nat, nat))
    requires i <= |s|
    ensures i <= r.0 <= |s|
  {
    if (base == 0 || base == 16) && At(s, i) == '0' && At(s, i + 1) == 'x' then (i + 2, 16)
    else if base == 0 && At(s, i) == '0' then (i + 1, 8)
    else if base == 0 then (i, 10)
    else (i, base)
  }

  /** What `strtol` returns, and how far it reads */
  function Parsed(s: string, base: nat): (r: (int, nat))
    ensures r.1 <= |s|
  {
    var i := SkipBlank(s, 0);
    var j := SignEnd(s, i);
    var p := Prefix(s, j, base);
    var e := DigitsEnd(s, p.0, p.1);
    var v := Signed(Value(s[p.0..e], p.1));
    (if At(s, i) == '-' then Signed(-v) else v, e)
  }

  lemma SignedShift(x: int, k: int)
    ensures Signed(x + 0x1_0000_0000 * k) == Signed(x)
  {
  }

  /** Wrapping at every step is wrapping once. */
  lemma SignedStep(x: int, base: nat, d: int)
    ensures Signed(Signed(x) * base + d) == Signed(x * base + d)
  {
    var k := (x + 0x8000_0000) / 0x1_0000_0000;
    assert x == Signed(x) + 0x1_0000_0000 * k;
    assert x * base + d == (Signed(x) * base + d) + 0x1_0000_0000 * (k * base) by {
      assert (Signed(x) + 0x1_0000_0000 * k) * base == Signed(x) * base + 0x1_0000_0000 * (k * base);
    }
    SignedShift(Signed(x) * base + d, k * base);
  }

  /** The white space that `strtol` skips */
  method Blanks(s: string) returns (i: nat)
    ensures i == SkipBlank(s, 0)
  {
    i := 0;
    while At(s, i) == ' ' || At(s, i) == '\t'
      invariant i <= |s| && SkipBlank(s, i) == SkipBlank(s, 0)
      decreases |s| - i
    {
      i := i + 1;
    }
  }

  /** The base prefix that `strtol` accepts */
  method ReadPrefix(s: string, j: nat, base: nat) returns (i: nat, b: nat)
    requires j <= |s|
    ensures (i, b) == Prefix(s, j, base)
  {
    i, b := j, base;
    if (base == 0 || base == 16) && At(s, i) == '0' && At(s, i + 1) == 'x' {
      i, b := i + 2, 16;
    } else if base == 0 && At(s, i) == '0' {
      i, b := i + 1, 8;
    } else if base == 0 {
      b := 10;
    }
  }

  lemma StrtolReads(s: string, base: nat)
    ensures exists p :: Reads(p, s, base, Parsed(s, base).0, Parsed(s, base).1)
  {
    PartsGrammar(s, base);
    ParsedIsNumber(s, base);
    assert Reads(PartsOf(s, base), s, base, Parsed(s, base).0, Parsed(s, base).1);
  }

  /** `strtol` */
  method Strtol(s: string, base: nat) returns (r: int, end: nat)
    ensures (r, end) == Parsed(s, base)
    ensures exists p :: Reads(p, s, base, r, end)
  {
    var i := Blanks(s);
    var neg := false;
    var j := i;
    if At(s, i) == '+' {
      j := i + 1;
    } else if At(s, i) == '-' {
      j, neg := i + 1, true;
    }
    var k, b := ReadPrefix(s, j, base);
    r, end := ReadDigits(s, k, b);
    if neg {
      r := Signed(-r);
    }
    assert (r, end) == Parsed(s, base);
    StrtolReads(s, base);
  }

  lemma ValueStep(s: string, i: nat, end: nat, base: nat)
    requires i <= end < |s|
    ensures Signed(Value(s[i..end + 1], base)) == Signed(Signed(Value(s[i..end], base)) * base + Digit(s[end]))
  {
    var t := s[i..end + 1];
    assert t[..|t| - 1] == s[i..end] && t[|t| - 1] == s[end];
    SignedStep(Value(s[i..end], base), base, Digit(s[end]));
  }

  /** The digit loop of `strtol` */
  method ReadDigits(s: string, i: nat, base: nat) returns (val: int, end: nat)
    requires i <= |s|
    ensures end == DigitsEnd(s, i, base) && val == Signed(Value(s[i..end], base))
  {
    val, end := 0, i;
    assert s[i..i] == "";
    while true
      invariant i <= end <= |s| && DigitsEnd(s, end, base) == DigitsEnd(s, i, base)
      invariant val == Signed(Value(s[i..end], base))
      decreases |s| - end
    {
      if !IsDigit(At(s, end), base) {
        break;
      }
      var dig := Digit(At(s, end));
      ValueStep(s, i, end, base);
      val := Signed(val * base + dig);
      end := end + 1;
    }
  }

  // ----- what strtol accepts

  /** A string as `strtol` takes it apart; `base` is the base that it settles on. */
  datatype Parts = Parts(blank: string, sign: string, prefix: string, base: nat, digits: string, rest: string)

  function Whole(p: Parts): string {
    p.blank + p.sign + p.prefix + p.digits + p.rest
  }

  /** The prefix of a number and the base: "0x" counts in base 16 and when the base is left open; then also
      "0", for base 8, and without either the base is ten. */
  function Chosen(number: string, base: nat): (string, nat) {
    var zero := |number| > 0 && number[0] == '0';
    var hex := zero && |number| > 1 && number[1] == 'x';
    match base
    case 0 => if hex then ("0x", 16) else if zero then ("0", 8) else ("", 10)
    case 16 => (if hex then "0x" else "", 16)
    case _ => ("", base)
  }

  /** Blanks, a sign, a prefix and digits, each as long as can be */
  ghost predicate Grammar(p: Parts, base: nat) {
    var number := p.prefix + p.digits + p.rest;
    && (forall c :: c in p.blank ==> c in " \t")
    && p.sign in ["", "+", "-"]
    && (p.sign == "" && number != "" ==> number[0] !in " \t+-")
    && (p.prefix, p.base) == Chosen(number, base)
    && AllDigits(p.digits, p.base)
    && (p.rest != "" ==> !IsDigit(p.rest[0], p.base))
  }

  /** The number that the parts stand for */
  function Number(p: Parts): int {
    var n: int := Value(p.digits, p.base);
    if p.sign == "-" then -n else n
  }

  /** The digits are 0 to 9 and the letters of either case. */
  lemma DecimalDigit(i: nat)
    requires i < 10
    ensures Digit("0123456789"[i]) == i
  {
  }

  lemma LetterDigit(c: char)
    ensures Digit('a') == Digit('A') == 10 && Digit('z') == Digit('Z') == 35
    ensures 'a' <= c < 'z' || 'A' <= c < 'Z' ==> Digit((c as int + 1) as char) == Digit(c) + 1
  {
  }

  lemma OtherDigit(c: char, base: nat)
    requires !('0' <= c <= '9' || 'a' <= c <= 'z' || 'A' <= c <= 'Z')
    ensures !IsDigit(c, base)
  {
  }

  /** `s` consists of the parts `p`; `r` is their number modulo 2^32, as a signed value, and `end` is behind
      the digits. */
  ghost predicate Reads(p: Parts, s: string, base: nat, r: int, end: int) {
    Whole(p) == s && Grammar(p, base) && r == Signed(Number(p)) && end == |s| - |p.rest|
  }

  function PartsOf(s: string, base: nat): Parts {
    var i := SkipBlank(s, 0);
    var j := SignEnd(s, i);
    var p := Prefix(s, j, base);
    var e := DigitsEnd(s, p.0, p.1);
    Parts(s[..i], s[i..j], s[j..p.0], p.1, s[p.0..e], s[e..])
  }

  lemma PrefixIs(s: string, j: nat, base: nat)
    requires j <= |s|
    ensures var (k, b) := Prefix(s, j, base); (s[j..k], b) == Chosen(s[j..], base)
  {
    var (k, b) := Prefix(s, j, base);
    assert k == j ==> s[j..k] == "";
    assert k == j + 1 ==> s[j..k] == [s[j]];
    assert k == j + 2 ==> s[j..k] == [s[j], s[j + 1]];
  }

  lemma Glue(s: string, i: nat, j: nat, k: nat)
    requires i <= j <= k <= |s|
    ensures s[i..j] + s[j..k] == s[i..k]
  {
  }

  lemma PartsWhole(s: string, base: nat)
    ensures Whole(PartsOf(s, base)) == s
    ensures var p := PartsOf(s, base); p.prefix + p.digits + p.rest == s[SignEnd(s, SkipBlank(s, 0))..]
  {
    var i := SkipBlank(s, 0);
    var j := SignEnd(s, i);
    var p := Prefix(s, j, base);
    var e := DigitsEnd(s, p.0, p.1);
    Glue(s, 0, i, j);
    Glue(s, 0, j, p.0);
    Glue(s, 0, p.0, e);
    Glue(s, 0, e, |s|);
    Glue(s, j, p.0, e);
    Glue(s, j, e, |s|);
    assert s[0..i] == s[..i] && s[0..|s|] == s && s[e..|s|] == s[e..] && s[j..|s|] == s[j..];
  }

  lemma SignIs(s: string, i: nat)
    requires i <= |s|
    ensures s[i..SignEnd(s, i)] in ["", "+", "-"]
    ensures s[i..SignEnd(s, i)] == "" ==> SignEnd(s, i) == i && (i < |s| ==> s[i] !in "+-")
    ensures At(s, i) == '-' <==> s[i..SignEnd(s, i)] == "-"
  {
    assert i < |s| ==> s[i..i + 1] == [s[i]];
    assert s[i..i] == "";
  }

  lemma PartsGrammar(s: string, base: nat)
    ensures Whole(PartsOf(s, base)) == s && Grammar(PartsOf(s, base), base)
  {
    PartsWhole(s, base);
    var i := SkipBlank(s, 0);
    SignIs(s, i);
    PrefixIs(s, SignEnd(s, i), base);
  }

  lemma SignedNegative(x: int)
    ensures Signed(-Signed(x)) == Signed(-x)
  {
    var k := (x + 0x8000_0000) / 0x1_0000_0000;
    assert x == Signed(x) + 0x1_0000_0000 * k;
    SignedShift(-x, k);
  }

  /** `strtol` returns the number that the parts of its argument stand for, modulo 2^32 as a signed value, and
      stops behind the digits. */
  lemma ParsedIsNumber(s: string, base: nat)
    ensures var p := PartsOf(s, base); Parsed(s, base) == (Signed(Number(p)), |s| - |p.rest|)
  {
    var p := PartsOf(s, base);
    SignIs(s, SkipBlank(s, 0));
    SignedNegative(Value(p.digits, p.base));
  }

  lemma {:induction false} SkipBlankIs(s: string, i: nat, k: nat)
    requires i <= k <= |s| && (forall x :: i <= x < k ==> s[x] in " \t") && (k < |s| ==> s[k] !in " \t")
    ensures SkipBlank(s, i) == k
    decreases k - i
  {
  }

  lemma {:induction false} DigitsEndIs(s: string, i: nat, k: nat, base: nat)
    requires i <= k <= |s| && (forall x :: i <= x < k ==> IsDigit(s[x], base)) && (k < |s| ==> !IsDigit(s[k], base))
    ensures DigitsEnd(s, i, base) == k
    decreases k - i
  {
  }

  lemma CutAt(a: string, b: string, c: string)
    ensures (a + b + c)[..|a|] == a && (a + b + c)[|a|..|a + b|] == b && (a + b + c)[|a + b|..] == c
  {
  }

  lemma WholeByNumber(p: Parts)
    ensures Whole(p) == p.blank + p.sign + (p.prefix + p.digits + p.rest)
  {
  }

  lemma WholeByBlank(p: Parts)
    ensures Whole(p) == p.blank + (p.sign + (p.prefix + p.digits + p.rest))
  {
  }

  lemma PrefixLength(s: string, j: nat, base: nat)
    requires j <= |s|
    ensures Prefix(s, j, base).0 == j + |Chosen(s[j..], base).0|
  {
    PrefixIs(s, j, base);
  }

  lemma SignOf(p: Parts, s: string)
    requires p.sign in ["", "+", "-"] && s == Whole(p)
    requires var number := p.prefix + p.digits + p.rest; p.sign == "" && number != "" ==> number[0] !in " \t+-"
    ensures SignEnd(s, |p.blank|) == |p.blank| + |p.sign|
  {
    var number := p.prefix + p.digits + p.rest;
    assert s == p.blank + p.sign + number;
    assert p.sign != "" ==> s[|p.blank|] == p.sign[0];
    assert p.sign == "" && number != "" ==> s[|p.blank|] == number[0];
  }

  lemma SkipBlankOf(a: string, b: string)
    requires (forall c :: c in a ==> c in " \t") && (b != "" ==> b[0] !in " \t")
    ensures SkipBlank(a + b, 0) == |a|
  {
    var s := a + b;
    forall x | 0 <= x < |a| ensures s[x] in " \t" { assert s[x] == a[x] && a[x] in a; }
    assert b != "" ==> s[|a|] == b[0];
    SkipBlankIs(s, 0, |a|);
  }

  lemma DigitsOf(a: string, b: string, c: string, base: nat)
    requires AllDigits(b, base) && (c != "" ==> !IsDigit(c[0], base))
    ensures DigitsEnd(a + b + c, |a|, base) == |a + b|
  {
    var s := a + b + c;
    forall x | |a| <= x < |a + b| ensures IsDigit(s[x], base) { assert s[x] == b[x - |a|]; }
    assert c != "" ==> s[|a + b|] == c[0];
    DigitsEndIs(s, |a|, |a + b|, base);
  }

  /** Where each part of `p` begins */
  ghost predicate Placed(s: string, p: Parts, i: nat, j: nat, k: nat, e: nat) {
    && i <= j <= k <= e <= |s| && s[..i] == p.blank && s[i..j] == p.sign && s[j..k] == p.prefix
    && s[k..e] == p.digits && s[e..] == p.rest
  }

  lemma WholePlaced(p: Parts)
    ensures var i, j := |p.blank|, |p.blank + p.sign|;
            var k := |p.blank + p.sign + p.prefix|;
            Placed(Whole(p), p, i, j, k, k + |p.digits|) && Whole(p)[j..] == p.prefix + p.digits + p.rest
  {
    var front := p.blank + p.sign;
    CutAt(front + p.prefix, p.digits, p.rest);
    WholeByNumber(p);
    CutAt(p.blank, p.sign, p.prefix + p.digits + p.rest);
    CutAt(p.prefix, p.digits, p.rest);
    var s, j, k := Whole(p), |front|, |front| + |p.prefix|;
    assert s[j..k] == s[j..][..|p.prefix|] == (p.prefix + p.digits + p.rest)[..|p.prefix|];
  }

  lemma FrontOf(p: Parts, base: nat)
    requires Grammar(p, base)
    ensures SkipBlank(Whole(p), 0) == |p.blank| && SignEnd(Whole(p), |p.blank|) == |p.blank + p.sign|
  {
    WholeByBlank(p);
    SkipBlankOf(p.blank, p.sign + (p.prefix + p.digits + p.rest));
    SignOf(p, Whole(p));
  }

  lemma PrefixOf(p: Parts, base: nat)
    requires Grammar(p, base)
    ensures Prefix(Whole(p), |p.blank + p.sign|, base) == (|p.blank + p.sign + p.prefix|, p.base)
  {
    WholePlaced(p);
    PrefixIs(Whole(p), |p.blank + p.sign|, base);
    PrefixLength(Whole(p), |p.blank + p.sign|, base);
  }

  /** A string can be taken apart in one way only. */
  lemma PartsUnique(p: Parts, base: nat)
    requires Grammar(p, base)
    ensures PartsOf(Whole(p), base) == p
  {
    WholePlaced(p);
    FrontOf(p, base);
    PrefixOf(p, base);
    DigitsOf(p.blank + p.sign + p.prefix, p.digits, p.rest, p.base);
  }

  // ----- there and back

  lemma DigitOf(d: nat)
    requires d < 16
    ensures Digit(DIGITS[d]) == d && DIGITS[d] != ' ' && DIGITS[d] != '\t' && DIGITS[d] != '+' && DIGITS[d] != '-'
    ensures DIGITS[d] != 'x'
  {
  }

  /** Reading a numeral gives the number back. */
  lemma {:induction false} NumeralValue(n: nat, base: nat)
    requires 2 <= base <= 16
    ensures Value(Numeral(n, base), base) == n && AllDigits(Numeral(n, base), base)
    ensures forall c :: c in Numeral(n, base) ==> '0' <= c <= '9' || 'a' <= c <= 'f'
    ensures Numeral(n, base)[0] == '0' <==> n == 0
    ensures n < base ==> |Numeral(n, base)| == 1
  {
    DigitOf(Last(n, base));
    var s := Numeral(n, base);
    if n >= base {
      NumeralValue(Quot(n, base), base);
      assert s[..|s| - 1] == Numeral(Quot(n, base), base);
    } else {
      assert s[..|s| - 1] == "";
    }
  }

  lemma {:induction false} ZerosBefore(s: string, n: int, base: nat)
    requires AllDigits(s, base) && base >= 2
    ensures Value(Pad(n, '0') + s, base) == Value(s, base) && AllDigits(Pad(n, '0') + s, base)
    decreases |s|, n
  {
    PadFacts(n, '0');
    var t := Pad(n, '0') + s;
    if s == "" {
      assert t == Pad(n, '0');
      if n > 0 {
        ZerosBefore(s, n - 1, base);
        assert t[..|t| - 1] == Pad(n - 1, '0') + s;
      }
    } else {
      ZerosBefore(s[..|s| - 1], n, base);
      assert t[..|t| - 1] == Pad(n, '0') + s[..|s| - 1];
    }
  }

  lemma {:induction false} BlanksSkipped(s: string, i: nat, k: nat)
    requires i <= k < |s| && (forall x :: i <= x < k ==> s[x] == ' ') && s[k] != ' ' && s[k] != '\t'
    ensures SkipBlank(s, i) == k
    decreases k - i
  {
  }

  lemma {:induction false} DigitsToEnd(s: string, i: nat, base: nat)
    requires i <= |s| && AllDigits(s[i..], base)
    ensures DigitsEnd(s, i, base) == |s|
    decreases |s| - i
  {
  }

  /** A string of digits after blanks is read as its value, to the end. */
  lemma DigitsParsed(s: string, k: nat, base: nat)
    requires k < |s| && (forall x :: 0 <= x < k ==> s[x] == ' ') && 2 <= base <= 16 && AllDigits(s[k..], base)
    ensures Parsed(s, base) == (Signed(Value(s[k..], base)), |s|)
  {
    assert s[k..][0] == s[k];
    BlanksSkipped(s, 0, k);
    assert k + 1 < |s| ==> s[k..][1] == s[k + 1];
    DigitsToEnd(s, k, base);
    assert s[k..|s|] == s[k..];
  }

  lemma SignedExact(n: int)
    ensures -0x8000_0000 <= Signed(n) < 0x8000_0000 && (n - Signed(n)) % 0x1_0000_0000 == 0
    ensures Signed(n) == n <==> -0x8000_0000 <= n < 0x8000_0000
  {
  }

  lemma PaddedParsed(d: string, k: int, c: char, base: nat)
    requires d != "" && AllDigits(d, base) && 2 <= base <= 16 && (c == ' ' || c == '0')
    ensures Parsed(Pad(k, c) + d, base) == (Signed(Value(d, base)), |Pad(k, c) + d|)
  {
    var s := Pad(k, c) + d;
    PadFacts(k, c);
    if c == ' ' {
      assert s[|Pad(k, c)|..] == d;
      DigitsParsed(s, |Pad(k, c)|, base);
    } else {
      ZerosBefore(d, k, base);
      assert s[0..] == s;
      DigitsParsed(s, 0, base);
    }
  }

  /** `strtol` on what `printnum` wrote, in the same base: it reads all of it and returns the
      number modulo 2^32 as a signed value, which is the number exactly when it fits. */
  lemma RoundTrip(n: nat, base: nat, width: int, c: char)
    requires 2 <= base <= 16 && (c == ' ' || c == '0')
    ensures var s := Printed(n, base, width, c); Parsed(s, base) == (Signed(n), |s|)
    ensures Parsed(Printed(n, base, width, c), base).0 == n <==> n < 0x8000_0000
  {
    NumeralValue(n, base);
    PaddedParsed(Numeral(n, base), width - |Numeral(n, base)|, c, base);
    SignedExact(n);
  }
}
